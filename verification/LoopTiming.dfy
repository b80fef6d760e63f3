/** When the main loop runs its periodic tasks, and how late they can be. Times are in milliseconds. */
module LoopTiming {
  import opened Wrappers

  const SECOND := 1000
  const MAX_SLEEP := 5
  const TWO_63 := 0x8000_0000_0000_0000

  type U64 = n: nat | n < 0x1_0000_0000_0000_0000

  /** Whole seconds of a time span, truncated toward zero. */
  function NumSeconds(span: int): int {
    if span >= 0 then span / SECOND else -((-span) / SECOND)
  }

  /** An unsigned number read as a signed one. */
  function AsI64(n: U64): int {
    if n < TWO_63 then n else n - 2 * TWO_63
  }

  /** A task that never ran is due; otherwise its interval must have passed in whole seconds. */
  predicate Due(last: Option<int>, interval: U64, now: int) {
    last.None? || NumSeconds(now - last.value) >= AsI64(interval)
  }

  function RemainingSeconds(last: Option<int>, interval: U64, now: int): (r: nat)
    ensures r <= interval
    ensures last.Some? && r > 0 ==> now - last.value + r * SECOND < interval * SECOND + SECOND
    ensures last.Some? && r == 0 && interval > 0 ==> now - last.value >= interval * SECOND
  {
    if last.None? then 0
    else
      var elapsed := NumSeconds(now - last.value);
      var passed := if elapsed > 0 then elapsed else 0;
      if passed >= interval then 0 else interval - passed
  }

  function Clamp(n: nat): (r: nat)
    ensures 1 <= r <= MAX_SLEEP && (n > 0 ==> r <= n)
  {
    if n < 1 then 1 else if n > MAX_SLEEP then MAX_SLEEP else n
  }

  function Min(a: nat, b: nat): nat {
    if a < b then a else b
  }

  datatype Schedule = Schedule(ddns: U64, statsEnabled: bool, stats: U64, dynamicEnabled: bool, dynamic: U64,
                               quotaEnabled: bool, quota: U64)
  {
    /** What validation demands of the intervals; the stats interval may be anything, even 0. */
    predicate Valid() {
      ddns >= 10 && dynamic >= 10 && quota > 0
    }
  }

  datatype LastRuns = LastRuns(stats: Option<int>, ddns: Option<int>, dynamic: Option<int>, quota: Option<int>)

  function NextLoopSleep(s: Schedule, l: LastRuns, now: int): nat {
    var ddns := RemainingSeconds(l.ddns, s.ddns, now);
    var stats := if s.statsEnabled then RemainingSeconds(l.stats, s.stats, now) else ddns;
    Clamp(Min(ddns, stats))
  }

  /** Seconds the loop sleeps after a pass. */
  function SleepSeconds(s: Schedule, l: LastRuns, now: int): (r: nat)
    ensures 1 <= r <= MAX_SLEEP
  {
    var base := NextLoopSleep(s, l, now);
    if !s.dynamicEnabled then base else Min(base, Clamp(RemainingSeconds(l.dynamic, s.dynamic, now)))
  }

  /** One pass: the time its body takes, how much longer than asked for the loop sleeps, and, if a changed
      script was applied, how far into the body the statistics were collected once more. */
  datatype Pass = Pass(body: nat, oversleep: nat, collected: Option<nat>)
  {
    predicate WellFormed(delay: nat) {
      body + oversleep <= delay && (collected.Some? ==> collected.value <= body)
    }
  }

  /** The last runs after a pass at time now in which every task succeeds. */
  function AfterPass(s: Schedule, l: LastRuns, now: int, p: Pass): LastRuns {
    var stats := if s.statsEnabled && Due(l.stats, s.stats, now) then Some(now) else l.stats;
    var quota := if s.quotaEnabled && Due(l.quota, s.quota, now) then Some(now) else l.quota;
    var dynamicDue := s.dynamicEnabled && Due(l.dynamic, s.dynamic, now);
    var refresh := Due(l.ddns, s.ddns, now) || dynamicDue;
    LastRuns(if refresh && s.statsEnabled && p.collected.Some? then Some(now + p.collected.value) else stats,
             if refresh then Some(now) else l.ddns,
             if dynamicDue then Some(now) else l.dynamic,
             quota)
  }

  /** When the next pass starts. */
  function WakeTime(s: Schedule, l: LastRuns, now: int, p: Pass): int {
    now + p.body + SleepSeconds(s, AfterPass(s, l, now, p), now + p.body) * SECOND + p.oversleep
  }

  class Scheduler {
    var lastStatsCollect: Option<int>
    var lastDdnsRefresh: Option<int>
    var lastDynamicRefresh: Option<int>
    var lastQuotaCheck: Option<int>

    constructor ()
      ensures View() == LastRuns(None, None, None, None)
    {
      lastStatsCollect, lastDdnsRefresh, lastDynamicRefresh, lastQuotaCheck := None, None, None, None;
    }

    function View(): LastRuns
      reads this
    {
      LastRuns(lastStatsCollect, lastDdnsRefresh, lastDynamicRefresh, lastQuotaCheck)
    }

    /** The tasks of one pass, each run if it is due. */
    method RunTasks(s: Schedule, loopNow: int, p: Pass)
      modifies this
      ensures View() == AfterPass(s, old(View()), loopNow, p)
    {
      if s.statsEnabled && Due(lastStatsCollect, s.stats, loopNow) {
        lastStatsCollect := Some(loopNow);
      }
      if s.quotaEnabled && Due(lastQuotaCheck, s.quota, loopNow) {
        lastQuotaCheck := Some(loopNow);
      }
      var ddnsDue := Due(lastDdnsRefresh, s.ddns, loopNow);
      var dynamicDue := s.dynamicEnabled && Due(lastDynamicRefresh, s.dynamic, loopNow);
      if ddnsDue || dynamicDue {
        if dynamicDue {
          lastDynamicRefresh := Some(loopNow);
        }
        lastDdnsRefresh := Some(loopNow);
        if p.collected.Some? && s.statsEnabled {
          lastStatsCollect := Some(loopNow + p.collected.value);
        }
      }
    }

    method RunPass(s: Schedule, loopNow: int, p: Pass) returns (wake: int)
      modifies this
      ensures View() == AfterPass(s, old(View()), loopNow, p)
      ensures wake == WakeTime(s, old(View()), loopNow, p)
    {
      RunTasks(s, loopNow, p);
      var asked := SleepSeconds(s, View(), loopNow + p.body);
      wake := loopNow + p.body + asked * SECOND + p.oversleep;
    }
  }

  // ---------------------------------------------------------------- how late a task can be

  /** After a pass a task has either just run or is not due yet. */
  predicate Settled(last: Option<int>, interval: U64, now: int) {
    last.Some? && (now <= last.value || now - last.value < interval * SECOND)
  }

  lemma NotDueIsEarly(last: Option<int>, interval: U64, now: int)
    requires !Due(last, interval, now)
    ensures last.Some? && now - last.value < interval * SECOND
  {
  }

  lemma PassSettles(s: Schedule, l: LastRuns, now: int, p: Pass)
    ensures var after := AfterPass(s, l, now, p);
            && Settled(after.ddns, s.ddns, now)
            && (s.statsEnabled ==> Settled(after.stats, s.stats, now))
            && (s.dynamicEnabled ==> Settled(after.dynamic, s.dynamic, now))
            && (s.quotaEnabled ==> Settled(after.quota, s.quota, now))
  {
    if !Due(l.ddns, s.ddns, now) { NotDueIsEarly(l.ddns, s.ddns, now); }
    if !Due(l.stats, s.stats, now) { NotDueIsEarly(l.stats, s.stats, now); }
    if !Due(l.dynamic, s.dynamic, now) { NotDueIsEarly(l.dynamic, s.dynamic, now); }
    if !Due(l.quota, s.quota, now) { NotDueIsEarly(l.quota, s.quota, now); }
  }

  /** A task whose remaining time bounds the sleep is less than a second late, plus the delay. */
  lemma WokenInTime(last: Option<int>, interval: U64, now: int, p: Pass, delay: nat, asked: nat)
    requires Settled(last, interval, now) && p.WellFormed(delay)
    requires asked <= Clamp(RemainingSeconds(last, interval, now + p.body))
    ensures now + p.body + asked * SECOND + p.oversleep - last.value <= interval * SECOND + SECOND + delay
    ensures interval > 0 ==>
              now + p.body + asked * SECOND + p.oversleep - last.value < interval * SECOND + SECOND + delay
  {
    var remaining := RemainingSeconds(last, interval, now + p.body);
    if remaining > 0 {
      assert asked * SECOND <= remaining * SECOND;
    } else {
      assert asked <= 1;
    }
  }

  /** How long after their last runs a pass may start, if no pass is delayed by more than the given time. */
  predicate OnTime(s: Schedule, l: LastRuns, now: int, delay: nat) {
    && (l.ddns.Some? ==> now - l.ddns.value < s.ddns * SECOND + SECOND + delay)
    && (s.statsEnabled && l.stats.Some? ==>
          now - l.stats.value < s.stats * SECOND + SECOND + delay
          || (s.stats == 0 && now - l.stats.value == SECOND + delay))
    && (s.dynamicEnabled && l.dynamic.Some? ==> now - l.dynamic.value < s.dynamic * SECOND + SECOND + delay)
    && (s.quotaEnabled && l.quota.Some? ==> now - l.quota.value < s.quota * SECOND + MAX_SLEEP * SECOND + delay)
  }

  lemma NextPassOnTime(s: Schedule, l: LastRuns, now: int, p: Pass, delay: nat)
    requires s.Valid() && p.WellFormed(delay)
    ensures OnTime(s, AfterPass(s, l, now, p), WakeTime(s, l, now, p), delay)
  {
    var after := AfterPass(s, l, now, p);
    var asked := SleepSeconds(s, after, now + p.body);
    PassSettles(s, l, now, p);
    WokenInTime(after.ddns, s.ddns, now, p, delay, asked);
    if s.statsEnabled {
      WokenInTime(after.stats, s.stats, now, p, delay, asked);
    }
    if s.dynamicEnabled {
      WokenInTime(after.dynamic, s.dynamic, now, p, delay, asked);
    }
  }

  /** Start time and last runs after a number of passes. */
  function Started(s: Schedule, start: int, passes: seq<Pass>): (int, LastRuns) {
    if passes == [] then (start, LastRuns(None, None, None, None))
    else
      var (now, l) := Started(s, start, passes[..|passes| - 1]);
      var p := passes[|passes| - 1];
      (WakeTime(s, l, now, p), AfterPass(s, l, now, p))
  }

  /** Over every run with a fixed valid schedule whose tasks succeed: whenever a pass starts, each DDNS, stats or
      dynamic refresh lies at most its interval and one second back, and each quota check less than its interval
      and five seconds, plus the largest delay of a single pass. */
  lemma TasksAreOnTime(s: Schedule, start: int, passes: seq<Pass>, delay: nat)
    requires s.Valid() && forall p :: p in passes ==> p.WellFormed(delay)
    ensures var (now, l) := Started(s, start, passes); OnTime(s, l, now, delay)
  {
    if passes != [] {
      var (now, l) := Started(s, start, passes[..|passes| - 1]);
      NextPassOnTime(s, l, now, passes[|passes| - 1], delay);
    }
  }

  /** t lies a whole number of seconds from start. */
  ghost predicate WholeSeconds(start: int, t: int) {
    exists k: int :: t == start + k * SECOND
  }

  ghost predicate Aligned(last: Option<int>, start: int) {
    last.Some? ==> WholeSeconds(start, last.value)
  }

  ghost predicate AllAligned(l: LastRuns, start: int) {
    Aligned(l.ddns, start) && Aligned(l.dynamic, start) && Aligned(l.stats, start)
  }

  lemma AlignedGap(start: int, now: int, last: int, bound: int)
    requires WholeSeconds(start, now) && WholeSeconds(start, last)
    requires now - last < bound * SECOND + SECOND
    ensures now - last <= bound * SECOND
  {
    var j :| now == start + j * SECOND;
    var k :| last == start + k * SECOND;
    assert now - last == (j - k) * SECOND;
  }

  lemma SecondsLater(start: int, now: int, seconds: nat)
    requires WholeSeconds(start, now)
    ensures WholeSeconds(start, now + seconds * SECOND)
  {
    var k :| now == start + k * SECOND;
    assert now + seconds * SECOND == start + (k + seconds) * SECOND;
  }

  lemma RunsStayAligned(s: Schedule, l: LastRuns, start: int, now: int, p: Pass)
    requires AllAligned(l, start) && WholeSeconds(start, now) && p.WellFormed(0)
    ensures AllAligned(AfterPass(s, l, now, p), start)
  {
    assert p.collected.Some? ==> now + p.collected.value == now;
  }

  lemma WakeStaysAligned(s: Schedule, l: LastRuns, start: int, now: int, p: Pass, asked: nat)
    requires WholeSeconds(start, now) && p.WellFormed(0)
    requires asked == SleepSeconds(s, AfterPass(s, l, now, p), now + p.body)
    ensures WholeSeconds(start, WakeTime(s, l, now, p))
  {
    SecondsLater(start, now, asked);
    assert WakeTime(s, l, now, p) == now + asked * SECOND;
  }

  lemma {:induction false} PassesAlign(s: Schedule, start: int, passes: seq<Pass>)
    requires forall p :: p in passes ==> p.WellFormed(0)
    ensures var (now, l) := Started(s, start, passes); WholeSeconds(start, now) && AllAligned(l, start)
  {
    if passes == [] {
      assert start == start + 0 * SECOND;
    } else {
      var (now, l) := Started(s, start, passes[..|passes| - 1]);
      PassesAlign(s, start, passes[..|passes| - 1]);
      var p := passes[|passes| - 1];
      RunsStayAligned(s, l, start, now, p);
      WakeStaysAligned(s, l, start, now, p, SleepSeconds(s, AfterPass(s, l, now, p), now + p.body));
    }
  }

  /** If passes take no time and sleeps are exact, truncation costs nothing: no refresh is late at all, except that
      a stats interval of 0 cannot be kept. */
  lemma ExactWithoutDelay(s: Schedule, start: int, passes: seq<Pass>)
    requires s.Valid() && forall p :: p in passes ==> p.WellFormed(0)
    ensures var (now, l) := Started(s, start, passes);
            && (l.ddns.Some? ==> now - l.ddns.value <= s.ddns * SECOND)
            && (s.dynamicEnabled && l.dynamic.Some? ==> now - l.dynamic.value <= s.dynamic * SECOND)
            && (s.statsEnabled && s.stats > 0 && l.stats.Some? ==> now - l.stats.value <= s.stats * SECOND)
  {
    var (now, l) := Started(s, start, passes);
    TasksAreOnTime(s, start, passes, 0);
    PassesAlign(s, start, passes);
    if l.ddns.Some? {
      AlignedGap(start, now, l.ddns.value, s.ddns);
    }
    if s.dynamicEnabled && l.dynamic.Some? {
      AlignedGap(start, now, l.dynamic.value, s.dynamic);
    }
    if s.statsEnabled && s.stats > 0 && l.stats.Some? {
      AlignedGap(start, now, l.stats.value, s.stats);
    }
  }
}
