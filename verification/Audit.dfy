/** The rotating audit log: a chain of files renamed upwards, and which part of the history it keeps. */
module Audit {
  import opened Bits

  /** The bytes of one event as written, without its line end. */
  type Line = seq<Byte>

  const MEGABYTE := 1024 * 1024
  const MAX_U64 := 0xffff_ffff_ffff_ffff

  datatype AuditConfig = AuditConfig(enabled: bool, rotate: bool, maxSizeMb: nat, maxBackups: nat)
  {
    /** The size in bytes above which the log is rotated; the product saturates. */
    function Limit(): nat {
      if maxSizeMb * MEGABYTE > MAX_U64 then MAX_U64 else maxSizeMb * MEGABYTE
    }

    predicate Rotates() {
      rotate && maxSizeMb != 0
    }
  }

  /** The files by number: 0 is the log itself, n its n-th backup. */
  type Files = map<nat, seq<Line>>

  function Size(content: seq<Line>): nat {
    if content == [] then 0 else Size(content[..|content| - 1]) + |content[|content| - 1]| + 1
  }

  function Content(files: Files, n: nat): seq<Line> {
    if n in files then files[n] else []
  }

  /** Renames file n - 1 to n, replacing it, if there is a file n - 1. */
  function MovedUp(files: Files, n: nat): Files
    requires n > 0
  {
    if n - 1 in files then (files - {n - 1})[n := files[n - 1]] else files
  }

  /** The files after the moves from the oldest backup down to backup n + 1. */
  function Shifted(files: Files, backups: nat, n: nat): Files
    decreases backups - n
  {
    if n >= backups then files else MovedUp(Shifted(files, backups, n + 1), n + 1)
  }

  function Rotated(files: Files, backups: nat): Files {
    if backups == 0 then files[0 := []] else Shifted(files, backups, 0)
  }

  function MaybeRotated(config: AuditConfig, files: Files): Files {
    if config.Rotates() && 0 in files && Size(files[0]) > config.Limit() then Rotated(files, config.maxBackups)
    else files
  }

  function Appended(files: Files, line: Line): Files {
    files[0 := Content(files, 0) + [line]]
  }

  function Logged(config: AuditConfig, files: Files, line: Line): Files {
    if config.enabled then Appended(MaybeRotated(config, files), line) else files
  }

  class AuditLog {
    var files: Files

    constructor ()
      ensures files == map[]
    {
      files := map[];
    }

    method RotateNow(maxBackups: nat)
      modifies this
      ensures files == Rotated(old(files), maxBackups)
    {
      if maxBackups == 0 {
        files := files[0 := []];
        return;
      }
      for n := maxBackups downto 0
        invariant files == Shifted(old(files), maxBackups, n)
      {
        if n !in files {
          continue;
        }
        if n + 1 in files {
          files := files - {n + 1};
        }
        var from := files[n];
        files := (files - {n})[n + 1 := from];
        assert files == MovedUp(Shifted(old(files), maxBackups, n + 1), n + 1);
      }
    }

    method MaybeRotate(config: AuditConfig)
      modifies this
      ensures files == MaybeRotated(config, old(files))
    {
      if !config.rotate {
        return;
      }
      if config.maxSizeMb == 0 {
        return;
      }
      if 0 !in files {
        return;
      }
      if Size(files[0]) <= config.Limit() {
        return;
      }
      RotateNow(config.maxBackups);
    }

    method AppendLine(line: Line)
      modifies this
      ensures files == Appended(old(files), line)
    {
      if 0 !in files {
        files := files[0 := []];
      }
      files := files[0 := files[0] + [line]];
    }

    method LogEvent(config: AuditConfig, line: Line)
      modifies this
      ensures files == Logged(config, old(files), line)
    {
      if !config.enabled {
        return;
      }
      MaybeRotate(config);
      AppendLine(line);
    }
  }

  // ---------------------------------------------------------------- one rotation

  /** The moves down to backup n + 1, slot by slot. */
  lemma {:induction false} ShiftedAt(files: Files, backups: nat, n: nat, k: nat)
    requires n <= backups
    ensures var s := Shifted(files, backups, n);
            if k > backups || k < n then (k in s <==> k in files) && (k in s ==> s[k] == files[k])
            else if k == n then (k in s <==> n == backups && k in files) && (k in s ==> s[k] == files[k])
            else if k - 1 in files then k in s && s[k] == files[k - 1]
            else (k in s <==> k == backups && k in files) && (k in s ==> s[k] == files[k])
    decreases backups - n
  {
    if n < backups {
      ShiftedAt(files, backups, n + 1, k);
      ShiftedAt(files, backups, n + 1, n);
      ShiftedAt(files, backups, n + 1, n + 1);
    }
  }

  /** A rotation renames every file one number up. With as many files as backups allowed the oldest is lost;
      across a gap in the numbering files only move next to it, and backups beyond the limit stay. */
  lemma RotationMovesUp(files: Files, backups: nat, k: nat)
    requires backups > 0
    ensures var r := Rotated(files, backups);
            && 0 !in r
            && (0 < k <= backups && k - 1 in files ==> k in r && r[k] == files[k - 1])
            && (0 < k <= backups && k - 1 !in files ==> (k in r <==> k == backups && k in files))
            && (k > backups ==> (k in r <==> k in files) && (k in r ==> r[k] == files[k]))
  {
    ShiftedAt(files, backups, 0, 0);
    ShiftedAt(files, backups, 0, k);
  }

  // ---------------------------------------------------------------- whole runs

  function FilesAfter(config: AuditConfig, lines: seq<Line>): Files {
    if lines == [] then map[] else Logged(config, FilesAfter(config, lines[..|lines| - 1]), lines[|lines| - 1])
  }

  /** Backups n to 1 and then the log, in that order: oldest lines first. */
  function History(files: Files, n: nat): seq<Line> {
    Content(files, n) + if n == 0 then [] else History(files, n - 1)
  }

  function BackupBytes(files: Files, n: nat): nat {
    if n == 0 then 0 else Size(Content(files, n)) + BackupBytes(files, n - 1)
  }

  /** The numbering has no gaps and stays within the limit. */
  predicate Numbered(files: Files, backups: nat) {
    forall k :: k in files ==> k <= backups && (k > 0 ==> k - 1 in files)
  }

  /** Every backup was over the size limit when it was moved away. */
  predicate FullSize(files: Files, limit: nat) {
    forall k :: k in files && k > 0 ==> Size(files[k]) > limit
  }

  /** Without its last line, a file is within the size limit. */
  predicate Within(content: seq<Line>, limit: nat) {
    content != [] ==> Size(content[..|content| - 1]) <= limit
  }

  predicate AllWithin(files: Files, limit: nat) {
    forall k :: k in files ==> Within(files[k], limit)
  }

  predicate Orderly(config: AuditConfig, files: Files) {
    && Numbered(files, config.maxBackups)
    && FullSize(files, config.Limit())
    && (config.Rotates() ==> AllWithin(files, config.Limit()))
  }

  predicate AllPresent(files: Files, n: nat) {
    forall k :: 0 <= k <= n ==> k in files
  }

  lemma {:induction false} RotatedHistory(files: Files, backups: nat, n: nat)
    requires 0 < n <= backups
    requires Numbered(files, backups)
    ensures History(Rotated(files, backups), n) == History(files, n - 1)
  {
    var r := Rotated(files, backups);
    RotationMovesUp(files, backups, n);
    assert Content(r, n) == Content(files, n - 1);
    if n > 1 {
      RotatedHistory(files, backups, n - 1);
    } else {
      assert History(r, 0) == [];
    }
  }

  lemma {:induction false} AppendedHistory(files: Files, line: Line, n: nat)
    ensures History(Appended(files, line), n) == History(files, n) + [line]
  {
    if n > 0 {
      AppendedHistory(files, line, n - 1);
    }
  }

  lemma SizeOfAppended(content: seq<Line>, line: Line)
    ensures Size(content + [line]) == Size(content) + |line| + 1
    ensures (content + [line])[..|content + [line]| - 1] == content
  {
    assert (content + [line])[..|content|] == content;
  }

  /** After a rotation and an append, every backup is the file that was one number below it. */
  lemma RotatedBackups(files: Files, backups: nat, line: Line)
    requires Numbered(files, backups) && 0 in files
    ensures var a := Appended(Rotated(files, backups), line);
            && a[0] == [line]
            && (forall k :: k in a && k > 0 ==> k <= backups && k - 1 in files && a[k] == files[k - 1])
            && Numbered(a, backups)
  {
    var a := Appended(Rotated(files, backups), line);
    if backups > 0 {
      RotationMovesUp(files, backups, 0);
      forall k | k in a && k > 0 ensures k <= backups && k - 1 in files && a[k] == files[k - 1] {
        RotationMovesUp(files, backups, k);
      }
      forall k | k in a && k > 1 ensures k - 1 in a {
        RotationMovesUp(files, backups, k - 1);
      }
    }
  }

  lemma RotatedSizes(files: Files, backups: nat, limit: nat, line: Line)
    requires Numbered(files, backups) && FullSize(files, limit) && AllWithin(files, limit)
    requires 0 in files && Size(files[0]) > limit
    ensures var a := Appended(Rotated(files, backups), line); FullSize(a, limit) && AllWithin(a, limit)
  {
    RotatedBackups(files, backups, line);
    SizeOfAppended([], line);
    var a := Appended(Rotated(files, backups), line);
    forall k | k in a ensures Within(a[k], limit) {
      if k > 0 {
        assert Within(files[k - 1], limit);
      }
    }
    forall k | k in a && k > 0 ensures Size(a[k]) > limit {
      assert k > 1 ==> Size(files[k - 1]) > limit;
    }
  }

  lemma AppendedSizes(files: Files, limit: nat, line: Line)
    requires FullSize(files, limit)
    ensures FullSize(Appended(files, line), limit)
    ensures AllWithin(files, limit) && Size(Content(files, 0)) <= limit ==> AllWithin(Appended(files, line), limit)
  {
    SizeOfAppended(Content(files, 0), line);
    var a := Appended(files, line);
    if AllWithin(files, limit) && Size(Content(files, 0)) <= limit {
      forall k | k in a ensures Within(a[k], limit) {
        if k > 0 {
          assert Within(files[k], limit);
        }
      }
    }
  }

  /** Logging keeps the files orderly. */
  lemma LoggingKeepsOrder(config: AuditConfig, files: Files, line: Line)
    requires Orderly(config, files)
    ensures Orderly(config, Logged(config, files, line))
  {
    if config.Rotates() && 0 in files && Size(files[0]) > config.Limit() {
      RotatedBackups(files, config.maxBackups, line);
      RotatedSizes(files, config.maxBackups, config.Limit(), line);
    } else {
      AppendedSizes(files, config.Limit(), line);
    }
  }

  /** Logging one line keeps the history and adds the line, except that a rotation first drops the oldest
      backup if the numbering is full, and everything if no backups are kept. */
  lemma LoggedHistory(config: AuditConfig, files: Files, line: Line) returns (lost: nat)
    requires config.enabled && Orderly(config, files)
    ensures lost <= |History(files, config.maxBackups)|
    ensures History(Logged(config, files, line), config.maxBackups)
            == History(files, config.maxBackups)[lost..] + [line]
    ensures lost > 0 && config.maxBackups > 0 ==> AllPresent(Logged(config, files, line), config.maxBackups)
  {
    var n, r := config.maxBackups, MaybeRotated(config, files);
    AppendedHistory(r, line, n);
    if r == files {
      lost := 0;
    } else if n == 0 {
      lost := |files[0]|;
    } else {
      lost := |Content(files, n)|;
      RotatedHistory(files, n, n);
      assert History(files, n)[lost..] == History(files, n - 1);
      if lost > 0 {
        AllBelow(config, files, n);
        forall k | 0 < k <= n ensures k in r {
          RotationMovesUp(files, n, k);
        }
      }
    }
  }

  lemma {:induction false} AllBelow(config: AuditConfig, files: Files, n: nat)
    requires Orderly(config, files) && n in files
    ensures AllPresent(files, n)
  {
    if n > 0 {
      AllBelow(config, files, n - 1);
    }
  }

  lemma {:induction false} FullBackups(files: Files, limit: nat, n: nat)
    requires forall k :: 0 < k <= n ==> k in files && Size(files[k]) > limit
    ensures BackupBytes(files, n) >= n * limit + n
  {
    if n > 0 {
      FullBackups(files, limit, n - 1);
      assert n * limit == (n - 1) * limit + limit;
    }
  }

  lemma {:induction false} OrderlyAfter(config: AuditConfig, lines: seq<Line>)
    ensures Orderly(config, FilesAfter(config, lines))
  {
    if lines != [] {
      OrderlyAfter(config, lines[..|lines| - 1]);
      LoggingKeepsOrder(config, FilesAfter(config, lines[..|lines| - 1]), lines[|lines| - 1]);
    }
  }

  lemma SuffixStep(lines: seq<Line>, m: nat, lost: nat)
    requires lines != [] && m + lost < |lines|
    ensures lines[..|lines| - 1][m..][lost..] + [lines[|lines| - 1]] == lines[m + lost..]
  {
  }

  lemma {:induction false} HistoryIsSuffix(config: AuditConfig, lines: seq<Line>) returns (missing: nat)
    requires config.enabled
    ensures missing <= |lines| && History(FilesAfter(config, lines), config.maxBackups) == lines[missing..]
    ensures missing > 0 && config.maxBackups > 0 ==> AllPresent(FilesAfter(config, lines), config.maxBackups)
  {
    missing := 0;
    if lines == [] {
      EmptyHistory(config.maxBackups);
    } else {
      var before, line := lines[..|lines| - 1], lines[|lines| - 1];
      var files := FilesAfter(config, before);
      var m := HistoryIsSuffix(config, before);
      OrderlyAfter(config, before);
      var lost := LoggedHistory(config, files, line);
      missing := m + lost;
      SuffixStep(lines, m, lost);
      if m > 0 && config.maxBackups > 0 {
        StillThere(config, files, line);
      }
    }
  }

  lemma {:induction false} EmptyHistory(n: nat)
    ensures History(map[], n) == []
  {
    if n > 0 {
      EmptyHistory(n - 1);
    }
  }

  /** A full numbering stays full. */
  lemma StillThere(config: AuditConfig, files: Files, line: Line)
    requires config.enabled && AllPresent(files, config.maxBackups)
    ensures AllPresent(Logged(config, files, line), config.maxBackups)
  {
    if config.maxBackups > 0 {
      forall k | 0 < k <= config.maxBackups ensures k in MaybeRotated(config, files) {
        RotationMovesUp(files, config.maxBackups, k);
      }
    }
  }

  /** What a run of the log keeps: the backups from oldest to newest followed by the log are exactly the last
      lines logged; no file is more than one line over the limit; and if anything is missing, the backups hold
      more than their number times the limit exactly if backups are kept at all. */
  lemma RetainedHistory(config: AuditConfig, lines: seq<Line>) returns (missing: nat)
    requires config.enabled
    ensures var files, n := FilesAfter(config, lines), config.maxBackups;
            && missing <= |lines| && History(files, n) == lines[missing..]
            && (forall k :: k in files ==> k <= n)
            && (config.Rotates() ==> forall k :: k in files && files[k] != [] ==>
                  Size(files[k]) <= config.Limit() + |files[k][|files[k]| - 1]| + 1)
            && (missing > 0 ==> (BackupBytes(files, n) > n * config.Limit() <==> n > 0))
  {
    missing := HistoryIsSuffix(config, lines);
    OrderlyAfter(config, lines);
    if missing > 0 && config.maxBackups > 0 {
      FullBackups(FilesAfter(config, lines), config.Limit(), config.maxBackups);
    }
  }

  /** The size guarantee needs a backup: with none kept, a rotation discards the whole log, and what is kept of
      a history may be as little as its last line. */
  lemma WithoutBackupsRotationDiscards(config: AuditConfig, files: Files, line: Line)
    requires config.enabled && config.Rotates() && config.maxBackups == 0
    requires 0 in files && Size(files[0]) > config.Limit()
    ensures History(Logged(config, files, line), 0) == [line] && BackupBytes(Logged(config, files, line), 0) == 0
  {
  }
}
