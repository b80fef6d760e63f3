/** The last-good cache over whole runs of the main loop: load, prune, build with fallback, apply, fold the
    events, save. What the file holds for one key is a small state machine of its own. */
module CacheRuns {
  import opened Wrappers
  import opened Cells
  import opened RuleKeys
  import opened LastGood
  import opened Compiler

  /** One pass of the loop, as far as the cache is concerned. loaded: the file could be read and parsed;
      applied: the script differed from the last one and nft took it; the other flags say whether the two
      possible saves succeeded. */
  datatype CacheRound = CacheRound(
    cells: seq<RuntimeCell>, answers: Answers, st: Settings,
    loaded: bool, pruneSaved: bool, applied: bool, saved: bool, now: int)
  {
    function Ids(): seq<RuleIdentity> {
      Identities(cells, |cells|)
    }

    /** The entries held in memory while the script is built. */
    function Memory(file: seq<LastGoodRule>): seq<LastGoodRule> {
      var rules := if loaded then file else [];
      if st.lastGood.enabled then Pruned(rules, Ids()) else rules
    }

    function AfterPrune(file: seq<LastGoodRule>): seq<LastGoodRule> {
      var changed := PruneReport(if loaded then file else [], Ids()).changed;
      if st.lastGood.enabled && changed && pruneSaved then Memory(file) else file
    }

    /** The round gets as far as saving what it learned. */
    predicate Commits(memory: seq<LastGoodRule>) {
      Builds(cells, answers, st, memory) && applied && st.lastGood.enabled && saved
    }

    function Learned(memory: seq<LastGoodRule>): seq<LastGoodRule> {
      Updated(memory, EventsOf(cells, answers, st, memory), now)
    }

    function Next(file: seq<LastGoodRule>): seq<LastGoodRule> {
      if Commits(Memory(file)) then Learned(Memory(file)) else AfterPrune(file)
    }
  }

  function FileAfter(rounds: seq<CacheRound>): seq<LastGoodRule> {
    if rounds == [] then [] else rounds[|rounds| - 1].Next(FileAfter(rounds[..|rounds| - 1]))
  }

  /** The cache file, and one pass of the loop over it. */
  class CacheFile {
    var stored: seq<LastGoodRule>

    constructor ()
      ensures stored == []
    {
      stored := [];
    }

    /** Loads the file and prunes it, in memory and, if that changed anything, on disk. */
    method LoadAndPrune(r: CacheRound) returns (state: LastGoodState)
      modifies this
      ensures fresh(state) && state.rules == r.Memory(old(stored))
      ensures stored == r.AfterPrune(old(stored))
    {
      state := new LastGoodState(if r.loaded then stored else [], None);
      if r.st.lastGood.enabled {
        var ids := RuntimeIdentities(r.cells);
        var result := state.PruneStaleRules(ids);
        if result.changed && r.pruneSaved {
          stored := state.rules;
        }
      }
    }

    /** Once the script is applied, folds the events of its build back and saves. */
    method Learn(r: CacheRound, state: LastGoodState, events: seq<ResolutionEvent>)
      modifies this, state
      ensures stored == if r.st.lastGood.enabled && r.saved then Updated(old(state.rules), events, r.now)
                        else old(stored)
    {
      state.UpdateFromEvents(events, r.now);
      if r.st.lastGood.enabled && r.saved {
        stored := state.rules;
      }
    }
  }
}
