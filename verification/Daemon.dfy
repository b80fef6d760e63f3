/** The main loop: build, compare hashes, write the script file, apply, and remember what is in force. */
module Daemon {
  import opened Wrappers
  import opened Bits
  import opened Cells
  import opened LastGood
  import opened Nft
  import opened Compiler
  import opened ScriptHash
  import opened SafeApply
  import opened StopCommand
  import opened CacheRuns

  /** How writing the script file ends: in full, or cut short. A cut text holds some commands in full, and the start
      of the next may happen to read as a command of its own; or nft cannot read it at all. */
  datatype WriteOutcome = Whole | Cut(commands: nat, rest: Option<Command>) | Unreadable

  /** The outside world in one pass. The round's own applied flag is not an input: the loop decides it.
      fileCreated: the script file could be created, which empties it. */
  datatype LoopInput = LoopInput(round: CacheRound, sourcesRead: bool, prepared: bool,
                                 fileCreated: bool, written: WriteOutcome, env: Environment)

  /** What the file holds after writing to it; None is a text nft cannot read. */
  function FileContent(script: Script, w: WriteOutcome): Option<Script> {
    match w
    case Whole => Some(script)
    case Cut(n, rest) =>
      Some((if n < |script| then script[..n] else script) + if rest.Some? then [rest.value] else [])
    case Unreadable => None
  }

  /** The kernel tables, the script file and what the process remembers. A process that gave up stays so until it
      is started again. */
  datatype Kernel = Kernel(ruleset: Ruleset, file: Option<Script>, latest: Option<U64>, running: bool)

  /** How a script is written as text. The text also carries the comments among the cells; any rendering will do. */
  type Rendering = (seq<RuntimeCell>, Script) -> seq<Byte>

  /** Hands a freshly built script to the kernel unless its hash is the remembered one; also tells whether it
      was applied. */
  function Submitted(k: Kernel, script: Script, i: LoopInput, render: Rendering): (Kernel, bool) {
    var h := Hash(render(i.round.cells, script));
    if !i.prepared then (k.(running := false), false)
    else if k.latest == Some(h) then (k, false)
    else if i.fileCreated && !i.written.Whole? then
      (k.(file := FileContent(script, i.written), running := false), false)
    else
      var file := if i.fileCreated then Some(script) else k.file;
      var (rs, ok) := Applied(k.ruleset, file, i.env);
      if ok then (Kernel(rs, file, Some(h), true), true) else (Kernel(rs, file, k.latest, false), false)
  }

  /** The script is built from the memory of this pass, if it is built at all. */
  function Built(i: LoopInput, cache: seq<LastGoodRule>): Option<Script> {
    var r, memory := i.round, i.round.Memory(cache);
    if i.sourcesRead && Builds(r.cells, r.answers, r.st, memory)
    then Some(ScriptOf(r.cells, r.answers, r.st, memory)) else None
  }

  function AfterBuild(k: Kernel, script: Option<Script>, i: LoopInput, render: Rendering): (Kernel, bool) {
    if script.None? then (k, false) else Submitted(k, script.value, i, render)
  }

  /** The process ends, or has ended, and the stop command runs. */
  function Ended(k: Kernel, stop: StopRun): Kernel {
    Kernel(Stopped(k.ruleset, stop), k.file, None, false)
  }

  /** A new process remembers nothing. found: what it finds in the managed tables if something else has changed them
      since, such as a reboot. */
  function Started(k: Kernel, found: Option<Ruleset>): Kernel {
    Kernel(if found.Some? then Others(k.ruleset) + ManagedPart(found.value) else k.ruleset, k.file, None, true)
  }

  class Loop {
    const render: Rendering
    const host: Host
    const cache: CacheFile
    var scriptFile: Option<Script>
    var latestScriptHash: Option<U64>
    var running: bool

    constructor (host: Host, cache: CacheFile, file: Option<Script>, render: Rendering)
      ensures this.host == host && this.cache == cache && this.render == render
      ensures scriptFile == file && latestScriptHash == None && running
    {
      this.host, this.cache, this.render := host, cache, render;
      scriptFile, latestScriptHash, running := file, None, true;
    }

    function View(): Kernel
      reads this, host
    {
      Kernel(host.ruleset, scriptFile, latestScriptHash, running)
    }

    method Submit(script: Script, i: LoopInput) returns (applied: bool)
      requires running
      modifies this, host
      ensures (View(), applied) == Submitted(old(View()), script, i, render)
    {
      applied := false;
      if !i.prepared {
        running := false;
        return;
      }
      var currentScriptHash := StableScriptHash(render(i.round.cells, script));
      if latestScriptHash == Some(currentScriptHash) {
        return;
      }
      if i.fileCreated {
        scriptFile := FileContent(script, i.written);
        if !i.written.Whole? {
          running := false;
          return;
        }
      }
      applied := host.ApplyNftScript(scriptFile, i.env);
      if applied {
        latestScriptHash := Some(currentScriptHash);
      } else {
        running := false;
      }
    }

    static method BuildScript(i: LoopInput, memory: seq<LastGoodRule>)
      returns (script: Option<Script>, events: seq<ResolutionEvent>)
      ensures var r := i.round;
              && script == (if i.sourcesRead && Builds(r.cells, r.answers, r.st, memory)
                            then Some(ScriptOf(r.cells, r.answers, r.st, memory)) else None)
              && (script.Some? ==> events == EventsOf(r.cells, r.answers, r.st, memory))
    {
      if !i.sourcesRead {
        return None, [];
      }
      var log := new ResolutionLog();
      var built := BuildNewScriptWithGlobal(i.round.cells, i.round.answers, i.round.st, memory, log);
      script := if built.Success? then Some(built.value) else None;
      events := log.Drain();
    }

    /** One pass of the loop: what it does to the kernel, and the cache round it amounts to. */
    method RunRound(i: LoopInput) returns (applied: bool)
      requires running
      modifies this, host, cache
      ensures (View(), applied) == AfterBuild(old(View()), Built(i, old(cache.stored)), i, render)
      ensures cache.stored == i.round.(applied := applied).Next(old(cache.stored))
    {
      var state := cache.LoadAndPrune(i.round);
      var script, events := BuildScript(i, state.rules);
      if script.None? {
        return false;
      }
      applied := Submit(script.value, i);
      if applied {
        cache.Learn(i.round, state, events);
      }
    }

    method Stop(stop: StopRun)
      modifies this, host
      ensures View() == Ended(old(View()), stop)
    {
      latestScriptHash := None;
      running := false;
      RunStopCommand(host, stop);
    }

    method Start(found: Option<Ruleset>)
      modifies this, host
      ensures View() == Started(old(View()), found)
    {
      if found.Some? {
        host.ruleset := Others(host.ruleset) + ManagedPart(found.value);
      }
      latestScriptHash := None;
      running := true;
    }
  }
}
