/** The stop command of the service unit. systemd runs it whenever a service that was started ends, also when its
    process ended by itself (systemd.service(5), ExecStop=). */
module StopCommand {
  import opened Wrappers
  import opened Net
  import opened Nft
  import opened Compiler
  import opened Transaction
  import opened Policy
  import opened SafeApply

  /** How the nft calls of the command turn out: for each managed table one that adds it and one that deletes it. */
  datatype StopRun = StopRun(adds: TableKey -> bool, deletes: TableKey -> bool)

  function AddedThenDeleted(rs: Ruleset, key: TableKey, stop: StopRun): Ruleset {
    var added := if stop.adds(key) && key !in rs then rs[key := Table(map[], map[])] else rs;
    if stop.deletes(key) then added - {key} else added
  }

  function StoppedOver(rs: Ruleset, stop: StopRun, keys: seq<TableKey>): Ruleset {
    if keys == [] then rs
    else AddedThenDeleted(StoppedOver(rs, stop, keys[..|keys| - 1]), keys[|keys| - 1], stop)
  }

  function Stopped(rs: Ruleset, stop: StopRun): Ruleset {
    StoppedOver(rs, stop, MANAGED_TABLES)
  }

  method AddThenDelete(host: Host, key: TableKey, stop: StopRun)
    modifies host
    ensures host.ruleset == AddedThenDeleted(old(host.ruleset), key, stop)
  {
    if stop.adds(key) && key !in host.ruleset {
      host.ruleset := host.ruleset[key := Table(map[], map[])];
    }
    if stop.deletes(key) {
      host.ruleset := host.ruleset - {key};
    }
  }

  method RunStopCommand(host: Host, stop: StopRun)
    modifies host
    ensures host.ruleset == Stopped(old(host.ruleset), stop)
  {
    for i := 0 to |MANAGED_TABLES|
      invariant host.ruleset == StoppedOver(old(host.ruleset), stop, MANAGED_TABLES[..i])
    {
      assert MANAGED_TABLES[..i + 1][..i] == MANAGED_TABLES[..i];
      AddThenDelete(host, MANAGED_TABLES[i], stop);
    }
    assert MANAGED_TABLES[..|MANAGED_TABLES|] == MANAGED_TABLES;
  }

  lemma {:induction false} StoppedOverAt(rs: Ruleset, stop: StopRun, keys: seq<TableKey>, key: TableKey)
    ensures var after := StoppedOver(rs, stop, keys);
            if key !in keys then (key in after <==> key in rs) && (key in rs ==> after[key] == rs[key])
            else if stop.deletes(key) then key !in after
            else if key in rs then key in after && after[key] == rs[key]
            else (key in after <==> stop.adds(key)) && (key in after ==> after[key] == Table(map[], map[]))
  {
    if keys != [] {
      StoppedOverAt(rs, stop, keys[..|keys| - 1], key);
      assert keys == keys[..|keys| - 1] + [keys[|keys| - 1]];
    }
  }

  /** Table by table: unmanaged ones stay, managed ones are gone if their deletion works, stay as they were if it fails,
      and one that did not exist may be left behind empty. */
  lemma StoppedAt(rs: Ruleset, stop: StopRun, key: TableKey)
    ensures var after := Stopped(rs, stop);
            if !Managed(key) then (key in after <==> key in rs) && (key in rs ==> after[key] == rs[key])
            else if stop.deletes(key) then key !in after
            else if key in rs then key in after && after[key] == rs[key]
            else (key in after <==> stop.adds(key)) && (key in after ==> after[key] == Table(map[], map[]))
  {
    StoppedOverAt(rs, stop, MANAGED_TABLES, key);
    ManagedListed(key);
  }

  lemma StopKeepsOthers(rs: Ruleset, stop: StopRun)
    ensures Others(Stopped(rs, stop)) == Others(rs)
  {
    forall key ensures !Managed(key) ==> (key in Stopped(rs, stop) <==> key in rs)
                                         && (key in rs ==> Stopped(rs, stop)[key] == rs[key])
    {
      StoppedAt(rs, stop, key);
    }
  }

  /** Every managed table is there. */
  ghost predicate AllThere(rs: Ruleset) {
    forall key :: Managed(key) ==> key in rs
  }

  ghost predicate DeletesNothing(stop: StopRun) {
    forall key :: Managed(key) ==> !stop.deletes(key)
  }

  /** All deletions work, as they do for tables that exist or have just been added. */
  ghost predicate DeletesAll(stop: StopRun) {
    forall key :: Managed(key) ==> stop.deletes(key)
  }

  /** Where all managed tables are there, the command leaves the ruleset as it is, or even leaves them all there,
      exactly if it deletes none. */
  lemma StopKeepsIff(rs: Ruleset, stop: StopRun)
    requires AllThere(rs)
    ensures Stopped(rs, stop) == rs <==> DeletesNothing(stop)
    ensures AllThere(Stopped(rs, stop)) <==> DeletesNothing(stop)
  {
    forall key
      ensures Managed(key) ==> (key in Stopped(rs, stop) <==> !stop.deletes(key))
      ensures !Managed(key) ==> (key in Stopped(rs, stop) <==> key in rs)
      ensures key in Stopped(rs, stop) && key in rs ==> Stopped(rs, stop)[key] == rs[key]
    {
      StoppedAt(rs, stop, key);
    }
  }

  /** No managed table that is there has a chain. */
  predicate Idle(rs: Ruleset) {
    forall key :: key in rs && Managed(key) ==> rs[key].chains == map[]
  }

  lemma StopMakesIdle(rs: Ruleset, stop: StopRun)
    requires DeletesAll(stop)
    ensures Stopped(rs, stop) == Others(rs) && Idle(Stopped(rs, stop))
  {
    forall key ensures Managed(key) ==> key !in Stopped(rs, stop) {
      StoppedAt(rs, stop, key);
    }
    StopKeepsOthers(rs, stop);
    assert Stopped(rs, stop) == Others(Stopped(rs, stop));
  }

  lemma StopKeepsIdle(rs: Ruleset, stop: StopRun)
    requires Idle(rs)
    ensures Idle(Stopped(rs, stop))
  {
    forall key | key in Stopped(rs, stop) && Managed(key) ensures Stopped(rs, stop)[key].chains == map[] {
      StoppedAt(rs, stop, key);
    }
  }

  /** Then nothing is translated, dropped or rewritten. */
  lemma IdleDoesNothing(rs: Ruleset, p: Packet)
    requires Idle(rs)
    ensures KernelPrerouting(rs, p) == Untouched
    ensures KernelHook(rs, InputHook, p) == KernelHook(rs, ForwardHook, p) == KernelHook(rs, Postrouting, p) == None
  {
    assert Managed(FilterTable(FamilyOf(p.src))) && Managed(NatTable(FamilyOf(p.src)));
  }
}
