/** Applying a script to the running kernel: check, back up, load, and roll back if the load fails. */
module SafeApply {
  import opened Wrappers
  import opened Net
  import opened Nft
  import opened Compiler
  import opened Transaction

  const MANAGED_TABLES: seq<TableKey> := [NatTable(Inet4), NatTable(Inet6), FilterTable(Inet4), FilterTable(Inet6)]

  /** How the nft processes and file writes of one call turn out. checkPasses, loadAccepted: nothing outside the
      script makes nft fail. A failed load may leave anything in the managed tables (debris), and so may a failed
      reload. */
  datatype Environment = Environment(
    checkPasses: bool, rulesetSaved: bool, lists: TableKey -> bool,
    loadRuns: bool, loadAccepted: bool, debris: Ruleset,
    deletes: TableKey -> bool, rollbackWritten: bool, reloadAccepted: bool, reloadDebris: Ruleset)

  function ManagedPart(rs: Ruleset): Ruleset {
    map key | key in rs && Managed(key) :: rs[key]
  }

  function Others(rs: Ruleset): Ruleset {
    map key | key in rs && !Managed(key) :: rs[key]
  }

  type Backup = seq<(TableKey, Table)>

  // ---------------------------------------------------------------- what each step does, as functions

  /** The managed tables that exist and could be listed. */
  function Backups(rs: Ruleset, lists: TableKey -> bool, keys: seq<TableKey>): Backup {
    if keys == [] then []
    else
      var key := keys[|keys| - 1];
      Backups(rs, lists, keys[..|keys| - 1]) + if lists(key) && key in rs then [(key, rs[key])] else []
  }

  function Deleted(rs: Ruleset, deletes: TableKey -> bool, keys: seq<TableKey>): Ruleset {
    if keys == [] then rs
    else
      var before := Deleted(rs, deletes, keys[..|keys| - 1]);
      if deletes(keys[|keys| - 1]) then before - {keys[|keys| - 1]} else before
  }

  /** Loading a listed table over one that is still there adds its rules and elements to it. */
  function Merged(t: Table, u: Table): Option<Table> {
    if exists c :: c in t.chains && c in u.chains && t.chains[c].spec != u.chains[c].spec then None
    else
      Some(Table(
        map c | c in t.chains.Keys + u.chains.Keys ::
          if c !in u.chains then t.chains[c]
          else if c !in t.chains then u.chains[c]
          else Chain(u.chains[c].spec, t.chains[c].rules + u.chains[c].rules),
        map s | s in t.sets.Keys + u.sets.Keys ::
          if s !in u.sets then t.sets[s] else if s !in t.sets then u.sets[s] else t.sets[s] + u.sets[s]))
  }

  /** Loading the concatenated listings as one transaction. */
  function Reloaded(backups: Backup, rs: Ruleset): Option<Ruleset> {
    if backups == [] then Some(rs)
    else
      var before := Reloaded(backups[..|backups| - 1], rs);
      var (key, t) := backups[|backups| - 1];
      if before.None? then None
      else if key !in before.value then Some(before.value[key := t])
      else
        var merged := Merged(before.value[key], t);
        if merged.None? then None else Some(before.value[key := merged.value])
  }

  function RolledBack(rs: Ruleset, backups: Backup, env: Environment): (Ruleset, bool) {
    var cleared := Deleted(rs, env.deletes, MANAGED_TABLES);
    if backups == [] then (cleared, true)
    else if !env.rollbackWritten then (cleared, false)
    else
      var reloaded := Reloaded(backups, cleared);
      if env.reloadAccepted && reloaded.Some? then (reloaded.value, true)
      else (Others(cleared) + ManagedPart(env.reloadDebris), false)
  }

  /** The check refuses a missing or unreadable file and a script that could not be loaded. */
  predicate CheckPasses(rs: Ruleset, file: Option<Script>, env: Environment) {
    file.Some? && Run(file.value, rs).Some? && env.checkPasses
  }

  /** The ruleset after the call and whether it reported success; file is what the script file holds, None
      for a missing file or one nft cannot read. */
  function Applied(rs: Ruleset, file: Option<Script>, env: Environment): (Ruleset, bool) {
    if !CheckPasses(rs, file, env) || !env.rulesetSaved || !env.loadRuns then (rs, false)
    else if env.loadAccepted then (Run(file.value, rs).value, true)
    else
      (RolledBack(Others(rs) + ManagedPart(env.debris), Backups(rs, env.lists, MANAGED_TABLES), env).0, false)
  }

  // ---------------------------------------------------------------- the kernel side, step by step

  class Host {
    var ruleset: Ruleset

    constructor (rs: Ruleset)
      ensures ruleset == rs
    {
      ruleset := rs;
    }

    method Check(file: Option<Script>, env: Environment) returns (ok: bool)
      ensures ok == CheckPasses(ruleset, file, env)
    {
      if file.None? {
        return false;
      }
      ok := env.checkPasses && Run(file.value, ruleset).Some?;
    }

    method Load(file: Script, env: Environment) returns (ok: bool)
      requires Run(file, ruleset).Some?
      modifies this
      ensures ok == env.loadAccepted
      ensures ruleset == if ok then Run(file, old(ruleset)).value else Others(old(ruleset)) + ManagedPart(env.debris)
    {
      ok := env.loadAccepted;
      ruleset := if ok then Run(file, ruleset).value else Others(ruleset) + ManagedPart(env.debris);
    }

    method BackupManagedTables(env: Environment) returns (backups: Backup)
      ensures backups == Backups(ruleset, env.lists, MANAGED_TABLES)
    {
      backups := [];
      for i := 0 to |MANAGED_TABLES|
        invariant backups == Backups(ruleset, env.lists, MANAGED_TABLES[..i])
      {
        assert MANAGED_TABLES[..i + 1][..i] == MANAGED_TABLES[..i];
        var key := MANAGED_TABLES[i];
        if env.lists(key) && key in ruleset {
          backups := backups + [(key, ruleset[key])];
        }
      }
      assert MANAGED_TABLES[..|MANAGED_TABLES|] == MANAGED_TABLES;
    }

    method DeleteManagedTables(env: Environment)
      modifies this
      ensures ruleset == Deleted(old(ruleset), env.deletes, MANAGED_TABLES)
    {
      for i := 0 to |MANAGED_TABLES|
        invariant ruleset == Deleted(old(ruleset), env.deletes, MANAGED_TABLES[..i])
      {
        assert MANAGED_TABLES[..i + 1][..i] == MANAGED_TABLES[..i];
        if env.deletes(MANAGED_TABLES[i]) {
          ruleset := ruleset - {MANAGED_TABLES[i]};
        }
      }
      assert MANAGED_TABLES[..|MANAGED_TABLES|] == MANAGED_TABLES;
    }

    method RollbackManagedTables(backups: Backup, env: Environment) returns (ok: bool)
      modifies this
      ensures (ruleset, ok) == RolledBack(old(ruleset), backups, env)
    {
      DeleteManagedTables(env);
      if backups == [] {
        return true;
      }
      if !env.rollbackWritten {
        return false;
      }
      var reloaded := Reloaded(backups, ruleset);
      ok := env.reloadAccepted && reloaded.Some?;
      ruleset := if ok then reloaded.value else Others(ruleset) + ManagedPart(env.reloadDebris);
    }

    method ApplyNftScript(file: Option<Script>, env: Environment) returns (ok: bool)
      modifies this
      ensures (ruleset, ok) == Applied(old(ruleset), file, env)
    {
      ok := Check(file, env);
      if !ok {
        return;
      }
      if !env.rulesetSaved {
        return false;
      }
      var backups := BackupManagedTables(env);
      if !env.loadRuns {
        return false;
      }
      ok := Load(file.value, env);
      if !ok {
        var _ := RollbackManagedTables(backups, env);
      }
    }
  }

  // ---------------------------------------------------------------- guarantees

  lemma ManagedListed(key: TableKey)
    ensures Managed(key) <==> key in MANAGED_TABLES
  {
    if Managed(key) {
      assert key.family == Inet4 || key.family == Inet6;
      assert key == NatTable(key.family) || key == FilterTable(key.family);
      assert MANAGED_TABLES[0] == NatTable(Inet4) && MANAGED_TABLES[1] == NatTable(Inet6);
      assert MANAGED_TABLES[2] == FilterTable(Inet4) && MANAGED_TABLES[3] == FilterTable(Inet6);
    }
  }

  lemma {:induction false} DeletedAt(rs: Ruleset, deletes: TableKey -> bool, keys: seq<TableKey>, key: TableKey)
    ensures var d := Deleted(rs, deletes, keys);
            (key in d <==> key in rs && !(key in keys && deletes(key))) && (key in d ==> d[key] == rs[key])
  {
    if keys != [] {
      DeletedAt(rs, deletes, keys[..|keys| - 1], key);
      assert keys == keys[..|keys| - 1] + [keys[|keys| - 1]];
    }
  }

  lemma {:induction false} ReloadedOthers(backups: Backup, rs: Ruleset)
    requires Reloaded(backups, rs).Some? && forall b :: b in backups ==> Managed(b.0)
    ensures Others(Reloaded(backups, rs).value) == Others(rs)
  {
    if backups != [] {
      assert backups[|backups| - 1] in backups;
      ReloadedOthers(backups[..|backups| - 1], rs);
      var before, after := Reloaded(backups[..|backups| - 1], rs).value, Reloaded(backups, rs).value;
      forall key | !Managed(key) ensures key in before <==> key in after {}
      assert Others(after) == Others(before);
    }
  }

  lemma {:induction false} BackupsManaged(rs: Ruleset, lists: TableKey -> bool, keys: seq<TableKey>)
    requires forall key :: key in keys ==> Managed(key)
    ensures forall b :: b in Backups(rs, lists, keys) ==> Managed(b.0)
  {
    if keys != [] {
      BackupsManaged(rs, lists, keys[..|keys| - 1]);
      assert keys[|keys| - 1] in keys;
    }
  }

  lemma DeletedOthers(rs: Ruleset, deletes: TableKey -> bool)
    ensures Others(Deleted(rs, deletes, MANAGED_TABLES)) == Others(rs)
  {
    var d := Deleted(rs, deletes, MANAGED_TABLES);
    forall key | !Managed(key) ensures (key in d <==> key in rs) && (key in d ==> d[key] == rs[key]) {
      DeletedAt(rs, deletes, MANAGED_TABLES, key);
      ManagedListed(key);
    }
  }

  lemma OthersBeside(rs: Ruleset, junk: Ruleset)
    ensures Others(Others(rs) + ManagedPart(junk)) == Others(rs)
  {
  }

  lemma RollbackKeepsOthers(rs: Ruleset, backups: Backup, env: Environment)
    requires forall b :: b in backups ==> Managed(b.0)
    ensures Others(RolledBack(rs, backups, env).0) == Others(rs)
  {
    DeletedOthers(rs, env.deletes);
    var cleared := Deleted(rs, env.deletes, MANAGED_TABLES);
    OthersBeside(cleared, env.reloadDebris);
    if Reloaded(backups, cleared).Some? {
      ReloadedOthers(backups, cleared);
    }
  }

  /** The script leaves every table alone that is not managed. */
  ghost predicate OnlyManaged(s: Script) {
    forall rs :: Run(s, rs).Some? ==> Others(Run(s, rs).value) == Others(rs)
  }

  /** On no path, successful or not and however the rollback goes, does an unmanaged table change. */
  lemma UnmanagedTablesNeverChange(rs: Ruleset, file: Option<Script>, env: Environment)
    requires file.Some? ==> OnlyManaged(file.value)
    ensures Others(Applied(rs, file, env).0) == Others(rs)
  {
    var left := Others(rs) + ManagedPart(env.debris);
    OthersBeside(rs, env.debris);
    forall key | key in MANAGED_TABLES ensures Managed(key) {
      ManagedListed(key);
    }
    BackupsManaged(rs, env.lists, MANAGED_TABLES);
    RollbackKeepsOthers(left, Backups(rs, env.lists, MANAGED_TABLES), env);
  }

  predicate Distinct(keys: seq<TableKey>) {
    forall i, j :: 0 <= i < j < |keys| ==> keys[i] != keys[j]
  }

  /** The tables among keys that exist and can be listed. */
  function Listed(rs: Ruleset, lists: TableKey -> bool, keys: seq<TableKey>): Ruleset {
    map key | key in rs && key in keys && lists(key) :: rs[key]
  }

  lemma ListedStep(rs: Ruleset, lists: TableKey -> bool, rest: seq<TableKey>, last: TableKey)
    ensures Listed(rs, lists, rest + [last])
            == if lists(last) && last in rs then Listed(rs, lists, rest)[last := rs[last]] else Listed(rs, lists, rest)
  {
    assert forall key :: key in rest + [last] <==> key in rest || key == last;
  }

  lemma BesideUpdate(base: Ruleset, m: Ruleset, key: TableKey, t: Table)
    ensures base + m[key := t] == (base + m)[key := t]
  {
  }

  /** Reloading the backups of some tables over a ruleset without them puts exactly those tables back. */
  lemma {:induction false} BackupsComeBack(rs: Ruleset, lists: TableKey -> bool, keys: seq<TableKey>, base: Ruleset)
    requires Distinct(keys) && forall key :: key in keys ==> key !in base
    ensures Reloaded(Backups(rs, lists, keys), base) == Some(base + Listed(rs, lists, keys))
  {
    if keys == [] {
      assert base + Listed(rs, lists, keys) == base;
    } else {
      var last, rest := keys[|keys| - 1], keys[..|keys| - 1];
      assert keys == rest + [last] && last !in rest;
      BackupsComeBack(rs, lists, rest, base);
      ListedStep(rs, lists, rest, last);
      var b := Backups(rs, lists, rest);
      if lists(last) && last in rs {
        assert (b + [(last, rs[last])])[..|b|] == b;
        BesideUpdate(base, Listed(rs, lists, rest), last, rs[last]);
      } else {
        assert b + [] == b;
      }
    }
  }

  /** What a rollback whose deletions and reload all work leaves: the unmanaged tables, and of the managed ones
      exactly those that could be listed beforehand, as they were. */
  lemma RollbackResult(rs: Ruleset, left: Ruleset, env: Environment)
    requires Others(left) == Others(rs)
    requires (forall key :: env.deletes(key)) && env.rollbackWritten && env.reloadAccepted
    ensures RolledBack(left, Backups(rs, env.lists, MANAGED_TABLES), env)
            == (Others(rs) + Listed(rs, env.lists, MANAGED_TABLES), true)
  {
    var base := Deleted(left, env.deletes, MANAGED_TABLES);
    forall key ensures (key in base <==> key in left && !Managed(key)) && (key in base ==> base[key] == left[key]) {
      DeletedAt(left, env.deletes, MANAGED_TABLES, key);
      ManagedListed(key);
    }
    assert base == Others(left);
    BackupsComeBack(rs, env.lists, MANAGED_TABLES, base);
    if Backups(rs, env.lists, MANAGED_TABLES) == [] {
      assert Reloaded(Backups(rs, env.lists, MANAGED_TABLES), base) == Some(base);
    }
  }

  /** The load was attempted and failed. */
  predicate LoadFails(rs: Ruleset, file: Option<Script>, env: Environment) {
    CheckPasses(rs, file, env) && env.rulesetSaved && env.loadRuns && !env.loadAccepted
  }

  /** Every table that exists could be listed. */
  predicate AllListed(rs: Ruleset, env: Environment) {
    forall key :: key in rs && Managed(key) ==> env.lists(key)
  }

  /** Deletions, the rollback file and the reload work. */
  ghost predicate RollbackWorks(env: Environment) {
    (forall key :: env.deletes(key)) && env.rollbackWritten && env.reloadAccepted
  }

  /** A failed load followed by a rollback whose deletions and reload all worked restores the ruleset exactly
      when every managed table that existed could be listed beforehand. A table whose listing failed is gone,
      although the rollback reports success. */
  lemma RollbackRestoresIff(rs: Ruleset, file: Option<Script>, env: Environment)
    requires LoadFails(rs, file, env) && RollbackWorks(env)
    ensures Applied(rs, file, env).0 == rs <==> AllListed(rs, env)
    ensures forall key :: key in rs && Managed(key) && !env.lists(key) ==> key !in Applied(rs, file, env).0
  {
    var left := Others(rs) + ManagedPart(env.debris);
    OthersBeside(rs, env.debris);
    RollbackResult(rs, left, env);
    forall key ensures Managed(key) <==> key in MANAGED_TABLES {
      ManagedListed(key);
    }
    var restored := Others(rs) + Listed(rs, env.lists, MANAGED_TABLES);
    assert Applied(rs, file, env).0 == restored;
    if AllListed(rs, env) {
      assert restored == rs;
    }
  }

  /** All or nothing: a call either succeeds and the script is in, or it fails. A call that fails before the load, for
      instance because the check refuses the script, leaves the ruleset as it was; with a rollback that works every
      failing call does, except a failed load after a managed table could not be listed. */
  lemma AllOrNothingIff(rs: Ruleset, file: Option<Script>, env: Environment)
    ensures var (after, ok) := Applied(rs, file, env);
            && (ok ==> file.Some? && Run(file.value, rs) == Some(after))
            && (!ok && !LoadFails(rs, file, env) ==> after == rs)
            && (!ok && RollbackWorks(env) ==> (after == rs <==> !LoadFails(rs, file, env) || AllListed(rs, env)))
  {
    if LoadFails(rs, file, env) && RollbackWorks(env) {
      RollbackRestoresIff(rs, file, env);
    }
  }
}
