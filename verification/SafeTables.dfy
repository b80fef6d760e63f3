/** Translations into rejected prefixes cannot enter the managed tables: not through a script, however much of it is
    loaded, and not through a rollback. */
module SafeTables {
  import opened Wrappers
  import opened Net
  import opened Nft
  import opened Transaction
  import opened Policy
  import opened SafeApply

  predicate SafeRule(r: NftRule, fakes: seq<Entry>) {
    r.action.Dnat? ==> !CoversAny(fakes, r.action.ip)
  }

  predicate SafeRules(rules: seq<NftRule>, fakes: seq<Entry>) {
    forall r :: r in rules ==> SafeRule(r, fakes)
  }

  predicate SafeTable(t: Table, fakes: seq<Entry>) {
    forall c :: c in t.chains ==> SafeRules(t.chains[c].rules, fakes)
  }

  /** No managed table translates into the prefixes. */
  predicate Safe(rs: Ruleset, fakes: seq<Entry>) {
    forall key :: key in rs && Managed(key) ==> SafeTable(rs[key], fakes)
  }

  predicate SafeScript(s: Script, fakes: seq<Entry>) {
    forall c :: c in s && c.AddRule? ==> SafeRule(c.rule, fakes)
  }

  predicate SafeFile(file: Option<Script>, fakes: seq<Entry>) {
    file.Some? ==> SafeScript(file.value, fakes)
  }

  lemma ExecKeepsSafe(c: Command, rs: Ruleset, fakes: seq<Entry>)
    requires Safe(rs, fakes) && Exec(c, rs).Some? && (c.AddRule? ==> SafeRule(c.rule, fakes))
    ensures Safe(Exec(c, rs).value, fakes)
  {
  }

  lemma {:induction false} RunKeepsSafe(s: Script, rs: Ruleset, fakes: seq<Entry>)
    requires Safe(rs, fakes) && SafeScript(s, fakes) && Run(s, rs).Some?
    ensures Safe(Run(s, rs).value, fakes)
  {
    if s != [] {
      assert s[0] in s;
      ExecKeepsSafe(s[0], rs, fakes);
      RunKeepsSafe(s[1..], Exec(s[0], rs).value, fakes);
    }
  }

  predicate SafeBackup(backups: Backup, fakes: seq<Entry>) {
    forall b :: b in backups ==> SafeTable(b.1, fakes)
  }

  lemma {:induction false} BackupsAreSafe(rs: Ruleset, lists: TableKey -> bool, keys: seq<TableKey>, fakes: seq<Entry>)
    requires Safe(rs, fakes) && forall key :: key in keys ==> Managed(key)
    ensures SafeBackup(Backups(rs, lists, keys), fakes)
  {
    if keys != [] {
      assert keys[|keys| - 1] in keys;
      BackupsAreSafe(rs, lists, keys[..|keys| - 1], fakes);
    }
  }

  lemma MergedIsSafe(t: Table, u: Table, fakes: seq<Entry>)
    requires SafeTable(t, fakes) && SafeTable(u, fakes) && Merged(t, u).Some?
    ensures SafeTable(Merged(t, u).value, fakes)
  {
  }

  lemma {:induction false} ReloadedIsSafe(backups: Backup, rs: Ruleset, fakes: seq<Entry>)
    requires Safe(rs, fakes) && SafeBackup(backups, fakes) && (forall b :: b in backups ==> Managed(b.0))
    requires Reloaded(backups, rs).Some?
    ensures Safe(Reloaded(backups, rs).value, fakes)
  {
    if backups != [] {
      var (key, t) := backups[|backups| - 1];
      assert (key, t) in backups;
      var rest := backups[..|backups| - 1];
      ReloadedIsSafe(rest, rs, fakes);
      var before := Reloaded(rest, rs).value;
      if key in before {
        MergedIsSafe(before[key], t, fakes);
      }
    }
  }

  lemma DeletedIsSafe(rs: Ruleset, deletes: TableKey -> bool, fakes: seq<Entry>)
    requires Safe(rs, fakes)
    ensures Safe(Deleted(rs, deletes, MANAGED_TABLES), fakes)
  {
    forall key ensures var d := Deleted(rs, deletes, MANAGED_TABLES); key in d ==> key in rs && d[key] == rs[key] {
      DeletedAt(rs, deletes, MANAGED_TABLES, key);
    }
  }

  lemma LeftoverIsSafe(rs: Ruleset, debris: Ruleset, fakes: seq<Entry>)
    requires Safe(debris, fakes)
    ensures Safe(Others(rs) + ManagedPart(debris), fakes)
  {
  }

  lemma RolledBackIsSafe(rs: Ruleset, backups: Backup, env: Environment, fakes: seq<Entry>)
    requires Safe(rs, fakes) && SafeBackup(backups, fakes) && (forall b :: b in backups ==> Managed(b.0))
    requires Safe(env.reloadDebris, fakes)
    ensures Safe(RolledBack(rs, backups, env).0, fakes)
  {
    var cleared := Deleted(rs, env.deletes, MANAGED_TABLES);
    DeletedIsSafe(rs, env.deletes, fakes);
    LeftoverIsSafe(cleared, env.reloadDebris, fakes);
    if Reloaded(backups, cleared).Some? {
      ReloadedIsSafe(backups, cleared, fakes);
    }
  }

  /** Applying a safe file keeps the tables safe on every path, if what a failed load or reload leaves is safe. */
  lemma AppliedIsSafe(rs: Ruleset, file: Option<Script>, env: Environment, fakes: seq<Entry>)
    requires Safe(rs, fakes) && SafeFile(file, fakes) && Safe(env.debris, fakes) && Safe(env.reloadDebris, fakes)
    ensures Safe(Applied(rs, file, env).0, fakes)
  {
    if CheckPasses(rs, file, env) {
      RunKeepsSafe(file.value, rs, fakes);
      var left, backups := Others(rs) + ManagedPart(env.debris), Backups(rs, env.lists, MANAGED_TABLES);
      LeftoverIsSafe(rs, env.debris, fakes);
      forall key | key in MANAGED_TABLES ensures Managed(key) {
        ManagedListed(key);
      }
      BackupsAreSafe(rs, env.lists, MANAGED_TABLES, fakes);
      BackupsManaged(rs, env.lists, MANAGED_TABLES);
      RolledBackIsSafe(left, backups, env, fakes);
    }
  }

  lemma {:induction false} DecidedByMember(rules: seq<NftRule>, p: Packet, sets: map<SetName, seq<Entry>>)
    ensures Decide(rules, p, sets).Some? ==> Decide(rules, p, sets).value in rules
  {
    if rules != [] {
      DecidedByMember(rules[1..], p, sets);
    }
  }

  /** With safe tables the kernel translates no packet into the prefixes. */
  lemma SafeKernel(rs: Ruleset, fakes: seq<Entry>, p: Packet)
    requires Safe(rs, fakes)
    ensures var v := KernelPrerouting(rs, p); v.Translated? && v.action.Dnat? ==> !CoversAny(fakes, v.action.ip)
  {
    var key := TableKey(FamilyOf(p.src), SelfNat);
    if key in rs && Prerouting in rs[key].chains {
      DecidedByMember(rs[key].chains[Prerouting].rules, p, rs[key].sets);
      assert SafeTable(rs[key], fakes);
    }
  }
}
