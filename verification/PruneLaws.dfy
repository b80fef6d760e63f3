/** What pruning the last-good cache does to each key, for arbitrary cache contents. */
module PruneLaws {
  import opened Wrappers
  import opened Cells
  import opened RuleKeys
  import opened Ordered
  import opened LastGood

  /** Rules that share a key name the same domain. */
  predicate WellKeyed(ids: seq<RuleIdentity>) {
    forall a, b :: a in ids && b in ids && a.ruleKey == b.ruleKey ==> SameDomain(a.domain, b.domain)
  }

  lemma {:induction false} IdentityOrigin(cells: seq<RuntimeCell>, n: nat, id: RuleIdentity)
    requires n <= |cells| && id in Identities(cells, n)
    ensures exists i :: 0 <= i < n && IdentityAt(cells, i) == Some(id)
  {
    if id in Identities(cells, n - 1) {
      IdentityOrigin(cells, n - 1, id);
    } else {
      assert IdentityAt(cells, n - 1) == Some(id);
    }
  }

  lemma IdentitySource(cells: seq<RuntimeCell>, i: nat)
    requires i < |cells| && IdentityAt(cells, i).Some?
    ensures cells[i].Rule? && Cacheable(cells[i].cell)
    ensures Some(IdentityAt(cells, i).value.ruleKey) == RuleKey(cells[i].cell)
    ensures IdentityAt(cells, i).value.domain == cells[i].cell.domain.text
  {
  }

  /** The identities of every configuration are well keyed, because the key contains the domain. */
  lemma ConfigurationsAreWellKeyed(cells: seq<RuntimeCell>)
    ensures WellKeyed(Identities(cells, |cells|))
  {
    var ids := Identities(cells, |cells|);
    forall a, b | a in ids && b in ids && a.ruleKey == b.ruleKey ensures SameDomain(a.domain, b.domain) {
      IdentityOrigin(cells, |cells|, a);
      IdentityOrigin(cells, |cells|, b);
      var i :| 0 <= i < |cells| && IdentityAt(cells, i) == Some(a);
      var j :| 0 <= j < |cells| && IdentityAt(cells, j) == Some(b);
      IdentitySource(cells, i);
      IdentitySource(cells, j);
      KeysEqualIff(cells[i].cell, cells[j].cell);
    }
  }

  // ---------------------------------------------------------------- pruning over given owners

  // The lemmas of this part take the owner of each entry as given; the last part supplies it.

  type Owner = Option<RuleIdentity>

  predicate Claims(owners: seq<Owner>, i: nat, k: string)
    requires i < |owners|
  {
    owners[i].Some? && owners[i].value.ruleKey == k
  }

  function RankAt(rules: seq<LastGoodRule>, owners: seq<Owner>, i: nat): nat
    requires i < |rules| == |owners|
  {
    if owners[i].Some? then Rank(rules[i], owners[i].value) else 0
  }

  /** The entry that ends up holding a key: the highest rank, and the latest among equals. */
  predicate Winner(rules: seq<LastGoodRule>, owners: seq<Owner>, n: nat, k: string, i: int)
    requires n <= |rules| == |owners|
  {
    && 0 <= i < n && Claims(owners, i, k)
    && forall j :: 0 <= j < n && Claims(owners, j, k) ==>
         RankAt(rules, owners, j) <= RankAt(rules, owners, i)
         && (j > i ==> RankAt(rules, owners, j) < RankAt(rules, owners, i))
  }

  /** What the table holds for a key: nothing if no entry claims it, and otherwise the winner, at position w. */
  ghost predicate HeldBy(rules: seq<LastGoodRule>, owners: seq<Owner>, n: nat, k: string, w: int)
    requires n <= |rules| == |owners|
  {
    if w < 0 then k !in Kept(rules, owners, n) && forall j :: 0 <= j < n ==> !Claims(owners, j, k)
    else
      && Winner(rules, owners, n, k, w) && k in Kept(rules, owners, n)
      && Kept(rules, owners, n)[k] == (RankAt(rules, owners, w), Retained(rules[w], owners[w].value))
  }

  lemma ClaimedNext(rules: seq<LastGoodRule>, owners: seq<Owner>, n: nat, k: string, v: int) returns (w: int)
    requires n < |rules| == |owners| && HeldBy(rules, owners, n, k, v)
    ensures HeldBy(rules, owners, n + 1, k, w)
  {
    if Claims(owners, n, k) && !(v >= 0 && RankAt(rules, owners, v) > RankAt(rules, owners, n)) {
      w := n;
    } else {
      w := v;
    }
  }

  lemma {:induction false} KeptAt(rules: seq<LastGoodRule>, owners: seq<Owner>, n: nat, k: string) returns (w: int)
    requires n <= |rules| == |owners|
    ensures k in Kept(rules, owners, n) <==> w >= 0
    ensures w < 0 ==> forall j :: 0 <= j < n ==> !Claims(owners, j, k)
    ensures w >= 0 ==> Winner(rules, owners, n, k, w)
    ensures w >= 0 ==> Kept(rules, owners, n)[k] == (RankAt(rules, owners, w), Retained(rules[w], owners[w].value))
  {
    w := HolderOf(rules, owners, n, k);
  }

  lemma {:induction false} HolderOf(rules: seq<LastGoodRule>, owners: seq<Owner>, n: nat, k: string) returns (w: int)
    requires n <= |rules| == |owners|
    ensures HeldBy(rules, owners, n, k, w)
  {
    if n == 0 {
      w := -1;
    } else {
      w := HolderOf(rules, owners, n - 1, k);
      w := ClaimedNext(rules, owners, n - 1, k, w);
    }
  }

  /** How owners relate to the current rules: every owner is the current rule of its key, a keyed entry
      belongs to the rule of its key, and no two keyless entries belong to the same rule. */
  predicate Proper(rules: seq<LastGoodRule>, owners: seq<Owner>, current: map<string, RuleIdentity>) {
    && |rules| == |owners|
    && (forall i :: 0 <= i < |owners| && owners[i].Some? ==>
          owners[i].value.ruleKey in current && current[owners[i].value.ruleKey] == owners[i].value)
    && (forall i :: 0 <= i < |owners| && rules[i].ruleKey.Some? ==>
          if rules[i].ruleKey.value in current then owners[i] == Some(current[rules[i].ruleKey.value])
          else owners[i].None?)
    && (forall i, j :: 0 <= i < j < |owners| && rules[i].ruleKey.None? && rules[j].ruleKey.None? && owners[i].Some? ==>
          owners[i] != owners[j])
    && (forall k :: k in current ==> current[k].ruleKey == k)
  }

  /** Position of the last entry stored under exactly this key. */
  predicate LastExact(rules: seq<LastGoodRule>, k: string, i: int) {
    0 <= i < |rules| && rules[i].ruleKey == Some(k)
    && forall j :: i < j < |rules| ==> rules[j].ruleKey != Some(k)
  }

  predicate HasExact(rules: seq<LastGoodRule>, k: string) {
    exists i :: 0 <= i < |rules| && rules[i].ruleKey == Some(k)
  }

  /** A keyless entry that belongs to the rule with this key. */
  predicate KeylessFor(rules: seq<LastGoodRule>, owners: seq<Owner>, k: string, i: int)
    requires |rules| == |owners|
  {
    0 <= i < |rules| && rules[i].ruleKey.None? && Claims(owners, i, k)
  }

  lemma KeptByKey(rules: seq<LastGoodRule>, owners: seq<Owner>, current: map<string, RuleIdentity>, k: string)
    requires Proper(rules, owners, current)
    ensures var m := KeptRules(rules, owners);
            && (k in m <==> k in current && (HasExact(rules, k) || exists i :: KeylessFor(rules, owners, k, i)))
            && (forall i :: k in current && LastExact(rules, k, i) ==> k in m && m[k] == Retained(rules[i], current[k]))
            && (forall i :: k in current && !HasExact(rules, k) && KeylessFor(rules, owners, k, i) ==>
                  k in m && m[k] == Retained(rules[i], current[k]))
  {
    var w := KeptAt(rules, owners, |rules|, k);
    if k in current {
      forall i | 0 <= i < |rules| && rules[i].ruleKey == Some(k)
        ensures Claims(owners, i, k) && RankAt(rules, owners, i) == 2 {}
      forall i | 0 <= i < |rules| && Claims(owners, i, k) && rules[i].ruleKey != Some(k)
        ensures KeylessFor(rules, owners, k, i) && RankAt(rules, owners, i) < 2 {}
      forall i | LastExact(rules, k, i)
        ensures k in KeptRules(rules, owners) && KeptRules(rules, owners)[k] == Retained(rules[i], current[k])
      {
        assert w == i;
      }
      forall i | !HasExact(rules, k) && KeylessFor(rules, owners, k, i)
        ensures k in KeptRules(rules, owners) && KeptRules(rules, owners)[k] == Retained(rules[i], current[k])
      {
        assert w == i;
      }
    }
  }

  /** The table drained in key order: one entry per key, stored under its own key. */
  lemma DrainedEntries(rules: seq<LastGoodRule>, owners: seq<Owner>)
    requires |rules| == |owners|
    ensures var m, ks := KeptRules(rules, owners), InOrder(KeptRules(rules, owners).Keys);
            var p := ValuesInOrder(m);
            && |p| == |ks| == |m|
            && (forall i :: 0 <= i < |ks| ==> ks[i] in m && p[i] == m[ks[i]] && p[i].ruleKey == Some(ks[i]))
            && (forall k :: k in m ==> exists i :: 0 <= i < |ks| && ks[i] == k)
  {
    var m := KeptRules(rules, owners);
    var ks := InOrder(m.Keys);
    forall i | 0 <= i < |ks|
      ensures ks[i] in m && ValuesInOrder(m)[i] == m[ks[i]] && ValuesInOrder(m)[i].ruleKey == Some(ks[i])
    {
      assert ks[i] in m.Keys;
      var w := KeptAt(rules, owners, |rules|, ks[i]);
    }
    forall k | k in m ensures exists i :: 0 <= i < |ks| && ks[i] == k {
      assert k in m.Keys;
    }
  }

  /** The cache as it should be: every entry keyed, named and numbered as the configuration has it. */
  predicate InOrderWith(rules: seq<LastGoodRule>, current: map<string, RuleIdentity>) {
    && (forall r :: r in rules ==>
          r.ruleKey.Some? && r.ruleKey.value in current && UpToDate(r, current[r.ruleKey.value]))
    && (forall i, j :: 0 <= i < j < |rules| ==> rules[i].ruleKey != rules[j].ruleKey)
  }

  lemma RetainedUpToDate(rule: LastGoodRule, id: RuleIdentity)
    ensures UpToDate(Retained(rule, id), id)
    ensures UpToDate(rule, id) ==> Retained(rule, id) == rule
  {
  }

  lemma KeptUpToDate(rules: seq<LastGoodRule>, owners: seq<Owner>, current: map<string, RuleIdentity>, k: string)
    requires Proper(rules, owners, current) && k in KeptRules(rules, owners)
    ensures k in current && KeptRules(rules, owners)[k].ruleKey == Some(k)
            && UpToDate(KeptRules(rules, owners)[k], current[k])
  {
    var w := KeptAt(rules, owners, |rules|, k);
    RetainedUpToDate(rules[w], owners[w].value);
  }

  lemma DrainedInOrder(rules: seq<LastGoodRule>, owners: seq<Owner>, current: map<string, RuleIdentity>)
    requires Proper(rules, owners, current)
    ensures InOrderWith(ValuesInOrder(KeptRules(rules, owners)), current)
  {
    var m := KeptRules(rules, owners);
    DrainedEntries(rules, owners);
    var p := ValuesInOrder(m);
    forall r | r in p
      ensures r.ruleKey.Some? && r.ruleKey.value in current && UpToDate(r, current[r.ruleKey.value])
    {
      var k :| k in m && m[k] == r;
      KeptUpToDate(rules, owners, current, k);
    }
  }

  lemma {:induction false} TouchedIff(rules: seq<LastGoodRule>, owners: seq<Owner>, n: nat)
    requires n <= |rules| == |owners|
    ensures Touched(rules, owners, n) <==> exists i :: 0 <= i < n && Disturbed(rules[i], owners[i])
  {
    if n > 0 {
      TouchedIff(rules, owners, n - 1);
    }
  }

  lemma InOrderKeepsAll(rules: seq<LastGoodRule>, owners: seq<Owner>, current: map<string, RuleIdentity>)
    requires Proper(rules, owners, current) && InOrderWith(rules, current)
    ensures forall k :: k in KeptRules(rules, owners) <==> HasExact(rules, k)
    ensures forall i :: 0 <= i < |rules| ==>
              HasExact(rules, rules[i].ruleKey.value) && KeptRules(rules, owners)[rules[i].ruleKey.value] == rules[i]
  {
    forall k ensures k in KeptRules(rules, owners) <==> HasExact(rules, k) {
      KeptByKey(rules, owners, current, k);
      forall i | 0 <= i < |rules| ensures rules[i].ruleKey.Some? && rules[i].ruleKey.value in current {
        assert rules[i] in rules;
      }
    }
    forall i | 0 <= i < |rules|
      ensures HasExact(rules, rules[i].ruleKey.value) && KeptRules(rules, owners)[rules[i].ruleKey.value] == rules[i]
    {
      assert rules[i] in rules;
      assert LastExact(rules, rules[i].ruleKey.value, i);
      KeptByKey(rules, owners, current, rules[i].ruleKey.value);
      RetainedUpToDate(rules[i], current[rules[i].ruleKey.value]);
    }
  }

  predicate DistinctOwners(owners: seq<Owner>, n: nat)
    requires n <= |owners| && forall i :: 0 <= i < n ==> owners[i].Some?
  {
    forall i, j :: 0 <= i < j < n ==> owners[i].value.ruleKey != owners[j].value.ruleKey
  }

  lemma KeptStepSize(rules: seq<LastGoodRule>, owners: seq<Owner>, n: nat)
    requires n < |rules| == |owners| && owners[n].Some?
    ensures |Kept(rules, owners, n + 1)|
            == |Kept(rules, owners, n)| + if owners[n].value.ruleKey in Kept(rules, owners, n) then 0 else 1
  {
    var m, m' := Kept(rules, owners, n), Kept(rules, owners, n + 1);
    var k := owners[n].value.ruleKey;
    if k in m {
      assert m'.Keys == m.Keys;
    } else {
      assert m'.Keys == m.Keys + {k};
    }
    assert |m.Keys| == |m| && |m'.Keys| == |m'|;
  }

  lemma HeldKeyIsOwned(rules: seq<LastGoodRule>, owners: seq<Owner>, n: nat, k: string)
    requires n <= |rules| == |owners| && forall i :: 0 <= i < n ==> owners[i].Some?
    ensures k in Kept(rules, owners, n) <==> exists i :: 0 <= i < n && owners[i].value.ruleKey == k
  {
    var w := KeptAt(rules, owners, n, k);
    if w < 0 {
      forall i | 0 <= i < n ensures owners[i].value.ruleKey != k {
        assert !Claims(owners, i, k);
      }
    }
  }

  lemma DistinctStep(owners: seq<Owner>, n: nat)
    requires n < |owners| && forall i :: 0 <= i <= n ==> owners[i].Some?
    ensures DistinctOwners(owners, n + 1) <==>
            DistinctOwners(owners, n) && !exists i :: 0 <= i < n && owners[i].value.ruleKey == owners[n].value.ruleKey
  {
  }

  predicate CountTellsDistinct(rules: seq<LastGoodRule>, owners: seq<Owner>, n: nat)
    requires n <= |rules| == |owners| && forall i :: 0 <= i < n ==> owners[i].Some?
  {
    |Kept(rules, owners, n)| <= n && (|Kept(rules, owners, n)| == n <==> DistinctOwners(owners, n))
  }

  lemma CountStep(rules: seq<LastGoodRule>, owners: seq<Owner>, n: nat)
    requires n < |rules| == |owners| && forall i :: 0 <= i <= n ==> owners[i].Some?
    requires CountTellsDistinct(rules, owners, n)
    ensures CountTellsDistinct(rules, owners, n + 1)
  {
    KeptStepSize(rules, owners, n);
    HeldKeyIsOwned(rules, owners, n, owners[n].value.ruleKey);
    DistinctStep(owners, n);
  }

  /** Kept entries never outnumber the cached ones, and fall short when two of them claim the same key. */
  lemma {:induction false} KeptCount(rules: seq<LastGoodRule>, owners: seq<Owner>, n: nat)
    requires n <= |rules| == |owners|
    requires forall i :: 0 <= i < n ==> owners[i].Some?
    ensures CountTellsDistinct(rules, owners, n)
  {
    if n > 0 {
      KeptCount(rules, owners, n - 1);
      CountStep(rules, owners, n - 1);
    }
  }

  lemma ReportExact(rules: seq<LastGoodRule>, owners: seq<Owner>, current: map<string, RuleIdentity>)
    requires Proper(rules, owners, current)
    ensures !(Touched(rules, owners, |rules|) || |rules| != |KeptRules(rules, owners)|) <==> InOrderWith(rules, current)
  {
    TouchedIff(rules, owners, |rules|);
    assert KeptRules(rules, owners).Keys == Kept(rules, owners, |rules|).Keys;
    assert |KeptRules(rules, owners).Keys| == |KeptRules(rules, owners)|;
    assert |Kept(rules, owners, |rules|).Keys| == |Kept(rules, owners, |rules|)|;
    if forall i :: 0 <= i < |rules| ==> !Disturbed(rules[i], owners[i]) {
      KeptCount(rules, owners, |rules|);
      forall i | 0 <= i < |rules| ensures rules[i].ruleKey == Some(owners[i].value.ruleKey) {
        assert !Disturbed(rules[i], owners[i]);
      }
      forall r | r in rules
        ensures r.ruleKey.Some? && r.ruleKey.value in current && UpToDate(r, current[r.ruleKey.value])
      {
        var i :| 0 <= i < |rules| && rules[i] == r;
      }
    } else {
      var i :| 0 <= i < |rules| && Disturbed(rules[i], owners[i]);
      assert rules[i] in rules;
    }
  }

  lemma {:induction false} DistinctCount(a: seq<LastGoodRule>, x: LastGoodRule)
    requires forall i, j :: 0 <= i < j < |a| ==> a[i] != a[j]
    ensures multiset(a)[x] == if x in a then 1 else 0
  {
    if a != [] {
      var n := |a| - 1;
      DistinctCount(a[..n], x);
      assert a == a[..n] + [a[n]];
    }
  }

  lemma DistinctPermutation(a: seq<LastGoodRule>, b: seq<LastGoodRule>)
    requires forall i, j :: 0 <= i < j < |a| ==> a[i] != a[j]
    requires forall i, j :: 0 <= i < j < |b| ==> b[i] != b[j]
    requires forall x :: x in a <==> x in b
    ensures multiset(a) == multiset(b)
  {
    forall x ensures multiset(a)[x] == multiset(b)[x] {
      DistinctCount(a, x);
      DistinctCount(b, x);
    }
  }

  lemma DrainedHasExact(rules: seq<LastGoodRule>, owners: seq<Owner>, p: seq<LastGoodRule>, k: string)
    requires |rules| == |owners| && p == ValuesInOrder(KeptRules(rules, owners))
    ensures HasExact(p, k) <==> k in KeptRules(rules, owners)
    ensures forall i :: 0 <= i < |p| && p[i].ruleKey == Some(k) ==>
              k in KeptRules(rules, owners) && p[i] == KeptRules(rules, owners)[k]
  {
    DrainedEntries(rules, owners);
    ExactInDrained(KeptRules(rules, owners), InOrder(KeptRules(rules, owners).Keys), p, k);
  }

  lemma ExactInDrained(m: map<string, LastGoodRule>, ks: seq<string>, p: seq<LastGoodRule>, k: string)
    requires |p| == |ks| && forall x :: x in ks <==> x in m
    requires forall i :: 0 <= i < |p| ==> p[i] == m[ks[i]] && p[i].ruleKey == Some(ks[i])
    ensures HasExact(p, k) <==> k in m
    ensures forall i :: 0 <= i < |p| && p[i].ruleKey == Some(k) ==> k in m && p[i] == m[k]
  {
    if k in m {
      var i :| 0 <= i < |ks| && ks[i] == k;
      assert p[i].ruleKey == Some(k);
    }
  }

  lemma InOrderPermutation(rules: seq<LastGoodRule>, owners: seq<Owner>, current: map<string, RuleIdentity>,
                           p: seq<LastGoodRule>)
    requires Proper(rules, owners, current) && InOrderWith(rules, current)
             && p == ValuesInOrder(KeptRules(rules, owners))
    ensures multiset(p) == multiset(rules)
  {
    InOrderKeepsAll(rules, owners, current);
    DrainedEntries(rules, owners);
    forall x | x in p ensures x in rules {
      var i :| 0 <= i < |p| && p[i] == x;
      var k := InOrder(KeptRules(rules, owners).Keys)[i];
      assert HasExact(rules, k);
      var j :| 0 <= j < |rules| && rules[j].ruleKey == Some(k);
      assert rules[j] == x;
    }
    forall x | x in rules ensures x in p {
      var j :| 0 <= j < |rules| && rules[j] == x;
      DrainedHasExact(rules, owners, p, x.ruleKey.value);
      var i :| 0 <= i < |p| && p[i].ruleKey == x.ruleKey;
      assert p[i] == x;
    }
    DistinctPermutation(p, rules);
  }

  lemma RedrainedKeepsAll(rules: seq<LastGoodRule>, owners: seq<Owner>, p: seq<LastGoodRule>, again: seq<Owner>,
                          current: map<string, RuleIdentity>)
    requires Proper(rules, owners, current) && p == ValuesInOrder(KeptRules(rules, owners))
    requires Proper(p, again, current)
    ensures forall k :: k in KeptRules(p, again) <==> HasExact(p, k)
    ensures forall i :: 0 <= i < |p| ==> p[i].ruleKey.Some? && HasExact(p, p[i].ruleKey.value)
                                         && KeptRules(p, again)[p[i].ruleKey.value] == p[i]
  {
    DrainedInOrder(rules, owners, current);
    InOrderKeepsAll(p, again, current);
    DrainedEntries(rules, owners);
  }

  lemma RedrainedKey(rules: seq<LastGoodRule>, owners: seq<Owner>, p: seq<LastGoodRule>, again: seq<Owner>,
                     current: map<string, RuleIdentity>, k: string)
    requires Proper(rules, owners, current) && p == ValuesInOrder(KeptRules(rules, owners))
    requires Proper(p, again, current)
    ensures k in KeptRules(p, again) <==> k in KeptRules(rules, owners)
  {
    RedrainedKeepsAll(rules, owners, p, again, current);
    DrainedHasExact(rules, owners, p, k);
  }

  lemma RedrainedValue(rules: seq<LastGoodRule>, owners: seq<Owner>, p: seq<LastGoodRule>, again: seq<Owner>,
                       current: map<string, RuleIdentity>, k: string)
    requires Proper(rules, owners, current) && p == ValuesInOrder(KeptRules(rules, owners))
    requires Proper(p, again, current) && k in KeptRules(rules, owners)
    ensures k in KeptRules(p, again) && KeptRules(p, again)[k] == KeptRules(rules, owners)[k]
  {
    RedrainedKey(rules, owners, p, again, current, k);
    DrainedHasExact(rules, owners, p, k);
    var i :| 0 <= i < |p| && p[i].ruleKey == Some(k);
    RedrainedKeepsAll(rules, owners, p, again, current);
    assert KeptRules(p, again)[p[i].ruleKey.value] == p[i];
  }

  /** Draining a cache that pruning has already put in order gives the same table. */
  lemma DrainedTwice(rules: seq<LastGoodRule>, owners: seq<Owner>, p: seq<LastGoodRule>, again: seq<Owner>,
                     current: map<string, RuleIdentity>)
    requires Proper(rules, owners, current) && p == ValuesInOrder(KeptRules(rules, owners))
    requires Proper(p, again, current)
    ensures KeptRules(p, again) == KeptRules(rules, owners)
  {
    forall k ensures k in KeptRules(p, again) <==> k in KeptRules(rules, owners) {
      RedrainedKey(rules, owners, p, again, current, k);
    }
    forall k | k in KeptRules(rules, owners) ensures KeptRules(p, again)[k] == KeptRules(rules, owners)[k] {
      RedrainedValue(rules, owners, p, again, current, k);
    }
  }

  // ---------------------------------------------------------------- the owners of a real configuration

  lemma CountTwo(xs: seq<string>, d: string, i: nat, j: nat)
    requires i < j < |xs| && xs[i] == d && xs[j] == d
    ensures multiset(xs)[d] >= 2
  {
    assert xs[..j][i] == d;
    assert xs == xs[..j] + ([d] + xs[j + 1..]);
  }

  lemma CountOneIsUnique(xs: seq<string>, d: string, i: nat, j: nat)
    requires i < |xs| && j < |xs| && xs[i] == d && xs[j] == d && multiset(xs)[d] == 1
    ensures i == j
  {
    if i < j {
      CountTwo(xs, d, i, j);
    } else if j < i {
      CountTwo(xs, d, j, i);
    }
  }

  lemma KeyedOwner(rules: seq<LastGoodRule>, ids: seq<RuleIdentity>, i: nat)
    requires i < |rules| && rules[i].ruleKey.Some?
    ensures var current, k := IdentitiesByKey(ids), rules[i].ruleKey.value;
            Owners(rules, ids)[i] == (if k in current then Some(current[k]) else None)
            && (k in current ==> current[k].ruleKey == k)
  {
    assert Owners(rules, ids)[i] == IdentityOf(rules[i], rules, ids);
  }

  /** A keyless entry belongs to a rule exactly when its domain is named once in the cache and once in the
      configuration; the rule is then the only one with that domain. */
  lemma KeylessOwner(rules: seq<LastGoodRule>, ids: seq<RuleIdentity>, i: nat)
    requires i < |rules| && rules[i].ruleKey.None?
    ensures var d, o := NormalizeDomain(rules[i].domain), Owners(rules, ids)[i];
            && (o.Some? <==> UniqueOnBothSides(d, rules, ids))
            && (o.Some? ==> exists a :: 0 <= a < |ids| && o.value == ids[a] && IdentityDomains(ids)[a] == d)
  {
    var d := NormalizeDomain(rules[i].domain);
    assert Owners(rules, ids)[i] == IdentityOf(rules[i], rules, ids);
    if UniqueOnBothSides(d, rules, ids) {
      assert d in IdentityDomains(ids);
    }
  }

  lemma LatestOfDomain(ids: seq<RuleIdentity>, a: nat, d: string)
    requires WellKeyed(ids) && a < |ids| && IdentityDomains(ids)[a] == d && multiset(IdentityDomains(ids))[d] == 1
    ensures ids[a].ruleKey in IdentitiesByKey(ids) && IdentitiesByKey(ids)[ids[a].ruleKey] == ids[a]
  {
    var k := ids[a].ruleKey;
    assert IdentityKeys(ids)[a] == k;
    var b :| 0 <= b < |ids| && IdentityKeys(ids)[b] == k && IdentitiesByKey(ids)[k] == ids[b];
    assert ids[a] in ids && ids[b] in ids && SameDomain(ids[a].domain, ids[b].domain);
    CountOneIsUnique(IdentityDomains(ids), d, a, b);
  }

  lemma OwnerIsCurrent(rules: seq<LastGoodRule>, ids: seq<RuleIdentity>, i: nat, o: RuleIdentity)
    requires WellKeyed(ids) && i < |rules| && Owners(rules, ids)[i] == Some(o)
    ensures o.ruleKey in IdentitiesByKey(ids) && IdentitiesByKey(ids)[o.ruleKey] == o
  {
    if rules[i].ruleKey.Some? {
      KeyedOwner(rules, ids, i);
    } else {
      KeylessOwner(rules, ids, i);
      var d := NormalizeDomain(rules[i].domain);
      var a :| 0 <= a < |ids| && o == ids[a] && IdentityDomains(ids)[a] == d;
      LatestOfDomain(ids, a, d);
    }
  }

  lemma KeylessOwnersDiffer(rules: seq<LastGoodRule>, ids: seq<RuleIdentity>, i: nat, j: nat)
    requires i < j < |rules| && rules[i].ruleKey.None? && rules[j].ruleKey.None? && Owners(rules, ids)[i].Some?
    ensures Owners(rules, ids)[i] != Owners(rules, ids)[j]
  {
    var owners := Owners(rules, ids);
    if owners[i] == owners[j] {
      KeylessOwner(rules, ids, i);
      KeylessOwner(rules, ids, j);
      var d, e := NormalizeDomain(rules[i].domain), NormalizeDomain(rules[j].domain);
      var a :| 0 <= a < |ids| && owners[i].value == ids[a] && IdentityDomains(ids)[a] == d;
      var b :| 0 <= b < |ids| && owners[j].value == ids[b] && IdentityDomains(ids)[b] == e;
      assert d == NormalizeDomain(ids[a].domain) == e;
      CountTwo(RuleDomains(rules), d, i, j);
    }
  }

  lemma OwnersAreProper(rules: seq<LastGoodRule>, ids: seq<RuleIdentity>)
    requires WellKeyed(ids)
    ensures Proper(rules, Owners(rules, ids), IdentitiesByKey(ids))
  {
    var owners, current := Owners(rules, ids), IdentitiesByKey(ids);
    forall k | k in current ensures current[k].ruleKey == k {
      var b :| 0 <= b < |ids| && IdentityKeys(ids)[b] == k && current[k] == ids[b];
    }
    forall i | 0 <= i < |owners| && rules[i].ruleKey.Some?
      ensures if rules[i].ruleKey.value in current then owners[i] == Some(current[rules[i].ruleKey.value])
              else owners[i].None?
    {
      KeyedOwner(rules, ids, i);
    }
    forall i | 0 <= i < |owners| && owners[i].Some?
      ensures owners[i].value.ruleKey in current && current[owners[i].value.ruleKey] == owners[i].value
    {
      OwnerIsCurrent(rules, ids, i, owners[i].value);
    }
    forall i, j | 0 <= i < j < |owners| && rules[i].ruleKey.None? && rules[j].ruleKey.None? && owners[i].Some?
      ensures owners[i] != owners[j]
    {
      KeylessOwnersDiffer(rules, ids, i, j);
    }
  }

  // ---------------------------------------------------------------- the laws of pruning

  /** A keyless entry stands in for a rule exactly when its domain is unique on both sides. */
  predicate LegacyFor(rules: seq<LastGoodRule>, ids: seq<RuleIdentity>, id: RuleIdentity, i: int) {
    0 <= i < |rules| && rules[i].ruleKey.None? && SameDomain(rules[i].domain, id.domain)
    && UniqueOnBothSides(NormalizeDomain(rules[i].domain), rules, ids)
  }

  lemma LegacyIffKeyless(rules: seq<LastGoodRule>, ids: seq<RuleIdentity>, k: string, i: int)
    requires WellKeyed(ids) && k in IdentitiesByKey(ids)
    ensures LegacyFor(rules, ids, IdentitiesByKey(ids)[k], i) <==> KeylessFor(rules, Owners(rules, ids), k, i)
  {
    OwnersAreProper(rules, ids);
    if 0 <= i < |rules| && rules[i].ruleKey.None? {
      KeylessOwner(rules, ids, i);
      var d, o := NormalizeDomain(rules[i].domain), Owners(rules, ids)[i];
      var id := IdentitiesByKey(ids)[k];
      var b :| 0 <= b < |ids| && IdentityKeys(ids)[b] == k && id == ids[b];
      if o.Some? {
        var a :| 0 <= a < |ids| && o.value == ids[a] && IdentityDomains(ids)[a] == d;
        assert IdentityDomains(ids)[b] == NormalizeDomain(id.domain);
        if SameDomain(rules[i].domain, id.domain) {
          CountOneIsUnique(IdentityDomains(ids), d, a, b);
        }
      }
    }
  }

  /** Pruning, key by key: an entry stored under the key wins over any keyless one, whatever their order,
      and among several the last one wins; a keyless entry is kept exactly when there is no such entry and
      its domain is unique in the cache and in the configuration; nothing else survives. */
  lemma PrunedByKey(rules: seq<LastGoodRule>, ids: seq<RuleIdentity>, k: string)
    requires WellKeyed(ids)
    ensures var m, current := KeptRules(rules, Owners(rules, ids)), IdentitiesByKey(ids);
            && (k !in current ==> k !in m)
            && (k in current ==> (k in m <==> HasExact(rules, k) || exists i :: LegacyFor(rules, ids, current[k], i)))
            && (k in current ==>
                  forall i :: LastExact(rules, k, i) ==> k in m && m[k] == Retained(rules[i], current[k]))
            && (k in current && !HasExact(rules, k) ==> forall i :: LegacyFor(rules, ids, current[k], i) ==>
                  k in m && m[k] == Retained(rules[i], current[k]))
  {
    var owners, current := Owners(rules, ids), IdentitiesByKey(ids);
    OwnersAreProper(rules, ids);
    KeptByKey(rules, owners, current, k);
    if k in current {
      forall i ensures LegacyFor(rules, ids, current[k], i) <==> KeylessFor(rules, owners, k, i) {
        LegacyIffKeyless(rules, ids, k, i);
      }
    }
  }

  /** After pruning there is at most one entry per key, and each carries the current rule id and the
      current domain. */
  lemma PruningPutsInOrder(rules: seq<LastGoodRule>, ids: seq<RuleIdentity>)
    requires WellKeyed(ids)
    ensures InOrderWith(Pruned(rules, ids), IdentitiesByKey(ids))
  {
    OwnersAreProper(rules, ids);
    DrainedInOrder(rules, Owners(rules, ids), IdentitiesByKey(ids));
  }

  /** r is o with only its id, key and domain brought up to date; o had the same key, or none. */
  predicate ComesFrom(r: LastGoodRule, o: LastGoodRule) {
    (o.ruleKey == r.ruleKey || o.ruleKey.None?) && r == o.(ruleId := r.ruleId, ruleKey := r.ruleKey, domain := r.domain)
  }

  lemma KeptComesFrom(rules: seq<LastGoodRule>, ids: seq<RuleIdentity>, k: string) returns (w: nat)
    requires k in KeptRules(rules, Owners(rules, ids))
    ensures w < |rules| && ComesFrom(KeptRules(rules, Owners(rules, ids))[k], rules[w])
  {
    w := KeptAt(rules, Owners(rules, ids), |rules|, k);
    if rules[w].ruleKey.Some? {
      KeyedOwner(rules, ids, w);
    }
  }

  /** Pruning invents nothing: each surviving entry is an old one, under its own key or keyless, with only
      its id, key and domain brought up to date. */
  lemma PruningInventsNothing(rules: seq<LastGoodRule>, ids: seq<RuleIdentity>)
    ensures forall r :: r in Pruned(rules, ids) ==> exists o :: o in rules && ComesFrom(r, o)
  {
    var m := KeptRules(rules, Owners(rules, ids));
    forall r | r in Pruned(rules, ids) ensures exists o :: o in rules && ComesFrom(r, o) {
      var k :| k in m && m[k] == r;
      var w := KeptComesFrom(rules, ids, k);
      assert rules[w] in rules;
    }
  }

  /** The changed flag is exact: it stays false precisely when the cache was already in order. */
  lemma UnchangedIff(rules: seq<LastGoodRule>, ids: seq<RuleIdentity>)
    requires WellKeyed(ids)
    ensures !PruneReport(rules, ids).changed <==> InOrderWith(rules, IdentitiesByKey(ids))
  {
    OwnersAreProper(rules, ids);
    ReportExact(rules, Owners(rules, ids), IdentitiesByKey(ids));
  }

  /** If pruning reports no change, the cache still holds exactly the same entries. */
  lemma UnchangedIsPermutation(rules: seq<LastGoodRule>, ids: seq<RuleIdentity>)
    requires WellKeyed(ids) && !PruneReport(rules, ids).changed
    ensures multiset(Pruned(rules, ids)) == multiset(rules)
  {
    UnchangedIff(rules, ids);
    OwnersAreProper(rules, ids);
    InOrderPermutation(rules, Owners(rules, ids), IdentitiesByKey(ids), Pruned(rules, ids));
  }

  /** Pruning twice is pruning once: the second run reports no change and returns the same list. */
  lemma PruningIsIdempotent(rules: seq<LastGoodRule>, ids: seq<RuleIdentity>)
    requires WellKeyed(ids)
    ensures !PruneReport(Pruned(rules, ids), ids).changed
    ensures Pruned(Pruned(rules, ids), ids) == Pruned(rules, ids)
  {
    PruningPutsInOrder(rules, ids);
    UnchangedIff(Pruned(rules, ids), ids);
    OwnersAreProper(rules, ids);
    OwnersAreProper(Pruned(rules, ids), ids);
    DrainedTwice(rules, Owners(rules, ids), Pruned(rules, ids), Owners(Pruned(rules, ids), ids), IdentitiesByKey(ids));
  }
}
