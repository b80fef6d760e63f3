/** Key order of the ordered maps the program drains: strings by code point, lexicographically. */
module Ordered {

  predicate StrLe(a: string, b: string) {
    if a == [] then true
    else if b == [] then false
    else a[0] < b[0] || (a[0] == b[0] && StrLe(a[1..], b[1..]))
  }

  lemma {:induction false} StrLeTotal(a: string, b: string)
    ensures StrLe(a, b) || StrLe(b, a)
  {
    if a != [] && b != [] && a[0] == b[0] {
      StrLeTotal(a[1..], b[1..]);
    }
  }

  lemma {:induction false} StrLeAntisymmetric(a: string, b: string)
    requires StrLe(a, b) && StrLe(b, a)
    ensures a == b
  {
    if a != [] {
      StrLeAntisymmetric(a[1..], b[1..]);
      assert a == [a[0]] + a[1..] && b == [b[0]] + b[1..];
    }
  }

  lemma {:induction false} StrLeTransitive(a: string, b: string, c: string)
    requires StrLe(a, b) && StrLe(b, c)
    ensures StrLe(a, c)
  {
    if a != [] && a[0] == b[0] && b[0] == c[0] {
      StrLeTransitive(a[1..], b[1..], c[1..]);
    }
  }

  predicate IsLeast(k: string, s: set<string>) {
    k in s && forall j :: j in s ==> StrLe(k, j)
  }

  lemma {:induction false} LeastExists(s: set<string>)
    requires s != {}
    ensures exists k :: IsLeast(k, s)
  {
    var x :| x in s;
    StrLeTotal(x, x);
    if s == {x} {
      assert IsLeast(x, s);
    } else {
      var rest := s - {x};
      LeastExists(rest);
      var k :| IsLeast(k, rest);
      StrLeTotal(x, k);
      if StrLe(k, x) {
        assert IsLeast(k, s);
      } else {
        forall j | j in s ensures StrLe(x, j) {
          if j != x {
            StrLeTransitive(x, k, j);
          }
        }
        assert IsLeast(x, s);
      }
    }
  }

  lemma LeastUnique(k: string, k': string, s: set<string>)
    requires IsLeast(k, s) && IsLeast(k', s)
    ensures k == k'
  {
    StrLeAntisymmetric(k, k');
  }

  function Least(s: set<string>): (k: string)
    requires s != {}
    ensures IsLeast(k, s)
  {
    LeastExists(s);
    assert forall k, k' :: IsLeast(k, s) && IsLeast(k', s) ==> k == k' by {
      forall k, k' | IsLeast(k, s) && IsLeast(k', s) ensures k == k' {
        LeastUnique(k, k', s);
      }
    }
    var k :| IsLeast(k, s);
    k
  }

  lemma LeastInFront(s: set<string>, k: string, rest: seq<string>)
    requires IsLeast(k, s) && |rest| == |s - {k}| && forall j :: j in rest <==> j in s - {k}
    requires forall i, j :: 0 <= i < j < |rest| ==> rest[i] != rest[j] && StrLe(rest[i], rest[j])
    ensures |[k] + rest| == |s| && forall j :: j in [k] + rest <==> j in s
    ensures forall i, j :: 0 <= i < j < |[k] + rest| ==>
              ([k] + rest)[i] != ([k] + rest)[j] && StrLe(([k] + rest)[i], ([k] + rest)[j])
  {
    var r := [k] + rest;
    assert s == {k} + (s - {k});
    forall i, j | 0 <= i < j < |r| ensures r[i] != r[j] && StrLe(r[i], r[j]) {
      assert r[j] == rest[j - 1] && rest[j - 1] in rest;
    }
  }

  /** The keys of an ordered map, in iteration order. */
  function InOrder(s: set<string>): (r: seq<string>)
    ensures |r| == |s|
    ensures forall k :: k in r <==> k in s
    ensures forall i, j :: 0 <= i < j < |r| ==> r[i] != r[j] && StrLe(r[i], r[j])
    decreases |s|
  {
    if s == {} then []
    else
      var k := Least(s);
      var rest := InOrder(s - {k});
      LeastInFront(s, k, rest);
      [k] + rest
  }

  /** The values of an ordered map, in iteration order. */
  function ValuesInOrder<V(!new)>(m: map<string, V>): (r: seq<V>)
    ensures |r| == |m|
    ensures forall v :: v in r <==> exists k :: k in m && m[k] == v
  {
    var ks := InOrder(m.Keys);
    assert |m.Keys| == |m|;
    var r := seq(|ks|, i requires 0 <= i < |ks| => m[ks[i]]);
    assert forall v :: v in r ==> exists k :: k in m && m[k] == v;
    assert forall k :: k in m ==> m[k] in r by {
      forall k | k in m ensures m[k] in r {
        assert k in ks;
        var i :| 0 <= i < |ks| && ks[i] == k;
        assert r[i] == m[k];
      }
    }
    r
  }
}
