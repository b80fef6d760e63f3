/** Splitting a long element list into batches, one per generated line. */
module ElementBatches {

  const BATCH := 256

  function Batches<T>(s: seq<T>): (r: seq<seq<T>>)
    ensures forall b :: b in r ==> 0 < |b| <= BATCH
  {
    if |s| == 0 then []
    else if |s| <= BATCH then [s]
    else [s[..BATCH]] + Batches(s[BATCH..])
  }

  function Flatten<T>(bs: seq<seq<T>>): seq<T> {
    if bs == [] then [] else bs[0] + Flatten(bs[1..])
  }

  /** Batching loses, repeats and reorders nothing, and every batch but the last is full. */
  lemma {:induction false} BatchesPartition<T>(s: seq<T>)
    ensures Flatten(Batches(s)) == s
    ensures forall i :: 0 <= i < |Batches(s)| - 1 ==> |Batches(s)[i]| == BATCH
  {
    if |s| > BATCH {
      BatchesPartition(s[BATCH..]);
      assert s == s[..BATCH] + s[BATCH..];
    } else if |s| > 0 {
      assert Batches(s) == [s];
      assert Flatten([s]) == s + Flatten<T>([]);
    }
  }

  lemma {:induction false} BatchesOfFull<T>(full: seq<T>, rest: seq<T>)
    requires |full| % BATCH == 0
    ensures Batches(full + rest) == Batches(full) + Batches(rest)
  {
    if full == [] {
      assert full + rest == rest;
    } else {
      var more := full[BATCH..];
      assert (full + rest)[BATCH..] == more + rest && (full + rest)[..BATCH] == full[..BATCH];
      BatchesOfFull(more, rest);
      if rest == [] {
        assert full + rest == full;
      } else if more == [] {
        assert Batches(more + rest) == Batches(rest);
        assert full == full[..BATCH];
      }
    }
  }
}
