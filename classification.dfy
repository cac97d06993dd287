/** The known/unknown classification of the fusions reported by the tool
    parser: a fusion identity is known when it occurs in the list of
    reference identities, unknown otherwise. Both lists keep the order of the
    input and keep its duplicates. */
module Classification {

  /** The known and the unknown list, side by side. */
  datatype Lists = Lists(known: seq<string>, unknown: seq<string>)

  /** The two lists as they stand after the classification pass has walked
      `fusions` front to back, appending each identity to one of them. */
  function Classify(fusions: seq<string>, db: seq<string>): (c: Lists)
    ensures |c.known| + |c.unknown| == |fusions|
  {
    if fusions == [] then
      Lists([], [])
    else
      var last := fusions[|fusions| - 1];
      var c := Classify(fusions[..|fusions| - 1], db);
      if last in db then Lists(c.known + [last], c.unknown)
      else Lists(c.known, c.unknown + [last])
  }

  /** Every known fusion is in the reference list and every unknown one is
      not; every input fusion is in the list its membership selects, and
      nothing else is in either list. */
  lemma {:induction false} ClassifyMembership(fusions: seq<string>, db: seq<string>)
    ensures var c := Classify(fusions, db);
            forall x :: (x in c.known <==> x in fusions && x in db)
                     && (x in c.unknown <==> x in fusions && x !in db)
  {
    if fusions != [] {
      var prefix := fusions[..|fusions| - 1];
      ClassifyMembership(prefix, db);
      assert fusions == prefix + [fusions[|fusions| - 1]];
    }
  }

  /** Walking one more fusion appends it to exactly one of the lists. */
  lemma ClassifyStep(fusions: seq<string>, i: nat, db: seq<string>)
    requires i < |fusions|
    ensures var c := Classify(fusions[..i], db);
            Classify(fusions[..i + 1], db) ==
              if fusions[i] in db then Lists(c.known + [fusions[i]], c.unknown)
              else Lists(c.known, c.unknown + [fusions[i]])
  {
    assert fusions[..i + 1][..i] == fusions[..i];
  }

  /** Every input fusion lands in exactly one of the two lists, counted
      with its duplicates. */
  lemma {:induction false} ClassifyMultiset(fusions: seq<string>, db: seq<string>)
    ensures multiset(Classify(fusions, db).known) + multiset(Classify(fusions, db).unknown)
            == multiset(fusions)
  {
    if fusions != [] {
      var prefix := fusions[..|fusions| - 1];
      ClassifyMultiset(prefix, db);
      assert fusions == prefix + [fusions[|fusions| - 1]];
    }
  }

  /** Classification depends only on the identity: all copies of a known
      identity are known and all copies of an unknown one are unknown. */
  lemma {:induction false} ClassifyOccurrences(fusions: seq<string>, db: seq<string>, x: string)
    ensures multiset(Classify(fusions, db).known)[x] == if x in db then multiset(fusions)[x] else 0
    ensures multiset(Classify(fusions, db).unknown)[x] == if x in db then 0 else multiset(fusions)[x]
  {
    if fusions != [] {
      var prefix := fusions[..|fusions| - 1];
      ClassifyOccurrences(prefix, db, x);
      assert fusions == prefix + [fusions[|fusions| - 1]];
    }
  }

  /** As sets, the two lists partition the input: disjoint and exhaustive. */
  lemma ClassifyPartition(fusions: seq<string>, db: seq<string>)
    ensures var c := Classify(fusions, db);
            (set x | x in c.known) + (set x | x in c.unknown) == set x | x in fusions
    ensures var c := Classify(fusions, db);
            (set x | x in c.known) * (set x | x in c.unknown) == {}
  {
    ClassifyMembership(fusions, db);
  }

  /** Order is preserved: classifying a concatenation classifies each part
      and concatenates the results. */
  lemma {:induction false} ClassifyAppend(a: seq<string>, b: seq<string>, db: seq<string>)
    ensures Classify(a + b, db).known == Classify(a, db).known + Classify(b, db).known
    ensures Classify(a + b, db).unknown == Classify(a, db).unknown + Classify(b, db).unknown
    decreases |b|
  {
    if b != [] {
      var b' := b[..|b| - 1];
      assert (a + b)[..|a + b| - 1] == a + b';
      ClassifyAppend(a, b', db);
    } else {
      assert a + b == a;
    }
  }

  /** Whether each input position is known, in input order. */
  function Flags(fusions: seq<string>, db: seq<string>): (f: seq<bool>)
    ensures |f| == |fusions|
  {
    seq(|fusions|, i requires 0 <= i < |fusions| => fusions[i] in db)
  }

  /** Merges two lists by taking the next element from `known` at a true
      flag and from `unknown` at a false one (built from the back, missing
      elements are skipped). */
  function Interleave(flags: seq<bool>, known: seq<string>, unknown: seq<string>): seq<string>
  {
    if flags == [] then []
    else if flags[|flags| - 1] then
      if known == [] then Interleave(flags[..|flags| - 1], known, unknown)
      else Interleave(flags[..|flags| - 1], known[..|known| - 1], unknown) + [known[|known| - 1]]
    else
      if unknown == [] then Interleave(flags[..|flags| - 1], known, unknown)
      else Interleave(flags[..|flags| - 1], known, unknown[..|unknown| - 1]) + [unknown[|unknown| - 1]]
  }

  /** Interleaving one more flag together with its element appends that
      element. */
  lemma InterleaveSnoc(flags: seq<bool>, b: bool, known: seq<string>, unknown: seq<string>, x: string)
    ensures b ==> Interleave(flags + [b], known + [x], unknown) == Interleave(flags, known, unknown) + [x]
    ensures !b ==> Interleave(flags + [b], known, unknown + [x]) == Interleave(flags, known, unknown) + [x]
  {
    assert (flags + [b])[..|flags|] == flags;
    assert (known + [x])[..|known|] == known;
    assert (unknown + [x])[..|unknown|] == unknown;
  }

  /** One more fusion adds one more flag at the end. */
  lemma FlagsSnoc(prefix: seq<string>, x: string, db: seq<string>)
    ensures Flags(prefix + [x], db) == Flags(prefix, db) + [x in db]
  {
  }

  /** The two lists lose nothing of the input's order: interleaving them
      along the membership flags rebuilds the input exactly. */
  lemma {:induction false} ClassifyInterleave(fusions: seq<string>, db: seq<string>)
    ensures var c := Classify(fusions, db);
            Interleave(Flags(fusions, db), c.known, c.unknown) == fusions
  {
    if fusions != [] {
      var prefix := fusions[..|fusions| - 1];
      var last := fusions[|fusions| - 1];
      assert fusions == prefix + [last];
      ClassifyInterleave(prefix, db);
      FlagsSnoc(prefix, last, db);
      var c := Classify(prefix, db);
      InterleaveSnoc(Flags(prefix, db), last in db, c.known, c.unknown, last);
    }
  }

  /** When every fusion is in the reference list the known list is the
      whole input; when none is, the unknown list is. */
  lemma {:induction false} ClassifyAllOrNone(fusions: seq<string>, db: seq<string>)
    ensures (forall i :: 0 <= i < |fusions| ==> fusions[i] in db) ==>
              Classify(fusions, db) == Lists(fusions, [])
    ensures (forall i :: 0 <= i < |fusions| ==> fusions[i] !in db) ==>
              Classify(fusions, db) == Lists([], fusions)
  {
    if fusions != [] {
      var prefix := fusions[..|fusions| - 1];
      ClassifyAllOrNone(prefix, db);
      assert fusions == prefix + [fusions[|fusions| - 1]];
    }
  }
}
