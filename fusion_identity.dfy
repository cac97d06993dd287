/** The gene-pair identity of a fusion: the head and tail gene symbols joined
    by the separator "--" (the reference table builds it in SQL as
    `h_gene || "--" || t_gene`), and the `split('--')` that recovers the pair
    before the per-fusion annotation lookups. */
module FusionIdentity {

  const Separator: string := "--"

  /** No occurrence of the separator anywhere in `w`. */
  predicate NoSeparator(w: string)
  {
    forall j :: 0 <= j < |w| - 1 ==> !(w[j] == '-' && w[j + 1] == '-')
  }

  /** A head gene symbol that survives the round trip through the identity
      string: no separator inside and no trailing '-', which would otherwise
      merge with the separator. */
  predicate ValidHead(h: string)
  {
    NoSeparator(h) && (h == [] || h[|h| - 1] != '-')
  }

  /** The canonical identity `HEAD--TAIL`. */
  function Join(h: string, t: string): (r: string)
    ensures |r| == |h| + |t| + 2 && r[..|h|] == h && r[|h| + 2..] == t
    ensures r[|h|..|h| + 2] == Separator
    ensures !NoSeparator(r)
  {
    var r := h + Separator + t;
    assert r[|h|] == '-' && r[|h| + 1] == '-';
    r
  }

  /** The reference identities, one per (head, tail) row of the reference
      table, in row order. */
  function ReferenceIdentities(rows: seq<(string, string)>): (ids: seq<string>)
    ensures |ids| == |rows|
    ensures forall k :: 0 <= k < |rows| ==> ids[k] == Join(rows[k].0, rows[k].1)
    ensures forall k :: 0 <= k < |rows| && ValidHead(rows[k].0) && NoSeparator(rows[k].1) ==>
              Split(ids[k]) == [rows[k].0, rows[k].1]
  {
    var ids := seq(|rows|, k requires 0 <= k < |rows| => Join(rows[k].0, rows[k].1));
    assert forall k :: 0 <= k < |rows| && ValidHead(rows[k].0) && NoSeparator(rows[k].1) ==>
             Split(ids[k]) == [rows[k].0, rows[k].1] by {
      forall k | 0 <= k < |rows| && ValidHead(rows[k].0) && NoSeparator(rows[k].1)
        ensures Split(ids[k]) == [rows[k].0, rows[k].1]
      {
        SplitJoin(rows[k].0, rows[k].1);
      }
    }
    ids
  }

  /** The pieces of a split put back together with the separator between
      consecutive pieces; the reference for what `Split` must return. */
  function JoinAll(parts: seq<string>): string
    requires |parts| >= 1
  {
    if |parts| == 1 then parts[0] else parts[0] + Separator + JoinAll(parts[1..])
  }

  /** Python's `s.split('--')`: scan left to right, cut at every
      non-overlapping occurrence of the separator. No piece holds a
      separator and no piece before a cut ends in '-', so every cut is at
      the leftmost separator of what remains. */
  function Split(s: string): (r: seq<string>)
    ensures |r| >= 1
    ensures JoinAll(r) == s
    ensures r[0] <= s
    ensures forall k :: 0 <= k < |r| ==> NoSeparator(r[k])
    ensures forall k :: 0 <= k < |r| - 1 ==> ValidHead(r[k])
    decreases |s|
  {
    if |s| < 2 then
      [s]
    else if s[..2] == Separator then
      [""] + Split(s[2..])
    else
      var rest := Split(s[1..]);
      PrependKeepsNoSeparator(s, rest[0]);
      if |rest| == 1 then
        [[s[0]] + rest[0]]
      else
        JoinAllExtendFirst([s[0]], rest);
        [[s[0]] + rest[0]] + rest[1..]
  }

  /** Putting the first character of `s` back in front of a separator-free
      prefix of `s[1..]` cannot create a separator, given that `s` does not
      start with one. */
  lemma PrependKeepsNoSeparator(s: string, w: string)
    requires |s| >= 2 && s[..2] != Separator
    requires w <= s[1..] && NoSeparator(w)
    ensures NoSeparator([s[0]] + w)
  {
    var first := [s[0]] + w;
    forall j | 0 <= j < |first| - 1
      ensures !(first[j] == '-' && first[j + 1] == '-')
    {
      if j == 0 {
        assert first[1] == s[1];
        assert !(s[0] == '-' && s[1] == '-');
      } else {
        assert first[j] == w[j - 1] && first[j + 1] == w[j];
      }
    }
  }

  /** Joining a piece in front of at least one more piece puts a
      separator between them. */
  lemma JoinAllCons(p: string, parts: seq<string>)
    requires |parts| >= 1
    ensures JoinAll([p] + parts) == p + Separator + JoinAll(parts)
  {
    assert ([p] + parts)[1..] == parts;
  }

  lemma ConcatAssoc(a: string, b: string, d: string)
    ensures (a + b) + d == a + (b + d)
  {
  }

  /** Extending the first piece extends the joined string at the front. */
  lemma JoinAllExtendFirst(c: string, parts: seq<string>)
    requires |parts| >= 2
    ensures JoinAll([c + parts[0]] + parts[1..]) == c + JoinAll(parts)
  {
    var tail := JoinAll(parts[1..]);
    JoinAllCons(c + parts[0], parts[1..]);
    JoinAllCons(parts[0], parts[1..]);
    assert [parts[0]] + parts[1..] == parts;
    ConcatAssoc(c, parts[0], Separator + tail);
    ConcatAssoc(parts[0], Separator, tail);
    ConcatAssoc(c + parts[0], Separator, tail);
  }

  /** A string without the separator is not cut at all. */
  lemma {:induction false} SplitWithoutSeparator(t: string)
    requires NoSeparator(t)
    ensures Split(t) == [t]
    decreases |t|
  {
    if |t| >= 2 {
      assert t[..2] != Separator by { assert !(t[0] == '-' && t[1] == '-'); }
      assert NoSeparator(t[1..]) by {
        forall j | 0 <= j < |t[1..]| - 1
          ensures !(t[1..][j] == '-' && t[1..][j + 1] == '-')
        {
          assert t[1..][j] == t[j + 1] && t[1..][j + 1] == t[j + 2];
        }
      }
      SplitWithoutSeparator(t[1..]);
      assert [t[0]] + t[1..] == t;
    }
  }

  /** The round trip the annotation lookups rely on: splitting a reference
      identity gives back exactly the two-element pair [head, tail]. */
  lemma {:induction false} SplitJoin(h: string, t: string)
    requires ValidHead(h) && NoSeparator(t)
    ensures Split(Join(h, t)) == [h, t]
    decreases |h|
  {
    var s := Join(h, t);
    if h == [] {
      assert s[..2] == Separator && s[2..] == t;
      SplitWithoutSeparator(t);
    } else {
      var h' := h[1..];
      assert s[..2] != Separator by {
        if |h'| > 0 {
          assert s[0] == h[0] && s[1] == h[1];
          assert !(h[0] == '-' && h[1] == '-');
        } else {
          assert s[0] == h[|h| - 1];
        }
      }
      assert ValidHead(h') by {
        forall j | 0 <= j < |h'| - 1
          ensures !(h'[j] == '-' && h'[j + 1] == '-')
        {
          assert h'[j] == h[j + 1] && h'[j + 1] == h[j + 2];
        }
        if h' != [] { assert h'[|h'| - 1] == h[|h| - 1]; }
      }
      assert s[1..] == Join(h', t);
      SplitJoin(h', t);
      assert [h[0]] + h' == h;
    }
  }

  /** Distinct valid gene pairs always give distinct identities. */
  lemma JoinInjective(h1: string, t1: string, h2: string, t2: string)
    requires ValidHead(h1) && NoSeparator(t1)
    requires ValidHead(h2) && NoSeparator(t2)
    requires Join(h1, t1) == Join(h2, t2)
    ensures h1 == h2 && t1 == t2
  {
    SplitJoin(h1, t1);
    SplitJoin(h2, t2);
  }

  /** Why the head may not end in '-': two different pairs share one
      identity, and the split gives back the second of them. */
  lemma TrailingDashAmbiguity()
    ensures Join("A-", "B") == Join("A", "-B")
    ensures Split(Join("A-", "B")) == ["A", "-B"]
  {
    assert Join("A-", "B") == "A---B";
    assert NoSeparator("-B");
    SplitJoin("A", "-B");
  }
}
