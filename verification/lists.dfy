/** The two list operations the query rewrite applies to its list of sources:
    `Array.from(new Set(xs))` and `xs.filter((x) => x !== y)`. */
module Lists {

  predicate NoDuplicates<T(==)>(s: seq<T>) {
    forall i, j :: 0 <= i < j < |s| ==> s[i] != s[j]
  }

  /** Index of the first occurrence of `x` in `s`. */
  function FirstIndex<T(==)>(s: seq<T>, x: T): (k: nat)
    requires x in s
    ensures k < |s| && s[k] == x
    ensures forall j :: 0 <= j < k ==> s[j] != x
  {
    if s[0] == x then 0 else 1 + FirstIndex(s[1..], x)
  }

  /** `Array.from(new Set(s))`: a set iterates in insertion order, so this
      keeps the first occurrence of every element. Defined by inserting the
      elements of `s` one after the other, as the `Set` constructor does. */
  function Dedup<T(==,!new)>(s: seq<T>): (r: seq<T>)
    ensures forall x :: x in r <==> x in s
    ensures NoDuplicates(r)
    ensures forall i, j :: 0 <= i < j < |r| ==> FirstIndex(s, r[i]) < FirstIndex(s, r[j])
    decreases |s|
  {
    if |s| == 0 then []
    else
      var init := s[..|s| - 1];
      var last := s[|s| - 1];
      var r := Dedup(init);
      assert s == init + [last];
      DedupStep(init, last, r);
      if last in r then r else r + [last]
  }

  /** Inserting one more element into a deduplicated prefix keeps all three
      properties of `Dedup`. */
  lemma DedupStep<T(!new)>(init: seq<T>, last: T, r: seq<T>)
    requires forall x :: x in r <==> x in init
    requires NoDuplicates(r)
    requires forall i, j :: 0 <= i < j < |r| ==> FirstIndex(init, r[i]) < FirstIndex(init, r[j])
    ensures var s := init + [last];
      var r' := if last in r then r else r + [last];
      && (forall x :: x in r' <==> x in s)
      && NoDuplicates(r')
      && forall i, j :: 0 <= i < j < |r'| ==> FirstIndex(s, r'[i]) < FirstIndex(s, r'[j])
  {
    var s := init + [last];
    forall y | y in init
      ensures FirstIndex(s, y) == FirstIndex(init, y)
    {
      assert s[FirstIndex(init, y)] == y;
    }
    if last !in r {
      assert FirstIndex(s, last) == |init|;
    }
  }

  /** Deduplicating one more element keeps it exactly when it is new. */
  lemma DedupSnoc<T(!new)>(init: seq<T>, last: T)
    ensures Dedup(init + [last]) == if last in init then Dedup(init) else Dedup(init) + [last]
  {
    var s := init + [last];
    assert s[..|s| - 1] == init;
    assert s[|s| - 1] == last;
  }

  /** On a list without duplicates, deduplication changes nothing. */
  lemma {:induction false} DedupOfDistinct<T(!new)>(s: seq<T>)
    requires NoDuplicates(s)
    ensures Dedup(s) == s
    decreases |s|
  {
    if |s| > 0 {
      var init := s[..|s| - 1];
      var last := s[|s| - 1];
      assert s == init + [last];
      assert NoDuplicates(init);
      DedupOfDistinct(init);
      assert last !in init;
      DedupSnoc(init, last);
    }
  }

  /** Deduplication is idempotent. */
  lemma DedupIdempotent<T(!new)>(s: seq<T>)
    ensures Dedup(Dedup(s)) == Dedup(s)
  {
    DedupOfDistinct(Dedup(s));
  }

  /** `r` is `s` with some elements left out, the others kept in order. */
  predicate Subsequence<T(==)>(r: seq<T>, s: seq<T>)
    decreases |s|
  {
    if |r| == 0 then true
    else if |s| == 0 then false
    else if r[0] == s[0] then Subsequence(r[1..], s[1..])
    else Subsequence(r, s[1..])
  }

  /** `s.filter((y) => y !== x)`: every occurrence of `x` is dropped, every
      other element is kept as often as it occurs, in its original order. */
  function Without<T(==,!new)>(s: seq<T>, x: T): (r: seq<T>)
    ensures forall y :: y in r <==> y in s && y != x
    ensures multiset(r) == multiset(s)[x := 0]
    ensures Subsequence(r, s)
    ensures |r| <= |s|
    decreases |s|
  {
    if |s| == 0 then []
    else
      var rest := Without(s[1..], x);
      assert s == [s[0]] + s[1..];
      if s[0] == x then
        SubsequenceDrop(rest, s[0], s[1..]);
        rest
      else
        assert ([s[0]] + rest)[1..] == rest;
        [s[0]] + rest
  }

  /** A subsequence of `s` is a subsequence of `s` with one more element in front. */
  lemma {:induction false} SubsequenceDrop<T>(r: seq<T>, y: T, s: seq<T>)
    requires Subsequence(r, s)
    ensures Subsequence(r, [y] + s)
    decreases |s|, 1
  {
    assert ([y] + s)[1..] == s;
    if |r| > 0 && r[0] == y {
      SubsequenceTail(r, s);
    }
  }

  /** Leaving out the first element of a subsequence keeps it one. */
  lemma {:induction false} SubsequenceTail<T>(r: seq<T>, s: seq<T>)
    requires |r| > 0 && Subsequence(r, s)
    ensures Subsequence(r[1..], s)
    decreases |s|, 0
  {
    assert [s[0]] + s[1..] == s;
    if r[0] != s[0] {
      SubsequenceTail(r, s[1..]);
    }
    SubsequenceDrop(r[1..], s[0], s[1..]);
  }
}
