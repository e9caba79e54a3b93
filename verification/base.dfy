/** Shared vocabulary: an optional value and the few JavaScript string
    operations the extension relies on (`includes`, `split`, `join`). */
module Base {

  /** A value that may be absent (`undefined`/`null` on the JavaScript side). */
  datatype Option<+T> = None | Some(value: T) {

    /** `x ?? default` */
    function GetOr(default: T): T {
      match this
      case Some(v) => v
      case None => default
    }
  }

  /** `needle` occurs in `hay` starting at index `i`. */
  ghost predicate OccursAt(hay: string, needle: string, i: int) {
    0 <= i && i + |needle| <= |hay| && hay[i..i + |needle|] == needle
  }

  ghost predicate Contains(hay: string, needle: string) {
    exists i :: OccursAt(hay, needle, i)
  }

  /** Scans `hay` for `needle` from index `from` onwards. */
  function IncludesFrom(hay: string, needle: string, from: nat): (r: bool)
    ensures r <==> exists j :: from <= j && OccursAt(hay, needle, j)
    decreases |hay| - from
  {
    if from + |needle| > |hay| then false
    else if hay[from..from + |needle|] == needle then
      assert OccursAt(hay, needle, from);
      true
    else IncludesFrom(hay, needle, from + 1)
  }

  /** `String.prototype.includes` */
  function Includes(hay: string, needle: string): (r: bool)
    ensures r <==> Contains(hay, needle)
  {
    IncludesFrom(hay, needle, 0)
  }

  /** `String.prototype.split` with a one-character separator: the pieces
      between consecutive separators, always at least one. */
  function Split(s: string, sep: char): (parts: seq<string>)
    ensures |parts| >= 1
    ensures forall i :: 0 <= i < |parts| ==> sep !in parts[i]
    decreases |s|
  {
    if |s| == 0 then [""]
    else
      var rest := Split(s[1..], sep);
      if s[0] == sep then [""] + rest
      else [[s[0]] + rest[0]] + rest[1..]
  }

  /** `Array.prototype.join` with a one-character separator; `[].join(sep)` is "". */
  function Join(parts: seq<string>, sep: char): string
    decreases |parts|
  {
    if |parts| == 0 then ""
    else if |parts| == 1 then parts[0]
    else parts[0] + [sep] + Join(parts[1..], sep)
  }

  /** Joining the pieces of a split with the same separator gives back the string. */
  lemma {:induction false} JoinSplit(s: string, sep: char)
    ensures Join(Split(s, sep), sep) == s
    decreases |s|
  {
    if |s| > 0 {
      var rest := Split(s[1..], sep);
      JoinSplit(s[1..], sep);
      if s[0] == sep {
        JoinEmptyHead(rest, sep);
      } else {
        JoinExtendHead(s[0], rest, sep);
      }
      assert s == [s[0]] + s[1..];
    }
  }

  lemma JoinEmptyHead(rest: seq<string>, sep: char)
    requires |rest| >= 1
    ensures Join([""] + rest, sep) == [sep] + Join(rest, sep)
  {
    assert ([""] + rest)[1..] == rest;
  }

  lemma JoinExtendHead(c: char, rest: seq<string>, sep: char)
    requires |rest| >= 1
    ensures Join([[c] + rest[0]] + rest[1..], sep) == [c] + Join(rest, sep)
  {
    var parts := [[c] + rest[0]] + rest[1..];
    if |rest| > 1 {
      assert parts[1..] == rest[1..];
    }
  }

  /** A separator splits exactly where it stands: the pieces of `p + sep + r`
      are the pieces of `p` followed by the pieces of `r`. */
  lemma {:induction false} SplitAppend(p: string, sep: char, r: string)
    ensures Split(p + [sep] + r, sep) == Split(p, sep) + Split(r, sep)
    decreases |p|
  {
    var s := p + [sep] + r;
    if |p| == 0 {
      assert s[1..] == r;
    } else {
      assert s[1..] == p[1..] + [sep] + r;
      SplitAppend(p[1..], sep, r);
      var pp := Split(p[1..], sep);
      if p[0] != sep {
        ExtendHeadAppend(p[0], pp, Split(r, sep));
      }
    }
  }

  lemma ExtendHeadAppend(c: char, a: seq<string>, b: seq<string>)
    requires |a| >= 1
    ensures [[c] + (a + b)[0]] + (a + b)[1..] == ([[c] + a[0]] + a[1..]) + b
  {
    assert (a + b)[0] == a[0];
    assert (a + b)[1..] == a[1..] + b;
  }

  /** A string without the separator is a single piece. */
  lemma {:induction false} SplitWithoutSeparator(s: string, sep: char)
    requires sep !in s
    ensures Split(s, sep) == [s]
    decreases |s|
  {
    if |s| > 0 {
      assert sep !in s[1..];
      SplitWithoutSeparator(s[1..], sep);
      assert s == [s[0]] + s[1..];
    }
  }
}
