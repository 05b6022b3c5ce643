/**
  The part of JavaScript's string library that the handler relies on:
  `String.prototype.split` with a one-character separator and no limit,
  and its inverse `Array.prototype.join`.
 */
module JsString {

  /** The number of times `c` occurs in `s`. */
  function Occurrences(s: string, c: char): nat
  {
    multiset(s)[c]
  }

  /** The position of the first `c` in `s` (the scan `split` performs). */
  function IndexOf(s: string, c: char): (i: nat)
    requires c in s
    ensures i < |s| && s[i] == c
    ensures c !in s[..i]
  {
    if s[0] == c then 0
    else
      assert c in s[1..];
      var j := IndexOf(s[1..], c);
      assert s[..j + 1] == [s[0]] + s[1..][..j];
      j + 1
  }

  /**
    `s.split(sep)`: the pieces of `s` between consecutive separators, from
    left to right. There is always at least one piece (`"".split(":")` is
    `[""]`), adjacent separators give empty pieces, and no piece holds the
    separator.
   */
  function Split(s: string, sep: char): (parts: seq<string>)
    ensures |parts| == Occurrences(s, sep) + 1
    ensures forall k :: 0 <= k < |parts| ==> sep !in parts[k]
    decreases |s|
  {
    if sep !in s then
      [s]
    else
      var i := IndexOf(s, sep);
      assert s == s[..i] + [sep] + s[i + 1..];
      [s[..i]] + Split(s[i + 1..], sep)
  }

  /** `parts.join(sep)`: the pieces with one separator between neighbours. */
  function Join(parts: seq<string>, sep: char): (s: string)
    ensures (forall k :: 0 <= k < |parts| ==> sep !in parts[k]) && |parts| > 0 ==>
              Occurrences(s, sep) == |parts| - 1
  {
    if |parts| == 0 then ""
    else if |parts| == 1 then parts[0]
    else parts[0] + [sep] + Join(parts[1..], sep)
  }

  /** The first position holding `c` is the one `IndexOf` finds. */
  lemma IndexOfUnique(s: string, c: char, i: nat)
    requires i < |s| && s[i] == c && c !in s[..i]
    ensures IndexOf(s, c) == i
  {
  }

  /** Joining two non-empty lists of pieces puts one separator between them. */
  lemma {:induction false} JoinAppend(p: seq<string>, q: seq<string>, sep: char)
    requires |p| > 0 && |q| > 0
    ensures Join(p + q, sep) == Join(p, sep) + [sep] + Join(q, sep)
  {
    if |p| == 1 {
      assert (p + q)[1..] == q;
    } else {
      assert (p + q)[1..] == p[1..] + q;
      JoinAppend(p[1..], q, sep);
      var head, mid, last := p[0] + [sep], Join(p[1..], sep), [sep] + Join(q, sep);
      ConcatAssociative(mid, [sep], Join(q, sep));
      ConcatAssociative(head, mid, last);
    }
  }

  /** `split` cuts at the first separator and goes on with what follows it. */
  lemma SplitAtFirst(s: string, sep: char, i: nat)
    requires i < |s| && s[i] == sep && sep !in s[..i]
    ensures Split(s, sep) == [s[..i]] + Split(s[i + 1..], sep)
  {
    IndexOfUnique(s, sep, i);
  }

  lemma SlicesBeforeSeparator(x: string, y: string, sep: char, j: nat)
    requires j < |x|
    ensures (x + [sep] + y)[j] == x[j]
    ensures (x + [sep] + y)[..j] == x[..j]
    ensures (x + [sep] + y)[j + 1..] == x[j + 1..] + [sep] + y
  {
  }

  lemma ConcatAssociative<T>(a: seq<T>, b: seq<T>, c: seq<T>)
    ensures a + (b + c) == (a + b) + c
  {
  }

  /** Joining the pieces from `i` on: piece `i`, then the rest after a separator. */
  lemma JoinFrom(parts: seq<string>, i: nat, sep: char)
    requires i < |parts|
    ensures Join(parts[i..], sep) ==
              if i + 1 == |parts| then parts[i] else parts[i] + [sep] + Join(parts[i + 1..], sep)
  {
    assert parts[i..][1..] == parts[i + 1..];
  }

  /** A separator in the input ends the pieces on its left. */
  lemma {:induction false} SplitAround(x: string, y: string, sep: char)
    ensures Split(x + [sep] + y, sep) == Split(x, sep) + Split(y, sep)
    decreases |x|
  {
    var s := x + [sep] + y;
    if sep !in x {
      assert s[..|x|] == x && s[|x| + 1..] == y;
      SplitAtFirst(s, sep, |x|);
    } else {
      var j := IndexOf(x, sep);
      SlicesBeforeSeparator(x, y, sep, j);
      SplitAtFirst(s, sep, j);
      SplitAtFirst(x, sep, j);
      SplitAround(x[j + 1..], y, sep);
      ConcatAssociative([x[..j]], Split(x[j + 1..], sep), Split(y, sep));
    }
  }

  /** Round trip: joining what `split` returns rebuilds the input. */
  lemma {:induction false} JoinSplit(s: string, sep: char)
    ensures Join(Split(s, sep), sep) == s
    decreases |s|
  {
    if sep in s {
      var i := IndexOf(s, sep);
      var rest := Split(s[i + 1..], sep);
      JoinSplit(s[i + 1..], sep);
      assert Split(s, sep) == [s[..i]] + rest;
      assert ([s[..i]] + rest)[1..] == rest;
      assert s == s[..i] + [sep] + s[i + 1..];
    }
  }

  /** Round trip: splitting the join of separator-free pieces gives them back. */
  lemma {:induction false} SplitJoin(parts: seq<string>, sep: char)
    requires |parts| > 0
    requires forall k :: 0 <= k < |parts| ==> sep !in parts[k]
    ensures Split(Join(parts, sep), sep) == parts
  {
    assert Split(parts[0], sep) == [parts[0]];
    if |parts| > 1 {
      var rest := Join(parts[1..], sep);
      assert Join(parts, sep) == parts[0] + [sep] + rest;
      SplitJoin(parts[1..], sep);
      SplitAround(parts[0], rest, sep);
      assert parts == [parts[0]] + parts[1..];
    }
  }

  /**
    `Split(s, sep)` is the one list of pieces that is non-empty, holds no
    separator and joins back to `s`.
   */
  lemma SplitCharacterized(s: string, sep: char, parts: seq<string>)
    ensures parts == Split(s, sep) <==>
              && |parts| > 0
              && (forall k :: 0 <= k < |parts| ==> sep !in parts[k])
              && Join(parts, sep) == s
  {
    JoinSplit(s, sep);
    if |parts| > 0 && (forall k :: 0 <= k < |parts| ==> sep !in parts[k]) {
      SplitJoin(parts, sep);
    }
  }
}
