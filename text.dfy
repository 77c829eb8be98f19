/** Operations on text used by the renderer's expected output: Rust's
    `[String]::join`, and the splitting and counting that a reader of the
    output would use to take it apart again. */
module Text {

  /** `parts.join(sep)`: the parts in order, `sep` between neighbours. */
  function Join(parts: seq<string>, sep: string): string
  {
    if |parts| == 0 then ""
    else if |parts| == 1 then parts[0]
    else parts[0] + sep + Join(parts[1..], sep)
  }

  /** Appending one part adds one separator and the part, except to nothing. */
  lemma {:induction false} JoinSnoc(parts: seq<string>, x: string, sep: string)
    ensures Join(parts + [x], sep) == if parts == [] then x else Join(parts, sep) + sep + x
  {
    if parts == [] {
      assert parts + [x] == [x];
    } else if |parts| == 1 {
      assert (parts + [x])[1..] == [x];
    } else {
      assert (parts + [x])[1..] == parts[1..] + [x];
      JoinSnoc(parts[1..], x, sep);
    }
  }

  /** There is no separator after the last part: the joined text ends with it. */
  lemma JoinEndsWithLast(parts: seq<string>, sep: string)
    requires |parts| >= 1
    ensures var s, last := Join(parts, sep), parts[|parts| - 1];
      |last| <= |s| && s[|s| - |last|..] == last
  {
    var n := |parts|;
    assert parts == parts[..n - 1] + [parts[n - 1]];
    JoinSnoc(parts[..n - 1], parts[n - 1], sep);
  }

  /** The text up to the first separator is the first part. */
  lemma JoinStartsWithFirst(parts: seq<string>, sep: string)
    requires |parts| >= 1
    ensures var s := Join(parts, sep);
      |parts[0]| <= |s| && s[..|parts[0]|] == parts[0]
  {
  }

  /** A character that occurs neither in a part nor in the separator does not
      occur in the joined text. */
  lemma {:induction false} JoinAvoids(parts: seq<string>, sep: string, c: char)
    requires forall i :: 0 <= i < |parts| ==> c !in parts[i]
    requires c !in sep
    ensures c !in Join(parts, sep)
  {
    if |parts| > 1 {
      JoinAvoids(parts[1..], sep, c);
    }
  }

  /** The pieces of `s` between occurrences of `c`; always at least one. */
  function Split(s: string, c: char): (r: seq<string>)
    ensures |r| >= 1
  {
    if |s| == 0 then [""]
    else
      var rest := Split(s[1..], c);
      if s[0] == c then [""] + rest
      else [[s[0]] + rest[0]] + rest[1..]
  }

  lemma {:induction false} SplitWithout(s: string, c: char)
    requires c !in s
    ensures Split(s, c) == [s]
  {
    if |s| > 0 {
      SplitWithout(s[1..], c);
      assert [s[0]] + s[1..] == s;
    }
  }

  lemma {:induction false} SplitAfterPiece(a: string, b: string, c: char)
    requires c !in a
    ensures Split(a + [c] + b, c) == [a] + Split(b, c)
  {
    if a == [] {
      assert (a + [c] + b)[1..] == b;
    } else {
      assert (a + [c] + b)[1..] == a[1..] + [c] + b;
      SplitAfterPiece(a[1..], b, c);
      assert [a[0]] + a[1..] == a;
    }
  }

  /** Splitting undoes joining with a one-character separator, provided no
      part contains the separator. */
  lemma {:induction false} SplitJoin(parts: seq<string>, c: char)
    requires |parts| >= 1
    requires forall i :: 0 <= i < |parts| ==> c !in parts[i]
    ensures Split(Join(parts, [c]), c) == parts
  {
    if |parts| == 1 {
      SplitWithout(parts[0], c);
    } else {
      SplitAfterPiece(parts[0], Join(parts[1..], [c]), c);
      SplitJoin(parts[1..], c);
    }
  }

  /** The position of the first occurrence of `c` in `s`. */
  function IndexOf(s: string, c: char): (r: nat)
    requires c in s
    ensures r < |s| && s[r] == c && c !in s[..r]
  {
    if s[0] == c then 0
    else
      assert c in s[1..] by { assert s == [s[0]] + s[1..]; }
      var k := IndexOf(s[1..], c);
      assert s[..k + 1] == [s[0]] + s[1..][..k];
      k + 1
  }

  lemma IndexOfAfterPiece(a: string, b: string, c: char)
    requires c !in a
    ensures c in a + [c] + b && IndexOf(a + [c] + b, c) == |a|
  {
    var s := a + [c] + b;
    assert s[..|a|] == a;
    assert s[|a|] == c;
  }

  /** The pieces written one after the other. */
  function Concat(pieces: seq<string>): string
  {
    if |pieces| == 0 then "" else pieces[0] + Concat(pieces[1..])
  }

  /** Concatenation is associative; stated once so that long chains of
      writes need not be re-associated element by element. */
  lemma AppendAssoc(a: string, b: string, c: string)
    ensures a + b + c == a + (b + c)
  {
  }

  /** When `j` starts with `c`, a text written as `p`, then `j`, then
      anything, starts with `p + c`. */
  lemma PrefixThrough(p: string, j: string, c: string, r1: string, r2: string, r3: string)
    requires |c| <= |j| && j[..|c|] == c
    ensures |p + c| <= |p + j + r1 + r2 + r3| && (p + j + r1 + r2 + r3)[..|p + c|] == p + c
  {
    var s := p + j + r1 + r2 + r3;
    forall i | 0 <= i < |p + c|
      ensures s[i] == (p + c)[i]
    {
      if i >= |p| {
        assert s[i] == j[i - |p|] == j[..|c|][i - |p|];
      }
    }
  }

  /** The number of occurrences of `c` in `s`. */
  function Count(s: string, c: char): nat
  {
    if |s| == 0 then 0
    else (if s[0] == c then 1 else 0) + Count(s[1..], c)
  }

  lemma {:induction false} CountAppend(a: string, b: string, c: char)
    ensures Count(a + b, c) == Count(a, c) + Count(b, c)
  {
    if a == [] {
      assert a + b == b;
    } else {
      assert (a + b)[1..] == a[1..] + b;
      CountAppend(a[1..], b, c);
    }
  }

  lemma {:induction false} CountAbsent(s: string, c: char)
    ensures Count(s, c) == 0 <==> c !in s
  {
    if s != [] {
      CountAbsent(s[1..], c);
      assert s == [s[0]] + s[1..];
    }
  }
}
