/** `"\n".join(xs)` and its inverse, `str.split("\n")`. */
module Lines {

  predicate NewlineFree(s: string) {
    forall i :: 0 <= i < |s| ==> s[i] != '\n'
  }

  predicate AllNewlineFree(xs: seq<string>) {
    forall i :: 0 <= i < |xs| ==> NewlineFree(xs[i])
  }

  /** `"\n".join(xs)`: the pieces with one newline between neighbours; the
      join of no pieces is the empty string. */
  function Join(xs: seq<string>): string {
    if |xs| == 0 then []
    else if |xs| == 1 then xs[0]
    else xs[0] + "\n" + Join(xs[1..])
  }

  /** `s.split("\n")`: the maximal newline-free pieces between newlines;
      there is always at least one piece. */
  function Split(s: string): (r: seq<string>)
    ensures |r| >= 1
    ensures AllNewlineFree(r)
  {
    if |s| == 0 then [[]]
    else
      var rest := Split(s[1..]);
      if s[0] == '\n' then [[]] + rest else [[s[0]] + rest[0]] + rest[1..]
  }

  function CountNewlines(s: string): (n: nat)
    ensures n <= |s|
    ensures n == 0 <==> NewlineFree(s)
  {
    if |s| == 0 then 0
    else (if s[0] == '\n' then 1 else 0) + CountNewlines(s[1..])
  }

  lemma {:induction false} CountNewlinesAppend(a: string, b: string)
    ensures CountNewlines(a + b) == CountNewlines(a) + CountNewlines(b)
  {
    if |a| == 0 {
      assert a + b == b;
    } else {
      assert (a + b)[1..] == a[1..] + b;
      CountNewlinesAppend(a[1..], b);
    }
  }

  /** Joining n >= 1 newline-free pieces puts exactly n - 1 newlines in the
      result. */
  lemma {:induction false} JoinNewlineCount(xs: seq<string>)
    requires |xs| >= 1 && AllNewlineFree(xs)
    ensures CountNewlines(Join(xs)) == |xs| - 1
  {
    if |xs| > 1 {
      var rest := Join(xs[1..]);
      JoinNewlineCount(xs[1..]);
      assert xs[0] + "\n" + rest == xs[0] + ("\n" + rest);
      CountNewlinesAppend(xs[0], "\n" + rest);
      assert ("\n" + rest)[1..] == rest;
    }
  }

  /** Splitting text made of a newline-free piece, a newline and more text
      gives that piece first. */
  lemma {:induction false} SplitAfterPiece(a: string, b: string)
    requires NewlineFree(a)
    ensures Split(a + "\n" + b) == [a] + Split(b)
  {
    if |a| == 0 {
      assert a + "\n" + b == "\n" + b;
      assert ("\n" + b)[1..] == b;
    } else {
      assert (a + "\n" + b)[1..] == a[1..] + "\n" + b;
      SplitAfterPiece(a[1..], b);
      assert [a[0]] + a[1..] == a;
    }
  }

  /** Splitting a newline-free piece gives it back alone. */
  lemma {:induction false} SplitPiece(a: string)
    requires NewlineFree(a)
    ensures Split(a) == [a]
  {
    if |a| > 0 {
      SplitPiece(a[1..]);
      assert [a[0]] + a[1..] == a;
    }
  }

  /** Round trip: splitting the join of one or more newline-free pieces
      gives the pieces back. With no pieces it fails, since the join is the
      empty string and that splits into one empty piece. */
  lemma {:induction false} SplitJoin(xs: seq<string>)
    requires |xs| >= 1 && AllNewlineFree(xs)
    ensures Split(Join(xs)) == xs
  {
    if |xs| == 1 {
      SplitPiece(xs[0]);
    } else {
      SplitJoin(xs[1..]);
      SplitAfterPiece(xs[0], Join(xs[1..]));
      assert [xs[0]] + xs[1..] == xs;
    }
  }

  /** Round trip the other way: joining the pieces of any text gives the
      text back. */
  lemma {:induction false} JoinSplit(s: string)
    ensures Join(Split(s)) == s
  {
    if |s| > 0 {
      var rest := Split(s[1..]);
      JoinSplit(s[1..]);
      if s[0] == '\n' {
        assert s == "\n" + s[1..];
      } else {
        var r := [[s[0]] + rest[0]] + rest[1..];
        assert r[1..] == rest[1..];
        if |rest| == 1 {
          assert s == [s[0]] + rest[0];
        } else {
          assert Join(rest) == rest[0] + "\n" + Join(rest[1..]);
          assert s == [s[0]] + s[1..];
        }
      }
    }
  }
}
