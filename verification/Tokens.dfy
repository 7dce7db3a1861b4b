/** Splitting a string at separators and dropping empty pieces, as strtok_r with
    "/" and Python's str.split do. */
module Tokens {
  /** Length of the longest separator-free prefix. */
  function TokenLength(s: string, sep: char -> bool): (n: nat)
    ensures n <= |s|
    ensures forall i :: 0 <= i < n ==> !sep(s[i])
    ensures n < |s| ==> sep(s[n])
  {
    if s == [] || sep(s[0]) then 0 else 1 + TokenLength(s[1..], sep)
  }

  function Split(s: string, sep: char -> bool): seq<string>
    decreases |s|
  {
    if s == [] then []
    else if sep(s[0]) then Split(s[1..], sep)
    else
      var n := TokenLength(s, sep);
      [s[..n]] + Split(s[n..], sep)
  }

  predicate Clean(t: string, sep: char -> bool) {
    t != [] && forall i :: 0 <= i < |t| ==> !sep(t[i])
  }

  lemma {:induction false} TokenLengthAppend(a: string, c: char, b: string, sep: char -> bool)
    requires sep(c)
    ensures TokenLength(a + [c] + b, sep) == TokenLength(a, sep)
  {
    if a != [] && !sep(a[0]) {
      assert (a + [c] + b)[1..] == a[1..] + [c] + b;
      TokenLengthAppend(a[1..], c, b, sep);
    }
  }

  /** The first token and the rest. */
  lemma {:induction false} SplitToken(s: string, n: nat, token: string, rest: string, sep: char -> bool)
    requires s != [] && !sep(s[0]) && n == TokenLength(s, sep) && token == s[..n] && rest == s[n..]
    ensures Split(s, sep) == [token] + Split(rest, sep)
  {
  }

  /** Splitting commutes with cutting at a separator. */
  lemma {:induction false} SplitAppend(a: string, c: char, b: string, sep: char -> bool)
    requires sep(c)
    ensures Split(a + [c] + b, sep) == Split(a, sep) + Split(b, sep)
    decreases |a|
  {
    var s := a + [c] + b;
    if a == [] {
      assert s[1..] == b;
    } else if sep(a[0]) {
      assert s[1..] == a[1..] + [c] + b;
      SplitAppend(a[1..], c, b, sep);
    } else {
      var n := TokenLength(a, sep);
      SplitAppend(a[n..], c, b, sep);
      AppendToken(a, c, b, n, a[..n], a[n..], sep);
    }
  }

  lemma {:induction false} CutInside(a: string, c: char, b: string, n: nat)
    requires n <= |a|
    ensures (a + [c] + b)[..n] == a[..n] && (a + [c] + b)[n..] == a[n..] + [c] + b
  {
  }

  lemma {:induction false} Associate(x: string, p: seq<string>, q: seq<string>)
    ensures [x] + (p + q) == [x] + p + q
  {
  }

  lemma {:induction false} AppendToken(a: string, c: char, b: string, n: nat, token: string, rest: string, sep: char -> bool)
    requires sep(c) && a != [] && !sep(a[0]) && n == TokenLength(a, sep) && token == a[..n] && rest == a[n..]
    requires Split(rest + [c] + b, sep) == Split(rest, sep) + Split(b, sep)
    ensures Split(a + [c] + b, sep) == Split(a, sep) + Split(b, sep)
  {
    var s := a + [c] + b;
    TokenLengthAppend(a, c, b, sep);
    CutInside(a, c, b, n);
    SplitToken(s, n, token, rest + [c] + b, sep);
    SplitToken(a, n, token, rest, sep);
    Associate(token, Split(rest, sep), Split(b, sep));
  }

  lemma {:induction false} SplitClean(t: string, sep: char -> bool)
    requires Clean(t, sep)
    ensures Split(t, sep) == [t]
  {
    assert TokenLength(t, sep) == |t|;
    assert t[..|t|] == t;
  }

  /** Every piece is non-empty and free of separators. */
  lemma {:induction false} PiecesClean(s: string, sep: char -> bool)
    ensures forall i :: 0 <= i < |Split(s, sep)| ==> Clean(Split(s, sep)[i], sep)
    decreases |s|
  {
    if s == [] {
    } else if sep(s[0]) {
      PiecesClean(s[1..], sep);
    } else {
      PiecesClean(s[TokenLength(s, sep)..], sep);
    }
  }
}
