/**
 Whitespace tokenisation of board text, as done by Python's argument-less
 `str.split()`: runs of whitespace separate tokens, and leading or trailing
 whitespace produces no empty token.
 */
module Tokens {

  /** The characters `str.isspace()` accepts, which are the separators of
      argument-less `str.split()`. */
  predicate IsSpace(c: char) {
    || c == ' '
    || ('\t' <= c <= '\r')
    || ('\U{1C}' <= c <= '\U{1F}')
    || c == '\U{85}' || c == '\U{A0}' || c == '\U{1680}'
    || ('\U{2000}' <= c <= '\U{200A}')
    || c == '\U{2028}' || c == '\U{2029}' || c == '\U{202F}'
    || c == '\U{205F}' || c == '\U{3000}'
  }

  /** A string that can stand as one token: non-empty, without whitespace. */
  predicate IsToken(t: string) {
    |t| > 0 && forall i :: 0 <= i < |t| ==> !IsSpace(t[i])
  }

  /** A string made of whitespace only (possibly empty). */
  predicate AllSpace(g: string) {
    forall i :: 0 <= i < |g| ==> IsSpace(g[i])
  }

  /** Length of the longest whitespace-free prefix of `s`. */
  function TokenLength(s: string): (n: nat)
    ensures n <= |s|
    ensures forall i :: 0 <= i < n ==> !IsSpace(s[i])
    ensures n == |s| || IsSpace(s[n])
  {
    if s == [] || IsSpace(s[0]) then 0 else 1 + TokenLength(s[1..])
  }

  /** The non-whitespace characters of `s`, in order. */
  function Visible(s: string): string {
    if s == [] then []
    else if IsSpace(s[0]) then Visible(s[1..])
    else [s[0]] + Visible(s[1..])
  }

  /** The pieces laid end to end. */
  function Concat<T>(ss: seq<seq<T>>): seq<T> {
    if ss == [] then [] else ss[0] + Concat(ss[1..])
  }

  /** `str.split()` with no separator argument. */
  function Split(s: string): (ts: seq<string>)
    ensures forall k :: 0 <= k < |ts| ==> IsToken(ts[k])
    ensures Concat(ts) == Visible(s)
    decreases |s|
  {
    if s == [] then []
    else if IsSpace(s[0]) then Split(s[1..])
    else
      var n := TokenLength(s);
      VisiblePrefix(s, n);
      [s[..n]] + Split(s[n..])
  }

  /** Cutting a whitespace-free prefix off commutes with `Visible`. */
  lemma {:induction false} VisiblePrefix(s: string, n: nat)
    requires n <= |s|
    requires forall i :: 0 <= i < n ==> !IsSpace(s[i])
    ensures Visible(s) == s[..n] + Visible(s[n..])
    decreases n
  {
    if n > 0 {
      VisiblePrefix(s[1..], n - 1);
      assert s[1..][..n - 1] == s[1..n];
      assert s[1..][n - 1..] == s[n..];
      assert s[..n] == [s[0]] + s[1..n];
    }
  }

  /** Text made of the tokens `ts` with the whitespace runs `gaps` before,
      between and after them. */
  function Lay(ts: seq<string>, gaps: seq<string>): string
    requires |gaps| == |ts| + 1
  {
    if ts == [] then gaps[0] else gaps[0] + ts[0] + Lay(ts[1..], gaps[1..])
  }

  /** The gaps are whitespace, and the ones between two tokens are not empty. */
  predicate Separates(ts: seq<string>, gaps: seq<string>) {
    && |gaps| == |ts| + 1
    && (forall k :: 0 <= k < |gaps| ==> AllSpace(gaps[k]))
    && (forall k :: 0 < k < |ts| ==> |gaps[k]| > 0)
  }

  /** Leading whitespace yields no token. */
  lemma {:induction false} SplitSkipsSpace(g: string, rest: string)
    requires AllSpace(g)
    ensures Split(g + rest) == Split(rest)
    decreases |g|
  {
    if g != [] {
      var s := g + rest;
      assert s[0] == g[0] && IsSpace(g[0]);
      assert s[1..] == g[1..] + rest;
      assert Split(s) == Split(s[1..]);
      SplitSkipsSpace(g[1..], rest);
    } else {
      assert g + rest == rest;
    }
  }

  /** A token followed by nothing or by whitespace is split off whole. */
  lemma SplitToken(t: string, rest: string)
    requires IsToken(t)
    requires rest == [] || IsSpace(rest[0])
    ensures Split(t + rest) == [t] + Split(rest)
  {
    var s := t + rest;
    TokenLengthOfToken(t, rest);
    assert s[..|t|] == t;
    assert s[|t|..] == rest;
  }

  lemma {:induction false} TokenLengthOfToken(t: string, rest: string)
    requires forall i :: 0 <= i < |t| ==> !IsSpace(t[i])
    requires rest == [] || IsSpace(rest[0])
    ensures TokenLength(t + rest) == |t|
    decreases |t|
  {
    if t != [] {
      assert (t + rest)[1..] == t[1..] + rest;
      TokenLengthOfToken(t[1..], rest);
    }
  }

  /** Whitespace is insignificant: however the tokens are separated,
      splitting gives them back. */
  lemma {:induction false} SplitLay(ts: seq<string>, gaps: seq<string>)
    requires forall k :: 0 <= k < |ts| ==> IsToken(ts[k])
    requires Separates(ts, gaps)
    ensures Split(Lay(ts, gaps)) == ts
    decreases |ts|
  {
    if ts == [] {
      SplitSkipsSpace(gaps[0], []);
      assert gaps[0] + [] == gaps[0];
    } else {
      var rest := Lay(ts[1..], gaps[1..]);
      assert Separates(ts[1..], gaps[1..]);
      SplitLay(ts[1..], gaps[1..]);
      assert rest == [] || IsSpace(rest[0]) by {
        if ts[1..] != [] {
          assert |gaps[1]| > 0;
        } else {
          assert rest == gaps[1];
        }
      }
      assert Lay(ts, gaps) == gaps[0] + (ts[0] + rest);
      SplitSkipsSpace(gaps[0], ts[0] + rest);
      SplitToken(ts[0], rest);
    }
  }

  /** Splitting distributes over a concatenation whose second part starts
      with whitespace: no token straddles the seam. */
  lemma {:induction false} SplitAppend(a: string, b: string)
    requires b == [] || IsSpace(b[0])
    ensures Split(a + b) == Split(a) + Split(b)
    decreases |a|
  {
    if a == [] {
      assert a + b == b;
    } else if IsSpace(a[0]) {
      assert (a + b)[0] == a[0];
      assert (a + b)[1..] == a[1..] + b;
      SplitAppend(a[1..], b);
    } else {
      var n := TokenLength(a);
      TokenLengthAppend(a, b);
      assert (a + b)[0] == a[0];
      assert (a + b)[..n] == a[..n];
      assert (a + b)[n..] == a[n..] + b;
      SplitAppend(a[n..], b);
    }
  }

  lemma {:induction false} TokenLengthAppend(a: string, b: string)
    requires b == [] || IsSpace(b[0])
    ensures TokenLength(a + b) == TokenLength(a)
    decreases |a|
  {
    if a == [] {
      assert a + b == b;
    } else {
      assert (a + b)[0] == a[0];
      assert (a + b)[1..] == a[1..] + b;
      TokenLengthAppend(a[1..], b);
    }
  }

  /** Text alternating one whitespace character and one other character
      splits into those other characters, one token each. */
  lemma {:induction false} SplitAlternating(t: string)
    requires |t| % 2 == 0
    requires forall k :: 0 <= k < |t| / 2 ==> IsSpace(t[2 * k]) && !IsSpace(t[2 * k + 1])
    ensures |Split(t)| == |t| / 2
    ensures forall k :: 0 <= k < |t| / 2 ==> Split(t)[k] == [t[2 * k + 1]]
    decreases |t|
  {
    if t != [] {
      var rest := t[2..];
      AlternatingTail(t);
      SplitAlternating(rest);
      SplitPair(t);
      var ts, tr := Split(t), Split(rest);
      assert ts == [[t[1]]] + tr;
      forall k | 0 < k < |t| / 2 ensures ts[k] == [t[2 * k + 1]] {
        assert ts[k] == tr[k - 1];
        assert rest[2 * (k - 1) + 1] == t[2 * k + 1];
      }
    }
  }

  lemma AlternatingTail(t: string)
    requires |t| >= 2 && |t| % 2 == 0
    requires forall k :: 0 <= k < |t| / 2 ==> IsSpace(t[2 * k]) && !IsSpace(t[2 * k + 1])
    ensures IsSpace(t[0]) && !IsSpace(t[1])
    ensures |t| == 2 || IsSpace(t[2])
    ensures forall k :: 0 <= k < |t[2..]| / 2 ==> IsSpace(t[2..][2 * k]) && !IsSpace(t[2..][2 * k + 1])
  {
    assert IsSpace(t[2 * 0]) && !IsSpace(t[2 * 0 + 1]);
    var rest := t[2..];
    forall k | 0 <= k < |rest| / 2
      ensures IsSpace(rest[2 * k]) && !IsSpace(rest[2 * k + 1])
    {
      assert rest[2 * k] == t[2 * (k + 1)];
      assert rest[2 * k + 1] == t[2 * (k + 1) + 1];
    }
    if |t| > 2 {
      assert IsSpace(t[2 * 1]);
    }
  }

  /** One whitespace character then one other character split off as a
      one-character token. */
  lemma SplitPair(t: string)
    requires |t| >= 2 && IsSpace(t[0]) && !IsSpace(t[1])
    requires |t| == 2 || IsSpace(t[2])
    ensures Split(t) == [[t[1]]] + Split(t[2..])
  {
    assert t == [t[0]] + ([t[1]] + t[2..]);
    SplitSkipsSpace([t[0]], [t[1]] + t[2..]);
    SplitToken([t[1]], t[2..]);
  }
}
