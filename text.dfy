/**
 * String helpers shared by the site's modules: the ASCII part of
 * `toLowerCase`, the `\s` class, `trim`, `includes`, `startsWith`,
 * decimal rendering of counts (`toString`), `padStart`, and the
 * leading-digit parse that `parseInt` performs.
 */
module Text {

  datatype Option<+T> = None | Some(value: T)

  /** The ASCII members of JavaScript's `\s` class (space, tab, line feed,
      carriage return, form feed, vertical tab). */
  predicate IsSpace(c: char) {
    c == ' ' || c == '\t' || c == '\n' || c == '\r' || c == '\U{C}' || c == '\U{B}'
  }

  predicate NoSpace(s: string) {
    forall i :: 0 <= i < |s| ==> !IsSpace(s[i])
  }

  predicate IsUpper(c: char) { 'A' <= c <= 'Z' }

  /** `toLowerCase` on one character, restricted to ASCII letters. */
  function LowerChar(c: char): (r: char)
    ensures IsUpper(c) ==> r as int == c as int + 32
    ensures !IsUpper(c) ==> r == c
    ensures !IsUpper(r)
    ensures IsSpace(r) <==> IsSpace(c)
  {
    if IsUpper(c) then (c as int + 32) as char else c
  }

  /** `toLowerCase` on a string: character by character. */
  function Lower(s: string): (r: string)
    ensures |r| == |s|
    ensures forall i :: 0 <= i < |s| ==> r[i] == LowerChar(s[i])
  {
    if s == [] then [] else [LowerChar(s[0])] + Lower(s[1..])
  }

  lemma {:induction false} LowerAppend(a: string, b: string)
    ensures Lower(a + b) == Lower(a) + Lower(b)
  {
    var l, r := Lower(a + b), Lower(a) + Lower(b);
    forall i | 0 <= i < |a + b|
      ensures l[i] == r[i]
    {
      if i < |a| {
        assert (a + b)[i] == a[i];
      } else {
        assert (a + b)[i] == b[i - |a|];
      }
    }
  }

  /** A string with no upper-case letter is its own lower case. */
  lemma LowerFixed(s: string)
    requires forall i :: 0 <= i < |s| ==> !IsUpper(s[i])
    ensures Lower(s) == s
  {
  }

  /** `s.includes(t)`. */
  predicate Contains(s: string, t: string) {
    exists i :: 0 <= i <= |s| - |t| && OccursAt(s, t, i)
  }

  predicate OccursAt(s: string, t: string, i: nat) {
    i + |t| <= |s| && s[i..i + |t|] == t
  }

  /** A text occurs where it is appended. */
  lemma OccursAtEnd(a: string, t: string)
    ensures OccursAt(a + t, t, |a|)
  {
    assert (a + t)[|a|..|a| + |t|] == t;
  }

  /** Appending keeps an occurrence where it was. */
  lemma OccursAtExtend(s: string, t: string, i: nat, y: string)
    requires OccursAt(s, t, i)
    ensures OccursAt(s + y, t, i)
  {
    assert (s + y)[i..i + |t|] == s[i..i + |t|];
  }

  /** `ws.join(sep)`. */
  function Join(ws: seq<string>, sep: string): string {
    if ws == [] then "" else if |ws| == 1 then ws[0] else ws[0] + sep + Join(ws[1..], sep)
  }

  predicate StartsWith(s: string, p: string) {
    |p| <= |s| && s[..|p|] == p
  }

  // ---------------------------------------------------------------- trim

  function TrimStart(s: string): (r: string)
    ensures |r| <= |s| && r == s[|s| - |r|..]
    ensures r == [] || !IsSpace(r[0])
  {
    if s != [] && IsSpace(s[0]) then TrimStart(s[1..]) else s
  }

  function TrimEnd(s: string): (r: string)
    ensures |r| <= |s| && r == s[..|r|]
    ensures r == [] || !IsSpace(r[|r| - 1])
  {
    if s != [] && IsSpace(s[|s| - 1]) then TrimEnd(s[..|s| - 1]) else s
  }

  /** `String.prototype.trim` over ASCII whitespace. */
  function Trim(s: string): string {
    TrimEnd(TrimStart(s))
  }

  lemma {:induction false} TrimStartSkips(w: string, t: string)
    requires forall i :: 0 <= i < |w| ==> IsSpace(w[i])
    ensures TrimStart(w + t) == TrimStart(t)
  {
    if w != [] {
      assert (w + t)[0] == w[0] && IsSpace(w[0]);
      assert (w + t)[1..] == w[1..] + t;
      assert TrimStart(w + t) == TrimStart(w[1..] + t);
      TrimStartSkips(w[1..], t);
    } else {
      assert w + t == t;
    }
  }

  lemma {:induction false} TrimEndSkips(t: string, w: string)
    requires forall i :: 0 <= i < |w| ==> IsSpace(w[i])
    ensures TrimEnd(t + w) == TrimEnd(t)
  {
    if w != [] {
      assert (t + w)[|t + w| - 1] == w[|w| - 1] && IsSpace(w[|w| - 1]);
      assert (t + w)[..|t + w| - 1] == t + w[..|w| - 1];
      assert TrimEnd(t + w) == TrimEnd(t + w[..|w| - 1]);
      TrimEndSkips(t, w[..|w| - 1]);
    } else {
      assert t + w == t;
    }
  }

  /** Text that starts with a non-space is left alone. */
  lemma TrimStartNoSpace(s: string)
    requires s == [] || !IsSpace(s[0])
    ensures TrimStart(s) == s
  {
  }

  /** Text that ends in a non-space keeps that end, and whatever follows
      it, through `TrimStart`. */
  lemma {:induction false} TrimStartKeepsEnd(s: string, post: string)
    requires s != [] && !IsSpace(s[|s| - 1])
    ensures TrimStart(s + post) == TrimStart(s) + post
    ensures TrimStart(s) != [] && TrimStart(s)[|TrimStart(s)| - 1] == s[|s| - 1]
  {
    if IsSpace(s[0]) {
      var t := s[1..];
      assert t != [] && t[|t| - 1] == s[|s| - 1];
      assert (s + post)[0] == s[0] && (s + post)[1..] == t + post;
      assert TrimStart(s + post) == TrimStart(t + post);
      TrimStartKeepsEnd(t, post);
    } else {
      assert (s + post)[0] == s[0];
    }
  }

  /** Trimming text wrapped in whitespace removes the wrapping and the
      text's own leading whitespace, nothing else; text that starts with a
      non-space comes back unchanged. */
  lemma TrimSurrounded(pre: string, s: string, post: string)
    requires forall i :: 0 <= i < |pre| ==> IsSpace(pre[i])
    requires forall i :: 0 <= i < |post| ==> IsSpace(post[i])
    requires s != [] && !IsSpace(s[|s| - 1])
    ensures Trim(pre + s + post) == TrimStart(s)
    ensures !IsSpace(s[0]) ==> Trim(pre + s + post) == s
  {
    TrimStartWrapped(pre, s, post);
    TrimEndAfter(s, post);
  }

  lemma TrimStartWrapped(pre: string, s: string, post: string)
    requires forall i :: 0 <= i < |pre| ==> IsSpace(pre[i])
    requires s != [] && !IsSpace(s[|s| - 1])
    ensures TrimStart(pre + s + post) == TrimStart(s) + post
  {
    assert pre + s + post == pre + (s + post);
    TrimStartSkips(pre, s + post);
    TrimStartKeepsEnd(s, post);
  }

  lemma TrimEndAfter(s: string, post: string)
    requires forall i :: 0 <= i < |post| ==> IsSpace(post[i])
    requires s != [] && !IsSpace(s[|s| - 1])
    ensures TrimEnd(TrimStart(s) + post) == TrimStart(s)
  {
    TrimStartKeepsEnd(s, post);
    TrimEndSkips(TrimStart(s), post);
  }

  // ------------------------------------------------------ decimal numbers

  predicate IsDigit(c: char) { '0' <= c <= '9' }

  function DigitChar(d: nat): (c: char)
    requires d < 10
    ensures IsDigit(c)
  {
    ('0' as int + d) as char
  }

  function DigitValue(c: char): (d: nat)
    requires IsDigit(c)
    ensures d < 10 && DigitChar(d) == c
  {
    c as int - '0' as int
  }

  predicate AllDigits(s: string) {
    forall i :: 0 <= i < |s| ==> IsDigit(s[i])
  }

  /** `n.toString()` for a natural number. */
  function NatToString(n: nat): (s: string)
    ensures s != [] && AllDigits(s)
    ensures n < 10 <==> |s| == 1
  {
    if n < 10 then [DigitChar(n)] else NatToString(n / 10) + [DigitChar(n % 10)]
  }

  /** The value of a string of decimal digits (leading zeros allowed). */
  function ParseNat(s: string): nat
    requires AllDigits(s)
  {
    if s == [] then 0 else 10 * ParseNat(s[..|s| - 1]) + DigitValue(s[|s| - 1])
  }

  lemma {:induction false} ParseNatToString(n: nat)
    ensures ParseNat(NatToString(n)) == n
  {
    if n >= 10 {
      var s := NatToString(n);
      assert s[..|s| - 1] == NatToString(n / 10);
      ParseNatToString(n / 10);
    }
  }

  function Repeat(c: char, k: nat): (r: string)
    ensures |r| == k && forall i :: 0 <= i < k ==> r[i] == c
  {
    if k == 0 then [] else [c] + Repeat(c, k - 1)
  }

  /** `s.padStart(width, c)` with a one-character pad. */
  function PadStart(s: string, width: nat, c: char): (r: string)
    ensures |r| == if |s| < width then width else |s|
    ensures r == Repeat(c, |r| - |s|) + s
  {
    if |s| < width then Repeat(c, width - |s|) + s else s
  }

  lemma {:induction false} ParseNatLeadingZeros(k: nat, s: string)
    requires AllDigits(s)
    ensures AllDigits(Repeat('0', k) + s)
    ensures ParseNat(Repeat('0', k) + s) == ParseNat(s)
    decreases |s|, k
  {
    var z := Repeat('0', k);
    if s == [] {
      if k > 0 {
        assert z + s == z;
        assert z[..k - 1] == Repeat('0', k - 1);
        ParseNatLeadingZeros(k - 1, []);
        assert Repeat('0', k - 1) + [] == Repeat('0', k - 1);
      }
    } else {
      var t := z + s;
      assert t[..|t| - 1] == z + s[..|s| - 1];
      ParseNatLeadingZeros(k, s[..|s| - 1]);
    }
  }

  /** `parseInt` on a string that starts with its digits: the value of the
      longest digit prefix, or `None` (NaN) when there is none. */
  function DigitPrefix(s: string): (p: string)
    ensures AllDigits(p) && |p| <= |s| && p == s[..|p|]
    ensures |p| < |s| ==> !IsDigit(s[|p|])
    ensures AllDigits(s) ==> p == s
  {
    if s != [] && IsDigit(s[0]) then [s[0]] + DigitPrefix(s[1..]) else []
  }

  function ParseIntPrefix(s: string): (r: Option<nat>)
    ensures r.None? <==> (s == [] || !IsDigit(s[0]))
    ensures AllDigits(s) && s != [] ==> r == Some(ParseNat(s))
  {
    var p := DigitPrefix(s);
    if p == [] then None else Some(ParseNat(p))
  }

  // ------------------------------------------------------------ sequences

  /** A non-empty sequence is its prefix followed by its last element. */
  lemma LastSplit<T>(s: seq<T>)
    requires |s| > 0
    ensures s[..|s| - 1] + [s[|s| - 1]] == s
  {
  }

  /** A suffix is cut into two consecutive slices. */
  lemma SliceSplit<T>(s: seq<T>, a: nat, e: nat)
    requires a <= e <= |s|
    ensures s[a..e] + s[e..] == s[a..]
  {
  }

  /** A sequence cut at two points is the three pieces in order. */
  lemma ThreePieces<T>(s: seq<T>, a: nat, b: nat)
    requires a <= b <= |s|
    ensures s[..a] + s[a..b] + s[b..] == s
  {
  }

  /** A non-empty prefix is the first element followed by the rest of it. */
  lemma ConsPrefix<T>(s: seq<T>, a: nat)
    requires 1 <= a <= |s|
    ensures [s[0]] + s[1..a] == s[..a]
  {
  }

  /** Dropping the last element of a concatenation with a non-empty right
      part drops it from that part. */
  lemma DropLastAppend<T>(a: seq<T>, b: seq<T>)
    requires |b| > 0
    ensures (a + b)[..|a + b| - 1] == a + b[..|b| - 1]
  {
  }
}
