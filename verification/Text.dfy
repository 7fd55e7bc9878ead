/** Decimal numerals, token spans and separators: what the log lines, the flow
    keys and the dotted addresses are made of. */
module Text {
  import opened Words


  predicate IsDigit(c: char) { '0' <= c <= '9' }

  predicate AllDigits(s: string) { forall i :: 0 <= i < |s| ==> IsDigit(s[i]) }

  function DigitChar(d: nat): (c: char)
    requires d < 10
    ensures IsDigit(c) && DigitValue(c) == d
  {
    (d + '0' as int) as char
  }

  function DigitValue(c: char): nat
    requires IsDigit(c)
  {
    c as int - '0' as int
  }

  /** Shortest decimal numeral, as %d and encoding/json print it. */
  function Dec(n: nat): (s: string)
    ensures s != [] && AllDigits(s)
    ensures s[0] == '0' <==> n == 0
    ensures s[0] == '0' ==> |s| == 1
  {
    if n < 10 then [DigitChar(n)] else Dec(n / 10) + [DigitChar(n % 10)]
  }

  function Undec(s: string): nat
    requires AllDigits(s)
  {
    if s == [] then 0 else 10 * Undec(s[..|s| - 1]) + DigitValue(s[|s| - 1])
  }

  lemma {:induction false} UndecDec(n: nat)
    ensures Undec(Dec(n)) == n
  {
    if n < 10 {
      assert Dec(n)[..0] == [];
    } else {
      UndecDec(n / 10);
      assert Dec(n)[..|Dec(n)| - 1] == Dec(n / 10);
    }
  }

  /** Digit by digit, most significant first. */
  lemma DecIsDecimal(n: nat)
    ensures Dec(n) == (if n < 10 then [] else Dec(n / 10)) + ["0123456789"[n % 10]]
  {
    DigitIs(n % 10);
    hide DigitChar;
    if n < 10 { assert Dec(n) == [DigitChar(n)]; }
  }

  lemma DigitIs(d: nat)
    requires d < 10
    ensures DigitChar(d) == "0123456789"[d]
  {
  }

  lemma DecInjective(m: nat, n: nat)
    requires Dec(m) == Dec(n)
    ensures m == n
  {
    UndecDec(m);
    UndecDec(n);
  }

  lemma {:induction false} DecLength(n: nat, k: nat)
    requires k > 0 && n < Pow(10, k)
    ensures |Dec(n)| <= k
  {
    if n >= 10 {
      assert Pow(10, 1) == 10 * Pow(10, 0);
      DecLength(n / 10, k - 1);
    }
  }

  /** Length of the longest prefix that avoids `stop`. */
  function Span(s: string, stop: set<char>): (k: nat)
    ensures k <= |s|
    ensures forall i :: 0 <= i < k ==> s[i] !in stop
    ensures k < |s| ==> s[k] in stop
  {
    if s == [] || s[0] in stop then 0 else 1 + Span(s[1..], stop)
  }

  lemma {:induction false} SpanIs(a: string, rest: string, stop: set<char>)
    requires forall i :: 0 <= i < |a| ==> a[i] !in stop
    requires rest == [] || rest[0] in stop
    ensures Span(a + rest, stop) == |a|
  {
    if a == [] {
      assert a + rest == rest;
    } else {
      assert (a + rest)[1..] == a[1..] + rest;
      SpanIs(a[1..], rest, stop);
    }
  }

  /** The pieces of s between occurrences of c; always at least one. */
  function Split(s: string, c: char): (parts: seq<string>)
    ensures |parts| > 0
    decreases |s|
  {
    var k := Span(s, {c});
    if k == |s| then [s] else [s[..k]] + Split(s[k + 1..], c)
  }

  function Last<T>(xs: seq<T>): T
    requires xs != []
  {
    xs[|xs| - 1]
  }

  function Front<T>(xs: seq<T>): seq<T>
    requires xs != []
  {
    xs[..|xs| - 1]
  }

  lemma {:induction false} SplitNoSep(s: string, c: char)
    requires c !in s
    ensures Split(s, c) == [s]
  {
    SpanIs(s, [], {c});
    assert s + [] == s;
  }

  lemma {:induction false} SplitFirst(a: string, c: char, b: string)
    requires c !in a
    ensures Split(a + [c] + b, c) == [a] + Split(b, c)
  {
    var s := a + [c] + b;
    assert s == a + ([c] + b);
    SpanIs(a, [c] + b, {c});
    assert s[..|a|] == a && s[|a| + 1..] == b;
  }

  lemma Regroup(h: string, c: char, t: string, b: string)
    ensures (h + [c] + t) + [c] + b == h + [c] + (t + [c] + b)
  {
  }

  /** A separator splits a text into independent halves. */
  lemma {:induction false} SplitAtSep(a: string, c: char, b: string)
    ensures Split(a + [c] + b, c) == Split(a, c) + Split(b, c)
    decreases |a|
  {
    hide Split;
    var k := Span(a, {c});
    if k == |a| {
      SplitFirst(a, c, b);
      SplitNoSep(a, c);
    } else {
      var h, t := a[..k], a[k + 1..];
      assert a == h + [c] + t;
      SplitFirst(h, c, t);
      SplitAtSep(t, c, b);
      Regroup(h, c, t, b);
      SplitFirst(h, c, t + [c] + b);
      assert ([h] + Split(t, c)) + Split(b, c) == [h] + (Split(t, c) + Split(b, c));
    }
  }

  /** A closed line becomes one more piece, and an empty piece opens after it. */
  lemma SplitClosed(content: string, c: char, line: string)
    requires c !in line
    ensures Front(Split(content + (line + [c]), c)) == Front(Split(content, c)) + [Last(Split(content, c)) + line]
    ensures Last(Split(content + (line + [c]), c)) == []
  {
    hide Split;
    assert content + (line + [c]) == (content + line) + [c] + [];
    SplitAtSep(content + line, c, []);
    SplitNoSep([], c);
    SplitTail(content, c, line);
  }

  /** Text without a separator only lengthens the last piece. */
  lemma {:induction false} SplitTail(a: string, c: char, p: string)
    requires c !in p
    ensures Split(a + p, c) == Front(Split(a, c)) + [Last(Split(a, c)) + p]
    decreases |a|
  {
    hide Split;
    var k := Span(a, {c});
    if k == |a| {
      assert c !in a + p;
      SplitNoSep(a, c);
      SplitNoSep(a + p, c);
    } else {
      var h, t := a[..k], a[k + 1..];
      assert a == h + [c] + t;
      assert a + p == h + [c] + (t + p);
      SplitFirst(h, c, t);
      SplitFirst(h, c, t + p);
      SplitTail(t, c, p);
      LongerTail(h, Split(t, c), p);
    }
  }

  lemma LongerTail(h: string, parts: seq<string>, p: string)
    requires parts != []
    ensures [h] + (Front(parts) + [Last(parts) + p]) == Front([h] + parts) + [Last([h] + parts) + p]
  {
  }
}
