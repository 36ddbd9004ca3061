/** The parts of Python's str API that the pipeline relies on. Case mapping and
    whitespace are restricted to ASCII, where Python consults the Unicode
    database. */
module Strings {

  /** str.isspace() on ASCII: space, tab, line feed, carriage return, vertical
      tab, form feed and the four information separators. */
  predicate IsSpace(c: char) {
    c == ' ' || c == '\t' || c == '\n' || c == '\r' || c == '\U{0B}' || c == '\U{0C}'
    || '\U{1C}' <= c <= '\U{1F}'
  }

  predicate AllSpace(s: string) {
    forall i :: 0 <= i < |s| ==> IsSpace(s[i])
  }

  function LowerChar(c: char): char {
    if 'A' <= c <= 'Z' then (c as int + 32) as char else c
  }

  function UpperChar(c: char): char {
    if 'a' <= c <= 'z' then (c as int - 32) as char else c
  }

  /** str.lower() */
  function Lower(s: string): string {
    if s == [] then [] else [LowerChar(s[0])] + Lower(s[1..])
  }

  /** str.upper() */
  function Upper(s: string): string {
    if s == [] then [] else [UpperChar(s[0])] + Upper(s[1..])
  }

  /** Lower-casing forgets an earlier upper-casing. */
  lemma {:induction false} LowerOfUpper(s: string)
    ensures Lower(Upper(s)) == Lower(s)
    decreases |s|
  {
    if s != [] {
      LowerOfUpper(s[1..]);
      assert Upper(s)[1..] == Upper(s[1..]);
    }
  }

  /** str.replace(a, b) for one-character a and b. */
  function ReplaceChar(s: string, a: char, b: char): string {
    if s == [] then [] else [if s[0] == a then b else s[0]] + ReplaceChar(s[1..], a, b)
  }

  /** Case mapping works character by character and keeps the length. */
  lemma {:induction false} LowerAt(s: string)
    ensures |Lower(s)| == |s| && forall i :: 0 <= i < |s| ==> Lower(s)[i] == LowerChar(s[i])
    decreases |s|
  {
    if s != [] {
      LowerAt(s[1..]);
    }
  }

  lemma {:induction false} UpperAt(s: string)
    ensures |Upper(s)| == |s| && forall i :: 0 <= i < |s| ==> Upper(s)[i] == UpperChar(s[i])
    decreases |s|
  {
    if s != [] {
      UpperAt(s[1..]);
    }
  }

  /** Replacement works character by character and keeps the length. */
  lemma {:induction false} ReplaceCharAt(s: string, a: char, b: char)
    ensures |ReplaceChar(s, a, b)| == |s|
    ensures forall i :: 0 <= i < |s| ==> ReplaceChar(s, a, b)[i] == if s[i] == a then b else s[i]
    decreases |s|
  {
    if s != [] {
      ReplaceCharAt(s[1..], a, b);
    }
  }

  /** The leading part of str.strip(). */
  function TrimStart(s: string): string {
    if s != [] && IsSpace(s[0]) then TrimStart(s[1..]) else s
  }

  /** The trailing part of str.strip(). */
  function TrimEnd(s: string): string {
    if s != [] && IsSpace(s[|s| - 1]) then TrimEnd(s[..|s| - 1]) else s
  }

  /** str.strip() with no argument. */
  function Strip(s: string): string {
    TrimEnd(TrimStart(s))
  }

  /** TrimStart drops a run of whitespace from the front and stops at the first
      other character. */
  lemma {:induction false} TrimStartShape(s: string) returns (lead: string)
    ensures s == lead + TrimStart(s) && AllSpace(lead)
    ensures TrimStart(s) != [] ==> !IsSpace(TrimStart(s)[0])
    decreases |s|
  {
    if s != [] && IsSpace(s[0]) {
      var l := TrimStartShape(s[1..]);
      lead := [s[0]] + l;
    } else {
      lead := [];
    }
  }

  /** TrimEnd drops a run of whitespace from the back and stops at the last
      other character. */
  lemma {:induction false} TrimEndShape(s: string) returns (trail: string)
    ensures s == TrimEnd(s) + trail && AllSpace(trail)
    ensures TrimEnd(s) != [] ==> !IsSpace(TrimEnd(s)[|TrimEnd(s)| - 1])
    decreases |s|
  {
    if s != [] && IsSpace(s[|s| - 1]) {
      var t := TrimEndShape(s[..|s| - 1]);
      trail := t + [s[|s| - 1]];
    } else {
      trail := [];
    }
  }

  /** Stripping keeps a middle part of the text that neither starts nor ends
      with whitespace, and removes only whitespace around it. */
  lemma StripShape(s: string) returns (lead: string, trail: string)
    ensures s == lead + Strip(s) + trail && AllSpace(lead) && AllSpace(trail)
    ensures Strip(s) != [] ==> !IsSpace(Strip(s)[0]) && !IsSpace(Strip(s)[|Strip(s)| - 1])
  {
    lead := TrimStartShape(s);
    var t := TrimStart(s);
    trail := TrimEndShape(t);
    var r := TrimEnd(t);
    if r != [] {
      assert r[0] == t[0];
    }
  }

  /** Stripping removes exactly the whitespace around a core that neither starts
      nor ends with whitespace. */
  lemma StripFramed(lead: string, core: string, trail: string)
    requires AllSpace(lead) && AllSpace(trail)
    requires core != [] && !IsSpace(core[0]) && !IsSpace(core[|core| - 1])
    ensures Strip(lead + core + trail) == core
  {
    assert lead + core + trail == lead + (core + trail);
    TrimStartSkips(lead, core + trail);
    TrimEndSkips(core, trail);
  }

  lemma {:induction false} TrimStartSkips(lead: string, rest: string)
    requires AllSpace(lead) && rest != [] && !IsSpace(rest[0])
    ensures TrimStart(lead + rest) == rest
    decreases |lead|
  {
    if lead != [] {
      assert (lead + rest)[1..] == lead[1..] + rest;
      TrimStartSkips(lead[1..], rest);
    }
  }

  lemma {:induction false} TrimEndSkips(core: string, trail: string)
    requires AllSpace(trail) && core != [] && !IsSpace(core[|core| - 1])
    ensures TrimEnd(core + trail) == core
    decreases |trail|
  {
    if trail != [] {
      var t := trail[..|trail| - 1];
      assert (core + trail)[..|core + trail| - 1] == core + t;
      TrimEndSkips(core, t);
    } else {
      assert core + trail == core;
    }
  }

  /** Stripping is idempotent. */
  lemma StripIdempotent(s: string)
    ensures Strip(Strip(s)) == Strip(s)
  {
    var r := Strip(s);
    var lead, trail := StripShape(s);
    if r != [] {
      StripFramed([], r, []);
      assert [] + r + [] == r;
    }
  }

  /** `sub in s` */
  predicate Contains(s: string, sub: string)
    decreases |s|
  {
    sub <= s || (s != [] && Contains(s[1..], sub))
  }

  lemma {:induction false} ContainsAt(s: string, sub: string, i: nat)
    requires i + |sub| <= |s| && s[i..i + |sub|] == sub
    ensures Contains(s, sub)
    decreases i
  {
    if i > 0 {
      assert s[1..][i - 1..i - 1 + |sub|] == s[i..i + |sub|];
      ContainsAt(s[1..], sub, i - 1);
    }
  }

  lemma {:induction false} ContainsWitness(s: string, sub: string) returns (i: nat)
    requires Contains(s, sub)
    ensures i + |sub| <= |s| && s[i..i + |sub|] == sub
    decreases |s|
  {
    if sub <= s {
      i := 0;
    } else {
      var k := ContainsWitness(s[1..], sub);
      assert s[1..][k..k + |sub|] == s[k + 1..k + 1 + |sub|];
      i := k + 1;
    }
  }

  lemma ContainsTransitive(a: string, b: string, c: string)
    requires Contains(a, b) && Contains(b, c)
    ensures Contains(a, c)
  {
    var i := ContainsWitness(a, b);
    var j := ContainsWitness(b, c);
    forall k | 0 <= k < |c|
      ensures a[i + j..i + j + |c|][k] == c[k]
    {
      assert a[i + j + k] == b[j + k];
    }
    ContainsAt(a, c, i + j);
  }

  lemma ContainsSuffix(a: string, t: string)
    ensures Contains(a + t, t)
  {
    assert (a + t)[|a|..|a| + |t|] == t;
    ContainsAt(a + t, t, |a|);
  }

  lemma ContainsExtend(s: string, t: string, u: string)
    requires Contains(s, t)
    ensures Contains(s + u, t)
  {
    var i := ContainsWitness(s, t);
    assert (s + u)[i..i + |t|] == s[i..i + |t|];
    ContainsAt(s + u, t, i);
  }

  lemma ContainsInfix(a: string, b: string, c: string)
    ensures Contains(a + b + c, b)
  {
    var s := a + b + c;
    assert s[|a|..|a| + |b|] == b;
    ContainsAt(s, b, |a|);
  }

  /** Two neighbouring pieces of a text appear in it together. */
  lemma ContainsJoined(a: string, b: string, c: string, d: string)
    ensures Contains(a + b + c + d, b + c)
  {
    assert a + b + c + d == a + (b + c) + d;
    ContainsInfix(a, b + c, d);
  }

  /** A text containing `sub` contains every prefix of `sub`. */
  lemma {:induction false} ContainsPrefixOf(s: string, sub: string, p: string)
    requires Contains(s, sub) && p <= sub
    ensures Contains(s, p)
    decreases |s|
  {
    if !(sub <= s) {
      ContainsPrefixOf(s[1..], sub, p);
    }
  }

  function DigitChar(d: nat): char
    requires d < 10
  {
    "0123456789"[d]
  }

  /** str() of a non-negative int. */
  function NatToString(n: nat): string
  {
    if n < 10 then [DigitChar(n)] else NatToString(n / 10) + [DigitChar(n % 10)]
  }

  /** sep.join(parts) */
  function Join(parts: seq<string>, sep: string): string
  {
    if parts == [] then ""
    else if |parts| == 1 then parts[0]
    else parts[0] + sep + Join(parts[1..], sep)
  }

  /** Joining splits at any inner position into the join of the parts before,
      the separator, and the join of the parts after. */
  lemma {:induction false} JoinSplit(parts: seq<string>, sep: string, k: nat)
    requires 0 < k < |parts|
    ensures Join(parts, sep) == Join(parts[..k], sep) + sep + Join(parts[k..], sep)
    decreases k
  {
    if k > 1 {
      var tail := parts[1..];
      JoinSplit(tail, sep, k - 1);
      assert tail[..k - 1] == parts[..k][1..];
      assert tail[k - 1..] == parts[k..];
    } else {
      assert parts[..1] == [parts[0]];
    }
  }

  /** Part k sits in the joined text with the separator on each side that has
      a neighbouring part. */
  lemma JoinAround(parts: seq<string>, sep: string, k: nat) returns (before: string, after: string)
    requires k < |parts|
    ensures Join(parts, sep) == before + parts[k] + after
    ensures k == 0 ==> before == []
    ensures k > 0 ==> before == Join(parts[..k], sep) + sep
    ensures k + 1 == |parts| ==> after == []
    ensures k + 1 < |parts| ==> after == sep + Join(parts[k + 1..], sep)
  {
    var rest := parts[k..];
    if k + 1 < |parts| {
      after := sep + Join(parts[k + 1..], sep);
      assert rest[1..] == parts[k + 1..];
      assert Join(rest, sep) == parts[k] + after;
    } else {
      after := [];
      assert rest == [parts[k]];
      assert Join(rest, sep) == parts[k] + after;
    }
    if k > 0 {
      before := Join(parts[..k], sep) + sep;
      JoinSplit(parts, sep, k);
    } else {
      before := [];
      assert parts[k..] == parts;
    }
  }

  /** Two neighbouring parts appear in the joined text with the separator
      between them. */
  lemma JoinPair(parts: seq<string>, sep: string, k: nat) returns (before: string, after: string)
    requires k + 1 < |parts|
    ensures Join(parts, sep) == before + (parts[k] + sep + parts[k + 1]) + after
    ensures k == 0 ==> before == []
    ensures k > 0 ==> before == Join(parts[..k], sep) + sep
  {
    var a;
    before, a := JoinAround(parts, sep, k);
    var tail := parts[k + 1..];
    if |tail| > 1 {
      after := sep + Join(tail[1..], sep);
    } else {
      after := [];
    }
    assert Join(tail, sep) == parts[k + 1] + after;
  }

  /** Two pairs of neighbouring parts appear in the joined text in the order
      of their positions. */
  lemma JoinPairsInOrder(parts: seq<string>, sep: string, i: nat, j: nat)
    returns (before: string, between: string, after: string)
    requires i + 1 < j && j + 1 < |parts|
    ensures Join(parts, sep)
            == before + (parts[i] + sep + parts[i + 1]) + between + (parts[j] + sep + parts[j + 1]) + after
  {
    var pre, post := JoinPair(parts, sep, j);
    var head := parts[..j];
    var b, a := JoinPair(head, sep, i);
    assert head[i] == parts[i] && head[i + 1] == parts[i + 1];
    before, between, after := b, a + sep, post;
  }

  /** Python's `<=` on str: lexicographic order of code points. */
  predicate LexLeq(a: string, b: string) {
    a == [] || (b != [] && (a[0] < b[0] || (a[0] == b[0] && LexLeq(a[1..], b[1..]))))
  }

  lemma {:induction false} LexLeqReflexive(a: string)
    ensures LexLeq(a, a)
  {
    if a != [] {
      LexLeqReflexive(a[1..]);
    }
  }

  lemma {:induction false} LexLeqTotal(a: string, b: string)
    ensures LexLeq(a, b) || LexLeq(b, a)
  {
    if a != [] && b != [] && a[0] == b[0] {
      LexLeqTotal(a[1..], b[1..]);
    }
  }

  lemma {:induction false} LexLeqAntisymmetric(a: string, b: string)
    requires LexLeq(a, b) && LexLeq(b, a)
    ensures a == b
  {
    if a != [] && b != [] {
      LexLeqAntisymmetric(a[1..], b[1..]);
      assert a == [a[0]] + a[1..] && b == [b[0]] + b[1..];
    }
  }

  lemma {:induction false} LexLeqTransitive(a: string, b: string, c: string)
    requires LexLeq(a, b) && LexLeq(b, c)
    ensures LexLeq(a, c)
  {
    if a != [] && a[0] == b[0] && b[0] == c[0] {
      LexLeqTransitive(a[1..], b[1..], c[1..]);
    }
  }

  /** After a shared prefix, the order is decided by what follows it. */
  lemma {:induction false} LexLeqCommonPrefix(p: string, a: string, b: string)
    ensures LexLeq(p + a, p + b) <==> LexLeq(a, b)
  {
    if p != [] {
      assert (p + a)[1..] == p[1..] + a && (p + b)[1..] == p[1..] + b;
      LexLeqCommonPrefix(p[1..], a, b);
    } else {
      assert p + a == a && p + b == b;
    }
  }

  /** Between two different texts of the same length the order does not look
      past them, whatever follows each. */
  lemma {:induction false} LexLeqSameLength(a: string, b: string, x: string, y: string)
    requires |a| == |b| && a != b
    ensures LexLeq(a + x, b + y) <==> LexLeq(a, b)
  {
    if a[0] == b[0] {
      assert a[1..] != b[1..] by {
        assert a == [a[0]] + a[1..] && b == [b[0]] + b[1..];
      }
      assert (a + x)[1..] == a[1..] + x && (b + y)[1..] == b[1..] + y;
      LexLeqSameLength(a[1..], b[1..], x, y);
    }
  }
}
