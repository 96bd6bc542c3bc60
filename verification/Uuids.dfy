/** UUID columns: many spellings of one value on the way in, one on the way out. */
module Uuids {
  import opened MapSums

  predicate IsHex(c: char) {
    '0' <= c <= '9' || 'a' <= c <= 'f' || 'A' <= c <= 'F'
  }

  function Lower(c: char): char {
    if 'A' <= c <= 'Z' then c - 'A' + 'a' else c
  }

  function LowerAll(s: string): (t: string)
    ensures |t| == |s|
  {
    if s == [] then [] else [Lower(s[0])] + LowerAll(s[1..])
  }

  predicate AllHex(s: string) {
    forall i :: 0 <= i < |s| ==> IsHex(s[i])
  }

  const GROUPS := 8

  /** The digits of n groups of four, where a hyphen may follow each group but the last. */
  function Digits(s: string, n: nat): (r: Option<string>)
    ensures r.Some? ==> |r.value| == 4 * n
    decreases |s|
  {
    if n == 0 then (if s == [] then Some([]) else None)
    else if |s| < 4 || !AllHex(s[..4]) then None
    else
      var rest := Digits(if n > 1 && |s| > 4 && s[4] == '-' then s[5..] else s[4..], n - 1);
      if rest.None? then None else Some(LowerAll(s[..4]) + rest.value)
  }

  /** How the database prints a value of 32 digits. */
  function Printed(h: string): string
    requires |h| == 4 * GROUPS
  {
    h[..8] + "-" + h[8..12] + "-" + h[12..16] + "-" + h[16..20] + "-" + h[20..]
  }

  function Unbraced(s: string): string {
    if |s| >= 2 && s[0] == '{' && s[|s| - 1] == '}' then s[1..|s| - 1] else s
  }

  /** The value a text names, as the database prints it: any letter case, with or without hyphens and braces. */
  function Uuid(s: string): Option<string> {
    var digits := Digits(Unbraced(s), GROUPS);
    if digits.None? then None else Some(Printed(digits.value))
  }

  // ---------- Printing and reading back ----------

  predicate IsDigits(h: string) {
    forall i :: 0 <= i < |h| ==> '0' <= h[i] <= '9' || 'a' <= h[i] <= 'f'
  }

  lemma {:induction false} LowerIsDigits(s: string)
    requires AllHex(s)
    ensures IsDigits(LowerAll(s))
    decreases |s|
  {
    if s != [] {
      LowerIsDigits(s[1..]);
    }
  }

  lemma {:induction false} DigitsAreDigits(s: string, n: nat)
    requires Digits(s, n).Some?
    ensures IsDigits(Digits(s, n).value)
    decreases n
  {
    if n > 0 {
      LowerIsDigits(s[..4]);
      DigitsAreDigits(if n > 1 && |s| > 4 && s[4] == '-' then s[5..] else s[4..], n - 1);
    }
  }

  lemma {:induction false} LowerKeepsDigits(h: string)
    requires IsDigits(h)
    ensures LowerAll(h) == h
    decreases |h|
  {
    if h != [] {
      LowerKeepsDigits(h[1..]);
    }
  }

  lemma GroupThenHyphen(g: string, rest: string, n: nat)
    requires |g| == 4 && IsDigits(g) && n > 1 && Digits(rest, n - 1).Some?
    ensures Digits(g + ("-" + rest), n) == Some(g + Digits(rest, n - 1).value)
  {
    var s := g + ("-" + rest);
    assert s[..4] == g && s[5..] == rest;
    LowerKeepsDigits(g);
  }

  lemma GroupThenGroup(g: string, rest: string, n: nat)
    requires |g| == 4 && IsDigits(g) && n > 0 && Digits(rest, n - 1).Some? && (rest == [] || rest[0] != '-')
    ensures Digits(g + rest, n) == Some(g + Digits(rest, n - 1).value)
  {
    var s := g + rest;
    assert s[..4] == g && s[4..] == rest;
    LowerKeepsDigits(g);
  }

  lemma LastThree(h: string)
    requires |h| == 12 && IsDigits(h)
    ensures Digits(h, 3) == Some(h)
  {
    var a, b, c := h[..4], h[4..8], h[8..];
    GroupThenGroup(c, [], 1);
    assert c + [] == c;
    GroupThenGroup(b, c, 2);
    GroupThenGroup(a, b + c, 3);
    assert a + (b + c) == h;
  }

  // One more hyphenated group in front of text that reads as the digits after it.
  lemma HyphenatedAt(h: string, i: nat, rest: string, n: nat)
    requires i + 4 <= |h| && IsDigits(h) && n > 1 && Digits(rest, n - 1) == Some(h[i + 4..])
    ensures Digits(h[i..i + 4] + ("-" + rest), n) == Some(h[i..])
  {
    GroupThenHyphen(h[i..i + 4], rest, n);
    assert h[i..i + 4] + h[i + 4..] == h[i..];
  }

  lemma PrintedDigits(h: string)
    requires |h| == 4 * GROUPS && IsDigits(h)
    ensures Digits(Printed(h), GROUPS) == Some(h)
  {
    var r4 := h[20..];
    LastThree(r4);
    var r3 := h[16..20] + ("-" + r4);
    HyphenatedAt(h, 16, r4, 4);
    var r2 := h[12..16] + ("-" + r3);
    HyphenatedAt(h, 12, r3, 5);
    var r1 := h[8..12] + ("-" + r2);
    HyphenatedAt(h, 8, r2, 6);
    var r0 := h[4..8] + ("-" + r1);
    HyphenatedAt(h, 4, r1, 7);
    GroupThenGroup(h[..4], r0, 8);
    assert h[..4] + h[4..] == h;
    PrintedGroups(h);
  }

  lemma PrintedGroups(h: string)
    requires |h| == 4 * GROUPS
    ensures Printed(h) == h[..4] + (h[4..8] + ("-" + (h[8..12] + ("-" + (h[12..16] + ("-" + (h[16..20] + ("-" + h[20..]))))))))
  {
    assert h[..8] == h[..4] + h[4..8];
  }

  /** What the database prints reads back as itself. */
  lemma PrintedReadsBack(h: string)
    requires |h| == 4 * GROUPS && IsDigits(h)
    ensures Uuid(Printed(h)) == Some(Printed(h))
  {
    PrintedDigits(h);
    assert Printed(h)[0] == h[0];
  }

  /** The printed form of a value is a spelling of it: printing is idempotent. */
  lemma PrintingIsIdempotent(s: string)
    requires Uuid(s).Some?
    ensures Uuid(Uuid(s).value) == Uuid(s)
  {
    DigitsAreDigits(Unbraced(s), GROUPS);
    PrintedReadsBack(Digits(Unbraced(s), GROUPS).value);
  }

  // ---------- Other spellings ----------

  predicate SameUpToCase(s: string, t: string) {
    |s| == |t| && forall i :: 0 <= i < |s| ==> Lower(s[i]) == Lower(t[i])
  }

  lemma {:induction false} LowerForgetsCase(s: string, t: string)
    requires SameUpToCase(s, t)
    ensures LowerAll(s) == LowerAll(t)
    decreases |s|
  {
    if s != [] {
      LowerForgetsCase(s[1..], t[1..]);
    }
  }

  lemma {:induction false} DigitsForgetCase(s: string, t: string, n: nat)
    requires SameUpToCase(s, t)
    ensures Digits(s, n) == Digits(t, n)
    decreases n
  {
    if n > 0 && |s| >= 4 {
      LowerForgetsCase(s[..4], t[..4]);
      assert forall i :: 0 <= i < 4 ==> IsHex(s[i]) == IsHex(t[i]) by {
        assert forall i :: 0 <= i < 4 ==> Lower(s[i]) == Lower(t[i]);
      }
      DigitsForgetCase(s[4..], t[4..], n - 1);
      if |s| > 4 {
        assert Lower(s[4]) == Lower(t[4]);
        DigitsForgetCase(s[5..], t[5..], n - 1);
      }
    }
  }

  /** Letter case makes no difference to the value. */
  lemma CaseMakesNoDifference(s: string, t: string)
    requires SameUpToCase(s, t)
    ensures Uuid(s) == Uuid(t)
  {
    if |s| >= 2 {
      assert Lower(s[0]) == Lower(t[0]) && Lower(s[|s| - 1]) == Lower(t[|t| - 1]);
    }
    DigitsForgetCase(Unbraced(s), Unbraced(t), GROUPS);
  }

  /** Every value has another spelling than its printed one. */
  lemma BracesSpellTheSame(s: string)
    requires Uuid(s) == Some(s)
    ensures Uuid("{" + s + "}") == Some(s) && "{" + s + "}" != s
  {
    var braced := "{" + s + "}";
    assert braced[1..|braced| - 1] == s;
    DigitsAreDigits(Unbraced(s), GROUPS);
    assert s[0] != '{';
  }

  // ---------- Exactly the texts that are read ----------

  function Hexes(s: string): (t: string)
    ensures |t| <= |s|
    decreases |s|
  {
    if s == [] then [] else (if s[0] == '-' then [] else [s[0]]) + Hexes(s[1..])
  }

  lemma {:induction false} HexesTogether(a: string, b: string)
    ensures Hexes(a + b) == Hexes(a) + Hexes(b)
    decreases |a|
  {
    if a == [] {
      assert a + b == b;
    } else {
      var first := if a[0] == '-' then [] else [a[0]];
      HexesTogether(a[1..], b);
      assert (a + b)[1..] == a[1..] + b;
      assert Hexes(a + b) == first + (Hexes(a[1..]) + Hexes(b));
      assert Hexes(a) == first + Hexes(a[1..]);
    }
  }

  lemma {:induction false} HexesOfHex(s: string)
    requires AllHex(s)
    ensures Hexes(s) == s
    decreases |s|
  {
    if s != [] {
      HexesOfHex(s[1..]);
    }
  }

  // A hyphen between two groups of four: not first, not last, not after another one.
  predicate Separates(s: string, i: nat, n: nat)
    requires i < |s|
  {
    0 < i && s[i - 1] != '-' && |Hexes(s[..i])| % 4 == 0 && |Hexes(s[..i])| < 4 * n
  }

  /** 4n hexadecimal digits, and hyphens that separate groups of four. */
  predicate Grouped(s: string, n: nat) {
    && |Hexes(s)| == 4 * n
    && forall i :: 0 <= i < |s| ==> if s[i] == '-' then Separates(s, i, n) else IsHex(s[i])
  }

  // No hyphen among the first four characters separates anything.
  lemma TooEarly(s: string, i: nat, n: nat)
    requires i < |s| && i < 4
    ensures !Separates(s, i, n)
  {
    if 0 < i && s[i - 1] != '-' {
      HexesTogether(s[..i - 1], [s[i - 1]]);
      assert s[..i] == s[..i - 1] + [s[i - 1]];
      assert Hexes([s[i - 1]]) == [s[i - 1]] + Hexes([]);
    }
  }

  lemma FirstGroupIsHex(s: string, n: nat)
    requires n > 0 && Grouped(s, n)
    ensures |s| >= 4 && AllHex(s[..4])
  {
    forall i | 0 <= i < 4 ensures IsHex(s[i]) {
      TooEarly(s, i, n);
    }
  }

  lemma HexesAfter(s: string, off: nat, i: nat)
    requires 4 <= off <= i <= |s| && AllHex(s[..4]) && (off == 4 || (off == 5 && s[4] == '-'))
    ensures |Hexes(s[..i])| == 4 + |Hexes(s[off..][..i - off])|
  {
    var g, sep, t := s[..4], s[4..off], s[off..][..i - off];
    assert s[..i] == g + (sep + t);
    HexesTogether(g, sep + t);
    HexesTogether(sep, t);
    HexesOfHex(g);
    assert Hexes(sep) == [];
  }

  lemma LaterHyphens(s: string, n: nat, off: nat, i: nat)
    requires n > 0 && 4 <= off <= i < |s| && AllHex(s[..4]) && (off == 4 || (off == 5 && s[4] == '-'))
    ensures i > off ==> (Separates(s, i, n) <==> Separates(s[off..], i - off, n - 1))
  {
    HexesAfter(s, off, i);
    if i > off {
      assert s[off..][i - off - 1] == s[i - 1];
    }
  }

  lemma GroupedTail(s: string, n: nat, off: nat)
    requires n > 0 && |s| >= 4 && AllHex(s[..4])
    requires off == if n > 1 && |s| > 4 && s[4] == '-' then 5 else 4
    requires Grouped(s, n)
    ensures Grouped(s[off..], n - 1)
  {
    var t := s[off..];
    HexesAfter(s, off, |s|);
    assert s[..|s|] == s && t[..|s| - off] == t;
    forall i | 0 <= i < |t| ensures if t[i] == '-' then Separates(t, i, n - 1) else IsHex(t[i]) {
      assert t[i] == s[i + off];
      LaterHyphens(s, n, off, i + off);
      if t[i] == '-' && i == 0 {
        assert Separates(s, off, n);
        HexesAfter(s, off, off);
      }
    }
  }

  lemma GroupedFromTail(s: string, n: nat, off: nat)
    requires n > 0 && |s| >= 4 && AllHex(s[..4])
    requires off == if n > 1 && |s| > 4 && s[4] == '-' then 5 else 4
    requires Grouped(s[off..], n - 1)
    ensures Grouped(s, n)
  {
    var t := s[off..];
    HexesAfter(s, off, |s|);
    assert s[..|s|] == s && t[..|s| - off] == t;
    forall i | 0 <= i < |s| ensures if s[i] == '-' then Separates(s, i, n) else IsHex(s[i]) {
      if i < 4 {
        assert s[..4][i] == s[i];
      } else if i < off {
        assert s[..4][3] == s[3];
        HexesAfter(s, 4, 4);
      } else {
        assert t[i - off] == s[i];
        LaterHyphens(s, n, off, i);
      }
    }
  }

  lemma {:induction false} LowerTogether(a: string, b: string)
    ensures LowerAll(a + b) == LowerAll(a) + LowerAll(b)
    decreases |a|
  {
    if a == [] {
      assert a + b == b;
    } else {
      LowerTogether(a[1..], b);
      assert (a + b)[1..] == a[1..] + b;
    }
  }

  /** Digits are read from exactly the texts of n groups, and are those of the text in lower case. */
  lemma {:induction false} DigitsExactly(s: string, n: nat)
    ensures Digits(s, n).Some? <==> Grouped(s, n)
    ensures Digits(s, n).Some? ==> Digits(s, n).value == LowerAll(Hexes(s))
    decreases n
  {
    if n == 0 {
      if s != [] {
        assert s[0] != '-' ==> |Hexes(s)| > 0;
        assert !Separates(s, 0, 0);
      }
    } else if |s| >= 4 && AllHex(s[..4]) {
      var off := if n > 1 && |s| > 4 && s[4] == '-' then 5 else 4;
      DigitsExactly(s[off..], n - 1);
      if Grouped(s, n) {
        GroupedTail(s, n, off);
      }
      if Grouped(s[off..], n - 1) {
        GroupedFromTail(s, n, off);
      }
      HexesInTwo(s, off);
      LowerTogether(s[..4], Hexes(s[off..]));
    } else if Grouped(s, n) {
      FirstGroupIsHex(s, n);
    }
  }

  lemma HexesInTwo(s: string, off: nat)
    requires 4 <= off <= |s| && AllHex(s[..4]) && (off == 4 || (off == 5 && s[4] == '-'))
    ensures Hexes(s) == s[..4] + Hexes(s[off..])
  {
    HexesOfHex(s[..4]);
    HexesTogether(s[..4], s[4..]);
    assert s == s[..4] + s[4..];
    if off == 5 {
      assert s[4..][1..] == s[5..];
    }
  }

  // The text within its braces, if it has both.
  function Inside(s: string): string {
    if |s| > 1 && s[0] == '{' && s[|s| - 1] == '}' then s[1..|s| - 1] else s
  }

  /**
   * A text is read as a UUID if and only if it is 32 hexadecimal digits, with hyphens between groups of four at
   * will, with or without braces around; it prints as those digits in lower case, in groups of 8, 4, 4, 4 and 12.
   */
  lemma UuidExactly(s: string)
    ensures Uuid(s).Some? <==> Grouped(Inside(s), 8)
    ensures Uuid(s).Some? ==>
      var h := LowerAll(Hexes(Inside(s)));
      |h| == 32 && Uuid(s).value == h[..8] + "-" + h[8..12] + "-" + h[12..16] + "-" + h[16..20] + "-" + h[20..]
  {
    DigitsExactly(Inside(s), 8);
  }
}
