/** The pieces of Python's string semantics the assembler relies on. */
module Text {
  import opened Common

  /** Python's str.isspace(), which is also what `\s` matches in a str pattern. */
  predicate IsSpace(c: char)
  {
    var n := c as int;
    (0x09 <= n <= 0x0D) || (0x1C <= n <= 0x20) || n == 0x85 || n == 0xA0 || n == 0x1680
    || (0x2000 <= n <= 0x200A) || n == 0x2028 || n == 0x2029 || n == 0x202F || n == 0x205F
    || n == 0x3000
  }

  /** The characters str.splitlines() ends a line at ("\r\n" counts as one boundary). */
  predicate IsLineBreak(c: char)
  {
    var n := c as int;
    (0x0A <= n <= 0x0D) || (0x1C <= n <= 0x1E) || n == 0x85 || n == 0x2028 || n == 0x2029
  }

  predicate IsDigit(c: char) { '0' <= c <= '9' }

  predicate IsHexDigit(c: char) { IsDigit(c) || 'a' <= c <= 'f' || 'A' <= c <= 'F' }

  predicate AllDigits(s: string) { forall k | 0 <= k < |s| :: IsDigit(s[k]) }

  predicate AllHex(s: string) { forall k | 0 <= k < |s| :: IsHexDigit(s[k]) }

  predicate EndsWith(s: string, suffix: string)
  {
    |suffix| <= |s| && s[|s| - |suffix|..] == suffix
  }

  /** s.lstrip() */
  function TrimStart(s: string): (r: string)
    ensures |r| <= |s| && r == s[|s| - |r|..]
    ensures r == [] || !IsSpace(r[0])
    ensures forall k | 0 <= k < |s| - |r| :: IsSpace(s[k])
  {
    if s != [] && IsSpace(s[0]) then TrimStart(s[1..]) else s
  }

  /** s.rstrip() */
  function TrimEnd(s: string): (r: string)
    ensures |r| <= |s| && r == s[..|r|]
    ensures r == [] || !IsSpace(r[|r| - 1])
    ensures forall k | |r| <= k < |s| :: IsSpace(s[k])
  {
    if s != [] && IsSpace(s[|s| - 1]) then TrimEnd(s[..|s| - 1]) else s
  }

  /** s.strip() */
  function Strip(s: string): string
  {
    TrimEnd(TrimStart(s))
  }

  /** Stripping leaves nothing exactly when every character is whitespace; otherwise
      the result starts and ends with a non-space character of s. */
  lemma StripSpec(s: string)
    ensures Strip(s) == [] <==> forall k | 0 <= k < |s| :: IsSpace(s[k])
    ensures Strip(s) != [] ==> !IsSpace(Strip(s)[0]) && !IsSpace(Strip(s)[|Strip(s)| - 1])
  {
    var t := TrimStart(s);
    var r := TrimEnd(t);
    if r != [] {
      assert r[0] == t[0];
      assert !IsSpace(s[|s| - |t|]);
    }
  }

  /** Index of the first line boundary at or after i, or |s|. */
  function LineEnd(s: string, i: nat): (j: nat)
    requires i <= |s|
    ensures i <= j <= |s|
    ensures forall k | i <= k < j :: !IsLineBreak(s[k])
    ensures j < |s| ==> IsLineBreak(s[j])
    decreases |s| - i
  {
    if i == |s| || IsLineBreak(s[i]) then i else LineEnd(s, i + 1)
  }

  /** s.splitlines(): no empty last line after a final boundary; "\r\n" is one boundary. */
  function SplitLines(s: string): (lines: seq<string>)
    ensures forall l | l in lines :: forall k | 0 <= k < |l| :: !IsLineBreak(l[k])
    decreases |s|
  {
    if s == [] then []
    else
      var j := LineEnd(s, 0);
      if j == |s| then [s]
      else
        var next := NextLine(s);
        [s[..j]] + SplitLines(s[next..])
  }

  /** A line terminator as str.splitlines() takes it: "\r\n", or one line-break character. */
  predicate IsBoundary(t: string)
  {
    t == "\r\n" || (|t| == 1 && IsLineBreak(t[0]))
  }

  /** The terminator that ends each line of SplitLines(s); [] after a last line that has none. */
  function Boundaries(s: string): seq<string>
    decreases |s|
  {
    if s == [] then []
    else
      var j := LineEnd(s, 0);
      if j == |s| then [[]]
      else
        var next := NextLine(s);
        [s[j..next]] + Boundaries(s[next..])
  }

  /** Each line followed by its terminator, all concatenated. */
  function JoinLines(lines: seq<string>, ends: seq<string>): string
    requires |lines| == |ends|
  {
    if lines == [] then [] else lines[0] + ends[0] + JoinLines(lines[1..], ends[1..])
  }

  /** Where SplitLines and Boundaries cut the first line off a text that has a terminator. */
  function NextLine(s: string): (next: nat)
    requires LineEnd(s, 0) < |s|
    ensures LineEnd(s, 0) < next <= |s|
  {
    var j := LineEnd(s, 0);
    if s[j] == '\r' && j + 1 < |s| && s[j + 1] == '\n' then j + 2 else j + 1
  }

  /** The text NextLine skips is one boundary, and a lone "\r" is not followed by '\n'. */
  lemma NextLineBoundary(s: string)
    requires LineEnd(s, 0) < |s|
    ensures IsBoundary(s[LineEnd(s, 0)..NextLine(s)])
    ensures s[LineEnd(s, 0)..NextLine(s)] == "\r" ==> NextLine(s) == |s| || s[NextLine(s)] != '\n'
  {
    var j, next := LineEnd(s, 0), NextLine(s);
    var e := s[j..next];
    if next == j + 2 {
      assert e == [s[j], s[j + 1]];
    } else {
      assert e == [s[j]];
    }
  }

  lemma SplitStep(s: string)
    requires s != [] && LineEnd(s, 0) < |s|
    ensures SplitLines(s) == [s[..LineEnd(s, 0)]] + SplitLines(s[NextLine(s)..])
    ensures Boundaries(s) == [s[LineEnd(s, 0)..NextLine(s)]] + Boundaries(s[NextLine(s)..])
  {
  }

  lemma Cut3(s: string, j: nat, n: nat)
    requires j <= n <= |s|
    ensures s[..j] + s[j..n] + s[n..] == s
  {
  }

  /** The terminators are as many as the lines, and putting them back gives s. */
  lemma {:induction false} SplitLinesRejoin(s: string)
    ensures |Boundaries(s)| == |SplitLines(s)|
    ensures JoinLines(SplitLines(s), Boundaries(s)) == s
    decreases |s|
  {
    if s != [] && LineEnd(s, 0) < |s| {
      var j, next := LineEnd(s, 0), NextLine(s);
      var rest := s[next..];
      SplitStep(s);
      SplitLinesRejoin(rest);
      var lines, ends := SplitLines(s), Boundaries(s);
      assert lines[0] == s[..j] && ends[0] == s[j..next];
      assert lines[1..] == SplitLines(rest) && ends[1..] == Boundaries(rest);
      calc {
        JoinLines(lines, ends);
        lines[0] + ends[0] + JoinLines(lines[1..], ends[1..]);
        s[..j] + s[j..next] + rest;
        { Cut3(s, j, next); }
        s;
      }
    }
  }

  /** Every terminator is a boundary; only a non-empty last line may go without one. */
  predicate Terminated(lines: seq<string>, ends: seq<string>)
    requires |lines| == |ends|
  {
    forall k | 0 <= k < |lines| ::
      IsBoundary(ends[k]) || (k == |lines| - 1 && ends[k] == [] && lines[k] != [])
  }

  /** A "\r" terminator is never the first half of a "\r\n" that was cut in two. */
  predicate CrLfKept(lines: seq<string>, ends: seq<string>)
    requires |lines| == |ends|
  {
    forall k | 0 <= k < |lines| - 1 :: ends[k] == "\r" ==> !(lines[k + 1] == [] && ends[k + 1] == "\n")
  }

  lemma TerminatedCons(l: string, e: string, lines: seq<string>, ends: seq<string>)
    requires |lines| == |ends| && IsBoundary(e) && Terminated(lines, ends)
    ensures Terminated([l] + lines, [e] + ends)
  {
    var lines2, ends2 := [l] + lines, [e] + ends;
    forall k | 1 <= k < |lines2|
      ensures IsBoundary(ends2[k]) || (k == |lines2| - 1 && ends2[k] == [] && lines2[k] != [])
    {
      assert ends2[k] == ends[k - 1] && lines2[k] == lines[k - 1];
    }
  }

  lemma CrLfKeptCons(l: string, e: string, lines: seq<string>, ends: seq<string>)
    requires |lines| == |ends| && CrLfKept(lines, ends)
    requires e == "\r" && lines != [] ==> !(lines[0] == [] && ends[0] == "\n")
    ensures CrLfKept([l] + lines, [e] + ends)
  {
    var lines2, ends2 := [l] + lines, [e] + ends;
    forall k | 1 <= k < |lines2| - 1
      ensures ends2[k] == "\r" ==> !(lines2[k + 1] == [] && ends2[k + 1] == "\n")
    {
      assert ends2[k] == ends[k - 1] && lines2[k + 1] == lines[k] && ends2[k + 1] == ends[k];
    }
  }

  lemma JoinEmptyHead(lines: seq<string>, ends: seq<string>)
    requires |lines| == |ends| && lines != [] && lines[0] == []
    ensures JoinLines(lines, ends) == ends[0] + JoinLines(lines[1..], ends[1..])
  {
    var tail := JoinLines(lines[1..], ends[1..]);
    assert JoinLines(lines, ends) == lines[0] + ends[0] + tail;
    assert lines[0] + ends[0] == ends[0];
  }

  /** SplitLines cuts at boundaries only: every line but a non-empty last one ends on a
      boundary, a single break character or "\r\n" taken as one, and a lone "\r" is never
      followed by an empty line ended by "\n". */
  lemma {:induction false} SplitLinesBoundaries(s: string)
    ensures |Boundaries(s)| == |SplitLines(s)|
    ensures Terminated(SplitLines(s), Boundaries(s))
    ensures CrLfKept(SplitLines(s), Boundaries(s))
    decreases |s|
  {
    SplitLinesRejoin(s);
    if s != [] && LineEnd(s, 0) < |s| {
      var j, next := LineEnd(s, 0), NextLine(s);
      var rest := s[next..];
      SplitStep(s);
      SplitLinesBoundaries(rest);
      SplitLinesRejoin(rest);
      var lines', ends' := SplitLines(rest), Boundaries(rest);
      var e := s[j..next];
      NextLineBoundary(s);
      TerminatedCons(s[..j], e, lines', ends');
      if lines' != [] && lines'[0] == [] {
        JoinEmptyHead(lines', ends');
        if ends'[0] == "\n" {
          assert rest[0] == '\n';
        }
      }
      CrLfKeptCons(s[..j], e, lines', ends');
    }
  }

  predicate HasCommentStart(s: string)
  {
    exists k | 0 <= k < |s| - 1 :: s[k] == '/' && s[k + 1] == '/'
  }

  /** s.split("//", 1)[0]: everything before the first "//". */
  function BeforeComment(s: string): (r: string)
    ensures r <= s
    ensures !HasCommentStart(r)
    ensures r == s || (|r| + 2 <= |s| && s[|r|] == '/' && s[|r| + 1] == '/')
  {
    if |s| < 2 then s
    else if s[0] == '/' && s[1] == '/' then []
    else
      var rest := BeforeComment(s[1..]);
      assert !HasCommentStart([s[0]] + rest) by {
        if rest != [] {
          assert rest[0] == s[1];
        }
        forall k | 1 <= k < |rest|
          ensures !(([s[0]] + rest)[k] == '/' && ([s[0]] + rest)[k + 1] == '/')
        {
          assert ([s[0]] + rest)[k] == rest[k - 1];
          assert ([s[0]] + rest)[k + 1] == rest[k];
        }
      }
      [s[0]] + rest
  }

  function UpperChar(c: char): char
  {
    if 'a' <= c <= 'z' then (c as int - 32) as char else c
  }

  /** str.upper() on the ASCII letters (lexed identifiers hold no other letters). */
  function Upper(s: string): (r: string)
    ensures |r| == |s|
    ensures forall k | 0 <= k < |s| :: r[k] == UpperChar(s[k])
  {
    seq(|s|, k requires 0 <= k < |s| => UpperChar(s[k]))
  }

  function DigitValue(c: char): nat
    requires IsHexDigit(c)
  {
    if IsDigit(c) then c as int - '0' as int
    else if 'a' <= c <= 'f' then c as int - 'a' as int + 10
    else c as int - 'A' as int + 10
  }

  function DigitChar(d: nat): (c: char)
    requires d < 16
  {
    if d < 10 then ('0' as int + d) as char else ('A' as int + d - 10) as char
  }

  /** Value of a digit string in the given base (10 or 16). */
  function Value(s: string, base: nat): nat
    requires AllHex(s)
  {
    if s == [] then 0 else base * Value(s[..|s| - 1], base) + DigitValue(s[|s| - 1])
  }

  /** Digits of n in the given base, most significant first, without leading zeros. */
  function Digits(n: nat, base: nat): (s: string)
    requires base == 10 || base == 16
    ensures s != [] && AllHex(s)
    ensures base == 10 ==> AllDigits(s)
    decreases n
  {
    if n < base then [DigitChar(n)] else Digits(n / base, base) + [DigitChar(n % base)]
  }

  lemma {:induction false} DigitsRoundTrip(n: nat, base: nat)
    requires base == 10 || base == 16
    ensures Value(Digits(n, base), base) == n
    ensures (Digits(n, base)[0] == '0') == (n == 0)
    decreases n
  {
    var s := Digits(n, base);
    if n >= base {
      var t := Digits(n / base, base);
      DigitsRoundTrip(n / base, base);
      assert s[..|s| - 1] == t;
      assert s[0] == t[0];
    }
  }

  /** Python's int(s, 0) restricted to unsigned decimal and 0x-prefixed hexadecimal text:
      a decimal with a leading zero is refused unless every digit is zero. */
  function ParseBase0(s: string): Option<nat>
  {
    if |s| >= 3 && s[0] == '0' && (s[1] == 'x' || s[1] == 'X') && AllHex(s[2..]) then
      Some(Value(s[2..], 16))
    else if s != [] && AllDigits(s) then
      if s[0] != '0' then Some(Value(s, 10))
      else if forall k | 0 <= k < |s| :: s[k] == '0' then Some(0)
      else None
    else None
  }

  /** int(s) in base 10: leading zeros are allowed. */
  function ParseDecimal(s: string): Option<nat>
  {
    if s != [] && AllDigits(s) then Some(Value(s, 10)) else None
  }

  /** Every natural written in decimal or in 0x-hex parses back to itself; a decimal
      written with an extra leading zero is refused unless it is zero. */
  lemma ParseBase0RoundTrip(n: nat)
    ensures ParseBase0(Digits(n, 10)) == Some(n)
    ensures ParseBase0("0x" + Digits(n, 16)) == Some(n)
    ensures ParseBase0("0" + Digits(n, 10)) == (if n == 0 then Some(0) else None)
    ensures ParseDecimal(Digits(n, 10)) == Some(n)
  {
    DigitsRoundTrip(n, 10);
    DigitsRoundTrip(n, 16);
    var d := Digits(n, 10);
    assert ("0x" + Digits(n, 16))[2..] == Digits(n, 16);
    var z := "0" + d;
    if n == 0 {
      assert d == "0";
    } else {
      assert z[1] == d[0] && z[1] != '0';
    }
  }
}
