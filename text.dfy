/**
 * The few functions of Go's `strings` and `strconv` packages that the
 * handlers apply to paths, headers and path segments.
 */
module Text {

  predicate IsDigit(c: char) { '0' <= c <= '9' }

  /** strings.HasPrefix */
  predicate HasPrefix(s: string, prefix: string) {
    |prefix| <= |s| && s[..|prefix|] == prefix
  }

  /** strings.TrimPrefix: drops `prefix` once when `s` starts with it. */
  function TrimPrefix(s: string, prefix: string): (r: string)
    ensures HasPrefix(s, prefix) ==> prefix + r == s
    ensures !HasPrefix(s, prefix) ==> r == s
  {
    if HasPrefix(s, prefix) then
      assert s == s[..|prefix|] + s[|prefix|..];
      s[|prefix|..]
    else s
  }

  /** strings.Contains: `sub` occurs somewhere in `s`. */
  predicate Contains(s: string, sub: string)
    decreases |s|
  {
    HasPrefix(s, sub) || (|s| > 0 && Contains(s[1..], sub))
  }

  /** `sub` occurs in `s` starting at index i. */
  predicate OccursAt(s: string, sub: string, i: int) {
    0 <= i && i + |sub| <= |s| && s[i..i + |sub|] == sub
  }

  /** HasPrefix compares the first |prefix| characters one by one. */
  lemma HasPrefixIff(s: string, prefix: string)
    ensures HasPrefix(s, prefix) <==> |prefix| <= |s| && forall i :: 0 <= i < |prefix| ==> s[i] == prefix[i]
  {
  }

  /** Contains finds `sub` exactly when it occurs at some index. */
  lemma {:induction false} ContainsIff(s: string, sub: string)
    ensures Contains(s, sub) <==> exists i :: OccursAt(s, sub, i)
    decreases |s|
  {
    if HasPrefix(s, sub) {
      assert OccursAt(s, sub, 0);
    } else if |s| > 0 {
      ContainsIff(s[1..], sub);
      if Contains(s[1..], sub) {
        var i :| OccursAt(s[1..], sub, i);
        assert s[1..][i..i + |sub|] == s[i + 1..i + 1 + |sub|];
        assert OccursAt(s, sub, i + 1);
      }
      if i :| OccursAt(s, sub, i) {
        assert i != 0;
        var j := i - 1;
        assert s[1..][j..j + |sub|] == s[j + 1..j + 1 + |sub|];
        assert OccursAt(s[1..], sub, j);
      }
    }
  }

  /**
   * unicode.IsSpace: the code points with the Unicode White_Space property,
   * which is the set strings.TrimSpace removes.
   */
  predicate IsSpace(c: char) {
    c == ' ' || c == '\t' || c == '\n' || c == '\r' || c == '\U{000B}' || c == '\U{000C}'
    || c == '\U{0085}' || c == '\U{00A0}' || c == '\U{1680}'
    || ('\U{2000}' <= c <= '\U{200A}')
    || c == '\U{2028}' || c == '\U{2029}' || c == '\U{202F}' || c == '\U{205F}' || c == '\U{3000}'
  }

  /** Drops the leading white space: the result is the longest suffix not starting with it. */
  function TrimLeft(s: string): (r: string)
    ensures |r| <= |s| && r == s[|s| - |r|..]
    ensures forall k :: 0 <= k < |s| - |r| ==> IsSpace(s[k])
    ensures r == [] || !IsSpace(r[0])
    decreases |s|
  {
    if |s| > 0 && IsSpace(s[0]) then TrimLeft(s[1..]) else s
  }

  /** Drops the trailing white space: the result is the longest prefix not ending with it. */
  function TrimRight(s: string): (r: string)
    ensures |r| <= |s| && r == s[..|r|]
    ensures forall k :: |r| <= k < |s| ==> IsSpace(s[k])
    ensures r == [] || !IsSpace(r[|r| - 1])
    decreases |s|
  {
    if |s| > 0 && IsSpace(s[|s| - 1]) then TrimRight(s[..|s| - 1]) else s
  }

  /** strings.TrimSpace: the middle of s between its leading and its trailing white space. */
  function TrimSpace(s: string): (r: string)
    ensures var i := |s| - |TrimLeft(s)|;
            && i + |r| <= |s| && r == s[i..i + |r|]
            && (forall k :: 0 <= k < i ==> IsSpace(s[k]))
            && (forall k :: i + |r| <= k < |s| ==> IsSpace(s[k]))
    ensures r == [] || (!IsSpace(r[0]) && !IsSpace(r[|r| - 1]))
  {
    TrimRight(TrimLeft(s))
  }

  /**
   * unicode.ToLower on the code points that matter to the term check:
   * ASCII capitals, and the only two non-ASCII code points whose lower case
   * is an ASCII letter (U+0130 to 'i', the Kelvin sign U+212A to 'k').
   * Every other code point is left as it is.
   */
  function LowerRune(c: char): char {
    if 'A' <= c <= 'Z' then (c as int + 32) as char
    else if c == '\U{0130}' then 'i'
    else if c == '\U{212A}' then 'k'
    else c
  }

  /**
   * strings.ToLower, rune by rune: a capital becomes its small letter,
   * U+0130 becomes 'i', U+212A becomes 'k', and every other code point is
   * kept; so no ASCII capital is left.
   */
  function ToLower(s: string): (r: string)
    ensures |r| == |s|
    ensures forall i :: 0 <= i < |r| ==> !('A' <= r[i] <= 'Z')
    ensures forall i :: 0 <= i < |s| && 'A' <= s[i] <= 'Z' ==> r[i] == (s[i] as int + 32) as char
    ensures forall i :: 0 <= i < |s| && s[i] == '\U{0130}' ==> r[i] == 'i'
    ensures forall i :: 0 <= i < |s| && s[i] == '\U{212A}' ==> r[i] == 'k'
    ensures forall i :: 0 <= i < |s| && !('A' <= s[i] <= 'Z') && s[i] != '\U{0130}' && s[i] != '\U{212A}' ==> r[i] == s[i]
  {
    seq(|s|, i requires 0 <= i < |s| => LowerRune(s[i]))
  }

  const MaxInt64: int := 0x7FFF_FFFF_FFFF_FFFF
  const MinInt64: int := -0x8000_0000_0000_0000

  predicate AllDigits(s: string) {
    forall i :: 0 <= i < |s| ==> IsDigit(s[i])
  }

  /** The decimal value of a digit string. */
  function DigitsValue(s: string): nat
    requires AllDigits(s)
  {
    if s == [] then 0
    else DigitsValue(s[..|s| - 1]) * 10 + (s[|s| - 1] as int - '0' as int)
  }

  const MaxUint64: int := 0xFFFF_FFFF_FFFF_FFFF

  /** The leading run of ASCII digits of s. */
  function DigitRun(s: string): (r: string)
    ensures |r| <= |s| && r == s[..|r|] && AllDigits(r)
    ensures |r| < |s| ==> !IsDigit(s[|r|])
    ensures AllDigits(s) <==> r == s
  {
    if |s| > 0 && IsDigit(s[0]) then [s[0]] + DigitRun(s[1..]) else []
  }

  /** An Atoi argument without its optional leading sign. */
  function Unsigned(s: string): string {
    if |s| > 0 && (s[0] == '+' || s[0] == '-') then s[1..] else s
  }

  predicate Negative(s: string) {
    |s| > 0 && s[0] == '-'
  }

  /**
   * What strconv.Atoi returns: the value and whether the error is nil.
   * The digits are read left to right: the first digit that takes the
   * magnitude past 2^64 - 1 ends the scan with a range error, whatever
   * follows; before that, a non-digit is a syntax error with value 0. A
   * magnitude that fits 64 unsigned bits but not a signed int is clamped
   * to the nearest bound, still with a range error.
   */
  datatype Parsed = Parsed(value: int, ok: bool)

  function Atoi(s: string): (r: Parsed)
    ensures MinInt64 <= r.value <= MaxInt64
    ensures r.ok <==>
              && |Unsigned(s)| > 0 && AllDigits(Unsigned(s))
              && (if Negative(s) then DigitsValue(Unsigned(s)) <= -MinInt64 else DigitsValue(Unsigned(s)) <= MaxInt64)
    ensures r.ok ==> AllDigits(Unsigned(s))
                     && r.value == (if Negative(s) then -(DigitsValue(Unsigned(s)) as int) else DigitsValue(Unsigned(s)))
    ensures DigitsValue(DigitRun(Unsigned(s))) > MaxUint64 ==>
              r == Parsed(if Negative(s) then MinInt64 else MaxInt64, false)
    ensures !AllDigits(Unsigned(s)) && DigitsValue(DigitRun(Unsigned(s))) <= MaxUint64 ==> r == Parsed(0, false)
    ensures |Unsigned(s)| == 0 ==> r == Parsed(0, false)
    ensures |Unsigned(s)| > 0 && AllDigits(Unsigned(s)) && !r.ok ==> r.value == (if Negative(s) then MinInt64 else MaxInt64)
    ensures !r.ok ==> r.value == 0 || r.value == MinInt64 || r.value == MaxInt64
  {
    var digits := Unsigned(s);
    if |digits| == 0 then Parsed(0, false)
    else if DigitsValue(DigitRun(digits)) > MaxUint64 then Parsed(if Negative(s) then MinInt64 else MaxInt64, false)
    else if DigitRun(digits) != digits then Parsed(0, false)
    else
      var n: int := DigitsValue(digits);
      if Negative(s) then
        (if -n < MinInt64 then Parsed(MinInt64, false) else Parsed(-n, true))
      else
        (if n > MaxInt64 then Parsed(MaxInt64, false) else Parsed(n, true))
  }

  /** A sign is read once, and a non-digit makes a syntax error. */
  lemma AtoiExamples()
    ensures Atoi("-12") == Parsed(-12, true)
    ensures Atoi("12a") == Parsed(0, false)
    ensures Atoi("+-1") == Parsed(0, false)
  {
    assert Unsigned("-12") == "12" && DigitRun("12") == "12";
    assert "12"[..1] == "1" && "1"[..0] == "";
    assert Unsigned("12a") == "12a" && !AllDigits("12a") by { assert !IsDigit("12a"[2]); }
    assert DigitRun("12a") == "12";
    assert Unsigned("+-1") == "-1" && !AllDigits("-1") by { assert !IsDigit("-1"[0]); }
    assert DigitRun("-1") == [];
  }

  function Pow10(n: nat): nat {
    if n == 0 then 1 else 10 * Pow10(n - 1)
  }

  /** A digit string is worth at least its leading digit times the weight of that position. */
  lemma {:induction false} LeadingDigitBound(s: string)
    requires AllDigits(s) && |s| > 0
    ensures DigitsValue(s) >= (s[0] as int - '0' as int) * Pow10(|s| - 1)
  {
    if |s| > 1 {
      var init := s[..|s| - 1];
      assert init[0] == s[0];
      LeadingDigitBound(init);
    }
  }

  /** The digit run of digits followed by a non-digit is those digits. */
  lemma {:induction false} DigitRunStops(d: string, tail: string)
    requires AllDigits(d)
    requires tail == [] || !IsDigit(tail[0])
    ensures DigitRun(d + tail) == d
  {
    if d != [] {
      assert (d + tail)[1..] == d[1..] + tail;
      DigitRunStops(d[1..], tail);
      assert d == [d[0]] + d[1..];
    } else {
      assert d + tail == tail;
    }
  }

  /** Digits worth more than 2^64 - 1 give the range error before the junk after them is read. */
  lemma AtoiOverflowBeforeJunk(d: string, tail: string)
    requires |d| > 0 && AllDigits(d) && DigitsValue(d) > MaxUint64
    requires tail == [] || !IsDigit(tail[0])
    ensures Atoi(d + tail) == Parsed(MaxInt64, false)
  {
    DigitRunStops(d, tail);
    assert (d + tail)[0] == d[0];
  }

  lemma Pow10Is19()
    ensures Pow10(19) == 10_000_000_000_000_000_000
  {
    assert Pow10(5) == 100_000;
    assert Pow10(10) == 10_000_000_000;
    assert Pow10(15) == 1_000_000_000_000_000;
  }

  /** The string "99999999999999999999x" parses to MaxInt64 with a range error, not to 0. */
  lemma AtoiOverflowThenJunk()
    ensures Atoi("99999999999999999999x") == Parsed(MaxInt64, false)
  {
    var d := "99999999999999999999";
    assert AllDigits(d);
    LeadingDigitBound(d);
    Pow10Is19();
    AtoiOverflowBeforeJunk(d, "x");
    assert d + "x" == "99999999999999999999x";
  }

  /** Joins non-empty list of pieces with `sep` between neighbours. */
  function Join(parts: seq<string>, sep: char): string
    requires |parts| >= 1
  {
    if |parts| == 1 then parts[0] else parts[0] + [sep] + Join(parts[1..], sep)
  }

  /**
   * strings.Split with a one-character separator: the pieces between the
   * separators, in order, none containing the separator, joined back to `s`.
   */
  function Split(s: string, sep: char): (r: seq<string>)
    ensures |r| >= 1
    ensures forall i :: 0 <= i < |r| ==> sep !in r[i]
    ensures Join(r, sep) == s
  {
    if |s| == 0 then [""]
    else
      var rest := Split(s[1..], sep);
      if s[0] == sep then
        assert ([""] + rest)[1..] == rest;
        [""] + rest
      else
        var r := [[s[0]] + rest[0]] + rest[1..];
        assert r[1..] == rest[1..];
        assert s == [s[0]] + s[1..];
        r
  }

  /** A piece without the separator, followed by more text, becomes the head of the first piece. */
  lemma {:induction false} SplitAfterPiece(w: string, t: string, sep: char)
    requires sep !in w
    ensures Split(w + t, sep) == [w + Split(t, sep)[0]] + Split(t, sep)[1..]
  {
    if |w| > 0 {
      assert (w + t)[1..] == w[1..] + t;
      assert (w + t)[0] == w[0];
      SplitAfterPiece(w[1..], t, sep);
      assert [w[0]] + (w[1..] + Split(t, sep)[0]) == w + Split(t, sep)[0];
    } else {
      var r := Split(t, sep);
      assert w + t == t && w + r[0] == r[0];
      assert r == [r[0]] + r[1..];
    }
  }

  /** A leading separator splits off an empty first piece. */
  lemma SplitAfterSeparator(t: string, sep: char)
    ensures Split([sep] + t, sep) == [""] + Split(t, sep)
  {
    assert ([sep] + t)[1..] == t;
  }

  /** Splitting the join of separator-free pieces gives the pieces back. */
  lemma {:induction false} SplitJoin(parts: seq<string>, sep: char)
    requires |parts| >= 1
    requires forall i :: 0 <= i < |parts| ==> sep !in parts[i]
    ensures Split(Join(parts, sep), sep) == parts
  {
    var head := parts[0];
    if |parts| == 1 {
      SplitAfterPiece(head, "", sep);
      assert head + "" == head;
    } else {
      var rest := parts[1..];
      var tail := Join(rest, sep);
      assert Join(parts, sep) == head + ([sep] + tail);
      SplitJoin(rest, sep);
      SplitAfterSeparator(tail, sep);
      SplitAfterPiece(head, [sep] + tail, sep);
      assert head + "" == head;
      assert parts == [head] + rest;
    }
  }

}
