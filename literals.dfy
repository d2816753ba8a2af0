/**
 * Literal leaves of the syntax tree and values in both directions:
 * create_value_from_literal with gather_integer_literal_suffix (text to
 * value) and tree_from_literal_value (value to text), in cxx-cexpr.c.
 *
 * Lexemes are sequences of characters, each standing for one byte of the
 * source text; the C string terminator is modelled by reading '\0' past
 * the end.  The integer conversion calls strtol and strtoul with base 0
 * (prefix `0x` for hexadecimal, a leading `0` for octal, decimal
 * otherwise); their results saturate as the C library specifies.
 */
module Literals {
  import opened Values
  import opened Syntax

  /** toupper in the C locale. */
  function ToUpper(c: char): char {
    if 'a' <= c <= 'z' then (c as int - 32) as char else c
  }

  /** The character at index i of a C string, '\0' at or past its end. */
  function CharAt(text: string, i: nat): char {
    if i < |text| then text[i] else '\0'
  }

  /* ---------------- integer suffix ---------------- */

  predicate IsSuffixChar(c: char) {
    ToUpper(c) == 'U' || ToUpper(c) == 'L'
  }

  /** Number of trailing suffix characters the scan takes, at most three,
    * after i of them have been taken. */
  function ScanLength(text: string, i: nat): (n: nat)
    requires i <= 3 && i <= |text|
    requires forall j :: |text| - i <= j < |text| ==> IsSuffixChar(text[j])
    ensures i <= n <= 3 && n <= |text|
    ensures forall j :: |text| - n <= j < |text| ==> IsSuffixChar(text[j])
    ensures n < 3 && n < |text| ==> !IsSuffixChar(text[|text| - 1 - n])
    decreases 3 - i
  {
    if i < 3 && i < |text| && IsSuffixChar(text[|text| - 1 - i]) then ScanLength(text, i + 1) else i
  }

  /** The suffix gather_integer_literal_suffix looks at: the longest run of
    * U/L letters, case-insensitive, of length at most three, that ends the
    * text. */
  function ScannedSuffix(text: string): (s: string)
    ensures |s| <= 3 && |s| <= |text| && s == text[|text| - |s|..]
    ensures forall j :: 0 <= j < |s| ==> IsSuffixChar(s[j])
    ensures |s| < 3 && |s| < |text| ==> !IsSuffixChar(text[|text| - 1 - |s|])
  {
    text[|text| - ScanLength(text, 0)..]
  }

  /** Number of L letters (either case) in s. */
  function CountLongs(s: string): nat {
    if s == [] then 0 else (if ToUpper(s[0]) == 'L' then 1 else 0) + CountLongs(s[1..])
  }

  predicate HasUnsigned(s: string) {
    exists j :: 0 <= j < |s| && ToUpper(s[j]) == 'U'
  }

  /** One more character in front of the scanned part. */
  lemma SuffixStep(c: char, s: string)
    ensures CountLongs([c] + s) == (if ToUpper(c) == 'L' then 1 else 0) + CountLongs(s)
    ensures HasUnsigned([c] + s) <==> ToUpper(c) == 'U' || HasUnsigned(s)
  {
    var t := [c] + s;
    assert t[1..] == s;
    if HasUnsigned(s) {
      var j :| 0 <= j < |s| && ToUpper(s[j]) == 'U';
      assert t[j + 1] == s[j];
    }
    if HasUnsigned(t) && ToUpper(c) != 'U' {
      var j :| 0 <= j < |t| && ToUpper(t[j]) == 'U';
      assert s[j - 1] == t[j];
    }
  }

  /** One more suffix letter taken by the scan: the remaining scan length
    * is unchanged and the counts over the scanned tail grow by that letter. */
  lemma TakeOne(text: string, i: nat)
    requires i < 3 && i < |text|
    requires forall j :: |text| - i <= j < |text| ==> IsSuffixChar(text[j])
    requires IsSuffixChar(text[|text| - 1 - i])
    ensures ScanLength(text, i) == ScanLength(text, i + 1)
    ensures forall j :: |text| - (i + 1) <= j < |text| ==> IsSuffixChar(text[j])
    ensures CountLongs(text[|text| - (i + 1)..])
         == (if ToUpper(text[|text| - 1 - i]) == 'L' then 1 else 0) + CountLongs(text[|text| - i..])
    ensures HasUnsigned(text[|text| - (i + 1)..])
        <==> ToUpper(text[|text| - 1 - i]) == 'U' || HasUnsigned(text[|text| - i..])
  {
    var c, tail := text[|text| - 1 - i], text[|text| - i..];
    assert text[|text| - (i + 1)..] == [c] + tail;
    SuffixStep(c, tail);
  }

  /** When the scan stops, the letters taken so far are the scanned suffix. */
  lemma ScanStops(text: string, i: nat)
    requires i <= 3 && i <= |text|
    requires forall j :: |text| - i <= j < |text| ==> IsSuffixChar(text[j])
    requires ScanLength(text, i) == ScanLength(text, 0)
    requires !(i < 3 && i < |text| && IsSuffixChar(text[|text| - 1 - i]))
    ensures ScannedSuffix(text) == text[|text| - i..]
  {
    assert ScanLength(text, i) == i;
  }

  /** gather_integer_literal_suffix: walks back from the last character
    * while it sees U or L, at most three times, counting the L letters
    * and noting any U.  A lexeme never consists of suffix letters only
    * (it starts with a digit); the scan here also stops at its start. */
  method GatherIntegerLiteralSuffix(text: string) returns (isLong: nat, isUnsigned: bool)
    ensures isLong == CountLongs(ScannedSuffix(text))
    ensures isUnsigned == HasUnsigned(ScannedSuffix(text))
  {
    var i := 0;
    isLong, isUnsigned := 0, false;
    while i < 3 && i < |text| && (ToUpper(text[|text| - 1 - i]) == 'U' || ToUpper(text[|text| - 1 - i]) == 'L')
      invariant 0 <= i <= 3 && i <= |text|
      invariant forall j :: |text| - i <= j < |text| ==> IsSuffixChar(text[j])
      invariant ScanLength(text, i) == ScanLength(text, 0)
      invariant isLong == CountLongs(text[|text| - i..])
      invariant isUnsigned == HasUnsigned(text[|text| - i..])
    {
      TakeOne(text, i);
      if ToUpper(text[|text| - 1 - i]) == 'L' {
        isLong := isLong + 1;
      } else {
        isUnsigned := true;
      }
      i := i + 1;
    }
    ScanStops(text, i);
  }

  /** The suffix flags as the evaluator uses them: any L makes the
    * literal long, any U makes it unsigned. */
  datatype IntegerSuffix = IntegerSuffix(isLong: bool, isUnsigned: bool)

  function SuffixOf(text: string): IntegerSuffix {
    var s := ScannedSuffix(text);
    IntegerSuffix(CountLongs(s) > 0, HasUnsigned(s))
  }

  /* ---------------- strtol / strtoul with base 0 ---------------- */

  predicate IsSpace(c: char) {
    c == ' ' || c == '\t' || c == '\n' || c == '\U{0B}' || c == '\U{0C}' || c == '\r'
  }

  function SkipSpaces(s: string): (r: string)
    ensures |r| <= |s| && r == s[|s| - |r|..]
  {
    if s != [] && IsSpace(s[0]) then SkipSpaces(s[1..]) else s
  }

  /** Value of c as a digit; 36 for characters that are no digit at all. */
  function DigitValue(c: char): nat {
    if '0' <= c <= '9' then c as nat - '0' as nat
    else if 'a' <= c <= 'z' then c as nat - 'a' as nat + 10
    else if 'A' <= c <= 'Z' then c as nat - 'A' as nat + 10
    else 36
  }

  predicate IsDigitIn(c: char, base: nat) {
    DigitValue(c) < base
  }

  /** Number of leading characters of s that are digits in the base. */
  function DigitRun(s: string, base: nat): (n: nat)
    ensures n <= |s|
    ensures forall j :: 0 <= j < n ==> IsDigitIn(s[j], base)
    ensures n < |s| ==> !IsDigitIn(s[n], base)
  {
    if s != [] && IsDigitIn(s[0], base) then 1 + DigitRun(s[1..], base) else 0
  }

  /** Positional value of a digit string, most significant digit first. */
  function DigitsValue(d: string, base: nat): nat {
    if d == [] then 0 else DigitsValue(d[..|d| - 1], base) * base + DigitValue(d[|d| - 1])
  }

  /** The number strtol and strtoul read, as sign and magnitude. */
  datatype Scanned = Scanned(negative: bool, magnitude: nat)

  /** The base-0 grammar: optional white space, an optional sign, then
    * the magnitude. */
  function ScanInteger(text: string): Scanned {
    var s := SkipSpaces(text);
    if s != [] && s[0] == '-' then Scanned(true, ScanMagnitude(s[1..]))
    else if s != [] && s[0] == '+' then Scanned(false, ScanMagnitude(s[1..]))
    else Scanned(false, ScanMagnitude(s))
  }

  /** `0x`/`0X` followed by a hexadecimal digit selects base 16, a leading
    * `0` selects base 8, anything else base 10; the longest run of digits
    * of that base is read (none reads as 0). */
  function ScanMagnitude(r: string): nat {
    if |r| >= 3 && r[0] == '0' && ToUpper(r[1]) == 'X' && IsDigitIn(r[2], 16) then
      DigitsValue(r[2..][..DigitRun(r[2..], 16)], 16)
    else if r != [] && r[0] == '0' then
      DigitsValue(r[..DigitRun(r, 8)], 8)
    else
      DigitsValue(r[..DigitRun(r, 10)], 10)
  }

  function SignedValue(n: Scanned): int {
    if n.negative then -(n.magnitude as int) else n.magnitude
  }

  const LONG_MIN: int := -0x8000_0000_0000_0000
  const LONG_MAX: int := 0x7FFF_FFFF_FFFF_FFFF
  const ULONG_MAX: int := 0xFFFF_FFFF_FFFF_FFFF

  /** strtol(text, NULL, 0): the signed number, clamped to the range of long. */
  function Strtol(text: string): (r: int)
    ensures LONG_MIN <= r <= LONG_MAX
  {
    ClampToLong(ScanInteger(text))
  }

  function ClampToLong(n: Scanned): (r: int)
    ensures LONG_MIN <= r <= LONG_MAX
  {
    var x := SignedValue(n);
    if x < LONG_MIN then LONG_MIN else if x > LONG_MAX then LONG_MAX else x
  }

  /** strtoul(text, NULL, 0): the magnitude negated in unsigned long
    * arithmetic when a minus sign is present; ULONG_MAX when the magnitude
    * does not fit. */
  function Strtoul(text: string): (r: int)
    ensures 0 <= r <= ULONG_MAX
  {
    WrapToUnsignedLong(ScanInteger(text))
  }

  function WrapToUnsignedLong(n: Scanned): (r: int)
    ensures 0 <= r <= ULONG_MAX
  {
    if n.magnitude > ULONG_MAX then ULONG_MAX
    else Convert(UnsignedLong, SignedValue(n))
  }

  /* ---------------- create_value_from_literal ---------------- */

  const WIDE_CHARACTER: string := "Unsupported wide character in constant expression evaluation"
  const ESCAPE_SEQUENCE: string := "TODO - Check for escape sentences!"

  /** The byte a character of a lexeme stands for, read as a signed char. */
  function SignedChar(c: char): int {
    Convert(Character, c as int % TWO_8)
  }

  /** The integer branch of create_value_from_literal: the suffix picks
    * the kind and whether strtol or strtoul reads the text. */
  function IntegerLiteralValue(suffix: IntegerSuffix, text: string): (r: Value)
    ensures r.Valid()
  {
    if suffix.isLong then
      if suffix.isUnsigned then Value(UnsignedLong, Strtoul(text))
      else Value(SignedLong, Strtol(text))
    else
      // the long results of strtol and strtoul are narrowed to the int fields
      if suffix.isUnsigned then Value(UnsignedInt, Convert(UnsignedInt, Strtol(text)))
      else Value(SignedInt, Convert(SignedInt, Strtoul(text)))
  }

  /** create_value_from_literal on a literal leaf. */
  function CreateValueFromLiteral(kind: LiteralKind, text: string): (r: Outcome<Value>)
    ensures r.Ok? ==> r.value.Valid()
    ensures r.Ok? || r.Fatal?
    ensures r.Fatal? ==> kind == CharacterLiteral
  {
    match kind
    case DecimalLiteral | OctalLiteral | HexadecimalLiteral =>
      Ok(IntegerLiteralValue(SuffixOf(text), text))
    case BooleanLiteral =>
      Ok(Value(Bool, if text == "false" then 1 else 0))
    case CharacterLiteral =>
      if ToUpper(CharAt(text, 0)) == 'L' then Fatal(WIDE_CHARACTER)
      else if CharAt(text, 1) == '\\' then Fatal(ESCAPE_SEQUENCE)
      else Ok(Value(Character, SignedChar(CharAt(text, 1))))
  }

  /* ---------------- tree_from_literal_value ---------------- */

  function DigitChar(d: nat): char
    requires d < 10
  {
    ('0' as int + d) as char
  }

  /** Decimal digits of n without leading zeros. */
  function DecimalDigits(n: nat): (s: string)
    ensures |s| >= 1
    ensures forall j :: 0 <= j < |s| ==> IsDigitIn(s[j], 10)
    ensures n > 0 ==> s[0] != '0'
  {
    if n < 10 then [DigitChar(n)] else DecimalDigits(n / 10) + [DigitChar(n % 10)]
  }

  /** printf's %d, %ld, %u and %lu. */
  function DecimalText(x: int): string {
    if x < 0 then "-" + DecimalDigits(-x) else DecimalDigits(x)
  }

  /** printf's %c: the byte of a signed char. */
  function CharOfByte(x: int): char {
    ((x + TWO_8) % TWO_8) as char
  }

  /** tree_from_literal_value: a literal leaf whose text denotes the value. */
  function TreeFromLiteralValue(v: Value): (r: Node)
    ensures r.Literal?
    ensures r.literalKind == (match v.kind
                              case Character => CharacterLiteral
                              case Bool => BooleanLiteral
                              case _ => DecimalLiteral)
  {
    match v.kind
    case SignedInt => Literal(DecimalLiteral, DecimalText(v.payload))
    case SignedLong => Literal(DecimalLiteral, DecimalText(v.payload) + "L")
    case UnsignedInt => Literal(DecimalLiteral, DecimalText(v.payload) + "U")
    case UnsignedLong => Literal(DecimalLiteral, DecimalText(v.payload) + "LU")
    case Character => Literal(CharacterLiteral, ['\'', CharOfByte(v.payload), '\''])
    case Bool => Literal(BooleanLiteral, if v.payload == 0 then "false" else "true")
  }

  /* ---------------- properties ---------------- */

  /** The suffix makes a literal long exactly when it holds an L. */
  lemma {:induction false} CountLongsPositive(s: string)
    ensures CountLongs(s) > 0 <==> exists j :: 0 <= j < |s| && ToUpper(s[j]) == 'L'
  {
    if s != [] {
      CountLongsPositive(s[1..]);
      if exists j :: 0 <= j < |s[1..]| && ToUpper(s[1..][j]) == 'L' {
        var j :| 0 <= j < |s[1..]| && ToUpper(s[1..][j]) == 'L';
        assert ToUpper(s[j + 1]) == 'L';
      }
      if exists j :: 0 <= j < |s| && ToUpper(s[j]) == 'L' {
        var j :| 0 <= j < |s| && ToUpper(s[j]) == 'L';
        assert j == 0 || ToUpper(s[1..][j - 1]) == 'L';
      }
    }
  }

  /** Integer literals take their kind from the last (at most three) U/L
    * letters: any L gives a long kind, any U an unsigned kind. */
  lemma IntegerLiteralKind(kind: LiteralKind, text: string)
    requires kind in {DecimalLiteral, OctalLiteral, HexadecimalLiteral}
    ensures var s := ScannedSuffix(text);
      var hasL := exists j :: 0 <= j < |s| && ToUpper(s[j]) == 'L';
      var hasU := exists j :: 0 <= j < |s| && ToUpper(s[j]) == 'U';
      CreateValueFromLiteral(kind, text).Ok?
      && CreateValueFromLiteral(kind, text).value.kind ==
         (if hasL then (if hasU then UnsignedLong else SignedLong)
          else (if hasU then UnsignedInt else SignedInt))
  {
    var s := ScannedSuffix(text);
    CountLongsPositive(s);
    IntegerLiteralParts(kind, text, SuffixOf(text), ScanInteger(text));
  }

  /** Examples of the prefix and suffix rules: "10UL" is unsigned long 10,
    * "010" is signed int 8, "0x10" is signed int 16. */
  lemma UnsignedLongLiteralExample()
    ensures CreateValueFromLiteral(DecimalLiteral, "10UL") == Ok(Value(UnsignedLong, 10))
  {
    SuffixOfTenUL();
    ScanTenUL();
    IntegerLiteralParts(DecimalLiteral, "10UL", IntegerSuffix(true, true), Scanned(false, 10));
  }

  lemma SuffixOfTenUL()
    ensures SuffixOf("10UL") == IntegerSuffix(true, true)
  {
    var t := "10UL";
    ScanLengthReaches(t, 0, 2);
    assert ScannedSuffix(t) == "UL";
    assert CountLongs("UL") == 1;
    assert HasUnsigned("UL") by { assert ToUpper("UL"[0]) == 'U'; }
  }

  lemma ScanTenUL()
    ensures ScanInteger("10UL") == Scanned(false, 10)
  {
    var t := "10UL";
    DigitRunAppend("10", "UL", 10);
    assert t == "10" + "UL" && t[..2] == "10";
    TenIn(10);
    ScanWithoutSpaces(t);
  }

  lemma OctalLiteralExample()
    ensures CreateValueFromLiteral(OctalLiteral, "010") == Ok(Value(SignedInt, 8))
  {
    NoSuffix("010");
    ScanOctalTen();
    IntegerLiteralParts(OctalLiteral, "010", IntegerSuffix(false, false), Scanned(false, 8));
  }

  lemma HexadecimalLiteralExample()
    ensures CreateValueFromLiteral(HexadecimalLiteral, "0x10") == Ok(Value(SignedInt, 16))
  {
    NoSuffix("0x10");
    ScanHexadecimalTen();
    IntegerLiteralParts(HexadecimalLiteral, "0x10", IntegerSuffix(false, false), Scanned(false, 16));
  }

  /** A text that does not end in U or L has no suffix flags. */
  lemma NoSuffix(t: string)
    requires |t| >= 1 && !IsSuffixChar(t[|t| - 1])
    ensures SuffixOf(t) == IntegerSuffix(false, false)
  {
    ScanLengthReaches(t, 0, 0);
    assert ScannedSuffix(t) == "";
  }

  lemma ScanOctalTen()
    ensures ScanInteger("010") == Scanned(false, 8)
  {
    var t := "010";
    assert DigitRun(t, 8) == 3 by {
      DigitRunAppend(t, "", 8);
      assert t + "" == t;
    }
    assert DigitsValue(t, 8) == 8 by {
      assert DigitsValue("0", 8) == 0 by { assert "0"[..0] == []; }
      assert DigitsValue("01", 8) == 1 by { assert "01"[..1] == "0"; }
      assert t[..2] == "01";
    }
    assert ScanMagnitude(t) == 8 by {
      assert t[..3] == t;
      assert ToUpper(t[1]) != 'X';
    }
    ScanWithoutSpaces(t);
  }

  lemma ScanHexadecimalTen()
    ensures ScanInteger("0x10") == Scanned(false, 16)
  {
    var t := "0x10";
    assert t[2..] == "10";
    DigitRunAppend("10", "", 16);
    assert "10" + "" == "10" && "10"[..2] == "10";
    TenIn(16);
    ScanWithoutSpaces(t);
  }

  /** The digits "10" denote the base itself. */
  lemma TenIn(base: nat)
    requires 2 <= base <= 16
    ensures DigitsValue("10", base) == base
  {
    assert "10"[..1] == "1";
    assert "1"[..0] == [];
    assert DigitsValue("1", base) == 1 by {
      assert DigitsValue("1", base) == DigitsValue([], base) * base + DigitValue('1');
    }
    assert DigitsValue("10", base) == DigitsValue("1", base) * base + DigitValue('0');
  }

  /** Boolean literals: the text "false" yields 1, any other text 0. */
  lemma BooleanLiteralInverted(text: string)
    ensures CreateValueFromLiteral(BooleanLiteral, text) == Ok(Value(Bool, if text == "false" then 1 else 0))
    ensures CreateValueFromLiteral(BooleanLiteral, "false") == Ok(Value(Bool, 1))
    ensures CreateValueFromLiteral(BooleanLiteral, "true") == Ok(Value(Bool, 0))
  {
    assert "true" != "false" by { assert "true"[0] != "false"[0]; }
  }

  /** Character literals: the second character, unless the text starts
    * with L (wide) or the second character is a backslash (escape). */
  lemma CharacterLiteralCases(text: string)
    ensures ToUpper(CharAt(text, 0)) == 'L' ==> CreateValueFromLiteral(CharacterLiteral, text) == Fatal(WIDE_CHARACTER)
    ensures ToUpper(CharAt(text, 0)) != 'L' && CharAt(text, 1) == '\\' ==>
      CreateValueFromLiteral(CharacterLiteral, text) == Fatal(ESCAPE_SEQUENCE)
    ensures forall c: char :: c != '\\' && c as int < TWO_8 ==>
      CreateValueFromLiteral(CharacterLiteral, ['\'', c, '\'']) == Ok(Value(Character, Convert(Character, c as int)))
  {
  }

  lemma {:induction false} DigitRunAppend(d: string, rest: string, base: nat)
    requires forall j :: 0 <= j < |d| ==> IsDigitIn(d[j], base)
    ensures DigitRun(d + rest, base) == |d| + DigitRun(rest, base)
  {
    if d == [] {
      assert d + rest == rest;
    } else {
      assert (d + rest)[0] == d[0];
      assert (d + rest)[1..] == d[1..] + rest;
      DigitRunAppend(d[1..], rest, base);
    }
  }

  lemma {:induction false} DecimalDigitsValue(n: nat)
    ensures DigitsValue(DecimalDigits(n), 10) == n
  {
    var s := DecimalDigits(n);
    if n >= 10 {
      DecimalDigitsValue(n / 10);
      assert s[..|s| - 1] == DecimalDigits(n / 10);
    } else {
      assert s[..0] == [];
    }
  }

  /** Reading back the digits of n followed by a non-digit gives n. */
  lemma ScanDecimalDigits(n: nat, sfx: string)
    requires sfx in ["", "L", "U", "LU"]
    ensures ScanMagnitude(DecimalDigits(n) + sfx) == n
  {
    var d := DecimalDigits(n);
    var r := d + sfx;
    DecimalDigitsValue(n);
    if n == 0 {
      assert d == "0";
      DigitRunAppend(d, sfx, 8);
      assert r[..1] == "0";
      assert DigitsValue("0", 8) == 0 by {
        assert "0"[..0] == [];
      }
    } else {
      DigitRunAppend(d, sfx, 10);
      assert r[0] == d[0];
      assert r[..|d|] == d;
    }
  }

  /** strtol's view of a text that starts with a sign or a digit. */
  lemma ScanWithoutSpaces(t: string)
    requires t != [] && (t[0] == '-' || IsDigitIn(t[0], 10))
    ensures ScanInteger(t) == if t[0] == '-' then Scanned(true, ScanMagnitude(t[1..])) else Scanned(false, ScanMagnitude(t))
  {
    assert !IsSpace(t[0]);
    assert SkipSpaces(t) == t;
  }

  lemma ScanDecimalText(x: int, sfx: string)
    requires sfx in ["", "L", "U", "LU"]
    ensures ScanInteger(DecimalText(x) + sfx) == Scanned(x < 0, if x < 0 then -x else x)
  {
    var m := if x < 0 then -x else x;
    var d := DecimalDigits(m);
    var body := d + sfx;
    assert ScanMagnitude(body) == m by {
      ScanDecimalDigits(m, sfx);
    }
    assert IsDigitIn(body[0], 10) by {
      assert body[0] == d[0];
    }
    ScanSigned(body, m);
    if x < 0 {
      assert DecimalText(x) == ['-'] + d;
      ConcatAssociates(['-'], d, sfx);
    }
  }

  lemma ConcatAssociates(a: string, b: string, c: string)
    ensures (a + b) + c == a + (b + c)
  {
  }

  /** strtol's reading of a digit string, with or without a minus sign in front. */
  lemma ScanSigned(body: string, m: nat)
    requires body != [] && IsDigitIn(body[0], 10) && ScanMagnitude(body) == m
    ensures ScanInteger(body) == Scanned(false, m)
    ensures ScanInteger(['-'] + body) == Scanned(true, m)
  {
    ScanWithoutSpaces(body);
    var t := ['-'] + body;
    assert t[1..] == body;
    ScanWithoutSpaces(t);
  }

  /** The scan stops at the character before a run of suffix letters. */
  lemma {:induction false} ScanLengthReaches(text: string, i: nat, k: nat)
    requires i <= k <= 3 && k <= |text| && k < |text|
    requires forall j :: |text| - k <= j < |text| ==> IsSuffixChar(text[j])
    requires !IsSuffixChar(text[|text| - 1 - k]) || k == 3
    ensures ScanLength(text, i) == k
    decreases k - i
  {
    if i < k {
      ScanLengthReaches(text, i + 1, k);
    }
  }

  lemma ScannedAfterDigits(x: int, sfx: string)
    requires sfx in ["", "L", "U", "LU"]
    ensures ScannedSuffix(DecimalText(x) + sfx) == sfx
  {
    var t := DecimalText(x) + sfx;
    var d := DecimalText(x);
    assert IsDigitIn(d[|d| - 1], 10);
    assert t[|t| - 1 - |sfx|] == d[|d| - 1];
    ScanLengthReaches(t, 0, |sfx|);
  }

  /** What evaluating the literal that tree_from_literal_value prints
    * gives back: the value itself, except that a boolean comes back
    * negated because "false" reads as 1. */
  function ReadBack(v: Value): Value {
    if v.kind == Bool then Value(Bool, if v.payload == 0 then 1 else 0) else v
  }

  /** The value of an integer literal from its suffix and its number. */
  lemma IntegerLiteralParts(kind: LiteralKind, text: string, suffix: IntegerSuffix, n: Scanned)
    requires kind in {DecimalLiteral, OctalLiteral, HexadecimalLiteral}
    requires SuffixOf(text) == suffix && ScanInteger(text) == n
    ensures CreateValueFromLiteral(kind, text) ==
      if suffix.isLong then
        if suffix.isUnsigned then Ok(Value(UnsignedLong, WrapToUnsignedLong(n))) else Ok(Value(SignedLong, ClampToLong(n)))
      else
        if suffix.isUnsigned then Ok(Value(UnsignedInt, Convert(UnsignedInt, ClampToLong(n))))
        else Ok(Value(SignedInt, Convert(SignedInt, WrapToUnsignedLong(n))))
  {
  }

  /** The suffix flags of a printed number followed by one of the suffixes printf appends. */
  lemma SuffixOfDecimalText(x: int, sfx: string)
    requires sfx in ["", "L", "U", "LU"]
    ensures SuffixOf(DecimalText(x) + sfx) == IntegerSuffix('L' in sfx, 'U' in sfx)
  {
    ScannedAfterDigits(x, sfx);
    if sfx == "L" {
      assert CountLongs(sfx) == 1;
      assert !HasUnsigned(sfx);
    } else if sfx == "U" {
      assert CountLongs(sfx) == 0;
      assert HasUnsigned(sfx) by { assert ToUpper(sfx[0]) == 'U'; }
    } else if sfx == "LU" {
      assert CountLongs(sfx) == 1;
      assert HasUnsigned(sfx) by { assert ToUpper(sfx[1]) == 'U'; }
    } else {
      assert CountLongs(sfx) == 0;
    }
  }

  lemma SignedIntRoundTrip(p: int)
    requires MinOf(SignedInt) <= p <= MaxOf(SignedInt)
    ensures CreateValueFromLiteral(DecimalLiteral, DecimalText(p)) == Ok(Value(SignedInt, p))
  {
    var t := DecimalText(p);
    assert t + "" == t;
    SuffixOfDecimalText(p, "");
    ScanDecimalText(p, "");
    var n := ScanInteger(t);
    assert CreateValueFromLiteral(DecimalLiteral, t) == Ok(Value(SignedInt, Convert(SignedInt, WrapToUnsignedLong(n))));
    assert WrapToUnsignedLong(n) == Convert(UnsignedLong, p);
    IntThroughUnsignedLong(p);
  }

  /** strtoul's unsigned long result narrowed to int gives back an int. */
  lemma IntThroughUnsignedLong(p: int)
    requires MinOf(SignedInt) <= p <= MaxOf(SignedInt)
    ensures Convert(SignedInt, Convert(UnsignedLong, p)) == p
  {
    var c := Convert(UnsignedLong, p);
    if p < 0 {
      ConvertUnique(UnsignedLong, p, p + TWO_64);
      assert c - p == TWO_64;
    }
    ConvertUnique(SignedInt, c, p);
  }

  lemma SignedLongRoundTrip(p: int)
    requires MinOf(SignedLong) <= p <= MaxOf(SignedLong)
    ensures CreateValueFromLiteral(DecimalLiteral, DecimalText(p) + "L") == Ok(Value(SignedLong, p))
  {
    var t := DecimalText(p) + "L";
    SuffixOfDecimalText(p, "L");
    ScanDecimalText(p, "L");
    var n := ScanInteger(t);
    assert CreateValueFromLiteral(DecimalLiteral, t) == Ok(Value(SignedLong, ClampToLong(n)));
    assert ClampToLong(n) == p;
  }

  lemma UnsignedIntRoundTrip(p: int)
    requires MinOf(UnsignedInt) <= p <= MaxOf(UnsignedInt)
    ensures CreateValueFromLiteral(DecimalLiteral, DecimalText(p) + "U") == Ok(Value(UnsignedInt, p))
  {
    var t := DecimalText(p) + "U";
    SuffixOfDecimalText(p, "U");
    ScanDecimalText(p, "U");
    var n := ScanInteger(t);
    assert CreateValueFromLiteral(DecimalLiteral, t) == Ok(Value(UnsignedInt, Convert(UnsignedInt, ClampToLong(n))));
    assert ClampToLong(n) == p;
  }

  lemma UnsignedLongRoundTrip(p: int)
    requires MinOf(UnsignedLong) <= p <= MaxOf(UnsignedLong)
    ensures CreateValueFromLiteral(DecimalLiteral, DecimalText(p) + "LU") == Ok(Value(UnsignedLong, p))
  {
    var t := DecimalText(p) + "LU";
    SuffixOfDecimalText(p, "LU");
    ScanDecimalText(p, "LU");
    var n := ScanInteger(t);
    assert CreateValueFromLiteral(DecimalLiteral, t) == Ok(Value(UnsignedLong, WrapToUnsignedLong(n)));
    assert WrapToUnsignedLong(n) == p;
  }

  /** Round trip: the literal printed for a value reads back as that
    * value, for the four integer kinds and for every character but the
    * backslash; for a boolean it reads back as its negation. */
  lemma LiteralRoundTrip(v: Value)
    requires v.Valid()
    requires v.kind == Character ==> v.payload != '\\' as int
    ensures var t := TreeFromLiteralValue(v);
      CreateValueFromLiteral(t.literalKind, t.text) == Ok(ReadBack(v))
  {
    var p := v.payload;
    var t := TreeFromLiteralValue(v);
    match v.kind
    case SignedInt =>
      assert t == Literal(DecimalLiteral, DecimalText(p));
      assert CreateValueFromLiteral(DecimalLiteral, DecimalText(p)) == Ok(v) by {
        SignedIntRoundTrip(p);
      }
    case SignedLong =>
      assert t == Literal(DecimalLiteral, DecimalText(p) + "L");
      assert CreateValueFromLiteral(DecimalLiteral, DecimalText(p) + "L") == Ok(v) by {
        SignedLongRoundTrip(p);
      }
    case UnsignedInt =>
      assert t == Literal(DecimalLiteral, DecimalText(p) + "U");
      assert CreateValueFromLiteral(DecimalLiteral, DecimalText(p) + "U") == Ok(v) by {
        UnsignedIntRoundTrip(p);
      }
    case UnsignedLong =>
      assert t == Literal(DecimalLiteral, DecimalText(p) + "LU");
      assert CreateValueFromLiteral(DecimalLiteral, DecimalText(p) + "LU") == Ok(v) by {
        UnsignedLongRoundTrip(p);
      }
    case Character =>
      assert t == Literal(CharacterLiteral, ['\'', CharOfByte(p), '\'']);
      assert CreateValueFromLiteral(CharacterLiteral, ['\'', CharOfByte(p), '\'']) == Ok(v) by {
        CharacterRoundTrip(p);
      }
    case Bool =>
      assert t == Literal(BooleanLiteral, if p == 0 then "false" else "true");
  }

  /** printf's %c of a signed char, read back as a character literal,
    * gives the char again (a backslash would open an escape sequence). */
  lemma CharacterRoundTrip(p: int)
    requires MinOf(Character) <= p <= MaxOf(Character) && p != '\\' as int
    ensures CreateValueFromLiteral(CharacterLiteral, ['\'', CharOfByte(p), '\'']) == Ok(Value(Character, p))
  {
    var text := ['\'', CharOfByte(p), '\''];
    assert CharAt(text, 0) == '\'' && CharAt(text, 1) == CharOfByte(p);
    var b := (p + TWO_8) % TWO_8;
    assert b == if p < 0 then p + TWO_8 else p;
    assert CharOfByte(p) as int == b;
    assert SignedChar(CharOfByte(p)) == Convert(Character, b);
    ConvertUnique(Character, b, p);
  }
}
