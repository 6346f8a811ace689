/** JSON values and their compact text: a printer, and a parser for the grammar of RFC 8259 (sections 4
    to 7, without insignificant white space; numbers are integers, or the exponent form in which
    ECMAScript writes large ones). */
module JsonText {

  /** Objects keep their members in insertion order. `Sci(15, 22)` is the number written 1.5e+22. */
  datatype Json =
    | Null
    | Bool(b: bool)
    | Num(n: int)
    | Sci(digits: int, exponent: nat)
    | Str(s: string)
    | Arr(items: seq<Json>)
    | Obj(members: seq<Member>)

  datatype Member = Member(key: string, value: Json)

  // --- printing ---

  function HexDigit(n: nat): char
    requires n < 16
  {
    "0123456789abcdef"[n]
  }

  /** The escapes of JSON.stringify and of json.dumps with ensure_ascii=False. */
  function EscapeChar(c: char): string {
    if c == '\"' then "\\\""
    else if c == '\\' then "\\\\"
    else if c == '\n' then "\\n"
    else if c == '\r' then "\\r"
    else if c == '\t' then "\\t"
    else if c as int == 8 then "\\b"
    else if c as int == 12 then "\\f"
    else if c as int < 32 then "\\u00" + [HexDigit(c as int / 16), HexDigit(c as int % 16)]
    else [c]
  }

  function Escape(s: string): string {
    if s == "" then "" else EscapeChar(s[0]) + Escape(s[1..])
  }

  function Quote(s: string): string {
    "\"" + Escape(s) + "\""
  }

  function Digit(n: nat): char
    requires n < 10
  {
    "0123456789"[n]
  }

  function Digits(n: nat): string {
    if n < 10 then [Digit(n)] else Digits(n / 10) + [Digit(n % 10)]
  }

  function Integer(n: int): string {
    if n < 0 then "-" + Digits(-n) else Digits(n)
  }

  /** A point after the first digit. */
  function Pointed(digits: string): string {
    if |digits| <= 1 then digits else digits[..1] + "." + digits[1..]
  }

  function Unsigned(digits: nat, exponent: nat): string {
    Pointed(Digits(digits)) + "e+" + Digits(exponent)
  }

  function Scientific(digits: int, exponent: nat): string {
    if digits < 0 then "-" + Unsigned(-digits, exponent) else Unsigned(digits, exponent)
  }

  function Print(v: Json): string {
    match v
    case Null => "null"
    case Bool(b) => if b then "true" else "false"
    case Num(n) => Integer(n)
    case Sci(digits, exponent) => Scientific(digits, exponent)
    case Str(s) => Quote(s)
    case Arr(items) => "[" + PrintItems(items) + "]"
    case Obj(members) => "{" + PrintMembers(members) + "}"
  }

  function PrintItems(items: seq<Json>): string {
    if items == [] then ""
    else if |items| == 1 then Print(items[0])
    else Print(items[0]) + "," + PrintItems(items[1..])
  }

  function PrintMembers(members: seq<Member>): string {
    if members == [] then ""
    else
      var first := Quote(members[0].key) + ":" + Print(members[0].value);
      if |members| == 1 then first else first + "," + PrintMembers(members[1..])
  }

  // --- parsing ---

  datatype Parsed<T> = Fail | Ok(value: T, rest: string)

  function HexValue(c: char): (n: int)
    ensures -1 <= n < 16
  {
    if '0' <= c <= '9' then c as int - '0' as int
    else if 'a' <= c <= 'f' then c as int - 'a' as int + 10
    else if 'A' <= c <= 'F' then c as int - 'A' as int + 10
    else -1
  }

  function Hex4(s: string): (n: int)
    requires |s| >= 4
    ensures -1 <= n < 0x10000
  {
    var a, b, c, d := HexValue(s[0]), HexValue(s[1]), HexValue(s[2]), HexValue(s[3]);
    if a < 0 || b < 0 || c < 0 || d < 0 then -1 else ((a * 16 + b) * 16 + c) * 16 + d
  }

  function Unescape(c: char): Parsed<char> {
    if c == '\"' || c == '\\' || c == '/' then Ok(c, "")
    else if c == 'n' then Ok('\n', "")
    else if c == 'r' then Ok('\r', "")
    else if c == 't' then Ok('\t', "")
    else if c == 'b' then Ok(8 as char, "")
    else if c == 'f' then Ok(12 as char, "")
    else Fail
  }

  /** The characters of a string literal up to its closing quote. */
  function ParseChars(s: string): (r: Parsed<string>)
    ensures r.Ok? ==> |r.rest| < |s|
  {
    if s == "" then Fail
    else if s[0] == '\"' then Ok("", s[1..])
    else if s[0] == '\\' then
      if |s| >= 6 && s[1] == 'u' then
        var code := Hex4(s[2..6]);
        if code < 0 || 0xD800 <= code < 0xE000 then Fail
        else
          var tail := ParseChars(s[6..]);
          if tail.Fail? then Fail else Ok([code as char] + tail.value, tail.rest)
      else if |s| >= 2 && Unescape(s[1]).Ok? then
        var tail := ParseChars(s[2..]);
        if tail.Fail? then Fail else Ok([Unescape(s[1]).value] + tail.value, tail.rest)
      else Fail
    else if s[0] as int < 32 then Fail
    else
      var tail := ParseChars(s[1..]);
      if tail.Fail? then Fail else Ok([s[0]] + tail.value, tail.rest)
  }

  predicate IsDigit(c: char) {
    '0' <= c <= '9'
  }

  function DigitSpan(s: string): (n: nat)
    ensures n <= |s| && forall i :: 0 <= i < n ==> IsDigit(s[i])
    ensures n < |s| ==> !IsDigit(s[n])
  {
    if s == "" || !IsDigit(s[0]) then 0 else 1 + DigitSpan(s[1..])
  }

  function DigitsValue(s: string): nat
    requires forall i :: 0 <= i < |s| ==> IsDigit(s[i])
  {
    if s == "" then 0
    else
      assert IsDigit(s[|s| - 1]);
      DigitsValue(s[..|s| - 1]) * 10 + (s[|s| - 1] as int - '0' as int)
  }

  function ParseNatural(s: string): (r: Parsed<nat>)
    ensures r.Ok? ==> |r.rest| < |s|
  {
    var n := DigitSpan(s);
    if n == 0 || (n > 1 && s[0] == '0') then Fail else Ok(DigitsValue(s[..n]), s[n..])
  }

  /** The number after its sign. */
  datatype Magnitude = Plain(n: nat) | Exponential(digits: nat, exponent: nat)

  function Signed(negative: bool, m: Magnitude): Json {
    match m
    case Plain(n) => Num(if negative then 0 - n as int else n)
    case Exponential(digits, exponent) => Sci(if negative then 0 - digits as int else digits, exponent)
  }

  /** What follows the digits of a number in exponent form. */
  function ParseExponent(digits: string, s: string): (r: Parsed<Magnitude>)
    requires forall i :: 0 <= i < |digits| ==> IsDigit(digits[i])
    ensures r.Ok? ==> |r.rest| < |s|
  {
    if |s| < 2 || s[0] != 'e' || s[1] != '+' then Fail
    else
      var exponent := ParseNatural(s[2..]);
      if exponent.Fail? then Fail else Ok(Exponential(DigitsValue(digits), exponent.value), exponent.rest)
  }

  /** One digit that is not zero, a point, and more digits, before an exponent. */
  function ParseFraction(lead: char, s: string): (r: Parsed<Magnitude>)
    requires IsDigit(lead)
    ensures r.Ok? ==> |r.rest| < |s|
  {
    if s == "" || lead == '0' then Fail
    else
      var n := DigitSpan(s[1..]);
      if n == 0 then Fail else ParseExponent([lead] + s[1..][..n], s[1..][n..])
  }

  function ParseMagnitude(s: string): (r: Parsed<Magnitude>)
    ensures r.Ok? ==> |r.rest| < |s|
  {
    var n := DigitSpan(s);
    if n == 0 || (n > 1 && s[0] == '0') then Fail
    else if n < |s| && s[n] == '.' then (if n == 1 then ParseFraction(s[0], s[1..]) else Fail)
    else if n < |s| && s[n] == 'e' then (if n == 1 then ParseExponent(s[..1], s[1..]) else Fail)
    else Ok(Plain(DigitsValue(s[..n])), s[n..])
  }

  function ParseWord(s: string): (r: Parsed<Json>)
    ensures r.Ok? ==> |r.rest| < |s|
  {
    if "null" <= s then Ok(Null, s[4..])
    else if "true" <= s then Ok(Bool(true), s[4..])
    else if "false" <= s then Ok(Bool(false), s[5..])
    else Fail
  }

  function Parse(s: string): (r: Parsed<Json>)
    ensures r.Ok? ==> |r.rest| < |s|
    decreases |s|, 0
  {
    if s == "" then Fail
    else if s[0] == '\"' then
      var chars := ParseChars(s[1..]);
      if chars.Fail? then Fail else Ok(Str(chars.value), chars.rest)
    else if s[0] == '[' then
      if |s| > 1 && s[1] == ']' then Ok(Arr([]), s[2..])
      else
        var items := ParseItems(s[1..]);
        if items.Fail? then Fail else Ok(Arr(items.value), items.rest)
    else if s[0] == '{' then
      if |s| > 1 && s[1] == '}' then Ok(Obj([]), s[2..])
      else
        var members := ParseMembers(s[1..]);
        if members.Fail? then Fail else Ok(Obj(members.value), members.rest)
    else if s[0] == '-' then
      var number := ParseMagnitude(s[1..]);
      if number.Fail? then Fail else Ok(Signed(true, number.value), number.rest)
    else if IsDigit(s[0]) then
      var number := ParseMagnitude(s);
      if number.Fail? then Fail else Ok(Signed(false, number.value), number.rest)
    else ParseWord(s)
  }

  /** One or more items up to and including the closing bracket. */
  function ParseItems(s: string): (r: Parsed<seq<Json>>)
    ensures r.Ok? ==> |r.rest| < |s|
    decreases |s|, 1
  {
    var first := Parse(s);
    if first.Fail? || first.rest == "" then Fail
    else if first.rest[0] == ']' then Ok([first.value], first.rest[1..])
    else if first.rest[0] == ',' then
      var tail := ParseItems(first.rest[1..]);
      if tail.Fail? then Fail else Ok([first.value] + tail.value, tail.rest)
    else Fail
  }

  function ParseMember(s: string): (r: Parsed<Member>)
    ensures r.Ok? ==> |r.rest| < |s|
    decreases |s|, 1
  {
    if s == "" || s[0] != '\"' then Fail
    else
      var key := ParseChars(s[1..]);
      if key.Fail? || key.rest == "" || key.rest[0] != ':' then Fail
      else
        var value := Parse(key.rest[1..]);
        if value.Fail? then Fail else Ok(Member(key.value, value.value), value.rest)
  }

  function ParseMembers(s: string): (r: Parsed<seq<Member>>)
    ensures r.Ok? ==> |r.rest| < |s|
    decreases |s|, 2
  {
    var first := ParseMember(s);
    if first.Fail? || first.rest == "" then Fail
    else if first.rest[0] == '}' then Ok([first.value], first.rest[1..])
    else if first.rest[0] == ',' then
      var tail := ParseMembers(first.rest[1..]);
      if tail.Fail? then Fail else Ok([first.value] + tail.value, tail.rest)
    else Fail
  }

  // --- the round trip ---

  /** Putting one decoded character in front of what follows. */
  function Prepend(c: char, tail: Parsed<string>): Parsed<string> {
    if tail.Fail? then Fail else Ok([c] + tail.value, tail.rest)
  }

  lemma ShortEscape(c: char)
    requires |EscapeChar(c)| == 2
    ensures EscapeChar(c)[0] == '\\' && EscapeChar(c)[1] != 'u' && Unescape(EscapeChar(c)[1]) == Ok(c, "")
  {
  }

  lemma PlainChar(c: char)
    requires |EscapeChar(c)| == 1
    ensures EscapeChar(c) == [c] && c != '\"' && c != '\\' && c as int >= 32
  {
  }

  lemma ControlEscape(c: char)
    requires |EscapeChar(c)| > 2
    ensures |EscapeChar(c)| == 6 && EscapeChar(c)[0] == '\\' && EscapeChar(c)[1] == 'u'
    ensures Hex4(EscapeChar(c)[2..6]) == c as int < 32
  {
    var n := c as int;
    assert HexValue(HexDigit(n / 16)) == n / 16 && HexValue(HexDigit(n % 16)) == n % 16;
    assert EscapeChar(c)[2..6] == ['0', '0', HexDigit(n / 16), HexDigit(n % 16)];
  }

  /** Only what RFC 8259 (section 7) requires is escaped: the quotation mark, the backslash and the control
      characters. The short form is used where there is one, and lower-case hexadecimal digits elsewhere. */
  lemma EscapesOnlyRequired(c: char)
    ensures EscapeChar(c) == [c] <==> c as int >= 32 && c != '\"' && c != '\\'
    ensures |EscapeChar(c)| == 2 <==> c in "\"\\\n\r\t" || c as int == 8 || c as int == 12
    ensures |EscapeChar(c)| > 2 ==>
      |EscapeChar(c)| == 6 && EscapeChar(c)[..4] == "\\u00" && forall i :: 4 <= i < 6 ==> EscapeChar(c)[i] in "0123456789abcdef"
  {
    if c as int < 32 {
      HexIsLower(c as int / 16);
      HexIsLower(c as int % 16);
    }
  }

  lemma HexIsLower(n: nat)
    requires n < 16
    ensures HexDigit(n) in "0123456789abcdef"
  {
  }

  lemma ShortEscapeParses(s: string, c: char)
    requires |s| >= 2 && s[0] == '\\' && s[1] != 'u' && Unescape(s[1]) == Ok(c, "")
    ensures ParseChars(s) == Prepend(c, ParseChars(s[2..]))
  {
  }

  lemma ControlEscapeParses(s: string, c: char)
    requires |s| >= 6 && s[0] == '\\' && s[1] == 'u' && Hex4(s[2..6]) == c as int < 32
    ensures ParseChars(s) == Prepend(c, ParseChars(s[6..]))
  {
  }

  lemma EscapedCharParses(c: char, t: string)
    ensures ParseChars(EscapeChar(c) + t) == Prepend(c, ParseChars(t))
  {
    var e := EscapeChar(c);
    var s := e + t;
    assert s[|e|..] == t;
    if |e| > 2 {
      ControlEscape(c);
      assert s[2..6] == e[2..6];
      ControlEscapeParses(s, c);
    } else if |e| == 2 {
      ShortEscape(c);
      ShortEscapeParses(s, c);
    } else {
      PlainChar(c);
    }
  }

  lemma {:induction false} QuotedParses(s: string, rest: string)
    ensures ParseChars(Escape(s) + "\"" + rest) == Ok(s, rest)
  {
    if s == "" {
      assert Escape(s) + "\"" + rest == "\"" + rest;
    } else {
      QuotedParses(s[1..], rest);
      EscapedCharParses(s[0], Escape(s[1..]) + "\"" + rest);
      assert Escape(s) + "\"" + rest == EscapeChar(s[0]) + (Escape(s[1..]) + "\"" + rest);
      assert [s[0]] + s[1..] == s;
    }
  }

  lemma {:induction false} DigitsParse(n: nat)
    ensures forall i :: 0 <= i < |Digits(n)| ==> IsDigit(Digits(n)[i])
    ensures DigitsValue(Digits(n)) == n && |Digits(n)| >= 1
    ensures |Digits(n)| > 1 ==> Digits(n)[0] != '0'
    ensures n > 0 ==> Digits(n)[0] != '0'
  {
    if n >= 10 {
      DigitsParse(n / 10);
      var d := Digits(n);
      assert d[..|d| - 1] == Digits(n / 10);
    } else {
      assert Digits(n)[..0] == "";
    }
  }

  /** What may follow a printed value without extending a number. */
  predicate Stops(rest: string) {
    rest == "" || (!IsDigit(rest[0]) && rest[0] != '.' && rest[0] != 'e')
  }

  lemma {:induction false} DigitSpanIs(s: string, rest: string)
    requires (forall i :: 0 <= i < |s| ==> IsDigit(s[i])) && (rest == "" || !IsDigit(rest[0]))
    ensures DigitSpan(s + rest) == |s|
  {
    if s == "" {
      assert s + rest == rest;
    } else {
      assert (s + rest)[1..] == s[1..] + rest;
      DigitSpanIs(s[1..], rest);
    }
  }

  lemma NaturalParses(n: nat, rest: string)
    requires Stops(rest)
    ensures ParseNatural(Digits(n) + rest) == Ok(n, rest)
  {
    DigitsParse(n);
    DigitSpanIs(Digits(n), rest);
    assert (Digits(n) + rest)[..|Digits(n)|] == Digits(n);
    assert (Digits(n) + rest)[|Digits(n)|..] == rest;
  }

  lemma PlainParses(n: nat, rest: string)
    requires Stops(rest)
    ensures ParseMagnitude(Digits(n) + rest) == Ok(Plain(n), rest)
  {
    DigitsParse(n);
    DigitSpanIs(Digits(n), rest);
    assert (Digits(n) + rest)[..|Digits(n)|] == Digits(n);
    assert (Digits(n) + rest)[|Digits(n)|..] == rest;
  }

  lemma ExponentParses(digits: string, exponent: nat, rest: string)
    requires Stops(rest) && forall i :: 0 <= i < |digits| ==> IsDigit(digits[i])
    ensures ParseExponent(digits, "e+" + Digits(exponent) + rest) == Ok(Exponential(DigitsValue(digits), exponent), rest)
  {
    hide ParseNatural, Digits;
    NaturalParses(exponent, rest);
    assert ("e+" + Digits(exponent) + rest)[2..] == Digits(exponent) + rest;
  }

  lemma ShortMantissaParses(d: string, tail: string)
    requires |d| == 1 && IsDigit(d[0]) && tail != "" && tail[0] == 'e'
    ensures ParseMagnitude(d + tail) == ParseExponent(d, tail)
  {
    DigitSpanIs(d, tail);
    assert (d + tail)[..1] == d && (d + tail)[1..] == tail;
  }

  lemma LongMantissaParses(d: string, tail: string)
    requires |d| > 1 && (forall i :: 0 <= i < |d| ==> IsDigit(d[i])) && d[0] != '0' && tail != "" && tail[0] == 'e'
    ensures ParseMagnitude(d[..1] + "." + d[1..] + tail) == ParseExponent(d, tail)
  {
    var s := d[..1] + "." + d[1..] + tail;
    assert s == d[..1] + ("." + d[1..] + tail);
    DigitSpanIs(d[..1], "." + d[1..] + tail);
    assert s[1..] == "." + d[1..] + tail;
    assert s[1..][1..] == d[1..] + tail;
    DigitSpanIs(d[1..], tail);
    assert (d[1..] + tail)[..|d| - 1] == d[1..] && (d[1..] + tail)[|d| - 1..] == tail;
    assert [d[0]] + d[1..] == d;
  }

  lemma MantissaParses(d: string, tail: string)
    requires d != "" && (forall i :: 0 <= i < |d| ==> IsDigit(d[i])) && (|d| > 1 ==> d[0] != '0')
    requires tail != "" && tail[0] == 'e'
    ensures ParseMagnitude((if |d| == 1 then d else d[..1] + "." + d[1..]) + tail) == ParseExponent(d, tail)
  {
    hide ParseMagnitude, ParseExponent;
    if |d| == 1 { ShortMantissaParses(d, tail); } else { LongMantissaParses(d, tail); }
  }

  lemma UnsignedParts(digits: nat, exponent: nat, rest: string)
    ensures var d := Digits(digits); var tail := "e+" + Digits(exponent) + rest;
            d != "" ==> Unsigned(digits, exponent) + rest == (if |d| == 1 then d else d[..1] + "." + d[1..]) + tail
  {
    hide Digits;
  }

  lemma ExponentialParses(digits: nat, exponent: nat, rest: string)
    requires Stops(rest)
    ensures ParseMagnitude(Unsigned(digits, exponent) + rest) == Ok(Exponential(digits, exponent), rest)
  {
    var d, tail := Digits(digits), "e+" + Digits(exponent) + rest;
    assert tail[0] == 'e';
    hide *;
    DigitsParse(digits);
    ExponentParses(d, exponent, rest);
    UnsignedParts(digits, exponent, rest);
    MantissaParses(d, tail);
  }

  lemma NegativeParses(s: string, m: Magnitude, rest: string)
    requires s != "" && s[0] == '-' && ParseMagnitude(s[1..]) == Ok(m, rest)
    ensures Parse(s) == Ok(Signed(true, m), rest)
  {
    hide ParseMagnitude, ParseItems, ParseMembers, ParseChars, ParseWord, Signed;
  }

  lemma NonNegativeParses(s: string, m: Magnitude, rest: string)
    requires s != "" && IsDigit(s[0]) && ParseMagnitude(s) == Ok(m, rest)
    ensures Parse(s) == Ok(Signed(false, m), rest)
  {
    hide ParseMagnitude, ParseItems, ParseMembers, ParseChars, ParseWord, Signed;
  }

  lemma IntegerParses(n: int, rest: string)
    requires Stops(rest)
    ensures Parse(Integer(n) + rest) == Ok(Num(n), rest)
  {
    hide Parse, ParseMagnitude, Digits;
    if n < 0 {
      PlainParses(-n, rest);
      assert (Integer(n) + rest)[1..] == Digits(-n) + rest;
      NegativeParses(Integer(n) + rest, Plain(-n), rest);
    } else {
      PlainParses(n, rest);
      DigitsParse(n);
      assert (Integer(n) + rest)[0] == Digits(n)[0];
      NonNegativeParses(Integer(n) + rest, Plain(n), rest);
    }
  }

  lemma ScientificParses(digits: int, exponent: nat, rest: string)
    requires Stops(rest)
    ensures Parse(Scientific(digits, exponent) + rest) == Ok(Sci(digits, exponent), rest)
  {
    hide Parse, ParseMagnitude, Unsigned;
    if digits < 0 {
      ExponentialParses(-digits, exponent, rest);
      assert (Scientific(digits, exponent) + rest)[1..] == Unsigned(-digits, exponent) + rest;
      NegativeParses(Scientific(digits, exponent) + rest, Exponential(-digits, exponent), rest);
    } else {
      UnsignedStarts(digits, exponent);
      ExponentialParses(digits, exponent, rest);
      assert (Scientific(digits, exponent) + rest)[0] == Unsigned(digits, exponent)[0];
      NonNegativeParses(Scientific(digits, exponent) + rest, Exponential(digits, exponent), rest);
    }
  }

  lemma UnsignedStarts(digits: nat, exponent: nat)
    ensures Unsigned(digits, exponent) != "" && IsDigit(Unsigned(digits, exponent)[0])
  {
    DigitsParse(digits);
  }

  /** A printed value is never empty and never starts like a closing bracket. */
  lemma PrintStarts(v: Json)
    ensures Print(v) != "" && Print(v)[0] != ']' && Print(v)[0] != '}'
  {
    if v.Num? { DigitsParse(if v.n < 0 then -v.n else v.n); }
    if v.Sci? { UnsignedStarts(if v.digits < 0 then -v.digits else v.digits, v.exponent); }
  }

  // One unfolding of the parser each, on text of the right shape.

  lemma WordParses(v: Json, rest: string)
    requires v.Null? || v.Bool?
    ensures Parse(Print(v) + rest) == Ok(v, rest)
  {
    var s := Print(v) + rest;
    assert s[|Print(v)|..] == rest;
    assert Print(v) <= s;
  }

  lemma StringParses(s: string, chars: string, rest: string)
    requires s != "" && s[0] == '\"' && ParseChars(s[1..]) == Ok(chars, rest)
    ensures Parse(s) == Ok(Str(chars), rest)
  {
  }

  lemma ArrayParses(s: string, items: seq<Json>, rest: string)
    requires |s| > 1 && s[0] == '[' && s[1] != ']' && ParseItems(s[1..]) == Ok(items, rest)
    ensures Parse(s) == Ok(Arr(items), rest)
  {
  }

  lemma ObjectParses(s: string, members: seq<Member>, rest: string)
    requires |s| > 1 && s[0] == '{' && s[1] != '}' && ParseMembers(s[1..]) == Ok(members, rest)
    ensures Parse(s) == Ok(Obj(members), rest)
  {
  }

  lemma EmptyParses(s: string, rest: string)
    requires |s| > 1 && s[2..] == rest
    ensures s[0] == '[' && s[1] == ']' ==> Parse(s) == Ok(Arr([]), rest)
    ensures s[0] == '{' && s[1] == '}' ==> Parse(s) == Ok(Obj([]), rest)
  {
  }

  lemma LastItemParses(s: string, v: Json, after: string)
    requires Parse(s) == Ok(v, after) && after != "" && after[0] == ']'
    ensures ParseItems(s) == Ok([v], after[1..])
  {
  }

  lemma NextItemParses(s: string, v: Json, after: string, tail: seq<Json>, rest: string)
    requires Parse(s) == Ok(v, after) && after != "" && after[0] == ','
    requires ParseItems(after[1..]) == Ok(tail, rest)
    ensures ParseItems(s) == Ok([v] + tail, rest)
  {
  }

  lemma KeyValueParses(s: string, key: string, after: string, v: Json, rest: string)
    requires s != "" && s[0] == '\"' && ParseChars(s[1..]) == Ok(key, after)
    requires after != "" && after[0] == ':' && Parse(after[1..]) == Ok(v, rest)
    ensures ParseMember(s) == Ok(Member(key, v), rest)
  {
  }

  lemma LastMemberParses(s: string, m: Member, after: string)
    requires ParseMember(s) == Ok(m, after) && after != "" && after[0] == '}'
    ensures ParseMembers(s) == Ok([m], after[1..])
  {
  }

  lemma NextMemberParses(s: string, m: Member, after: string, tail: seq<Member>, rest: string)
    requires ParseMember(s) == Ok(m, after) && after != "" && after[0] == ','
    requires ParseMembers(after[1..]) == Ok(tail, rest)
    ensures ParseMembers(s) == Ok([m] + tail, rest)
  {
  }

  function PrintMember(m: Member): string {
    Quote(m.key) + ":" + Print(m.value)
  }

  /** Parsing what was printed gives the value back and stops exactly at its end. */
  lemma {:induction false} PrintParses(v: Json, rest: string)
    requires Stops(rest)
    ensures Parse(Print(v) + rest) == Ok(v, rest)
    decreases v, 0
  {
    hide Parse, ParseItems, ParseMembers, ParseChars, Integer, Scientific, Escape, PrintItems, PrintMembers;
    var s := Print(v) + rest;
    match v
    case Null => WordParses(v, rest);
    case Bool(b) => WordParses(v, rest);
    case Num(n) => IntegerParses(n, rest);
    case Sci(digits, exponent) => ScientificParses(digits, exponent, rest);
    case Str(t) =>
      QuotedParses(t, rest);
      assert s[1..] == Escape(t) + "\"" + rest;
      StringParses(s, t, rest);
    case Arr(items) =>
      if items == [] {
        assert s == "[]" + rest by { EmptyPrints(); }
        EmptyParses(s, rest);
      } else {
        ItemsParse(items, rest);
        ItemsStart(items);
        assert s[1..] == PrintItems(items) + "]" + rest;
        ArrayParses(s, items, rest);
      }
    case Obj(members) =>
      if members == [] {
        assert s == "{}" + rest by { EmptyPrints(); }
        EmptyParses(s, rest);
      } else {
        MembersParse(members, rest);
        MembersStart(members);
        assert s[1..] == PrintMembers(members) + "}" + rest;
        ObjectParses(s, members, rest);
      }
  }

  lemma EmptyPrints()
    ensures Print(Arr([])) == "[]" && Print(Obj([])) == "{}"
  {
  }

  lemma ItemsStart(items: seq<Json>)
    requires items != []
    ensures PrintItems(items) != "" && PrintItems(items)[0] != ']'
  {
    PrintStarts(items[0]);
  }

  lemma MembersStart(members: seq<Member>)
    requires members != []
    ensures PrintMembers(members) != "" && PrintMembers(members)[0] == '\"'
  {
  }

  lemma {:induction false} ItemsParse(items: seq<Json>, rest: string)
    requires items != []
    ensures ParseItems(PrintItems(items) + "]" + rest) == Ok(items, rest)
    decreases items, 1
  {
    hide Parse, ParseItems, Print;
    var s := PrintItems(items) + "]" + rest;
    if |items| == 1 {
      PrintParses(items[0], "]" + rest);
      assert s == Print(items[0]) + ("]" + rest);
      LastItemParses(s, items[0], "]" + rest);
      assert items == [items[0]];
    } else {
      var more := PrintItems(items[1..]) + "]" + rest;
      PrintParses(items[0], "," + more);
      assert s == Print(items[0]) + ("," + more);
      ItemsParse(items[1..], rest);
      NextItemParses(s, items[0], "," + more, items[1..], rest);
      assert items == [items[0]] + items[1..];
    }
  }

  lemma {:induction false} MemberParses(m: Member, rest: string)
    requires Stops(rest)
    ensures ParseMember(PrintMember(m) + rest) == Ok(m, rest)
    decreases m, 1
  {
    hide Parse, ParseMember, ParseChars, Print, Escape;
    var value := Print(m.value) + rest;
    var s := PrintMember(m) + rest;
    QuotedParses(m.key, ":" + value);
    assert s[1..] == Escape(m.key) + "\"" + (":" + value);
    PrintParses(m.value, rest);
    KeyValueParses(s, m.key, ":" + value, m.value, rest);
  }

  lemma {:induction false} MembersParse(members: seq<Member>, rest: string)
    requires members != []
    ensures ParseMembers(PrintMembers(members) + "}" + rest) == Ok(members, rest)
    decreases members, 2
  {
    hide Parse, ParseMember, ParseMembers, Print, Quote;
    var first := PrintMember(members[0]);
    var s := PrintMembers(members) + "}" + rest;
    if |members| == 1 {
      MemberParses(members[0], "}" + rest);
      assert s == first + ("}" + rest);
      LastMemberParses(s, members[0], "}" + rest);
      assert members == [members[0]];
    } else {
      var more := PrintMembers(members[1..]) + "}" + rest;
      MemberParses(members[0], "," + more);
      assert s == first + ("," + more);
      MembersParse(members[1..], rest);
      NextMemberParses(s, members[0], "," + more, members[1..], rest);
      assert members == [members[0]] + members[1..];
    }
  }
}
