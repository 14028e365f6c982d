/** Strings: splitting at a separator, and reading numbers the way the C++ library does. */
module Text {
  import opened Bytes

  /** `find` from position `from`; the length when the character does not occur. */
  function Find(s: string, c: char, from: nat): (i: nat)
    requires from <= |s|
    ensures from <= i <= |s|
    ensures forall j :: from <= j < i ==> s[j] != c
    ensures i < |s| ==> s[i] == c
    decreases |s| - from
  {
    if from == |s| || s[from] == c then from else Find(s, c, from + 1)
  }

  /** The pieces between the occurrences of `c`. */
  function Split(s: string, c: char): (parts: seq<string>)
    ensures parts != []
    decreases |s|
  {
    var i := Find(s, c, 0);
    if i == |s| then [s] else [s[..i]] + Split(s[i + 1..], c)
  }

  function Join(parts: seq<string>, c: char): string
    requires parts != []
  {
    if |parts| == 1 then parts[0] else parts[0] + [c] + Join(parts[1..], c)
  }

  lemma FindIs(s: string, c: char, i: nat)
    requires i < |s| && s[i] == c && forall j :: 0 <= j < i ==> s[j] != c
    ensures Find(s, c, 0) == i
  {
  }

  /** Splitting loses nothing, and no piece holds the separator. */
  lemma {:induction false} SplitThenJoin(s: string, c: char)
    ensures Join(Split(s, c), c) == s
    ensures forall i :: 0 <= i < |Split(s, c)| ==> c !in Split(s, c)[i]
    decreases |s|
  {
    var i := Find(s, c, 0);
    if i < |s| {
      var tail := s[i + 1..];
      SplitThenJoin(tail, c);
      assert Split(s, c)[1..] == Split(tail, c);
      assert s == s[..i] + [c] + tail;
    }
  }

  lemma SplitStep(first: string, rest: string, c: char)
    requires c !in first
    ensures Split(first + [c] + rest, c) == [first] + Split(rest, c)
  {
    var s := first + [c] + rest;
    FindIs(s, c, |first|);
    assert s[..|first|] == first && s[|first| + 1..] == rest;
  }

  /** Joining pieces without separator and splitting again gives the same pieces. */
  lemma {:induction false} JoinThenSplit(parts: seq<string>, c: char)
    requires parts != [] && forall i :: 0 <= i < |parts| ==> c !in parts[i]
    ensures Split(Join(parts, c), c) == parts
  {
    if |parts| == 1 {
      assert c !in parts[0];
      var i := Find(parts[0], c, 0);
      assert i == |parts[0]|;
    } else {
      JoinThenSplit(parts[1..], c);
      SplitStep(parts[0], Join(parts[1..], c), c);
    }
  }

  // ---------------------------------------------------------------------------
  // Numbers

  predicate IsSpace(c: char) { 9 <= c as int <= 13 || c == ' ' }

  function DigitValue(c: char): Option<nat> {
    if '0' <= c <= '9' then Some(c as int - '0' as int)
    else if 'a' <= c <= 'f' then Some(c as int - 'a' as int + 10)
    else if 'A' <= c <= 'F' then Some(c as int - 'A' as int + 10)
    else None
  }

  predicate IsDigit(c: char, base: nat) {
    DigitValue(c).Some? && DigitValue(c).value < base
  }

  function SkipSpaces(s: string): string {
    if s != "" && IsSpace(s[0]) then SkipSpaces(s[1..]) else s
  }

  /** The digits a text starts with. */
  function LeadingDigits(s: string, base: nat): string {
    if s != "" && IsDigit(s[0], base) then [s[0]] + LeadingDigits(s[1..], base) else ""
  }

  /** The number digits stand for, most significant first. */
  function Value(digits: string, base: nat): nat {
    if digits == "" then 0
    else Value(digits[..|digits| - 1], base) * base + DigitValue(digits[|digits| - 1]).GetOr(0)
  }

  datatype Number = NoNumber | Number(value: int)

  function SkipSign(s: string): string {
    if s != "" && (s[0] == '-' || s[0] == '+') then s[1..] else s
  }

  function SkipPrefix(s: string, base: nat): string {
    if base == 16 && |s| >= 2 && s[0] == '0' && (s[1] == 'x' || s[1] == 'X') then s[2..] else s
  }

  /** Optional white space and sign, then digits; for base 16 optionally after `0x`. */
  function ReadNumber(s: string, base: nat): Number {
    var t := SkipSpaces(s);
    var d := LeadingDigits(SkipPrefix(SkipSign(t), base), base);
    var n: int := Value(d, base);
    if d == "" then NoNumber else Number(if t != "" && t[0] == '-' then -n else n)
  }

  /** `std::stoi`: the exceptions and the value. */
  datatype StoiResult = InvalidArgument | OutOfRange | Parsed(n: int)

  function Stoi(s: string): StoiResult {
    match ReadNumber(s, 10)
    case NoNumber => InvalidArgument
    case Number(n) => if -0x8000_0000 <= n < 0x8000_0000 then Parsed(n) else OutOfRange
  }

  predicate AllDigits(s: string, base: nat) { forall i :: 0 <= i < |s| ==> IsDigit(s[i], base) }

  lemma {:induction false} DigitsLead(s: string, base: nat)
    requires AllDigits(s, base)
    ensures LeadingDigits(s, base) == s
  {
    if s != "" {
      DigitsLead(s[1..], base);
    }
  }

  lemma ValueAppend(digits: string, c: char, base: nat)
    ensures Value(digits + [c], base) == Value(digits, base) * base + DigitValue(c).GetOr(0)
  {
    assert (digits + [c])[..|digits|] == digits;
  }

  lemma {:induction false} DigitsThenOther(digits: string, rest: string, base: nat)
    requires AllDigits(digits, base) && (rest != "" ==> !IsDigit(rest[0], base))
    ensures LeadingDigits(digits + rest, base) == digits
  {
    if digits == "" {
      assert digits + rest == rest;
    } else {
      assert (digits + rest)[1..] == digits[1..] + rest;
      DigitsThenOther(digits[1..], rest, base);
    }
  }

  lemma {:induction false} SpacesAreSkipped(spaces: string, rest: string)
    requires forall i :: 0 <= i < |spaces| ==> spaces[i] in {' ', '\t', '\n', 11 as char, 12 as char, '\r'}
    requires rest != "" ==> rest[0] !in {' ', '\t', '\n', 11 as char, 12 as char, '\r'}
    ensures SkipSpaces(spaces + rest) == rest
  {
    if spaces == "" {
      assert spaces + rest == rest;
    } else {
      assert (spaces + rest)[1..] == spaces[1..] + rest;
      SpacesAreSkipped(spaces[1..], rest);
    }
  }

  /** The parts of a text a number is read from; the empty parts are not there. */
  ghost predicate Parts(spaces: string, sign: string, prefix: string, digits: string, rest: string, base: nat) {
    && (forall i :: 0 <= i < |spaces| ==> spaces[i] in {' ', '\t', '\n', 11 as char, 12 as char, '\r'})
    && sign in {"", "-", "+"} && prefix in {"", "0x", "0X"} && (prefix != "" ==> base == 16)
    && AllDigits(digits, base) && (rest != "" ==> !IsDigit(rest[0], base))
    && (sign == prefix == digits == "" && rest != "" ==>
          rest[0] !in {' ', '\t', '\n', 11 as char, 12 as char, '\r', '-', '+'})
    && (base == 16 && prefix == "" && digits == "0" && rest != "" ==> rest[0] !in {'x', 'X'})
  }

  lemma FirstOfDigits(digits: string, rest: string, base: nat)
    requires AllDigits(digits, base) && digits != ""
    ensures (digits + rest)[0] == digits[0] && IsDigit((digits + rest)[0], base)
  {
  }

  lemma PrefixIsSkipped(prefix: string, digits: string, rest: string, base: nat)
    requires base in {10, 16} && Parts("", "", prefix, digits, rest, base)
    ensures SkipPrefix(prefix + (digits + rest), base) == digits + rest
  {
    var v := digits + rest;
    var u := prefix + v;
    assert prefix == "" ==> u == v;
    assert prefix != "" ==> u[0] == prefix[0] && u[1] == prefix[1] && u[2..] == v;
    assert |digits| >= 2 ==> v[1] == digits[1];
    assert digits == "" ==> v == rest;
    assert |digits| == 1 && rest != "" ==> v[1] == rest[0];
  }

  lemma SignIsSkipped(sign: string, u: string)
    requires sign in {"", "-", "+"} && (sign == "" && u != "" ==> u[0] !in {'-', '+'})
    ensures SkipSign(sign + u) == u
    ensures sign + u != "" && (sign + u)[0] == '-' <==> sign == "-"
  {
    if sign == "" {
      assert sign + u == u;
    } else {
      assert (sign + u)[0] == sign[0] && (sign + u)[1..] == u;
    }
  }

  lemma DigitsAreFound(sign: string, prefix: string, digits: string, rest: string, base: nat)
    requires base in {10, 16} && Parts("", sign, prefix, digits, rest, base)
    ensures LeadingDigits(SkipPrefix(prefix + (digits + rest), base), base) == digits
  {
    DigitsThenOther(digits, rest, base);
    if prefix == digits == "" && sign != "" {
      PlainRest(rest, base);
      assert prefix + (digits + rest) == rest == digits + rest;
    } else {
      PrefixIsSkipped(prefix, digits, rest, base);
    }
  }

  lemma NoSpaceBefore(sign: string, prefix: string, digits: string, rest: string, base: nat)
    requires base in {10, 16} && Parts("", sign, prefix, digits, rest, base)
    ensures var u := prefix + (digits + rest); var t := sign + u;
            && (t != "" ==> t[0] !in {' ', '\t', '\n', 11 as char, 12 as char, '\r'})
            && (sign == "" && u != "" ==> u[0] !in {'-', '+'})
  {
    var v := digits + rest;
    var u := prefix + v;
    var t := sign + u;
    assert digits != "" ==> v[0] == digits[0] && IsDigit(v[0], base);
    assert digits == "" ==> v == rest;
    assert prefix != "" ==> u[0] == '0';
    assert prefix == "" ==> u == v;
    assert sign == "" ==> t == u;
    assert sign != "" ==> t[0] == sign[0];
  }

  /** White space, sign and the prefix of hexadecimal numbers are passed over, and the digits that follow are the number. */
  lemma NumberIsRead(spaces: string, sign: string, prefix: string, digits: string, rest: string, base: nat)
    requires base in {10, 16} && Parts(spaces, sign, prefix, digits, rest, base)
    ensures var n: int := Value(digits, base);
            ReadNumber(spaces + (sign + (prefix + (digits + rest))), base)
            == if digits == "" then NoNumber else Number(if sign == "-" then -n else n)
  {
    var u := prefix + (digits + rest);
    NoSpaceBefore(sign, prefix, digits, rest, base);
    SpacesAreSkipped(spaces, sign + u);
    SignIsSkipped(sign, u);
    DigitsAreFound(sign, prefix, digits, rest, base);
    ReadInSteps(spaces + (sign + u), sign + u, u, digits, base);
    hide *;
  }

  lemma ReadInSteps(s: string, t: string, u: string, digits: string, base: nat)
    requires SkipSpaces(s) == t && SkipSign(t) == u && LeadingDigits(SkipPrefix(u, base), base) == digits
    ensures var n: int := Value(digits, base);
            ReadNumber(s, base) == if digits == "" then NoNumber else Number(if t != "" && t[0] == '-' then -n else n)
  {
  }

  /** After a sign anything that is no digit ends the number. */
  lemma PlainRest(rest: string, base: nat)
    requires rest != "" ==> !IsDigit(rest[0], base)
    ensures base in {10, 16} ==> SkipPrefix(rest, base) == rest
  {
    assert IsDigit('0', 16);
  }

  /** `stoi` gives the number when it fits an int, and tells a text without number from one that is out of range. */
  lemma StoiOfParts(spaces: string, sign: string, digits: string, rest: string)
    requires Parts(spaces, sign, "", digits, rest, 10)
    ensures var v: int := Value(digits, 10); var n := if sign == "-" then -v else v;
            Stoi(spaces + (sign + ("" + (digits + rest))))
            == if digits == "" then InvalidArgument
               else if -2147483648 <= n <= 2147483647 then Parsed(n) else OutOfRange
  {
    NumberIsRead(spaces, sign, "", digits, rest, 10);
    hide ReadNumber;
    hide Value;
    hide Parts;
  }

  /** A short that is too large or too small becomes the nearest one. */
  lemma HexShortOfParts(spaces: string, sign: string, prefix: string, digits: string, rest: string)
    requires Parts(spaces, sign, prefix, digits, rest, 16)
    ensures var v: int := Value(digits, 16); var n := if sign == "-" then -v else v;
            ReadHexShort(spaces + (sign + (prefix + (digits + rest))))
            == if digits == "" then 0 else if n < -32768 then -32768 else if n > 32767 then 32767 else n
  {
    NumberIsRead(spaces, sign, prefix, digits, rest, 16);
    hide ReadNumber;
    hide Value;
    hide Parts;
  }

  /** A text of decimal digits is read as its value when that fits an int. */
  lemma DigitsAreRead(s: string)
    requires s != "" && AllDigits(s, 10)
    ensures Stoi(s) == if Value(s, 10) < 0x8000_0000 then Parsed(Value(s, 10)) else OutOfRange
  {
    DigitsLead(s, 10);
    assert IsDigit(s[0], 10);
    assert SkipSpaces(s) == s;
    hide Value;
    hide LeadingDigits;
  }

  /** The smallest positive number that does not fit an int. */
  lemma TooLargeForInt()
    ensures Stoi("2147483648") == OutOfRange
  {
    hide Value;
    hide Stoi;
    var s := "2147483648";
    assert Value("", 10) == 0 by {
      NoDigits();
    }
    ValueAppend("", '2', 10);
    ValueAppend("2", '1', 10);
    ValueAppend("21", '4', 10);
    ValueAppend("214", '7', 10);
    ValueAppend("2147", '4', 10);
    ValueAppend("21474", '8', 10);
    ValueAppend("214748", '3', 10);
    ValueAppend("2147483", '6', 10);
    ValueAppend("21474836", '4', 10);
    ValueAppend("214748364", '8', 10);
    assert "" + ['2'] == "2" && "2" + ['1'] == "21" && "21" + ['4'] == "214" && "214" + ['7'] == "2147";
    assert "2147" + ['4'] == "21474" && "21474" + ['8'] == "214748" && "214748" + ['3'] == "2147483";
    assert "2147483" + ['6'] == "21474836" && "21474836" + ['4'] == "214748364" && "214748364" + ['8'] == s;
    DigitsAreRead(s);
  }

  lemma NoDigits()
    ensures Value("", 10) == 0
  {
  }

  /** `stream >> std::hex >> word` for a signed short: 0 without a number, the nearest short when out of range. */
  function ReadHexShort(s: string): (w: int)
    ensures -0x8000 <= w < 0x8000
  {
    match ReadNumber(s, 16)
    case NoNumber => 0
    case Number(n) => if n < -0x8000 then -0x8000 else if n >= 0x8000 then 0x7fff else n
  }
}
