/** The `ratep` parameter: six control words as text, and the bytes that go to the chip. */
module RateP {
  import opened Bytes
  import opened Protocol
  import opened Text

  const WORDS: nat := 6
  const LENGTH: nat := 29

  function ParseRateP(s: string): (r: Option<seq<int>>)
    ensures r.Some? ==> |r.value| == WORDS && forall i :: 0 <= i < WORDS ==> -0x8000 <= r.value[i] < 0x8000
  {
    if |s| != LENGTH then None
    else
      var parts := Split(s, ':');
      if |parts| != WORDS || !FourEach(parts) then None else Some(ReadEach(parts))
  }

  predicate FourEach(parts: seq<string>) {
    forall i :: 0 <= i < |parts| ==> |parts[i]| == 4
  }

  function ReadEach(parts: seq<string>): (words: seq<int>)
    ensures |words| == |parts| && forall i :: 0 <= i < |parts| ==> words[i] == ReadHexShort(parts[i])
  {
    seq(|parts|, i requires 0 <= i < |parts| => ReadHexShort(parts[i]))
  }

  /** The splitting loop of `parseRatePString`. */
  method SplitInput(input: string) returns (parts: seq<string>)
    ensures parts == Split(input, ':')
  {
    parts := [];
    var start := 0;
    var end := Find(input, ':', start);
    ghost var rest := Split(input, ':');
    assert input[0..] == input;
    while end < |input|
      invariant 0 <= start <= end <= |input| && end == Find(input, ':', start)
      invariant rest == Split(input[start..], ':') && parts + rest == Split(input, ':')
      decreases |input| - start
    {
      SplitFrom(input, start);
      hide Split;
      assert parts + rest == (parts + [rest[0]]) + rest[1..];
      parts := parts + [input[start..end]];
      rest := rest[1..];
      start := end + 1;
      end := Find(input, ':', start);
    }
    SplitFrom(input, start);
    parts := parts + [input[start..]];
  }

  lemma SplitFrom(s: string, start: nat)
    requires start <= |s|
    ensures var end := Find(s, ':', start);
            Split(s[start..], ':') == if end < |s| then [s[start..end]] + Split(s[end + 1..], ':') else [s[start..]]
  {
    FindFrom(s, ':', start);
    var end := Find(s, ':', start);
    if end < |s| {
      assert s[start..][..end - start] == s[start..end] && s[start..][end - start + 1..] == s[end + 1..];
    }
  }

  method ParseRatePString(input: string) returns (r: Option<seq<int>>)
    ensures r == ParseRateP(input)
  {
    if |input| != LENGTH {
      return None;
    }
    var parts := SplitInput(input);
    hide Split;
    hide ReadHexShort;
    if |parts| != WORDS {
      return None;
    }
    var data: seq<int> := [];
    for i := 0 to |parts|
      invariant |data| == i && forall j :: 0 <= j < i ==> |parts[j]| == 4 && data[j] == ReadHexShort(parts[j])
    {
      if |parts[i]| != 4 {
        return None;
      }
      data := data + [ReadHexShort(parts[i])];
    }
    assert data == ReadEach(parts);
    return Some(data);
  }

  lemma {:induction false} FindFrom(s: string, c: char, from: nat)
    requires from <= |s|
    ensures Find(s[from..], c, 0) == Find(s, c, from) - from
  {
    var i := Find(s, c, from) - from;
    assert forall j :: 0 <= j < i ==> s[from..][j] == s[from + j];
    var k := Find(s[from..], c, 0);
    assert k < |s[from..]| ==> s[from + k] == c;
    assert forall j :: 0 <= j < k ==> s[from + j] == s[from..][j];
  }

  // ---------------------------------------------------------------------------
  // Which texts are accepted

  predicate ColonsInPlace(s: string) {
    forall i :: 0 <= i < |s| ==> (s[i] == ':' <==> i % 5 == 4)
  }

  /** Pieces of four characters, dropping every fifth. */
  function Chunks(s: string): (parts: seq<string>)
    requires |s| % 5 == 4
    ensures |parts| == (|s| + 1) / 5
  {
    if |s| == 4 then [s] else [s[..4]] + Chunks(s[5..])
  }

  lemma {:induction false} ChunksAt(s: string, i: nat)
    requires |s| % 5 == 4 && i < |Chunks(s)|
    ensures Chunks(s)[i] == s[5 * i..5 * i + 4]
  {
    if |s| > 4 && i > 0 {
      ChunksAt(s[5..], i - 1);
      assert s[5..][5 * (i - 1)..5 * (i - 1) + 4] == s[5 * i..5 * i + 4];
    }
  }

  /** Texts with a colon after every fourth character, and nowhere else, split into pieces of four. */
  lemma {:induction false} ColonsSplit(s: string)
    requires |s| % 5 == 4 && ColonsInPlace(s)
    ensures Split(s, ':') == Chunks(s)
    decreases |s|
  {
    if |s| == 4 {
      assert Find(s, ':', 0) == 4;
    } else {
      ColonsTail(s);
      hide ColonsInPlace;
      ColonsSplit(s[5..]);
      SplitStep(s[..4], s[5..], ':');
    }
  }

  lemma ColonsTail(s: string)
    requires |s| % 5 == 4 && |s| > 4 && ColonsInPlace(s)
    ensures |s[5..]| % 5 == 4 && ColonsInPlace(s[5..])
    ensures ':' !in s[..4] && s == s[..4] + ":" + s[5..]
  {
    var rest := s[5..];
    forall i | 0 <= i < |rest| ensures rest[i] == ':' <==> i % 5 == 4 {
      assert rest[i] == s[i + 5];
      assert (i + 5) % 5 == i % 5;
    }
    assert s[4] == ':' && forall i :: 0 <= i < 4 ==> s[i] != ':';
  }

  lemma {:induction false} JoinPlacesColons(parts: seq<string>)
    requires parts != [] && forall i :: 0 <= i < |parts| ==> |parts[i]| == 4 && ':' !in parts[i]
    ensures var s := Join(parts, ':'); |s| == 5 * |parts| - 1 && ColonsInPlace(s)
  {
    var s := Join(parts, ':');
    assert forall i :: 0 <= i < 4 ==> parts[0][i] in parts[0];
    if |parts| > 1 {
      JoinPlacesColons(parts[1..]);
      var rest := Join(parts[1..], ':');
      assert s == parts[0] + ":" + rest;
      forall i | 0 <= i < |s| ensures s[i] == ':' <==> i % 5 == 4 {
        if i >= 5 {
          assert s[i] == rest[i - 5];
        }
      }
    }
  }

  /** Accepted are exactly the texts of 29 characters with colons at 4, 9, 14, 19 and 24 and nowhere else. */
  lemma AcceptedShape(s: string)
    ensures ParseRateP(s).Some?
       <==> |s| == 29 && forall i :: 0 <= i < 29 ==> (s[i] == ':' <==> i in {4, 9, 14, 19, 24})
  {
    assert |s| == 29 ==>
        (ColonsInPlace(s) <==> forall i :: 0 <= i < 29 ==> (s[i] == ':' <==> i in {4, 9, 14, 19, 24}));
    if ParseRateP(s).Some? {
      SplitThenJoin(s, ':');
      JoinPlacesColons(Split(s, ':'));
    } else if |s| == 29 && ColonsInPlace(s) {
      ColonsSplit(s);
      forall i | 0 <= i < 6 ensures |Chunks(s)[i]| == 4 {
        ChunksAt(s, i);
      }
    }
  }

  // ---------------------------------------------------------------------------
  // From text to wire

  predicate IsHexText(s: string) { AllDigits(s, 16) }

  lemma FourDigits(s: string)
    requires |s| == 4 && IsHexText(s)
    ensures Value(s, 16) == 0x100 * Value(s[..2], 16) + Value(s[2..], 16)
    ensures Value(s[..2], 16) < 0x100 && Value(s[2..], 16) < 0x100
  {
    assert s[..3][..2] == s[..2] && s[..2][..1] == s[..1] && s[..1][..0] == "";
    assert s[2..][..1] == s[2..3] && s[2..3][..0] == "";
    assert IsDigit(s[0], 16) && IsDigit(s[1], 16) && IsDigit(s[2], 16) && IsDigit(s[3], 16);
    var a, b, c, d := DigitValue(s[0]).value, DigitValue(s[1]).value, DigitValue(s[2]).value, DigitValue(s[3]).value;
    hide DigitValue;
    assert Value(s[..1], 16) == a;
    assert Value(s[..2], 16) == 16 * a + b;
    assert Value(s[..3], 16) == 16 * (16 * a + b) + c;
    assert Value(s[2..3], 16) == c;
    assert Value(s[2..], 16) == 16 * c + d;
  }

  /** A word of four hexadecimal digits is read as its value, or as the largest short when it is larger. */
  lemma HexWordIsRead(s: string)
    requires |s| == 4 && IsHexText(s)
    ensures ReadHexShort(s) == if Value(s, 16) < 0x8000 then Value(s, 16) else 0x7fff
  {
    DigitsLead(s, 16);
    assert IsDigit(s[0], 16) && IsDigit(s[1], 16);
    assert SkipSpaces(s) == s;
  }

  /** The bytes the digits of a word stand for. */
  function HexBytes(s: string): seq<int>
    requires |s| == 4 && IsHexText(s)
  {
    [Value(s[..2], 16), Value(s[2..], 16)]
  }

  lemma WordOnWire(s: string)
    requires |s| == 4 && IsHexText(s)
    ensures NetworkOrder(ReadHexShort(s)) == HexBytes(s) <==> Value(s, 16) < 0x8000
  {
    FourDigits(s);
    HexWordIsRead(s);
    SaturatedWord(Value(s[..2], 16), Value(s[2..], 16));
    hide Value;
    hide ReadHexShort;
    hide NetworkOrder;
  }

  lemma SaturatedWord(hi: Byte, lo: Byte)
    ensures var n := 0x100 * hi + lo;
            NetworkOrder(if n < 0x8000 then n else 0x7fff) == [hi, lo] <==> n < 0x8000
  {
    NetworkOrderOf(hi, lo);
    NetworkOrderOf(0x7f, 0xff);
  }

  function Power16(n: nat): nat { if n == 0 then 1 else 16 * Power16(n - 1) }

  lemma {:induction false} ValueBound(digits: string)
    requires IsHexText(digits)
    ensures Value(digits, 16) < Power16(|digits|)
  {
    if digits != "" {
      var n := |digits| - 1;
      ValueBound(digits[..n]);
      assert IsDigit(digits[n], 16);
    }
  }

  lemma {:induction false} LeadingDigitsLength(s: string)
    ensures IsHexText(LeadingDigits(s, 16)) && |LeadingDigits(s, 16)| <= |s|
    ensures |LeadingDigits(s, 16)| == |s| ==> IsHexText(s)
  {
    if s != "" && IsDigit(s[0], 16) {
      LeadingDigitsLength(s[1..]);
      assert s == [s[0]] + s[1..];
    }
  }

  lemma SkipSpacesLength(s: string)
    ensures |SkipSpaces(s)| <= |s| && (|SkipSpaces(s)| == |s| ==> SkipSpaces(s) == s)
  {
  }

  /** A word with another character than a digit is read as a number of at most three digits, with or without sign. */
  lemma OtherWordIsRead(s: string)
    requires |s| == 4 && !IsHexText(s)
    ensures -0x1000 < ReadHexShort(s) < 0x1000
    ensures ReadHexShort(s) == match ReadNumber(s, 16) case NoNumber => 0 case Number(n) => n
  {
    var t := SkipSpaces(s);
    SkipSpacesLength(s);
    var v := SkipPrefix(SkipSign(t), 16);
    LeadingDigitsLength(v);
    var d := LeadingDigits(v, 16);
    assert |v| == 4 ==> v == s;
    assert |d| <= 3;
    ValueBound(d);
    assert Power16(3) == 0x1000 && Power16(2) == 0x100 && Power16(1) == 16;
    hide Value;
    hide LeadingDigits;
  }

  /** The text of word `k`. */
  function Piece(s: string, k: nat): (p: string)
    requires |s| == 29 && k < 6
    ensures |p| == 4
  {
    s[5 * k..5 * k + 4]
  }

  /** The bytes are what the four hexadecimal digits of a word say. */
  predicate Carries(bytes: seq<int>, p: string) {
    |p| == 4 && IsHexText(p) && bytes == HexBytes(p)
  }

  /** The bytes that go out for a word: its digits, 0x7fff when it is larger, and a shorter number for other texts. */
  ghost predicate GoesOut(bytes: seq<int>, p: string)
    requires |p| == 4
  {
    if IsHexText(p) && Value(p, 16) < 0x8000 then bytes == HexBytes(p)
    else if IsHexText(p) then bytes == [0x7f, 0xff]
    else bytes == NetworkOrder(ReadHexShort(p)) && -0x1000 < ReadHexShort(p) < 0x1000
  }

  lemma WordGoesOut(p: string)
    requires |p| == 4
    ensures GoesOut(NetworkOrder(ReadHexShort(p)), p)
    ensures Carries(NetworkOrder(ReadHexShort(p)), p) <==> IsHexText(p) && Value(p, 16) < 0x8000
  {
    if IsHexText(p) {
      WordOnWire(p);
      HexWordIsRead(p);
      NetworkOrderOf(0x7f, 0xff);
    } else {
      OtherWordIsRead(p);
    }
    hide Value;
    hide ReadHexShort;
    hide NetworkOrder;
  }

  /**
   For every accepted text the data bytes of the rate field are what the digits say exactly when each word is four
   hexadecimal digits and not above 0x7fff: larger words do not fit a signed short and arrive as 0x7fff, and of other
   words only the digits at the start count.
   */
  lemma TextToWire(s: string)
    requires ParseRateP(s).Some?
    ensures var words := ParseRateP(s).value; var bytes := WordBytes(words);
            && |s| == 29 && |words| == 6 && |bytes| == 12
            && (forall k :: 0 <= k < 6 ==> GoesOut(bytes[2 * k..2 * k + 2], Piece(s, k)))
            && ((forall k :: 0 <= k < 6 ==> Carries(bytes[2 * k..2 * k + 2], Piece(s, k)))
                <==> forall k :: 0 <= k < 6 ==> IsHexText(Piece(s, k)) && Value(Piece(s, k), 16) < 0x8000)
  {
    AcceptedShape(s);
    ColonsSplit(s);
    var words := ParseRateP(s).value;
    var bytes := WordBytes(words);
    forall k | 0 <= k < 6
      ensures GoesOut(bytes[2 * k..2 * k + 2], Piece(s, k))
      ensures Carries(bytes[2 * k..2 * k + 2], Piece(s, k)) <==> IsHexText(Piece(s, k)) && Value(Piece(s, k), 16) < 0x8000
    {
      ChunksAt(s, k);
      assert words[k] == ReadHexShort(Piece(s, k));
      assert bytes[2 * k..2 * k + 2] == NetworkOrder(words[k]);
      WordGoesOut(Piece(s, k));
    }
  }

  function HexChar(d: nat): char
    requires d < 16
  {
    if d < 10 then '0' + d as char else 'a' + (d - 10) as char
  }

  function HexWord(w: nat): string
    requires w < 0x10000
  {
    [HexChar(w / 0x1000), HexChar(w / 0x100 % 16), HexChar(w / 16 % 16), HexChar(w % 16)]
  }

  function Words(words: seq<int>): seq<string>
    requires |words| == 6 && forall i :: 0 <= i < 6 ==> 0 <= words[i] < 0x10000
  {
    seq(6, i requires 0 <= i < 6 => HexWord(words[i]))
  }

  function PrintRateP(words: seq<int>): string
    requires |words| == 6 && forall i :: 0 <= i < 6 ==> 0 <= words[i] < 0x10000
  {
    Join(Words(words), ':')
  }

  lemma HexCharReads(d: nat)
    requires d < 16
    ensures DigitValue(HexChar(d)) == Some(d) && HexChar(d) != ':'
  {
  }

  lemma HexWordRoundTrip(w: nat)
    requires w < 0x10000
    ensures IsHexText(HexWord(w)) && ':' !in HexWord(w) && |HexWord(w)| == 4
    ensures Value(HexWord(w), 16) == w
  {
    var a, b, c, d := w / 0x1000, w / 0x100 % 16, w / 16 % 16, w % 16;
    HexCharReads(a);
    HexCharReads(b);
    HexCharReads(c);
    HexCharReads(d);
    TwoDigits(HexChar(a), HexChar(b));
    TwoDigits(HexChar(c), HexChar(d));
    var s := HexWord(w);
    assert s == [HexChar(a), HexChar(b), HexChar(c), HexChar(d)];
    hide HexChar;
    FourDigits(s);
    assert s[..2] == [HexChar(a), HexChar(b)] && s[2..] == [HexChar(c), HexChar(d)];
    hide DigitValue;
    hide Value;
    WordDigits(w);
  }

  lemma TwoDigits(c: char, d: char)
    ensures Value([c, d], 16) == 16 * DigitValue(c).GetOr(0) + DigitValue(d).GetOr(0)
  {
    assert [c, d][..1] == [c] && [c][..0] == [];
    assert Value([c], 16) == DigitValue(c).GetOr(0);
  }

  lemma WordDigits(w: nat)
    requires w < 0x10000
    ensures 0x100 * (16 * (w / 0x1000) + w / 0x100 % 16) + (16 * (w / 16 % 16) + w % 16) == w
  {
  }

  /** Printing six words and parsing the text gives them back exactly when they are all at most 0x7fff. */
  lemma PrintThenParse(words: seq<int>)
    requires |words| == 6 && forall i :: 0 <= i < 6 ==> 0 <= words[i] < 0x10000
    ensures ParseRateP(PrintRateP(words)).Some?
    ensures ParseRateP(PrintRateP(words)) == Some(words) <==> forall i :: 0 <= i < 6 ==> words[i] < 0x8000
  {
    var parts := Words(words);
    forall i | 0 <= i < 6
      ensures |parts[i]| == 4 && ':' !in parts[i] && (ReadHexShort(parts[i]) == words[i] <==> words[i] < 0x8000)
    {
      HexWordRoundTrip(words[i]);
      HexWordIsRead(parts[i]);
    }
    hide HexWord;
    hide ReadHexShort;
    JoinPlacesColons(parts);
    JoinThenSplit(parts, ':');
    hide Split;
    hide Join;
    var read := ParseRateP(PrintRateP(words)).value;
    assert forall i :: 0 <= i < 6 ==> read[i] == ReadHexShort(parts[i]);
    if forall i :: 0 <= i < 6 ==> words[i] < 0x8000 {
      assert read == words;
    }
  }
}
