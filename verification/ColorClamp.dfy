/** The frontend's hex colours: reading, writing and the near-black clamp. Strings are sequences of UTF-16
    units; lower-casing is that of ASCII. */
module ColorClamp {
  import opened Prelude
  import opened Colours
  import Validator = StateValidator

  // ---------- Characters

  function Lower(s: string): (r: string)
    ensures |r| == |s|
  {
    seq(|s|, i requires 0 <= i < |s| => LowerChar(s[i]))
  }

  predicate IsHexDigit(c: char) {
    '0' <= c <= '9' || 'a' <= c <= 'f' || 'A' <= c <= 'F'
  }

  function DigitValue(c: char): (v: int)
    requires IsHexDigit(c)
    ensures 0 <= v < 16
  {
    if c <= '9' then c as int - '0' as int
    else if c <= 'F' then c as int - 'A' as int + 10
    else c as int - 'a' as int + 10
  }

  function Digit(v: int): (c: char)
    requires 0 <= v < 16
  {
    if v < 10 then ('0' as int + v) as char else ('a' as int + v - 10) as char
  }

  predicate IsSpace(c: char) {
    || '\U{0009}' <= c <= '\U{000d}' || c == ' ' || c == '\U{00a0}' || c == '\U{1680}' || '\U{2000}' <= c <= '\U{200a}'
    || c == '\U{2028}' || c == '\U{2029}' || c == '\U{202f}' || c == '\U{205f}' || c == '\U{3000}' || c == '\U{feff}'
  }

  // ---------- parseInt(s, 16)

  function SkipSpace(s: string): string {
    if s != "" && IsSpace(s[0]) then SkipSpace(s[1..]) else s
  }

  /** The leading hex digits read onto what has been read so far. */
  function ReadDigits(s: string, sofar: int): int {
    if s != "" && IsHexDigit(s[0]) then ReadDigits(s[1..], 16 * sofar + DigitValue(s[0])) else sofar
  }

  function ReadNumber(s: string): Option<int> {
    var t := if |s| >= 2 && s[0] == '0' && (s[1] == 'x' || s[1] == 'X') then s[2..] else s;
    if t != "" && IsHexDigit(t[0]) then Some(ReadDigits(t, 0)) else None
  }

  /** Leading white space, a sign, a 0x prefix, and then as many hex digits as there are: None is NaN. */
  function ParseInt16(s: string): Option<int> {
    var t := SkipSpace(s);
    if t != "" && t[0] == '-' then
      match ReadNumber(t[1..])
      case Some(n) => Some(-n)
      case None => None
    else if t != "" && t[0] == '+' then ReadNumber(t[1..])
    else ReadNumber(t)
  }

  // ---------- Reading and writing colours

  /** The text after the hash sign, if there is one. */
  function Body(hex: string): string {
    if hex != "" && hex[0] == '#' then hex[1..] else hex
  }

  function Clean(hex: string): string {
    Lower(Body(hex))
  }

  /** The three two-character texts that are parsed, if the length allows any. */
  function Pairs(cleaned: string): Option<(string, string, string)> {
    if |cleaned| == 3 then Some(([cleaned[0], cleaned[0]], [cleaned[1], cleaned[1]], [cleaned[2], cleaned[2]]))
    else if |cleaned| == 6 then Some((cleaned[0..2], cleaned[2..4], cleaned[4..6]))
    else None
  }

  function HexToRgb(hex: string): Option<Rgb> {
    match Pairs(Clean(hex))
    case None => None
    case Some((a, b, c)) =>
      var r, g, b := ParseInt16(a), ParseInt16(b), ParseInt16(c);
      if r.None? || g.None? || b.None? then None else Some(Rgb(r.value, g.value, b.value))
  }

  function Limit(n: int): (m: int)
    ensures IsByte(m)
  {
    if n < 0 then 0 else if n > 255 then 255 else n
  }

  function TwoDigits(n: int): string
    requires IsByte(n)
  {
    [Digit(n / 16), Digit(n % 16)]
  }

  function RgbToHex(c: Rgb): string {
    "#" + TwoDigits(Limit(c.r)) + TwoDigits(Limit(c.g)) + TwoDigits(Limit(c.b))
  }

  /** A channel times 24 / peak, rounded; the peak of a misread colour may be negative. */
  function Scaled(n: int, peak: int): int
    requires peak != 0
  {
    if peak > 0 then RoundHalfUp(n * MIN_MAX_CHANNEL, peak) else RoundHalfUp(-(n * MIN_MAX_CHANNEL), -peak)
  }

  function ClampMinLuminance(hex: string): Option<string> {
    match HexToRgb(hex)
    case None => None
    case Some(c) =>
      var peak := Peak(c);
      if peak >= MIN_MAX_CHANNEL then Some(RgbToHex(c))
      else if peak == 0 then Some(RgbToHex(Rgb(MIN_MAX_CHANNEL, MIN_MAX_CHANNEL, MIN_MAX_CHANNEL)))
      else Some(RgbToHex(Rgb(Scaled(c.r, peak), Scaled(c.g, peak), Scaled(c.b, peak))))
  }

  // ---------- What a pair of characters reads as

  lemma ReadOne(c: char, sofar: int)
    ensures ReadDigits([c], sofar) == if IsHexDigit(c) then 16 * sofar + DigitValue(c) else sofar
  {
    assert [c][1..] == "";
  }

  lemma ReadTwo(a: char, b: char)
    ensures ReadNumber([a]) == if IsHexDigit(a) then Some(DigitValue(a)) else None
    ensures ReadNumber([a, b]) ==
            if !IsHexDigit(a) || (a == '0' && (b == 'x' || b == 'X')) then None
            else if IsHexDigit(b) then Some(16 * DigitValue(a) + DigitValue(b)) else Some(DigitValue(a))
  {
    assert [a, b][1..] == [b];
    assert [a, b][2..] == "";
    ReadOne(a, 0);
    if IsHexDigit(a) {
      ReadOne(b, DigitValue(a));
    }
  }

  lemma SkipTwo(a: char, b: char)
    ensures SkipSpace([a]) == if IsSpace(a) then "" else [a]
    ensures SkipSpace([a, b]) == if IsSpace(a) then SkipSpace([b]) else [a, b]
  {
    assert [a][1..] == "";
    assert [a, b][1..] == [b];
  }

  predicate IsSign(c: char) {
    c == '+' || c == '-'
  }

  /** A hex digit followed by anything, except 0x, or one after a space or a sign. */
  predicate Readable(a: char, b: char) {
    || (IsHexDigit(a) && !(a == '0' && (b == 'x' || b == 'X')))
    || (IsHexDigit(b) && (IsSpace(a) || IsSign(a)))
  }

  /** Exactly the readable pairs parse. */
  lemma PairParsesIff(a: char, b: char)
    ensures ParseInt16([a, b]).Some? <==> Readable(a, b)
  {
    SkipTwo(a, b);
    SkipTwo(b, b);
    ReadTwo(a, b);
    ReadTwo(b, b);
    assert [a, b][1..] == [b];
    assert [b][1..] == "";
  }

  lemma PairOfDigits(a: char, b: char)
    requires IsHexDigit(a) && IsHexDigit(b)
    ensures ParseInt16([a, b]) == Some(16 * DigitValue(a) + DigitValue(b))
  {
    SkipTwo(a, b);
    ReadTwo(a, b);
  }

  // ---------- Round trips

  lemma DigitRoundTrip(v: int)
    requires 0 <= v < 16
    ensures IsHexDigit(Digit(v)) && DigitValue(Digit(v)) == v && LowerChar(Digit(v)) == Digit(v) && Digit(v) != '#'
  {
  }

  lemma DigitCanonical(c: char)
    requires IsHexDigit(c)
    ensures Digit(DigitValue(c)) == LowerChar(c) && IsHexDigit(LowerChar(c))
        && DigitValue(LowerChar(c)) == DigitValue(c)
  {
  }

  lemma PairRoundTrip(n: int)
    requires IsByte(n)
    ensures ParseInt16(TwoDigits(n)) == Some(n)
    ensures Lower(TwoDigits(n)) == TwoDigits(n)
  {
    DigitRoundTrip(n / 16);
    DigitRoundTrip(n % 16);
    PairOfDigits(Digit(n / 16), Digit(n % 16));
  }

  lemma CleanWritten(c: Rgb)
    requires IsColour(c)
    ensures Clean(RgbToHex(c)) == TwoDigits(c.r) + TwoDigits(c.g) + TwoDigits(c.b)
  {
    var body := TwoDigits(c.r) + TwoDigits(c.g) + TwoDigits(c.b);
    assert RgbToHex(c)[1..] == body;
    PairRoundTrip(c.r);
    PairRoundTrip(c.g);
    PairRoundTrip(c.b);
    assert Lower(body) == Lower(TwoDigits(c.r)) + Lower(TwoDigits(c.g)) + Lower(TwoDigits(c.b));
  }

  /** Reading what was written gives the colour back, for every colour of bytes. */
  lemma WriteThenRead(c: Rgb)
    requires IsColour(c)
    ensures HexToRgb(RgbToHex(c)) == Some(c)
  {
    CleanWritten(c);
    var body := TwoDigits(c.r) + TwoDigits(c.g) + TwoDigits(c.b);
    assert body[0..2] == TwoDigits(c.r) && body[2..4] == TwoDigits(c.g) && body[4..6] == TwoDigits(c.b);
    PairRoundTrip(c.r);
    PairRoundTrip(c.g);
    PairRoundTrip(c.b);
  }

  /** A hash sign or none, and three or six hex digits. */
  predicate IsHexColour(hex: string) {
    (|Body(hex)| == 3 || |Body(hex)| == 6) && AllDigits(Body(hex))
  }

  predicate AllDigits(s: string) {
    forall i :: 0 <= i < |s| ==> IsHexDigit(s[i])
  }

  /** The canonical form: a hash sign and six lower-case digits. */
  function Canonical(hex: string): string
    requires IsHexColour(hex)
  {
    var s := Clean(hex);
    if |s| == 3 then ['#', s[0], s[0], s[1], s[1], s[2], s[2]] else "#" + s
  }

  lemma DigitsOf(hex: string) returns (a: char, b: char, c: char, d: char, e: char, f: char)
    requires IsHexColour(hex)
    ensures IsHexDigit(a) && IsHexDigit(b) && IsHexDigit(c) && IsHexDigit(d) && IsHexDigit(e) && IsHexDigit(f)
    ensures LowerChar(a) == a && LowerChar(b) == b && LowerChar(c) == c && LowerChar(d) == d && LowerChar(e) == e
        && LowerChar(f) == f
    ensures Pairs(Clean(hex)) == Some(([a, b], [c, d], [e, f]))
    ensures Canonical(hex) == ['#', a, b, c, d, e, f]
  {
    var s := Clean(hex);
    forall i | 0 <= i < |s| ensures IsHexDigit(s[i]) && LowerChar(s[i]) == s[i] {
      DigitCanonical(Body(hex)[i]);
    }
    if |s| == 3 {
      a, b, c, d, e, f := s[0], s[0], s[1], s[1], s[2], s[2];
    } else {
      a, b, c, d, e, f := s[0], s[1], s[2], s[3], s[4], s[5];
      assert s == [a, b, c, d, e, f];
      assert s[0..2] == [a, b] && s[2..4] == [c, d] && s[4..6] == [e, f];
    }
  }

  lemma WritePair(a: char, b: char)
    requires IsHexDigit(a) && IsHexDigit(b) && LowerChar(a) == a && LowerChar(b) == b
    ensures IsByte(16 * DigitValue(a) + DigitValue(b)) && TwoDigits(16 * DigitValue(a) + DigitValue(b)) == [a, b]
  {
    DigitCanonical(a);
    DigitCanonical(b);
  }

  lemma ReadTriple(hex: string, a: char, b: char, c: char, d: char, e: char, f: char)
    requires IsHexDigit(a) && IsHexDigit(b) && IsHexDigit(c) && IsHexDigit(d) && IsHexDigit(e) && IsHexDigit(f)
    requires Pairs(Clean(hex)) == Some(([a, b], [c, d], [e, f]))
    ensures HexToRgb(hex) ==
            Some(Rgb(16 * DigitValue(a) + DigitValue(b), 16 * DigitValue(c) + DigitValue(d),
                     16 * DigitValue(e) + DigitValue(f)))
  {
    PairOfDigits(a, b);
    PairOfDigits(c, d);
    PairOfDigits(e, f);
  }

  lemma WriteTriple(a: char, b: char, c: char, d: char, e: char, f: char)
    requires IsHexDigit(a) && IsHexDigit(b) && IsHexDigit(c) && IsHexDigit(d) && IsHexDigit(e) && IsHexDigit(f)
    requires LowerChar(a) == a && LowerChar(b) == b && LowerChar(c) == c && LowerChar(d) == d && LowerChar(e) == e
        && LowerChar(f) == f
    ensures
      var rgb := Rgb(16 * DigitValue(a) + DigitValue(b), 16 * DigitValue(c) + DigitValue(d),
                     16 * DigitValue(e) + DigitValue(f));
      IsColour(rgb) && RgbToHex(rgb) == ['#', a, b, c, d, e, f]
  {
    WritePair(a, b);
    WritePair(c, d);
    WritePair(e, f);
  }

  /** Writing what was read gives the canonical form, for every string of three or six hex digits. */
  lemma ReadThenWrite(hex: string)
    requires IsHexColour(hex)
    ensures HexToRgb(hex).Some? && IsColour(HexToRgb(hex).value)
    ensures RgbToHex(HexToRgb(hex).value) == Canonical(hex)
  {
    var a, b, c, d, e, f := DigitsOf(hex);
    ReadTriple(hex, a, b, c, d, e, f);
    WriteTriple(a, b, c, d, e, f);
  }

  // ---------- Frontend and backend

  /** The colour that the frontend's clamp writes for a colour of bytes. */
  function Clamped(c: Rgb): Rgb {
    if Peak(c) > 0 then ClampUp(c) else Rgb(MIN_MAX_CHANNEL, MIN_MAX_CHANNEL, MIN_MAX_CHANNEL)
  }

  lemma ClampWrites(hex: string)
    requires IsHexColour(hex)
    ensures
      && HexToRgb(hex).Some?
      && var c := Clamped(HexToRgb(hex).value);
      && IsColour(c) && Peak(c) >= MIN_MAX_CHANNEL
      && ClampMinLuminance(hex) == Some(RgbToHex(c))
      && HexToRgb(RgbToHex(c)) == Some(c)
  {
    ReadThenWrite(hex);
    var raw := HexToRgb(hex).value;
    if Peak(raw) > 0 {
      ClampsAreFaithful(raw);
    }
    WriteThenRead(Clamped(raw));
  }

  lemma BrightIsNormal(c: Rgb)
    requires IsColour(c) && Peak(c) >= MIN_MAX_CHANNEL
    ensures Validator.IsNormal(Validator.Colour(c))
  {
  }

  /** The backend accepts the frontend's clamped colour and leaves it unchanged, whatever hex colour was picked. */
  lemma BackendKeepsClamped(hex: string)
    requires IsHexColour(hex)
    ensures
      && ClampMinLuminance(hex).Some? && HexToRgb(ClampMinLuminance(hex).value).Some?
      && var sent := Validator.Colour(HexToRgb(ClampMinLuminance(hex).value).value);
      Validator.Validate(sent) == Ok(sent)
  {
    ClampWrites(hex);
    var c := Clamped(HexToRgb(hex).value);
    BrightIsNormal(c);
    Validator.NormalIsFixed(Validator.Colour(c));
  }

  /** Clamping twice is clamping once. */
  lemma ClampIsIdempotent(hex: string)
    requires IsHexColour(hex)
    ensures ClampMinLuminance(hex).Some? && ClampMinLuminance(ClampMinLuminance(hex).value) == ClampMinLuminance(hex)
  {
    ClampWrites(hex);
  }

  /** On every hex colour but black, clamping in the frontend first, or leaving it to the backend, comes to
      the same colour exactly unless the peak is 16 and some channel is 3, 7, 11 or 15. */
  lemma SameColourIff(hex: string)
    requires IsHexColour(hex) && HexToRgb(hex).Some? && Peak(HexToRgb(hex).value) > 0
    ensures
      var raw := HexToRgb(hex).value;
      && ClampMinLuminance(hex).Some?
      && (HexToRgb(ClampMinLuminance(hex).value) == Some(ClampEven(raw)) <==>
            !(Peak(raw) == 16 && (raw.r % 4 == 3 || raw.g % 4 == 3 || raw.b % 4 == 3)))
  {
    ClampWrites(hex);
    ReadThenWrite(hex);
    ClampsDifferIff(HexToRgb(hex).value);
  }

  // ---------- Malformed strings

  lemma SixPairs(a: char, b: char, c: char, d: char, e: char, f: char)
    ensures Clean(['#', a, b, c, d, e, f]) == [LowerChar(a), LowerChar(b), LowerChar(c), LowerChar(d), LowerChar(e),
                                               LowerChar(f)]
  {
    assert ['#', a, b, c, d, e, f][1..] == [a, b, c, d, e, f];
  }

  lemma ReadableLower(a: char, b: char)
    ensures ParseInt16([LowerChar(a), LowerChar(b)]).Some? <==> Readable(a, b)
  {
    PairParsesIff(LowerChar(a), LowerChar(b));
  }

  /** Exactly these strings are read: three hex digits, or six characters of which each pair is readable.
      So not every malformed string of six is refused. */
  lemma ReadIff(hex: string)
    ensures
      var s := Body(hex);
      HexToRgb(hex).Some? <==>
        || (|s| == 3 && AllDigits(s))
        || (|s| == 6 && Readable(s[0], s[1]) && Readable(s[2], s[3]) && Readable(s[4], s[5]))
  {
    var s, t := Body(hex), Clean(hex);
    if |s| == 3 {
      ReadableLower(s[0], s[0]);
      ReadableLower(s[1], s[1]);
      ReadableLower(s[2], s[2]);
    } else if |s| == 6 {
      assert t[0..2] == [LowerChar(s[0]), LowerChar(s[1])];
      assert t[2..4] == [LowerChar(s[2]), LowerChar(s[3])];
      assert t[4..6] == [LowerChar(s[4]), LowerChar(s[5])];
      ReadableLower(s[0], s[1]);
      ReadableLower(s[2], s[3]);
      ReadableLower(s[4], s[5]);
    }
  }

  lemma NotAHexColour(hex: string, i: nat)
    requires |hex| == 7 && hex[0] == '#' && 0 < i < 7 && !IsHexDigit(hex[i])
    ensures !IsHexColour(hex)
  {
    assert Body(hex)[i - 1] == hex[i];
  }

  /** A malformed string that is read: "#1z2z3z" comes out as the colour (1, 2, 3). */
  lemma MalformedIsRead()
    ensures !IsHexColour("#1z2z3z")
    ensures HexToRgb("#1z2z3z") == Some(Rgb(1, 2, 3))
  {
    var hex := ['#', '1', 'z', '2', 'z', '3', 'z'];
    NotAHexColour(hex, 2);
    SixPairs('1', 'z', '2', 'z', '3', 'z');
    var s := Clean(hex);
    assert s[0..2] == ['1', 'z'] && s[2..4] == ['2', 'z'] && s[4..6] == ['3', 'z'];
    SkipTwo('1', 'z');
    SkipTwo('2', 'z');
    SkipTwo('3', 'z');
    ReadTwo('1', 'z');
    ReadTwo('2', 'z');
    ReadTwo('3', 'z');
  }
}
