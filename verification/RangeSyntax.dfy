/** What a unicode-range text says, read off its spelling: numerals by position, in either
    digit case and with any leading zeros, the U+ prefix in either case or left out, and
    blanks around commas. Section 4.5 of CSS Fonts Module Level 3 and section 7 of CSS
    Syntax Module Level 3 spell ranges so. */
module RangeSyntax {
  import opened FontFace
  import opened Text
  import opened UnicodeRange
  import opened Wrappers

  // ---- numerals -------------------------------------------------------------------------

  const LOWER := "0123456789abcdef"
  const UPPER := "0123456789ABCDEF"

  function Power16(n: nat): nat {
    if n == 0 then 1 else 16 * Power16(n - 1)
  }

  /** The sum of the digits, each times the power of 16 of its position. */
  function Positional(digits: seq<nat>): nat {
    if digits == [] then 0 else digits[0] * Power16(|digits| - 1) + Positional(digits[1..])
  }

  /** Each character of s is the lower-case or the upper-case digit of that value. */
  predicate Spells(s: string, digits: seq<nat>) {
    |s| == |digits| && forall k :: 0 <= k < |s| ==> SpellsDigit(s[k], digits[k])
  }

  predicate SpellsDigit(c: char, d: nat) {
    d < 16 && (c == LOWER[d] || c == UPPER[d])
  }

  lemma DigitSpelled(c: char, d: nat)
    requires SpellsDigit(c, d)
    ensures DigitValue(c) == Some(d)
  {
  }

  lemma {:induction false} PositionalLast(digits: seq<nat>)
    requires digits != []
    ensures Positional(digits) == Positional(digits[..|digits| - 1]) * 16 + digits[|digits| - 1]
  {
    var n := |digits| - 1;
    if n > 0 {
      var rest := digits[1..];
      PositionalLast(rest);
      assert digits[..n][1..] == rest[..n - 1];
      assert digits[..n][0] == digits[0];
      Shift(digits[0], n);
    } else {
      assert digits[1..] == [] && digits[..0] == [];
    }
  }

  lemma Shift(d: nat, n: nat)
    requires n > 0
    ensures d * Power16(n) == d * Power16(n - 1) * 16
  {
  }

  lemma {:induction false} SpelledValue(s: string, digits: seq<nat>)
    requires Spells(s, digits)
    ensures AllHex(s) && HexValue(s) == Positional(digits)
  {
    forall k | 0 <= k < |s|
      ensures DigitValue(s[k]).Some?
    {
      DigitSpelled(s[k], digits[k]);
    }
    if s != "" {
      var n := |s| - 1;
      SpelledValue(s[..n], digits[..n]);
      PositionalLast(digits);
      DigitSpelled(s[n], digits[n]);
    }
  }

  /** A numeral reads as its positional value. */
  lemma NumeralReads(s: string, digits: seq<nat>)
    requires s != "" && Spells(s, digits)
    ensures ParseInt(s) == Num(Positional(digits)) && Plain(s)
  {
    SpelledValue(s, digits);
    HexIsPlain(s);
    ParseIntPlain(s);
  }

  /** Reading stops at the first character that is no digit, so a wildcard form reads as
      the digits before its question marks; and no digit at all is no number. */
  lemma NumeralPrefixReads(s: string, digits: seq<nat>, rest: string)
    requires s != "" && Spells(s, digits)
    requires rest != "" ==> rest[0] !in LOWER && rest[0] !in UPPER && rest[0] != 'x' && rest[0] != 'X'
    ensures ParseInt(s + rest) == Num(Positional(digits))
  {
    SpelledValue(s, digits);
    DigitIsPlain(s[0]);
    if rest != "" {
      DigitKnown(rest[0]);
    }
    HexPrefixStops(s, rest);
    var t := s + rest;
    assert StripLeft(t, IsJsSpace) == t;
    if |s| >= 2 {
      DigitIsPlain(s[1]);
    }
  }

  /** Blanks, one sign and one 0x in front of a numeral are skipped; a minus negates it. */
  lemma MarkedNumeralReads(blanks: string, sign: string, hex: string, s: string, digits: seq<nat>)
    requires forall c :: c in blanks ==> c == ' ' || c == '\t' || c == '\n' || c == '\r'
    requires (sign == "" || sign == "+" || sign == "-") && (hex == "" || hex == "0x" || hex == "0X")
    requires s != "" && Spells(s, digits)
    ensures ParseInt(blanks + (sign + (hex + s)))
      == Num(if sign == "-" then 0 - Positional(digits) else Positional(digits))
  {
    SpelledValue(s, digits);
    HexSkipped(hex, s);
    SignSkipped(sign, hex + s);
    MarkedParses(blanks, sign + (hex + s), hex + s, s);
  }

  lemma MarkedParses(blanks: string, t: string, u: string, v: string)
    requires forall c :: c in blanks ==> c == ' ' || c == '\t' || c == '\n' || c == '\r'
    requires t != "" && !IsJsSpace(t[0])
    requires u == if t[0] == '+' || t[0] == '-' then t[1..] else t
    requires v == if |u| >= 2 && u[0] == '0' && (u[1] == 'x' || u[1] == 'X') then u[2..] else u
    requires v != "" && AllHex(v)
    ensures ParseInt(blanks + t) == Num(if t[0] == '-' then 0 - HexValue(v) else HexValue(v))
  {
    forall c | c in blanks
      ensures IsJsSpace(c)
    {
      BlankIsSpace(c);
    }
    StripLeftSkips(blanks, t, IsJsSpace);
    HexPrefixAll(v);
    ParseIntIs(blanks + t, t, u, v);
  }

  lemma ParseIntIs(whole: string, t: string, u: string, v: string)
    requires StripLeft(whole, IsJsSpace) == t != ""
    requires u == if t[0] == '+' || t[0] == '-' then t[1..] else t
    requires v == if |u| >= 2 && u[0] == '0' && (u[1] == 'x' || u[1] == 'X') then u[2..] else u
    requires HexPrefix(v) == v != ""
    ensures ParseInt(whole) == Num(if t[0] == '-' then 0 - HexValue(v) else HexValue(v))
  {
  }

  lemma BlankIsSpace(c: char)
    requires c == ' ' || c == '\t' || c == '\n' || c == '\r'
    ensures IsJsSpace(c)
  {
  }

  lemma HexSkipped(hex: string, s: string)
    requires (hex == "" || hex == "0x" || hex == "0X") && s != "" && AllHex(s)
    ensures var u := hex + s;
      && (if |u| >= 2 && u[0] == '0' && (u[1] == 'x' || u[1] == 'X') then u[2..] else u) == s
      && u != "" && u[0] != '+' && u[0] != '-' && !IsJsSpace(u[0])
  {
    DigitIsPlain(s[0]);
    var u := hex + s;
    if hex == "" {
      assert u == s;
      if |s| >= 2 {
        DigitIsPlain(s[1]);
      }
    } else {
      assert u[2..] == s;
    }
  }

  lemma SignSkipped(sign: string, u: string)
    requires (sign == "" || sign == "+" || sign == "-") && u != "" && u[0] != '+' && u[0] != '-' && !IsJsSpace(u[0])
    ensures var t := sign + u;
      && t != "" && !IsJsSpace(t[0])
      && (t[0] == '-' <==> sign == "-") && (t[0] == '+' <==> sign == "+")
      && (if t[0] == '+' || t[0] == '-' then t[1..] else t) == u
  {
    var t := sign + u;
    if sign == "" {
      assert t == u;
    } else {
      assert t[1..] == u;
    }
  }

  lemma DigitKnown(c: char)
    ensures DigitValue(c).Some? ==> c in LOWER || c in UPPER
  {
    if DigitValue(c).Some? {
      var d := DigitValue(c).value;
      assert c == LOWER[d] || c == UPPER[d];
    }
  }

  lemma {:induction false} HexPrefixStops(s: string, rest: string)
    requires AllHex(s) && (rest != "" ==> DigitValue(rest[0]) == None)
    ensures HexPrefix(s + rest) == s
  {
    if s == "" {
      assert s + rest == rest;
    } else {
      assert (s + rest)[1..] == s[1..] + rest;
      HexPrefixStops(s[1..], rest);
    }
  }

  // ---- ranges -------------------------------------------------------------------------------

  /** A numeral with the digits it spells. */
  datatype Numeral = Numeral(text: string, digits: seq<nat>) {
    predicate Valid() {
      text != "" && Spells(text, digits)
    }

    function Value(): nat {
      Positional(digits)
    }
  }

  /** One entry of a unicode-range: blanks, a prefix or none, a numeral, a second one or
      none, blanks. */
  datatype Entry = Entry(left: string, prefix: string, low: Numeral, high: Option<Numeral>, right: string) {
    predicate Valid() {
      && (forall c :: c in left + right ==> c == ' ' || c == '\t' || c == '\n' || c == '\r' || c as int == 0xC)
      && IsPrefix(prefix)
      && low.Valid() && (high.Some? ==> high.value.Valid())
    }

    function Core(): string {
      low.text + if high.Some? then ['-'] + high.value.text else ""
    }

    function Whole(): string {
      left + (prefix + Core()) + right
    }

    function First(): nat {
      low.Value()
    }

    /** A single code point is its own end. */
    function Last(): nat {
      if high.Some? then high.value.Value() else low.Value()
    }
  }

  predicate AllValid(entries: seq<Entry>) {
    forall k :: 0 <= k < |entries| ==> entries[k].Valid()
  }

  function Texts(entries: seq<Entry>): seq<string> {
    seq(|entries|, k requires 0 <= k < |entries| => entries[k].Whole())
  }

  function Spelled(entries: seq<Entry>): string {
    Join(Texts(entries), ',')
  }

  /** What stands between the prefix and the closing blanks. */
  function Body(a: string, b: Option<string>): string {
    a + if b.Some? then ['-'] + b.value else ""
  }

  predicate IsHex(s: string) {
    s != "" && AllHex(s)
  }

  lemma BodySplits(a: string, b: Option<string>)
    requires IsHex(a) && (b.Some? ==> IsHex(b.value))
    ensures Split(Body(a, b), '-') == if b.Some? then [a, b.value] else [a]
  {
    HexIsPlain(a);
    if b.Some? {
      HexIsPlain(b.value);
      JoinTwo(a, b.value, '-');
      assert Body(a, b) == a + ['-'] + b.value;
      SplitJoin([a, b.value], '-');
    } else {
      assert Body(a, b) == a == Join([a], '-');
      SplitJoin([a], '-');
    }
  }

  lemma BodyPlain(a: string, b: Option<string>)
    requires IsHex(a) && (b.Some? ==> IsHex(b.value))
    ensures var body := Body(a, b);
      && body != "" && DigitValue(body[0]).Some? && ',' !in body
      && !IsJsSpace(body[0]) && !IsJsSpace(body[|body| - 1])
  {
    HexIsPlain(a);
    DigitIsPlain(a[0]);
    if b.Some? {
      HexIsPlain(b.value);
      assert Body(a, b)[|Body(a, b)| - 1] == b.value[|b.value| - 1];
    }
  }

  predicate IsPrefix(prefix: string) {
    prefix == "" || prefix == ['U', '+'] || prefix == ['u', '+']
  }

  lemma PrefixDropped(prefix: string, body: string)
    requires body != "" && DigitValue(body[0]).Some? && !IsJsSpace(body[|body| - 1])
    requires IsPrefix(prefix)
    ensures DropPrefix(prefix + body) == body && Stripped(prefix + body, IsJsSpace)
  {
    DigitIsPlain(body[0]);
    var text := prefix + body;
    assert text[|text| - 1] == body[|body| - 1];
    if prefix == "" {
      assert text == body;
      assert body[0] != 'u' && body[0] != 'U';
    } else {
      assert text[2..] == body;
    }
  }

  lemma PartReads(left: string, prefix: string, a: string, b: Option<string>, right: string)
    requires IsHex(a) && (b.Some? ==> IsHex(b.value)) && IsPrefix(prefix)
    requires forall c :: c in left + right ==> IsJsSpace(c)
    ensures ParsePart(left + (prefix + Body(a, b)) + right) == Interval(ParseInt(a), ParseInt(b.Or(a)))
  {
    BodyPlain(a, b);
    BodySplits(a, b);
    PrefixDropped(prefix, Body(a, b));
    StripAround(left, prefix + Body(a, b), right, IsJsSpace);
  }

  lemma EntryHex(e: Entry)
    requires e.Valid()
    ensures var b := if e.high.Some? then Some(e.high.value.text) else None;
      && IsHex(e.low.text) && (b.Some? ==> IsHex(b.value)) && e.Core() == Body(e.low.text, b)
      && ParseInt(e.low.text) == Num(e.First()) && ParseInt(b.Or(e.low.text)) == Num(e.Last())
  {
    SpelledValue(e.low.text, e.low.digits);
    NumeralReads(e.low.text, e.low.digits);
    if e.high.Some? {
      SpelledValue(e.high.value.text, e.high.value.digits);
      NumeralReads(e.high.value.text, e.high.value.digits);
    }
  }

  lemma EntryParses(e: Entry)
    requires e.Valid()
    ensures ParsePart(e.Whole()) == Interval(Num(e.First()), Num(e.Last()))
    ensures ',' !in e.Whole()
  {
    EntryHex(e);
    var b := if e.high.Some? then Some(e.high.value.text) else None;
    PartReads(e.left, e.prefix, e.low.text, b, e.right);
    BodyPlain(e.low.text, b);
    NoCommas(e.left, e.prefix, e.Core(), e.right);
  }

  lemma NoCommas(left: string, prefix: string, body: string, right: string)
    requires ',' !in left + right && ',' !in prefix && ',' !in body
    ensures ',' !in left + (prefix + body) + right
  {
    assert forall c :: c in left || c in right ==> c in left + right;
  }

  function Intervals(entries: seq<Entry>): seq<Interval> {
    seq(|entries|, k requires 0 <= k < |entries| => Interval(Num(entries[k].First()), Num(entries[k].Last())))
  }

  lemma {:induction false} ListParses(parts: seq<string>, rs: seq<Interval>)
    requires |parts| == |rs| && forall k :: 0 <= k < |parts| ==> ParsePart(parts[k]) == rs[k]
    ensures ParseParts(parts) == rs
  {
    if parts != [] {
      ListParses(parts[1..], rs[1..]);
    }
  }

  /** A text that spells ranges parses into them, however it spells them: any digit case,
      leading zeros, prefix and blanks. */
  lemma SpelledParses(entries: seq<Entry>)
    requires entries != [] && AllValid(entries)
    ensures ParseUnicodeRange(Spelled(entries)) == Intervals(entries)
  {
    var texts := Texts(entries);
    forall k | 0 <= k < |entries|
      ensures ParsePart(texts[k]) == Intervals(entries)[k] && ',' !in texts[k]
    {
      EntryParses(entries[k]);
    }
    ListParses(texts, Intervals(entries));
    SplitJoin(texts, ',');
  }

  // ---- what becomes of a spelled text ----------------------------------------------------------

  /** Some entry covers n. */
  ghost predicate Covers(entries: seq<Entry>, n: int) {
    exists k :: 0 <= k < |entries| && entries[k].First() <= n <= entries[k].Last()
  }

  /** The bounds of r are numbers and n lies between them, ends included. */
  predicate Between(r: Interval, n: int) {
    r.start.Num? && r.end.Num? && r.start.n <= n <= r.end.n
  }

  lemma {:induction false} ExpandCovers(rs: seq<Interval>, n: int)
    ensures n in Expand(rs) <==> exists k :: 0 <= k < |rs| && Between(rs[k], n)
  {
    if rs != [] {
      var m := |rs| - 1;
      ExpandCovers(rs[..m], n);
      assert forall k :: 0 <= k < m ==> rs[..m][k] == rs[k];
      if rs[m].start.Num? && rs[m].end.Num? {
        CodesMember(rs[m].start.n, rs[m].end.n, n);
      }
    }
  }

  lemma IntervalsCover(entries: seq<Entry>, n: int)
    ensures n in Expand(Intervals(entries)) <==> Covers(entries, n)
  {
    var rs := Intervals(entries);
    ExpandCovers(rs, n);
    assert forall k :: 0 <= k < |entries| ==> (Between(rs[k], n) <==> entries[k].First() <= n <= entries[k].Last());
  }

  /** What the hook makes of a spelled text. It throws exactly when an entry reaches past
      the last code point; otherwise nothing is left exactly when every covered code point
      has emoji presentation; otherwise the new text covers exactly the covered code points
      that have none. */
  lemma SpelledTextRewritten(entries: seq<Entry>, emoji: int -> bool)
    requires entries != [] && AllValid(entries)
    ensures OutcomeOf(Spelled(entries), emoji) == Thrown <==> exists n :: Covers(entries, n) && n > 0x10FFFF
    ensures OutcomeOf(Spelled(entries), emoji) == Emptied <==>
      (forall n :: Covers(entries, n) ==> n <= 0x10FFFF && emoji(n))
    ensures OutcomeOf(Spelled(entries), emoji).Replaced? ==>
      forall n :: n in Covered(OutcomeOf(Spelled(entries), emoji).text) <==> Covers(entries, n) && !emoji(n)
  {
    var value := Spelled(entries);
    SpelledParses(entries);
    forall n
      ensures n in Covered(value) <==> Covers(entries, n)
    {
      IntervalsCover(entries, n);
    }
    RewriteCoverage(value, emoji);
    FilterMembers(Covered(value), NonEmoji(emoji));
  }

  // ---- what is printed -----------------------------------------------------------------------

  /** The digits of n in base 16, most significant first. */
  function Digits16(n: nat): seq<nat> {
    if n < 16 then [n] else Digits16(n / 16) + [n % 16]
  }

  lemma {:induction false} Digits16Is(n: nat)
    ensures forall k :: 0 <= k < |Digits16(n)| ==> Digits16(n)[k] < 16
    ensures Positional(Digits16(n)) == n
    ensures n > 0 ==> Digits16(n)[0] != 0
    decreases n
  {
    var digits := Digits16(n);
    PositionalLast(digits);
    if n < 16 {
      assert digits[..0] == [];
    } else {
      Digits16Is(n / 16);
      assert digits[..|digits| - 1] == Digits16(n / 16);
    }
  }

  /** A number in lower case, without leading zeros. */
  function NumeralOf(n: nat): Numeral {
    Digits16Is(n);
    var digits := Digits16(n);
    Numeral(seq(|digits|, k requires 0 <= k < |digits| => LOWER[digits[k]]), digits)
  }

  lemma NumeralOfIs(n: nat)
    ensures NumeralOf(n).Valid() && NumeralOf(n).Value() == n
    ensures NumeralOf(n).text[0] == '0' ==> n == 0
  {
    Digits16Is(n);
    var digits := Digits16(n);
    assert forall k :: 0 <= k < |digits| ==> SpellsDigit(NumeralOf(n).text[k], digits[k]);
    if NumeralOf(n).text[0] == '0' {
      assert LOWER[digits[0]] == '0';
    }
  }

  lemma {:induction false} ToHexIs(n: nat)
    ensures ToHex(n) == NumeralOf(n).text
    decreases n
  {
    Digits16Is(n);
    if n >= 16 {
      ToHexIs(n / 16);
      Digits16Is(n / 16);
      assert ToHex(n) == NumeralOf(n / 16).text + [LOWER[n % 16]];
    }
  }

  /** One printed range: U+ and one numeral for a single code point, or two numerals. */
  function Printed(r: Interval): Entry
    requires r.start.Num? && r.end.Num? && 0 <= r.start.n <= r.end.n
  {
    Entry("", ['U', '+'], NumeralOf(r.start.n), if r.start == r.end then None else Some(NumeralOf(r.end.n)), "")
  }

  lemma PrintedText(r: Interval)
    requires r.start.Num? && r.end.Num? && 0 <= r.start.n <= r.end.n
    ensures IntervalText(r) == Printed(r).Whole() && Printed(r).Valid()
    ensures Printed(r).First() == r.start.n && Printed(r).Last() == r.end.n
  {
    NumeralOfIs(r.start.n);
    NumeralOfIs(r.end.n);
    ToHexIs(r.start.n);
    ToHexIs(r.end.n);
    assert "U+" == ['U', '+'] && "-" == ['-'];
    var core := ToHex(r.start.n) + if r.start == r.end then "" else ['-'] + ToHex(r.end.n);
    assert Printed(r).Core() == core;
    assert IntervalText(r) == ['U', '+'] + core;
    assert "" + (['U', '+'] + core) + "" == ['U', '+'] + core;
  }

  ghost predicate Ordered(rs: seq<Interval>) {
    forall k :: 0 <= k < |rs| ==> rs[k].start.Num? && rs[k].end.Num? && 0 <= rs[k].start.n <= rs[k].end.n
  }

  lemma {:induction false} TextsPrinted(rs: seq<Interval>)
    requires Ordered(rs)
    ensures |IntervalTexts(rs)| == |rs|
    ensures forall k :: 0 <= k < |rs| ==> IntervalTexts(rs)[k] == Printed(rs[k]).Whole()
  {
    if rs != [] {
      PrintedText(rs[0]);
      TextsPrinted(rs[1..]);
    }
  }

  /** A list is printed as its ranges in order, joined by commas, each with the prefix U+
      and lower-case numerals without leading zeros, and a single code point as one. */
  lemma PrintedForm(rs: seq<Interval>)
    requires Ordered(rs)
    ensures FormatUnicodeRange(rs) == Spelled(seq(|rs|, k requires 0 <= k < |rs| => Printed(rs[k])))
  {
    TextsPrinted(rs);
    var entries := seq(|rs|, k requires 0 <= k < |rs| => Printed(rs[k]));
    assert IntervalTexts(rs) == Texts(entries);
  }

  /** The text the hook writes has that form. */
  lemma ReplacementIsPrinted(value: string, emoji: int -> bool)
    requires OutcomeOf(value, emoji).Replaced?
    ensures var rs := Kept(ParseUnicodeRange(value), emoji);
      Ordered(rs) && OutcomeOf(value, emoji).text == Spelled(seq(|rs|, k requires 0 <= k < |rs| => Printed(rs[k])))
  {
    var rs := Kept(ParseUnicodeRange(value), emoji);
    KeptSpec(ParseUnicodeRange(value), emoji);
    ParsedIsUnsigned(value);
    ExpandUnsigned(ParseUnicodeRange(value));
    FilterMembers(Expand(ParseUnicodeRange(value)), NonEmoji(emoji));
    MaximalUnsigned(rs);
    forall k | 0 <= k < |rs|
      ensures rs[k].start.Num? && rs[k].end.Num? && 0 <= rs[k].start.n <= rs[k].end.n
    {
      assert rs[k] in rs && IsRun(rs[k]);
    }
    PrintedForm(rs);
  }
}
