/** The `unicode-range` rewriting step of frontend/postcss.config.js: parse the
    interval text, drop the code points with emoji presentation, print the
    remaining runs. The syntax is a subset of <urange>, section 7 of CSS Syntax
    Module Level 3. Which code points have Emoji_Presentation is a parameter. */
module UnicodeRange {
  import opened Text
  import opened Wrappers

  /** A JavaScript number that is either NaN or an integer. */
  datatype Number = NaN | Num(n: int)

  /** The contents of a [start, end] pair. */
  datatype Interval = Interval(start: Number, end: Number)

  const MAX_CODE_POINT := 0x10FFFF

  predicate IsCodePoint(n: int) { 0 <= n <= MAX_CODE_POINT }

  // ---- parseUnicodeRange -----------------------------------------------

  /** White space and line terminators, as String.prototype.trim removes them. */
  predicate IsJsSpace(c: char) {
    var n := c as int;
    0x9 <= n <= 0xD || n == 0x20 || n == 0xA0 || n == 0x1680 || 0x2000 <= n <= 0x200A
    || n == 0x2028 || n == 0x2029 || n == 0x202F || n == 0x205F || n == 0x3000 || n == 0xFEFF
  }

  /** parseInt(s, 16): leading space, sign and 0x prefix are skipped, the longest
      run of digits is read, and no digits at all is NaN. */
  function ParseInt(s: string): Number {
    var t := StripLeft(s, IsJsSpace);
    var signed := t != "" && (t[0] == '+' || t[0] == '-');
    var u := if signed then t[1..] else t;
    var v := if |u| >= 2 && u[0] == '0' && (u[1] == 'x' || u[1] == 'X') then u[2..] else u;
    var digits := HexPrefix(v);
    if digits == "" then NaN
    else if signed && t[0] == '-' then Num(0 - HexValue(digits))
    else Num(HexValue(digits))
  }

  /** Removes a leading `U+`, in either case. */
  function DropPrefix(s: string): string {
    if |s| >= 2 && (s[0] == 'u' || s[0] == 'U') && s[1] == '+' then s[2..] else s
  }

  function ParsePart(part: string): Interval {
    var pieces := Split(DropPrefix(Strip(part, IsJsSpace)), '-');
    var start := pieces[0];
    var end := if |pieces| > 1 then pieces[1] else start;
    Interval(ParseInt(start), ParseInt(end))
  }

  function ParseParts(parts: seq<string>): seq<Interval> {
    if parts == [] then [] else [ParsePart(parts[0])] + ParseParts(parts[1..])
  }

  function ParseUnicodeRange(value: string): seq<Interval> {
    ParseParts(Split(value, ','))
  }

  // ---- formatUnicodeRange ----------------------------------------------

  /** Number.prototype.toString(16). */
  function NumberText(x: Number): string {
    match x
    case NaN => "NaN"
    case Num(n) => if n < 0 then "-" + ToHex(-n) else ToHex(n)
  }

  /** NaN is not equal to itself, so a NaN pair prints both bounds. */
  function IntervalText(r: Interval): string {
    if r.start == r.end && r.start != NaN then "U+" + NumberText(r.start)
    else "U+" + NumberText(r.start) + "-" + NumberText(r.end)
  }

  function IntervalTexts(rs: seq<Interval>): seq<string> {
    if rs == [] then [] else [IntervalText(rs[0])] + IntervalTexts(rs[1..])
  }

  function FormatUnicodeRange(rs: seq<Interval>): string {
    Join(IntervalTexts(rs), ',')
  }

  // ---- parse after format ----------------------------------------------

  predicate Unsigned(x: Number) { x == NaN || x.n >= 0 }

  predicate UnsignedInterval(r: Interval) { Unsigned(r.start) && Unsigned(r.end) }

  lemma DigitIsPlain(c: char)
    requires DigitValue(c).Some?
    ensures !IsJsSpace(c) && c != '+' && c != '-' && c != ',' && c != 'x' && c != 'X'
  {
  }

  lemma HexIsPlain(s: string)
    requires s != "" && AllHex(s)
    ensures Plain(s)
  {
    forall i | 0 <= i < |s|
      ensures s[i] != '-' && s[i] != ',' && !IsJsSpace(s[i])
    {
      DigitIsPlain(s[i]);
    }
  }

  /** Reading a plain hexadecimal numeral: nothing is skipped. */
  lemma ParseIntPlain(s: string)
    requires s != "" && AllHex(s)
    ensures ParseInt(s) == Num(HexValue(s))
  {
    DigitIsPlain(s[0]);
    assert StripLeft(s, IsJsSpace) == s;
    if |s| >= 2 {
      DigitIsPlain(s[1]);
    }
    HexPrefixAll(s);
  }

  lemma ParseIntNaN()
    ensures ParseInt("NaN") == NaN
  {
    var s := "NaN";
    assert !IsJsSpace(s[0]) && DigitValue(s[0]).None?;
    assert StripLeft(s, IsJsSpace) == s;
    assert HexPrefix(s) == "";
  }

  lemma NumberTextRoundTrip(x: Number)
    requires Unsigned(x)
    ensures ParseInt(NumberText(x)) == x
    ensures Plain(NumberText(x))
  {
    match x
    case NaN => ParseIntNaN();
    case Num(n) =>
      HexRoundTrip(n);
      HexIsPlain(ToHex(n));
      ParseIntPlain(ToHex(n));
  }

  /** Text that survives inside `U+...`: no separator and no space at its ends. */
  predicate Plain(s: string) {
    s != "" && '-' !in s && ',' !in s && Stripped(s, IsJsSpace)
  }

  /** Parsing `U+` followed by a body that ends in a plain bound. */
  lemma ParsePartBody(body: string)
    requires body != "" && !IsJsSpace(body[|body| - 1])
    ensures DropPrefix(Strip("U+" + body, IsJsSpace)) == body
  {
    var t := "U+" + body;
    assert t[0] == 'U' && t[1] == '+' && t[2..] == body;
    assert Stripped(t, IsJsSpace);
    StripStripped(t, IsJsSpace);
  }

  lemma ParsePartOne(a: string)
    requires Plain(a)
    ensures ParsePart("U+" + a) == Interval(ParseInt(a), ParseInt(a))
  {
    ParsePartBody(a);
    assert Join([a], '-') == a;
    SplitJoin([a], '-');
  }

  lemma ParsePartTwo(a: string, b: string)
    requires Plain(a) && Plain(b)
    ensures ParsePart("U+" + a + "-" + b) == Interval(ParseInt(a), ParseInt(b))
  {
    var body := a + "-" + b;
    assert "U+" + a + "-" + b == "U+" + body;
    ParsePartBody(body);
    JoinTwo(a, b, '-');
    SplitJoin([a, b], '-');
  }

  lemma JoinTwo(a: string, b: string, sep: char)
    ensures Join([a, b], sep) == a + [sep] + b
  {
    assert [a, b][1..] == [b];
  }

  lemma IntervalTextRoundTrip(r: Interval)
    requires UnsignedInterval(r)
    ensures ParsePart(IntervalText(r)) == r
    ensures ',' !in IntervalText(r)
  {
    NumberTextRoundTrip(r.start);
    NumberTextRoundTrip(r.end);
    if r.start == r.end && r.start != NaN {
      ParsePartOne(NumberText(r.start));
    } else {
      ParsePartTwo(NumberText(r.start), NumberText(r.end));
    }
  }

  /** No piece that parseInt is given holds a minus sign, so no bound is negative. */
  lemma ParsedIsUnsigned(value: string)
    ensures ParseUnicodeRange(value) != []
    ensures forall r :: r in ParseUnicodeRange(value) ==> UnsignedInterval(r)
  {
    PartsAreUnsigned(Split(value, ','));
  }

  lemma {:induction false} PartsAreUnsigned(parts: seq<string>)
    ensures |ParseParts(parts)| == |parts|
    ensures forall r :: r in ParseParts(parts) ==> UnsignedInterval(r)
  {
    if parts != [] {
      PartIsUnsigned(parts[0]);
      PartsAreUnsigned(parts[1..]);
    }
  }

  lemma PartIsUnsigned(part: string)
    ensures UnsignedInterval(ParsePart(part))
  {
    var pieces := Split(DropPrefix(Strip(part, IsJsSpace)), '-');
    SplitPieces(DropPrefix(Strip(part, IsJsSpace)), '-');
    PieceIsUnsigned(pieces[0]);
    if |pieces| > 1 {
      PieceIsUnsigned(pieces[1]);
    }
  }

  lemma PieceIsUnsigned(piece: string)
    requires '-' !in piece
    ensures Unsigned(ParseInt(piece))
  {
    StripLeftSuffix(piece, IsJsSpace);
    var t := StripLeft(piece, IsJsSpace);
    if t != "" {
      assert t[0] in t;
    }
  }

  lemma {:induction false} StripLeftSuffix(s: string, space: char -> bool)
    ensures forall c :: c in StripLeft(s, space) ==> c in s
  {
    if s != "" {
      StripLeftSuffix(s[1..], space);
    }
  }

  lemma {:induction false} TextsParse(rs: seq<Interval>)
    requires forall r :: r in rs ==> UnsignedInterval(r)
    ensures ParseParts(IntervalTexts(rs)) == rs
    ensures forall t :: t in IntervalTexts(rs) ==> ',' !in t
  {
    if rs != [] {
      var text, rest := IntervalText(rs[0]), IntervalTexts(rs[1..]);
      assert rs[0] in rs;
      IntervalTextRoundTrip(rs[0]);
      TextsParse(rs[1..]);
      PartsInFront(text, rest);
      assert rs == [rs[0]] + rs[1..];
    }
  }

  lemma PartsInFront(part: string, parts: seq<string>)
    ensures ParseParts([part] + parts) == [ParsePart(part)] + ParseParts(parts)
  {
    assert ([part] + parts)[1..] == parts;
  }

  /** Printing an interval list and parsing it again gives the list back exactly
      when the list is not empty and no bound is negative. */
  lemma ParseFormat(rs: seq<Interval>)
    ensures ParseUnicodeRange(FormatUnicodeRange(rs)) == rs
      <==> rs != [] && forall r :: r in rs ==> UnsignedInterval(r)
  {
    if rs != [] && forall r :: r in rs ==> UnsignedInterval(r) {
      TextsParse(rs);
      SplitJoin(IntervalTexts(rs), ',');
    }
    ParsedIsUnsigned(FormatUnicodeRange(rs));
  }

  lemma FormatInjective(a: seq<Interval>, b: seq<Interval>)
    requires a != [] && forall r :: r in a ==> UnsignedInterval(r)
    requires b != [] && forall r :: r in b ==> UnsignedInterval(r)
    requires FormatUnicodeRange(a) == FormatUnicodeRange(b)
    ensures a == b
  {
    ParseFormat(a);
    ParseFormat(b);
  }

  // ---- code points and runs --------------------------------------------

  function Codes(lo: int, hi: int): seq<int>
    decreases hi - lo + 1
  {
    if lo > hi then [] else Codes(lo, hi - 1) + [hi]
  }

  lemma {:induction false} CodesMember(lo: int, hi: int, n: int)
    ensures n in Codes(lo, hi) <==> lo <= n <= hi
    decreases hi - lo + 1
  {
    if lo <= hi {
      CodesMember(lo, hi - 1, n);
    }
  }

  lemma CodesNext(before: seq<int>, lo: int, n: int)
    requires lo <= n
    ensures before + Codes(lo, n) == before + Codes(lo, n - 1) + [n]
  {
    assert Codes(lo, n) == Codes(lo, n - 1) + [n];
  }

  /** The code points the loop visits for one pair; a NaN bound visits none. */
  function IntervalCodes(r: Interval): seq<int> {
    if r.start.Num? && r.end.Num? then Codes(r.start.n, r.end.n) else []
  }

  /** All code points of an interval list, in order and with multiplicity. */
  function Expand(rs: seq<Interval>): seq<int> {
    if rs == [] then [] else Expand(rs[..|rs| - 1]) + IntervalCodes(rs[|rs| - 1])
  }

  /** What one surviving code point does to the list of kept runs. */
  function AddPoint(kept: seq<Interval>, n: int): seq<Interval> {
    if kept != [] && kept[|kept| - 1].end == Num(n - 1)
    then kept[|kept| - 1 := kept[|kept| - 1].(end := Num(n))]
    else kept + [Interval(Num(n), Num(n))]
  }

  /** The runs of a list of code points. */
  function Runs(points: seq<int>): seq<Interval> {
    if points == [] then [] else AddPoint(Runs(points[..|points| - 1]), points[|points| - 1])
  }

  ghost predicate IsRun(r: Interval) {
    r.start.Num? && r.end.Num? && r.start.n <= r.end.n
  }

  /** Non-empty runs, no two neighbours of which could be merged. */
  ghost predicate Maximal(rs: seq<Interval>) {
    && (forall i :: 0 <= i < |rs| ==> IsRun(rs[i]))
    && (forall i :: 0 < i < |rs| ==> rs[i - 1].end.n + 1 != rs[i].start.n)
  }

  lemma MaximalLast(front: seq<Interval>, last: Interval)
    ensures Maximal(front + [last]) <==>
      Maximal(front) && IsRun(last) && (front == [] || front[|front| - 1].end.n + 1 != last.start.n)
  {
    var rs := front + [last];
    assert forall i :: 0 <= i < |front| ==> rs[i] == front[i];
    assert rs[|front|] == last;
  }

  /** The runs of a point list are maximal and expand to exactly those points. */
  lemma {:induction false} RunsExpand(points: seq<int>)
    ensures Expand(Runs(points)) == points
    ensures Maximal(Runs(points))
  {
    if points != [] {
      var front, n := points[..|points| - 1], points[|points| - 1];
      assert points == front + [n];
      RunsExpand(front);
      RunsNext(front, n);
      AddPointExpand(Runs(front), n);
    }
  }

  lemma AddPointExpand(kept: seq<Interval>, n: int)
    requires Maximal(kept)
    ensures Maximal(AddPoint(kept, n))
    ensures Expand(AddPoint(kept, n)) == Expand(kept) + [n]
  {
    if kept != [] && kept[|kept| - 1].end == Num(n - 1) {
      var front, last := kept[..|kept| - 1], kept[|kept| - 1];
      assert kept == front + [last];
      assert AddPoint(kept, n) == front + [Interval(last.start, Num(n))];
      ExtendRun(front, last, n);
    } else {
      MaximalLast(kept, Interval(Num(n), Num(n)));
      ExpandLast(kept, Interval(Num(n), Num(n)));
      CodesNext(Expand(kept), n, n);
      assert Expand(kept) + Codes(n, n - 1) == Expand(kept);
    }
  }

  lemma ExtendRun(front: seq<Interval>, last: Interval, n: int)
    requires Maximal(front + [last]) && last.end == Num(n - 1)
    ensures Maximal(front + [Interval(last.start, Num(n))])
    ensures Expand(front + [Interval(last.start, Num(n))]) == Expand(front + [last]) + [n]
  {
    MaximalLast(front, last);
    MaximalLast(front, Interval(last.start, Num(n)));
    ExpandLast(front, last);
    ExpandLast(front, Interval(last.start, Num(n)));
    CodesNext(Expand(front), last.start.n, n);
  }

  lemma ExpandLast(front: seq<Interval>, last: Interval)
    ensures Expand(front + [last]) == Expand(front) + IntervalCodes(last)
  {
    assert (front + [last])[..|front|] == front;
  }

  /** The next point of a run extends the last run. */
  lemma AddNextPoint(kept: seq<Interval>, n: int)
    requires kept != [] && kept[|kept| - 1].end == Num(n - 1)
    ensures var next := AddPoint(kept, n);
      |next| == |kept| && next[|next| - 1].end == Num(n)
    ensures forall front, lo :: kept == front + [Interval(Num(lo), Num(n - 1))] ==>
      AddPoint(kept, n) == front + [Interval(Num(lo), Num(n))]
  {
  }

  /** Adding a whole interval opens at most one run, and opens exactly that
      interval as a run when it cannot be merged into the last one. */
  lemma {:induction false} RunsAppend(points: seq<int>, lo: int, hi: int)
    requires lo <= hi
    ensures var kept := Runs(points); var next := Runs(points + Codes(lo, hi));
      && |next| <= |kept| + 1
      && next != [] && next[|next| - 1].end == Num(hi)
      && (kept == [] || kept[|kept| - 1].end != Num(lo - 1) ==> next == kept + [Interval(Num(lo), Num(hi))])
    decreases hi - lo
  {
    CodesNext(points, lo, hi);
    RunsNext(points + Codes(lo, hi - 1), hi);
    if lo < hi {
      RunsAppend(points, lo, hi - 1);
      AddNextPoint(Runs(points + Codes(lo, hi - 1)), hi);
    } else {
      assert points + Codes(lo, hi - 1) == points;
    }
  }

  lemma RunsNext(points: seq<int>, n: int)
    ensures Runs(points + [n]) == AddPoint(Runs(points), n)
  {
    assert (points + [n])[..|points|] == points;
  }

  /** Adding the points of one more run to those of a maximal list gives that run. */
  lemma MaximalAppend(front: seq<Interval>, last: Interval)
    requires Maximal(front + [last]) && Runs(Expand(front)) == front
    ensures Runs(Expand(front + [last])) == front + [last]
  {
    MaximalLast(front, last);
    ExpandLast(front, last);
    RunsAppend(Expand(front), last.start.n, last.end.n);
    assert last == Interval(Num(last.start.n), Num(last.end.n));
  }

  /** A maximal run list is determined by its code points. */
  lemma {:induction false} MaximalUnique(rs: seq<Interval>)
    requires Maximal(rs)
    ensures Runs(Expand(rs)) == rs
  {
    if rs != [] {
      var front, last := rs[..|rs| - 1], rs[|rs| - 1];
      assert rs == front + [last];
      MaximalLast(front, last);
      MaximalUnique(front);
      MaximalAppend(front, last);
    }
  }

  /** No interval list with the same code points is shorter than the run list. */
  lemma {:induction false} RunsShortest(rs: seq<Interval>)
    ensures |Runs(Expand(rs))| <= |rs|
  {
    if rs != [] {
      var front, last := rs[..|rs| - 1], rs[|rs| - 1];
      RunsShortest(front);
      if IntervalCodes(last) == [] {
        assert Expand(rs) == Expand(front);
      } else {
        RunsAppend(Expand(front), last.start.n, last.end.n);
      }
    }
  }

  // ---- removeEmojiCodePoints -------------------------------------------

  function NonEmoji(emoji: int -> bool): int -> bool { n => !emoji(n) }

  /** The value of removeEmojiCodePoints: the runs of the non-emoji points. */
  function Kept(rs: seq<Interval>, emoji: int -> bool): seq<Interval> {
    Runs(Filter(Expand(rs), NonEmoji(emoji)))
  }

  ghost predicate AllCodePoints(points: seq<int>) {
    forall n :: n in points ==> IsCodePoint(n)
  }

  /** n is the first element of the list that is not a code point. */
  ghost predicate FirstBad(points: seq<int>, n: int) {
    exists k :: 0 <= k < |points| && points[k] == n && !IsCodePoint(n)
      && forall j :: 0 <= j < k ==> IsCodePoint(points[j])
  }

  /** Whether String.fromCodePoint would throw while visiting rs. */
  ghost predicate Throws(rs: seq<Interval>) {
    !AllCodePoints(Expand(rs))
  }

  /** The kept runs cover exactly the surviving code points, in order and with
      multiplicity; they are maximal, the only maximal list and a shortest list
      with that expansion; and keeping again changes nothing. */
  lemma KeptSpec(rs: seq<Interval>, emoji: int -> bool)
    ensures var kept := Kept(rs, emoji);
      && Expand(kept) == Filter(Expand(rs), NonEmoji(emoji))
      && Maximal(kept)
      && (forall other :: Maximal(other) && Expand(other) == Expand(kept) ==> other == kept)
      && (forall other :: Expand(other) == Expand(kept) ==> |kept| <= |other|)
      && Kept(kept, emoji) == kept
  {
    var keep := NonEmoji(emoji);
    var points := Filter(Expand(rs), keep);
    RunsExpand(points);
    forall other | Expand(other) == points
      ensures Maximal(other) ==> other == Runs(points)
      ensures |Runs(points)| <= |other|
    {
      if Maximal(other) {
        MaximalUnique(other);
      }
      RunsShortest(other);
    }
    FilterMembers(Expand(rs), keep);
    FilterAll(points, keep);
  }

  /** A [start, end] array; removeEmojiCodePoints extends the last one in place. */
  class Pair {
    var start: Number
    var end: Number

    constructor (start: Number, end: Number)
      ensures this.start == start && this.end == end
    {
      this.start, this.end := start, end;
    }
  }

  ghost function Objects(pairs: seq<Pair>): set<Pair> {
    set p | p in pairs
  }

  function Contents(pairs: seq<Pair>): (rs: seq<Interval>)
    reads pairs
    ensures |rs| == |pairs|
    ensures forall i :: 0 <= i < |pairs| ==> rs[i] == Interval(pairs[i].start, pairs[i].end)
  {
    seq(|pairs|, i requires 0 <= i < |pairs| reads pairs => Interval(pairs[i].start, pairs[i].end))
  }

  lemma ExpandNext(rs: seq<Interval>, i: nat)
    requires i < |rs|
    ensures Expand(rs[..i + 1]) == Expand(rs[..i]) + IntervalCodes(rs[i])
  {
    assert rs[..i + 1][..i] == rs[..i];
  }

  lemma {:induction false} ExpandPrefix(rs: seq<Interval>, i: nat)
    requires i <= |rs|
    ensures Expand(rs[..i]) <= Expand(rs)
    decreases |rs| - i
  {
    if i < |rs| {
      ExpandNext(rs, i);
      ExpandPrefix(rs, i + 1);
    } else {
      assert rs[..i] == rs;
    }
  }

  /** The loops' invariant: the fresh pairs of kept are the runs of what was visited. */
  ghost predicate Keeping(kept: seq<Pair>, visited: seq<int>, keep: int -> bool)
    reads kept
  {
    && Distinct(kept)
    && Contents(kept) == Runs(Filter(visited, keep))
    && AllCodePoints(visited)
  }

  /** Extends the last kept pair in place, or pushes a new pair. */
  method KeepPoint(kept: seq<Pair>, n: int) returns (next: seq<Pair>)
    requires Distinct(kept)
    modifies Objects(kept)
    ensures Distinct(next) && Contents(next) == AddPoint(old(Contents(kept)), n)
    ensures fresh(Objects(next) - Objects(kept))
  {
    next := kept;
    if kept != [] && kept[|kept| - 1].end == Num(n - 1) {
      kept[|kept| - 1].end := Num(n);
    } else {
      var p := new Pair(Num(n), Num(n));
      next := kept + [p];
    }
  }

  /** The innermost loop's body for one code point: skip it, extend the last kept
      pair in place, or push a new pair. */
  method VisitPoint(kept: seq<Pair>, n: int, emoji: int -> bool, ghost visited: seq<int>, ghost keep: int -> bool)
    returns (next: seq<Pair>)
    requires Keeping(kept, visited, keep) && IsCodePoint(n) && keep == NonEmoji(emoji)
    modifies Objects(kept)
    ensures Keeping(next, visited + [n], keep)
    ensures fresh(Objects(next) - Objects(kept))
  {
    RunsKeepNext(visited, n, keep);
    next := kept;
    if !emoji(n) {
      next := KeepPoint(kept, n);
    }
  }

  /** The inner loop: visits start..end, stopping at the first number that
      String.fromCodePoint rejects. */
  method VisitInterval(kept: seq<Pair>, start: int, end: int, emoji: int -> bool,
                       ghost visited: seq<int>, ghost keep: int -> bool)
    returns (next: seq<Pair>, bad: Option<int>)
    requires Keeping(kept, visited, keep) && keep == NonEmoji(emoji)
    modifies Objects(kept)
    ensures bad == None ==> Keeping(next, visited + Codes(start, end), keep)
    ensures bad.Some? ==> start <= bad.value <= end && !IsCodePoint(bad.value)
    ensures bad.Some? ==> AllCodePoints(visited + Codes(start, bad.value - 1))
    ensures fresh(Objects(next) - Objects(kept))
  {
    var codePoint := start;
    next := kept;
    ghost var seen := visited + Codes(start, start - 1);
    assert seen == visited;
    while codePoint <= end
      invariant start <= codePoint && (codePoint <= end + 1 || codePoint == start)
      invariant seen == visited + Codes(start, codePoint - 1)
      invariant Keeping(next, seen, keep)
      invariant fresh(Objects(next) - Objects(kept))
    {
      if !IsCodePoint(codePoint) {
        return next, Some(codePoint);
      }
      next := VisitPoint(next, codePoint, emoji, seen, keep);
      CodesNext(visited, start, codePoint);
      seen := seen + [codePoint];
      codePoint := codePoint + 1;
    }
    NoCodes(start, end, codePoint);
    bad := None;
  }

  /** One input pair; a NaN bound ends the inner loop at once. */
  method VisitRange(kept: seq<Pair>, start: Number, end: Number, emoji: int -> bool,
                    ghost visited: seq<int>, ghost keep: int -> bool)
    returns (next: seq<Pair>, bad: Option<int>)
    requires Keeping(kept, visited, keep) && keep == NonEmoji(emoji)
    modifies Objects(kept)
    ensures bad == None ==> Keeping(next, visited + IntervalCodes(Interval(start, end)), keep)
    ensures bad.Some? ==> BadIn(Interval(start, end), bad.value, visited)
    ensures fresh(Objects(next) - Objects(kept))
  {
    if start.Num? && end.Num? {
      next, bad := VisitInterval(kept, start.n, end.n, emoji, visited, keep);
    } else {
      next, bad := kept, None;
      assert visited + IntervalCodes(Interval(start, end)) == visited;
    }
  }

  /** n is the first number of r that is not a code point, and none was visited before. */
  ghost predicate BadIn(r: Interval, n: int, visited: seq<int>) {
    && r.start.Num? && r.end.Num? && r.start.n <= n <= r.end.n && !IsCodePoint(n)
    && AllCodePoints(visited + Codes(r.start.n, n - 1))
  }

  /** Returns fresh pairs holding the kept runs and changes no existing pair;
      fails with the first visited number that is not a code point, if any. */
  method RemoveEmojiCodePoints(ranges: seq<Pair>, emoji: int -> bool)
    returns (r: Result<seq<Pair>, int>)
    ensures r.Failure? <==> Throws(Contents(ranges))
    ensures r.Failure? ==> FirstBad(Expand(Contents(ranges)), r.error)
    ensures r.Success? ==> Contents(r.value) == Kept(Contents(ranges), emoji)
    ensures r.Success? ==> Distinct(r.value) && fresh(Objects(r.value))
  {
    ghost var rs := Contents(ranges);
    ghost var keep := NonEmoji(emoji);
    var kept: seq<Pair> := [];
    for i := 0 to |ranges|
      invariant Contents(ranges) == rs
      invariant fresh(Objects(kept))
      invariant Keeping(kept, Expand(rs[..i]), keep)
    {
      ExpandNext(rs, i);
      var bad;
      kept, bad := VisitRange(kept, ranges[i].start, ranges[i].end, emoji, Expand(rs[..i]), keep);
      if bad.Some? {
        VisitedPrefix(rs, i, bad.value);
        return Failure(bad.value);
      }
    }
    assert rs[..|ranges|] == rs;
    r := Success(kept);
  }

  lemma NoCodes(start: int, end: int, next: int)
    requires end < next && (next <= end + 1 || next == start)
    ensures Codes(start, next - 1) == Codes(start, end)
  {
  }

  lemma RunsKeepNext(visited: seq<int>, n: int, keep: int -> bool)
    ensures var before := Runs(Filter(visited, keep));
      Runs(Filter(visited + [n], keep)) == if keep(n) then AddPoint(before, n) else before
  {
    FilterConcat(visited, [n], keep);
    assert Filter([n], keep) == if keep(n) then [n] else [];
    if keep(n) {
      RunsNext(Filter(visited, keep), n);
    } else {
      assert Filter(visited, keep) + [] == Filter(visited, keep);
    }
  }

  lemma {:induction false} CodesPrefix(lo: int, mid: int, hi: int)
    requires lo <= mid <= hi
    ensures Codes(lo, mid) <= Codes(lo, hi)
    decreases hi - mid
  {
    if mid < hi {
      CodesPrefix(lo, mid, hi - 1);
    }
  }

  lemma FirstBadAfter(visited: seq<int>, n: int, all: seq<int>)
    requires visited + [n] <= all && AllCodePoints(visited) && !IsCodePoint(n)
    ensures FirstBad(all, n) && !AllCodePoints(all)
  {
    assert all[|visited|] == (visited + [n])[|visited|] == n;
    assert forall j :: 0 <= j < |visited| ==> all[j] == visited[j];
  }

  /** What was visited so far, and the number being visited, start the expansion. */
  lemma VisitedPrefix(rs: seq<Interval>, i: nat, n: int)
    requires i < |rs| && BadIn(rs[i], n, Expand(rs[..i]))
    ensures Throws(rs) && FirstBad(Expand(rs), n)
  {
    ExpandNext(rs, i);
    ExpandPrefix(rs, i + 1);
    CodesPrefix(rs[i].start.n, n, rs[i].end.n);
    CodesNext(Expand(rs[..i]), rs[i].start.n, n);
    FirstBadAfter(Expand(rs[..i]) + Codes(rs[i].start.n, n - 1), n, Expand(rs));
  }

  // ---- the unicode-range step of the font-face hook --------------------

  /** The code points a unicode-range text covers. */
  function Covered(value: string): seq<int> {
    Expand(ParseUnicodeRange(value))
  }

  /** The new text of a unicode-range declaration, or None when no code point remains. */
  function Rewrite(value: string, emoji: int -> bool): Option<string> {
    var kept := Kept(ParseUnicodeRange(value), emoji);
    if kept == [] then None else Some(FormatUnicodeRange(kept))
  }

  lemma {:induction false} ExpandMember(rs: seq<Interval>, r: Interval, n: int)
    requires r in rs && n in IntervalCodes(r)
    ensures n in Expand(rs)
  {
    var k := |rs| - 1;
    if r != rs[k] {
      assert r in rs[..k] by { assert rs == rs[..k] + [rs[k]]; }
      ExpandMember(rs[..k], r, n);
    }
  }

  lemma {:induction false} ExpandUnsigned(rs: seq<Interval>)
    requires forall r :: r in rs ==> UnsignedInterval(r)
    ensures forall n :: n in Expand(rs) ==> n >= 0
  {
    if rs != [] {
      var last := rs[|rs| - 1];
      assert last in rs;
      ExpandUnsigned(rs[..|rs| - 1]);
      forall n | n in IntervalCodes(last)
        ensures n >= 0
      {
        CodesMember(last.start.n, last.end.n, n);
      }
    }
  }

  lemma MaximalUnsigned(rs: seq<Interval>)
    requires Maximal(rs) && forall n :: n in Expand(rs) ==> n >= 0
    ensures forall r :: r in rs ==> UnsignedInterval(r)
  {
    forall r | r in rs
      ensures UnsignedInterval(r)
    {
      CodesMember(r.start.n, r.end.n, r.start.n);
      ExpandMember(rs, r, r.start.n);
    }
  }

  /** Parsing the rewritten text gives exactly the runs that were kept. */
  lemma RewriteParses(value: string, emoji: int -> bool)
    requires Rewrite(value, emoji).Some?
    ensures ParseUnicodeRange(Rewrite(value, emoji).value) == Kept(ParseUnicodeRange(value), emoji)
  {
    var rs := ParseUnicodeRange(value);
    ParsedIsUnsigned(value);
    ExpandUnsigned(rs);
    KeptSpec(rs, emoji);
    FilterMembers(Expand(rs), NonEmoji(emoji));
    MaximalUnsigned(Kept(rs, emoji));
    ParseFormat(Kept(rs, emoji));
  }

  lemma FilterEmpty(points: seq<int>, emoji: int -> bool)
    ensures Filter(points, NonEmoji(emoji)) == [] <==> forall n :: n in points ==> emoji(n)
  {
    var left := Filter(points, NonEmoji(emoji));
    FilterMembers(points, NonEmoji(emoji));
    if left == [] {
      forall n | n in points
        ensures emoji(n)
      {
        assert n in left || emoji(n);
      }
    } else {
      var n := left[0];
      assert n in left && n in points && !emoji(n);
    }
  }

  /** The rewritten text covers exactly the original code points without emoji
      presentation; the text disappears exactly when nothing remains; and
      rewriting the new text again leaves it as it is. */
  lemma RewriteCoverage(value: string, emoji: int -> bool)
    ensures Rewrite(value, emoji).None? <==> forall n :: n in Covered(value) ==> emoji(n)
    ensures Rewrite(value, emoji).Some? ==>
      var text := Rewrite(value, emoji).value;
      && Covered(text) == Filter(Covered(value), NonEmoji(emoji))
      && Rewrite(text, emoji) == Some(text)
  {
    var rs := ParseUnicodeRange(value);
    KeptSpec(rs, emoji);
    FilterEmpty(Expand(rs), emoji);
    RunsEmpty(Filter(Expand(rs), NonEmoji(emoji)));
    if Rewrite(value, emoji).Some? {
      RewriteParses(value, emoji);
    }
  }

  lemma RunsEmpty(points: seq<int>)
    ensures Runs(points) == [] <==> points == []
  {
    RunsExpand(points);
  }

  /** A text that does not make the hook throw does not do so once rewritten. */
  lemma RewriteKeepsCodePoints(value: string, emoji: int -> bool)
    ensures Rewrite(value, emoji).Some? && !Throws(ParseUnicodeRange(value)) ==>
      !Throws(ParseUnicodeRange(Rewrite(value, emoji).value))
  {
    if Rewrite(value, emoji).Some? {
      RewriteCoverage(value, emoji);
      FilterMembers(Covered(value), NonEmoji(emoji));
    }
  }
}
