/** The exception list of tools/check_pnpm_audit_exceptions.py: a line-based reader of
    a small part of YAML, its declarative meaning, and a writer it reads back. */
module ExceptionFile {
  import opened Text
  import opened Wrappers

  predicate IsPySpace(c: char) {
    var n := c as int;
    0x9 <= n <= 0xD || 0x1C <= n <= 0x20 || n == 0x85 || n == 0xA0 || n == 0x1680 || 0x2000 <= n <= 0x200A
    || n == 0x2028 || n == 0x2029 || n == 0x202F || n == 0x205F || n == 0x3000
  }

  function Trim(s: string): string {
    Strip(s, IsPySpace)
  }

  /** Both ends of s are the quote q; a lone quote is both ends. */
  predicate QuotedBy(s: string, q: char) {
    s != "" && s[0] == q && s[|s| - 1] == q
  }

  /** s without its first and last character. */
  function Inside(s: string): string {
    if |s| < 2 then "" else s[1..|s| - 1]
  }

  function Unquote(s: string): string {
    if QuotedBy(s, '"') || QuotedBy(s, '\'') then Inside(s) else s
  }

  /** split_kv on a line that has a colon. */
  function SplitKv(line: string): (string, string)
    requires ':' in line
  {
    var k := Find(line, ':');
    assert line[..|line|] == line;
    (Trim(line[..k]), Unquote(Trim(line[k + 1..])))
  }

  // ---- what one line is ----------------------------------------------------------

  /** Start opens an item with its first key; Broken is an item line without a colon,
      which split_kv refuses. */
  datatype Token = Ignored | Start(key: string, value: string) | Entry(key: string, value: string) | Broken

  predicate StartsWith(s: string, prefix: string) {
    prefix <= s
  }

  /** Blank lines, comments and the two headings. */
  predicate IsSilent(line: string) {
    line == "" || line[0] == '#' || StartsWith(line, "version:") || StartsWith(line, "exceptions:")
  }

  function ItemToken(rest: string): Token {
    if ':' in rest then var (k, v) := SplitKv(rest); Start(k, v) else Broken
  }

  function EntryToken(line: string): Token {
    if ':' in line then var (k, v) := SplitKv(line); Entry(k, v) else Ignored
  }

  function ClassifyLine(line: string): Token {
    if IsSilent(line) then Ignored
    else if StartsWith(line, "- ") then ItemToken(Trim(line[2..]))
    else EntryToken(line)
  }

  function Classify(raw: string): Token {
    ClassifyLine(Trim(raw))
  }

  function Tokens(lines: seq<string>): seq<Token> {
    seq(|lines|, i requires 0 <= i < |lines| => Classify(lines[i]))
  }

  /** An item line always has text after its dash, because the line was stripped. So an
      item gets a key or the line is refused: an item without keys cannot arise. */
  lemma ItemNeverEmpty(raw: string)
    requires StartsWith(Trim(raw), "- ")
    ensures Trim(Trim(raw)[2..]) != ""
  {
    var line := Trim(raw);
    assert line[1] == ' ';
    var rest := line[2..];
    assert rest[|rest| - 1] == line[|line| - 1];
    StripKeeps(rest);
  }

  lemma {:induction false} StripLeftKeeps(s: string)
    requires s != "" && !IsPySpace(s[|s| - 1])
    ensures StripLeft(s, IsPySpace) != "" && StripLeft(s, IsPySpace)[|StripLeft(s, IsPySpace)| - 1] == s[|s| - 1]
  {
    if IsPySpace(s[0]) {
      StripLeftKeeps(s[1..]);
    }
  }

  lemma StripKeeps(s: string)
    requires s != "" && !IsPySpace(s[|s| - 1])
    ensures Trim(s) != ""
  {
    StripLeftKeeps(s);
  }

  // ---- what a list of lines means --------------------------------------------------

  type Record = map<string, string>

  /** The number of items opened. */
  function Items(tokens: seq<Token>): nat {
    if tokens == [] then 0
    else Items(tokens[..|tokens| - 1]) + if tokens[|tokens| - 1].Start? then 1 else 0
  }

  predicate HasKey(t: Token) {
    t.Start? || t.Entry?
  }

  /** The value of the last line of item j that has this key. A line belongs to the
      latest item opened before or on it. */
  function LastValue(tokens: seq<Token>, j: nat, key: string): Option<string> {
    if tokens == [] then None
    else
      var t := tokens[|tokens| - 1];
      if HasKey(t) && t.key == key && Items(tokens) == j + 1 then Some(t.value)
      else LastValue(tokens[..|tokens| - 1], j, key)
  }

  function Lookup(r: Record, key: string): Option<string> {
    if key in r then Some(r[key]) else None
  }

  /** records holds one record per item, with the last value of each of its keys. */
  ghost predicate Grouped(tokens: seq<Token>, records: seq<Record>) {
    && |records| == Items(tokens)
    && forall j, key :: 0 <= j < |records| ==> Lookup(records[j], key) == LastValue(tokens, j, key)
  }

  /** The grouping of a list of lines is unique. */
  lemma GroupedUnique(tokens: seq<Token>, a: seq<Record>, b: seq<Record>)
    requires Grouped(tokens, a) && Grouped(tokens, b)
    ensures a == b
  {
    forall j | 0 <= j < |a|
      ensures a[j] == b[j]
    {
      assert forall key :: Lookup(a[j], key) == Lookup(b[j], key);
      forall key
        ensures key in a[j] <==> key in b[j]
        ensures key in a[j] ==> a[j][key] == b[j][key]
      {
        assert Lookup(a[j], key) == Lookup(b[j], key);
      }
    }
  }

  /** Values of items that are not open yet do not exist. */
  lemma {:induction false} NoValueYet(tokens: seq<Token>, j: nat, key: string)
    requires Items(tokens) <= j
    ensures LastValue(tokens, j, key) == None
  {
    if tokens != [] {
      NoValueYet(tokens[..|tokens| - 1], j, key);
    }
  }

  /** What one more line does to the records: an item line adds one, a key line sets a
      key of the latest record if there is one, and any other line changes nothing. */
  function Extended(records: seq<Record>, t: Token): seq<Record> {
    match t
    case Start(key, value) => records + [map[key := value]]
    case Entry(key, value) =>
      if records == [] then records
      else records[|records| - 1 := records[|records| - 1][key := value]]
    case _ => records
  }

  lemma GroupedStep(tokens: seq<Token>, records: seq<Record>, t: Token)
    requires Grouped(tokens, records)
    ensures Grouped(tokens + [t], Extended(records, t))
  {
    var more, next := tokens + [t], Extended(records, t);
    assert more[..|more| - 1] == tokens;
    forall j, key | 0 <= j < |next|
      ensures Lookup(next[j], key) == LastValue(more, j, key)
    {
      if j < |records| {
        assert Lookup(records[j], key) == LastValue(tokens, j, key);
      } else {
        NoValueYet(tokens, j, key);
      }
    }
  }

  // ---- the reader --------------------------------------------------------------------

  /** The finished records and the one being read. */
  function All(exceptions: seq<Record>, current: Option<Record>): seq<Record> {
    exceptions + if current.Some? then [current.value] else []
  }

  lemma NextItem(exceptions: seq<Record>, current: Option<Record>, key: string, value: string)
    ensures All(All(exceptions, current), Some(map[][key := value]))
      == Extended(All(exceptions, current), Start(key, value))
  {
    var empty: Record := map[];
    assert empty[key := value] == map[key := value];
  }

  lemma NextKey(exceptions: seq<Record>, m: Record, key: string, value: string)
    ensures All(exceptions, Some(m[key := value])) == Extended(All(exceptions, Some(m)), Entry(key, value))
  {
  }

  /** Reads the lines of a file. A refused line ends the program; its index is
      reported. */
  method ParseExceptions(lines: seq<string>) returns (r: Result<seq<Record>, nat>)
    ensures r.Failure? <==> Broken in Tokens(lines)
    ensures r.Failure? ==> r.error < |lines| && Tokens(lines)[r.error] == Broken && Broken !in Tokens(lines)[..r.error]
    ensures r.Success? ==> Grouped(Tokens(lines), r.value)
  {
    var exceptions: seq<Record> := [];
    var current: Option<Record> := None;
    ghost var tokens := Tokens(lines);
    for i := 0 to |lines|
      invariant Broken !in tokens[..i]
      invariant Grouped(tokens[..i], All(exceptions, current))
      invariant current.Some? ==> current.value != map[]
      invariant current.None? ==> exceptions == []
    {
      assert tokens[..i + 1] == tokens[..i] + [tokens[i]];
      GroupedStep(tokens[..i], All(exceptions, current), tokens[i]);
      var line := Trim(lines[i]);
      if line == "" || line[0] == '#' {
        continue;
      }
      if StartsWith(line, "version:") || StartsWith(line, "exceptions:") {
        continue;
      }
      if StartsWith(line, "- ") {
        ghost var before, open := exceptions, current;
        if current.Some? && current.value != map[] {
          exceptions := exceptions + [current.value];
        }
        assert exceptions == All(before, open);
        current := Some(map[]);
        ItemNeverEmpty(lines[i]);
        line := Trim(line[2..]);
        if line != "" {
          if ':' !in line {
            return Failure(i);
          }
          var (key, value) := SplitKv(line);
          NextItem(before, open, key, value);
          current := Some(current.value[key := value]);
          assert key in current.value;
        }
        continue;
      }
      if current.Some? && ':' in line {
        var (key, value) := SplitKv(line);
        NextKey(exceptions, current.value, key, value);
        current := Some(current.value[key := value]);
        assert key in current.value;
      }
    }
    assert tokens[..|lines|] == tokens;
    if current.Some? && current.value != map[] {
      exceptions := exceptions + [current.value];
    }
    r := Success(exceptions);
  }

  // ---- lines that say nothing ------------------------------------------------------------

  /** Leaving out blank lines, comments, headings and other lines without meaning does
      not change the records. */
  lemma IgnoredLinesSayNothing(tokens: seq<Token>, records: seq<Record>)
    ensures Grouped(tokens, records) <==> Grouped(Filter(tokens, HasKey), records)
  {
    SameValues(tokens);
    assert forall j, key :: LastValue(tokens, j, key) == LastValue(Filter(tokens, HasKey), j, key);
  }

  lemma {:induction false} SameValues(tokens: seq<Token>)
    ensures Items(Filter(tokens, HasKey)) == Items(tokens)
    ensures forall j, key :: LastValue(Filter(tokens, HasKey), j, key) == LastValue(tokens, j, key)
  {
    if tokens != [] {
      var n := |tokens| - 1;
      var fewer, t := Filter(tokens[..n], HasKey), tokens[n];
      assert tokens == tokens[..n] + [t];
      FilterConcat(tokens[..n], [t], HasKey);
      SameValues(tokens[..n]);
      assert Filter([t], HasKey) == if HasKey(t) then [t] else [];
      var all := Filter(tokens, HasKey);
      if HasKey(t) {
        assert all[|all| - 1] == t && all[..|all| - 1] == fewer;
      } else {
        assert all == fewer;
      }
    }
  }

  // ---- writing a list and reading it back --------------------------------------------------

  datatype Style = Plain | Double | Single

  datatype KeyLine = KeyLine(key: string, value: string, style: Style)

  function Written(l: KeyLine): string {
    match l.style
    case Plain => l.value
    case Double => ['"'] + l.value + ['"']
    case Single => ['\''] + l.value + ['\'']
  }

  function KeyText(l: KeyLine): string {
    l.key + [':', ' '] + Written(l)
  }

  const ITEM := [' ', ' ', '-', ' ']
  const INDENT := [' ', ' ', ' ', ' ']

  function ItemLines(item: seq<KeyLine>): seq<string> {
    seq(|item|, k requires 0 <= k < |item| => (if k == 0 then ITEM else INDENT) + KeyText(item[k]))
  }

  function Body(items: seq<seq<KeyLine>>): seq<string> {
    if items == [] then [] else Body(items[..|items| - 1]) + ItemLines(items[|items| - 1])
  }

  function Render(items: seq<seq<KeyLine>>): seq<string> {
    HEADINGS + Body(items)
  }

  const HEADINGS := ["version: 1", "exceptions:"]

  /** The record a list of key lines stands for; a later line wins. */
  function RecordOf(item: seq<KeyLine>): Record {
    if item == [] then map[]
    else RecordOf(item[..|item| - 1])[item[|item| - 1].key := item[|item| - 1].value]
  }

  /** A key that can start a line without meaning something else. */
  predicate PlainKey(key: string) {
    && Stripped(key, IsPySpace) && ':' !in key
    && key != "version" && key != "exceptions" && !StartsWith(key, "- ")
    && (key != "" ==> key[0] != '#')
  }

  /** Quoted values may be anything; plain ones are stripped and not in quotes. */
  predicate Writable(l: KeyLine) {
    && PlainKey(l.key)
    && (l.style.Plain? ==>
          Stripped(l.value, IsPySpace) && !QuotedBy(l.value, '"') && !QuotedBy(l.value, '\''))
  }

  lemma WrittenStripped(l: KeyLine)
    requires Writable(l)
    ensures Stripped(Written(l), IsPySpace) && Unquote(Written(l)) == l.value
  {
    var w := Written(l);
    if !l.style.Plain? {
      assert w[1..|w| - 1] == l.value;
    }
  }

  /** A key line without its trailing blank. */
  function Shown(l: KeyLine): string {
    l.key + [':'] + if Written(l) == "" then "" else [' '] + Written(l)
  }

  /** A trailing blank goes, and nothing else does. */
  lemma TrailingBlank(s: string, t: string)
    requires t != "" && !IsPySpace(t[|t| - 1]) && (s == t || s == t + [' '])
    ensures StripRight(s, IsPySpace) == t
  {
    if s != t {
      assert s[..|s| - 1] == t && s[|s| - 1] == ' ';
    }
  }

  lemma ShownEnds(l: KeyLine)
    requires Writable(l)
    ensures Shown(l) != "" && !IsPySpace(Shown(l)[|Shown(l)| - 1])
    ensures KeyText(l) == Shown(l) || KeyText(l) == Shown(l) + [' ']
  {
    WrittenStripped(l);
    var w := Written(l);
    if w == "" {
      assert Shown(l)[|Shown(l)| - 1] == ':';
      assert KeyText(l) == Shown(l) + [' '];
    } else {
      assert Shown(l)[|Shown(l)| - 1] == w[|w| - 1];
      assert KeyText(l) == Shown(l);
    }
  }

  lemma ShownIsText(blanks: string, l: KeyLine)
    requires Writable(l) && forall c :: c in blanks ==> IsPySpace(c)
    ensures Trim(blanks + KeyText(l)) == Shown(l) == Trim(Shown(l))
  {
    var text := KeyText(l);
    ShownEnds(l);
    assert text[0] == Shown(l)[0] == if l.key == "" then ':' else l.key[0];
    StripLeftSkips(blanks, text, IsPySpace);
    TrailingBlank(text, Shown(l));
    StripStripped(Shown(l), IsPySpace);
  }

  lemma SplitShown(l: KeyLine)
    requires Writable(l)
    ensures ':' in Shown(l) && SplitKv(Shown(l)) == (l.key, l.value)
  {
    var line, w := Shown(l), Written(l);
    WrittenStripped(l);
    assert line[|l.key|] == ':' && line[..|l.key|] == l.key;
    FindIs(line, ':', |l.key|);
    StripStripped(l.key, IsPySpace);
    var tail := line[|l.key| + 1..];
    if w != "" {
      assert tail == [' '] + w;
      StripLeftSkips([' '], w, IsPySpace);
    }
    assert Trim(tail) == w;
  }

  /** The word before the first colon is unique. */
  lemma FirstWord(key: string, line: string, word: string)
    requires ':' !in key && ':' !in word && key + [':'] <= line
    ensures word + [':'] <= line ==> word == key
  {
    if word + [':'] <= line {
      var (a, b) := (key + [':'], word + [':']);
      assert line[..|key|] == a[..|key|] == key && line[|key|] == a[|key|];
      assert line[..|word|] == b[..|word|] == word && line[|word|] == b[|word|];
      FindIs(line, ':', |key|);
      FindIs(line, ':', |word|);
    }
  }

  lemma DashFirst(key: string, line: string)
    requires ':' !in key && key + [':'] <= line && StartsWith(line, "- ")
    ensures StartsWith(key, "- ")
  {
    var a := key + [':'];
    assert a[|key|] == ':' == line[|key|];
    assert line[0] == '-' && line[1] == ' ';
    assert |key| >= 2;
    assert key[0] == a[0] == line[0] && key[1] == a[1] == line[1];
  }

  /** A key line is not mistaken for anything else. */
  lemma ShownIsPlain(l: KeyLine)
    requires Writable(l)
    ensures var line := Shown(l);
      line != "" && line[0] != '#' && !StartsWith(line, "version:") && !StartsWith(line, "exceptions:")
      && !StartsWith(line, "- ")
  {
    var line := Shown(l);
    assert l.key + [':'] <= line;
    FirstWord(l.key, line, "version");
    FirstWord(l.key, line, "exceptions");
    assert "version" + [':'] == "version:" && "exceptions" + [':'] == "exceptions:";
    if StartsWith(line, "- ") {
      DashFirst(l.key, line);
    }
  }

  lemma KeyLineIsEntry(l: KeyLine)
    requires Writable(l)
    ensures Classify(INDENT + KeyText(l)) == Entry(l.key, l.value)
  {
    ShownIsText(INDENT, l);
    ShownIsPlain(l);
    SplitShown(l);
  }

  lemma ItemLineIsStart(l: KeyLine)
    requires Writable(l)
    ensures Classify(ITEM + KeyText(l)) == Start(l.key, l.value)
  {
    ShownEnds(l);
    DashTrimmed(KeyText(l), Shown(l));
    ShownIsText("", l);
    SplitShown(l);
    DashLine(ITEM + KeyText(l), Shown(l), l.key, l.value);
  }

  /** A stripped line that starts with a dash and a blank opens an item. */
  lemma DashLine(raw: string, rest: string, key: string, value: string)
    requires Trim(raw) == ['-', ' '] + rest && Trim(rest) == rest
    requires ':' in rest && SplitKv(rest) == (key, value)
    ensures Classify(raw) == Start(key, value)
  {
    var line := Trim(raw);
    DashNotSilent(line, rest);
    assert line[2..] == rest;
  }

  lemma DashNotSilent(line: string, rest: string)
    requires line == ['-', ' '] + rest
    ensures !IsSilent(line) && StartsWith(line, "- ")
  {
    NotPrefix(line, "version:");
    NotPrefix(line, "exceptions:");
    assert "- " == ['-', ' '];
  }

  lemma NotPrefix(line: string, prefix: string)
    requires line != "" && prefix != "" && line[0] != prefix[0]
    ensures !StartsWith(line, prefix)
  {
  }

  lemma DashTrimmed(text: string, shown: string)
    requires shown != "" && !IsPySpace(shown[|shown| - 1]) && (text == shown || text == shown + [' '])
    ensures Trim(ITEM + text) == ['-', ' '] + shown
  {
    var dash, line := ['-', ' '] + text, ['-', ' '] + shown;
    assert ITEM + text == [' ', ' '] + dash;
    StripLeftSkips([' ', ' '], dash, IsPySpace);
    assert line[|line| - 1] == shown[|shown| - 1];
    assert dash == line || dash == line + [' '];
    TrailingBlank(dash, line);
  }

  /** The tokens of an item's lines. */
  function ItemTokens(item: seq<KeyLine>): seq<Token> {
    seq(|item|, k requires 0 <= k < |item| =>
      if k == 0 then Start(item[k].key, item[k].value) else Entry(item[k].key, item[k].value))
  }

  function BodyTokens(items: seq<seq<KeyLine>>): seq<Token> {
    if items == [] then [] else BodyTokens(items[..|items| - 1]) + ItemTokens(items[|items| - 1])
  }

  lemma ItemLinesMean(item: seq<KeyLine>)
    requires forall l :: l in item ==> Writable(l)
    ensures Tokens(ItemLines(item)) == ItemTokens(item)
  {
    forall k | 0 <= k < |item|
      ensures Classify(ItemLines(item)[k]) == ItemTokens(item)[k]
    {
      assert item[k] in item;
      if k == 0 {
        ItemLineIsStart(item[k]);
      } else {
        KeyLineIsEntry(item[k]);
      }
    }
  }

  lemma {:induction false} BodyLinesMean(items: seq<seq<KeyLine>>)
    requires forall item :: item in items ==> forall l :: l in item ==> Writable(l)
    ensures Tokens(Body(items)) == BodyTokens(items)
  {
    if items != [] {
      var n := |items| - 1;
      assert items[n] in items;
      ItemLinesMean(items[n]);
      assert forall item :: item in items[..n] ==> item in items;
      BodyLinesMean(items[..n]);
      TokensConcat(Body(items[..n]), ItemLines(items[n]));
    }
  }

  lemma TokensConcat(a: seq<string>, b: seq<string>)
    ensures Tokens(a + b) == Tokens(a) + Tokens(b)
  {
  }

  /** The lines of one item extend the records by the item's record. */
  lemma {:induction false} ItemReadBack(tokens: seq<Token>, records: seq<Record>, item: seq<KeyLine>, n: nat)
    requires Grouped(tokens, records) && Broken !in tokens
    requires 1 <= n <= |item|
    ensures var more := tokens + ItemTokens(item)[..n];
      Grouped(more, records + [RecordOf(item[..n])]) && Broken !in more
  {
    var mine, l := ItemTokens(item), item[n - 1];
    var before := tokens + mine[..n - 1];
    assert item[..n][..n - 1] == item[..n - 1];
    assert tokens + mine[..n] == before + [mine[n - 1]];
    if n == 1 {
      assert before == tokens;
      OneLineRecord(item);
      GroupedStep(before, records, mine[0]);
    } else {
      ItemReadBack(tokens, records, item, n - 1);
      var m := RecordOf(item[..n - 1]);
      GroupedStep(before, records + [m], mine[n - 1]);
      ExtendLast(records, m, l.key, l.value);
    }
  }

  lemma OneLineRecord(item: seq<KeyLine>)
    requires item != []
    ensures RecordOf(item[..1]) == map[item[0].key := item[0].value]
  {
    var empty: Record := map[];
    assert item[..1][..0] == [];
    assert RecordOf(item[..1]) == empty[item[0].key := item[0].value];
  }

  lemma ExtendLast(records: seq<Record>, m: Record, key: string, value: string)
    ensures Extended(records + [m], Entry(key, value)) == records + [m[key := value]]
  {
  }

  lemma {:induction false} BodyReadBack(head: seq<Token>, items: seq<seq<KeyLine>>)
    requires forall k :: 0 <= k < |head| ==> head[k].Ignored?
    requires forall k :: 0 <= k < |items| ==> items[k] != []
    ensures var tokens := head + BodyTokens(items);
      Grouped(tokens, Records(items)) && Broken !in tokens
  {
    if items == [] {
      assert head + BodyTokens(items) == head;
      OnlyIgnored(head);
    } else {
      var n := |items| - 1;
      var item := items[n];
      var before := head + BodyTokens(items[..n]);
      BodyReadBack(head, items[..n]);
      ItemReadBack(before, Records(items[..n]), item, |item|);
      assert ItemTokens(item)[..|item|] == ItemTokens(item) && item[..|item|] == item;
      assert head + BodyTokens(items) == before + ItemTokens(item);
      assert Records(items) == Records(items[..n]) + [RecordOf(item)];
    }
  }

  function Records(items: seq<seq<KeyLine>>): seq<Record> {
    seq(|items|, k requires 0 <= k < |items| => RecordOf(items[k]))
  }

  lemma {:induction false} OnlyIgnored(head: seq<Token>)
    requires forall k :: 0 <= k < |head| ==> head[k].Ignored?
    ensures Grouped(head, []) && Items(head) == 0
  {
    if head != [] {
      OnlyIgnored(head[..|head| - 1]);
    }
  }

  lemma HeadingsIgnored()
    ensures Tokens(HEADINGS) == [Ignored, Ignored]
  {
    StripStripped("version: 1", IsPySpace);
    StripStripped("exceptions:", IsPySpace);
  }

  /** Rendering any list of records and reading the lines gives the list back, whatever
      the values when quoted and for plain values that are stripped and not in quotes
      themselves. */
  lemma RenderReadBack(items: seq<seq<KeyLine>>)
    requires forall item :: item in items ==> item != [] && forall l :: l in item ==> Writable(l)
    ensures Broken !in Tokens(Render(items)) && Grouped(Tokens(Render(items)), Records(items))
  {
    HeadingsIgnored();
    BodyLinesMean(items);
    forall k | 0 <= k < |items|
      ensures items[k] != []
    {
      assert items[k] in items;
    }
    BodyReadBack(Tokens(HEADINGS), items);
    TokensConcat(HEADINGS, Body(items));
  }

  /** No line break, so that the text stays on the line it is written on. */
  predicate OneLine(s: string) {
    '\n' !in s && '\r' !in s
  }

  /** The rendered file splits into the rendered lines again. */
  lemma RenderedFileLines(items: seq<seq<KeyLine>>)
    requires forall item :: item in items ==> forall l :: l in item ==> OneLine(l.key) && OneLine(l.value)
    ensures Split(Join(Render(items), '\n'), '\n') == Render(items)
  {
    var lines := Render(items);
    BodyOneLine(items);
    assert OneLine("version: 1") && OneLine("exceptions:");
    forall line | line in lines
      ensures '\n' !in line
    {
      assert line in HEADINGS || line in Body(items);
    }
    SplitJoin(lines, '\n');
  }

  lemma {:induction false} BodyOneLine(items: seq<seq<KeyLine>>)
    requires forall item :: item in items ==> forall l :: l in item ==> OneLine(l.key) && OneLine(l.value)
    ensures forall line :: line in Body(items) ==> '\n' !in line
  {
    if items != [] {
      var n := |items| - 1;
      assert items[n] in items && forall item :: item in items[..n] ==> item in items;
      BodyOneLine(items[..n]);
      ItemOneLine(items[n]);
    }
  }

  lemma ItemOneLine(item: seq<KeyLine>)
    requires forall l :: l in item ==> OneLine(l.key) && OneLine(l.value)
    ensures forall line :: line in ItemLines(item) ==> '\n' !in line
  {
    forall k | 0 <= k < |item|
      ensures '\n' !in ItemLines(item)[k]
    {
      assert item[k] in item;
    }
  }
}
