/** What the lines of an exception list mean, in terms of their characters. */
module ExceptionSyntax {
  import opened ExceptionFile
  import opened Text
  import opened Wrappers

  // ---- one line --------------------------------------------------------------------------

  /** s is t with white space around it. */
  ghost predicate IsTrimmed(t: string, s: string) {
    && Stripped(t, IsPySpace)
    && exists left, right :: s == left + t + right && Blank(left + right)
  }

  ghost predicate Blank(s: string) {
    forall c :: c in s ==> IsPySpace(c)
  }

  /** v is what text says: what stands between its quotes if it has two equal ones around
      it, nothing if it is a lone quote, and else the text itself. */
  ghost predicate IsUnquoted(v: string, text: string) {
    if |text| >= 2 && (text[0] == text[|text| - 1] == '"' || text[0] == text[|text| - 1] == '\'')
    then text == [text[0]] + v + [text[0]]
    else if text == ['"'] || text == ['\''] then v == ""
    else v == text
  }

  /** text is a key, its first colon, and a value, each with white space around it. */
  ghost predicate IsPair(text: string, key: string, value: string) {
    exists k: nat, written :: PairAt(text, k, key, written, value)
  }

  ghost predicate PairAt(text: string, k: nat, key: string, written: string, value: string) {
    && k < |text| && text[k] == ':' && ':' !in text[..k]
    && IsTrimmed(key, text[..k]) && IsTrimmed(written, text[k + 1..]) && IsUnquoted(value, written)
  }

  /** What a line says whose white space has been taken off: an item line starts with a
      dash and a space, and is refused when it has no colon; a line that is blank, a
      comment or a heading says nothing, nor does one without a colon; any other line gives
      a key. */
  ghost predicate Says(line: string, t: Token) {
    match t
    case Broken => "- " <= line && ':' !in line
    case Start(key, value) => "- " <= line && IsPair(line[2..], key, value)
    case Entry(key, value) =>
      && line != "" && line[0] != '#' && !("- " <= line) && !("version:" <= line) && !("exceptions:" <= line)
      && IsPair(line, key, value)
    case Ignored =>
      || line == "" || line[0] == '#' || "version:" <= line || "exceptions:" <= line
      || (!("- " <= line) && ':' !in line)
  }

  lemma {:induction false} LeftPart(s: string) returns (left: string)
    ensures s == left + StripLeft(s, IsPySpace) && Blank(left)
  {
    if s != "" && IsPySpace(s[0]) {
      var rest := LeftPart(s[1..]);
      left := [s[0]] + rest;
    } else {
      left := "";
    }
  }

  lemma {:induction false} RightPart(s: string) returns (right: string)
    ensures s == StripRight(s, IsPySpace) + right && Blank(right)
  {
    if s != "" && IsPySpace(s[|s| - 1]) {
      var rest := RightPart(s[..|s| - 1]);
      right := rest + [s[|s| - 1]];
    } else {
      right := "";
    }
  }

  /** Trimming takes off the white space around a text, and nothing else does that. */
  lemma TrimIs(s: string, t: string)
    ensures IsTrimmed(t, s) <==> t == Trim(s)
  {
    var left := LeftPart(s);
    var right := RightPart(StripLeft(s, IsPySpace));
    assert s == left + Trim(s) + right && Blank(left + right);
    assert IsTrimmed(Trim(s), s);
    if IsTrimmed(t, s) {
      var l, r :| s == l + t + r && Blank(l + r);
      StripAround(l, t, r, IsPySpace);
    }
  }

  lemma UnquoteIs(text: string)
    ensures IsUnquoted(Unquote(text), text)
  {
    if |text| >= 2 {
      assert text == [text[0]] + text[1..|text| - 1] + [text[|text| - 1]];
    }
  }

  lemma PairIs(text: string)
    requires ':' in text
    ensures IsPair(text, SplitKv(text).0, SplitKv(text).1)
  {
    var k := Find(text, ':');
    assert text[..|text|] == text;
    var key, written := Trim(text[..k]), Trim(text[k + 1..]);
    TrimIs(text[..k], key);
    TrimIs(text[k + 1..], written);
    UnquoteIs(written);
    assert PairAt(text, k, key, written, Unquote(written));
    SplitKvIs(text, k);
  }

  lemma SplitKvIs(text: string, k: nat)
    requires ':' in text && k == Find(text, ':') && k < |text|
    ensures SplitKv(text) == (Trim(text[..k]), Unquote(Trim(text[k + 1..])))
  {
  }

  lemma TrimmedPadded(t: string, left: string, s: string, right: string)
    requires IsTrimmed(t, s) && Blank(left) && Blank(right)
    ensures IsTrimmed(t, left + s + right)
  {
    var l, r :| s == l + t + r && Blank(l + r);
    assert left + s + right == (left + l) + t + (r + right);
    assert Blank((left + l) + (r + right)) by {
      assert forall c :: c in l || c in r ==> c in l + r;
    }
  }

  /** White space around a pair belongs to its key and its value. */
  lemma PairPadded(left: string, rest: string, right: string, key: string, value: string)
    requires IsPair(rest, key, value) && ':' !in left && Blank(left) && Blank(right)
    ensures IsPair(left + rest + right, key, value)
  {
    var k: nat, written :| PairAt(rest, k, key, written, value);
    PaddedAround(left, rest[..k], rest[k + 1..], right);
    assert rest == rest[..k] + [':'] + rest[k + 1..];
    TrimmedPadded(key, left, rest[..k], "");
    TrimmedPadded(written, "", rest[k + 1..], right);
    PairJoined(left, rest[..k], rest[k + 1..], right, key, written, value);
  }

  lemma PaddedAround(left: string, a: string, b: string, right: string)
    ensures left + (a + [':'] + b) + right == (left + a) + [':'] + (b + right)
    ensures left + a + "" == left + a && "" + b + right == b + right
  {
  }

  lemma PairJoined(left: string, a: string, b: string, right: string, key: string, written: string, value: string)
    requires ':' !in left + a && IsTrimmed(key, left + a) && IsTrimmed(written, b + right) && IsUnquoted(value, written)
    ensures PairAt((left + a) + [':'] + (b + right), |left + a|, key, written, value)
  {
    var text := (left + a) + [':'] + (b + right);
    assert text[..|left + a|] == left + a && text[|left + a| + 1..] == b + right;
  }

  /** Every line says what its characters say. */
  lemma LineMeans(raw: string, line: string)
    requires IsTrimmed(line, raw)
    ensures Says(line, Classify(raw))
  {
    TrimIs(raw, line);
    if "- " <= line {
      ItemMeans(line);
    } else {
      OtherMeans(line);
    }
  }

  lemma OtherMeans(line: string)
    requires !("- " <= line)
    ensures Says(line, ClassifyLine(line))
  {
    if ':' in line {
      PairIs(line);
    }
  }

  lemma ItemMeans(line: string)
    requires "- " <= line && Stripped(line, IsPySpace)
    ensures Says(line, ClassifyLine(line))
  {
    DashLine(line);
    var text, rest := line[2..], Trim(line[2..]);
    var left, right := Margins(text);
    if ':' in rest {
      PairIs(rest);
      PairPadded(left, rest, right, SplitKv(rest).0, SplitKv(rest).1);
    }
  }

  lemma DashLine(line: string)
    requires "- " <= line
    ensures ClassifyLine(line) == ItemToken(Trim(line[2..]))
    ensures ':' in line <==> ':' in line[2..]
  {
    assert line[0] == '-' && line[1] == ' ';
    assert line == ['-', ' '] + line[2..];
  }

  /** What trimming takes off; there is no colon in it. */
  lemma Margins(text: string) returns (left: string, right: string)
    ensures text == left + Trim(text) + right && Blank(left) && Blank(right)
    ensures ':' in text <==> ':' in Trim(text)
    ensures ':' !in left
  {
    left := LeftPart(text);
    right := RightPart(StripLeft(text, IsPySpace));
    assert text == left + Trim(text) + right;
  }

  /** Reading a list fails exactly when some line, without the white space around it, starts
      with a dash and a space and has no colon. */
  lemma FailsIff(lines: seq<string>)
    ensures Broken in Tokens(lines) <==>
      exists i, line :: 0 <= i < |lines| && IsTrimmed(line, lines[i]) && "- " <= line && ':' !in line
  {
    if Broken in Tokens(lines) {
      var i :| 0 <= i < |lines| && Tokens(lines)[i] == Broken;
      TrimIs(lines[i], Trim(lines[i]));
      LineMeans(lines[i], Trim(lines[i]));
    }
    if i, line :| 0 <= i < |lines| && IsTrimmed(line, lines[i]) && "- " <= line && ':' !in line {
      TrimIs(lines[i], line);
      NoColonLeft(line);
      assert Tokens(lines)[i] == Broken;
    }
  }

  lemma NoColonLeft(line: string)
    requires "- " <= line && ':' !in line
    ensures ClassifyLine(line) == Broken
  {
    DashLine(line);
    var left, right := Margins(line[2..]);
  }

  /** The ends of a line may carry blanks, tabs and line ends. */
  lemma AsTyped(left: string, line: string, right: string)
    requires Stripped(line, IsPySpace) && (forall c :: c in left + right ==> c in [' ', '\t', '\n', '\r'])
    ensures IsTrimmed(line, left + line + right)
  {
    assert Blank(left + right);
  }

  // ---- the records ---------------------------------------------------------------------------

  function IsStart(): Token -> bool { (t: Token) => t.Start? }

  /** Line i gives this key to item j: j items were opened before its own. */
  predicate GivesKey(tokens: seq<Token>, i: nat, j: nat, key: string)
    requires i < |tokens|
  {
    && (tokens[i].Start? || tokens[i].Entry?) && tokens[i].key == key
    && |Filter(tokens[..i + 1], IsStart())| == j + 1
  }

  lemma {:induction false} ItemsAre(tokens: seq<Token>)
    ensures Items(tokens) == |Filter(tokens, IsStart())|
  {
    if tokens != [] {
      var n := |tokens| - 1;
      ItemsAre(tokens[..n]);
      assert tokens == tokens[..n] + [tokens[n]];
      FilterSnoc(tokens[..n], tokens[n], IsStart());
    }
  }

  /** v is the value on the last line that gives this key to item j. */
  ghost predicate IsLastValue(v: Option<string>, tokens: seq<Token>, j: nat, key: string) {
    match v
    case None => NoneGives(tokens, 0, j, key)
    case Some(value) =>
      exists i: nat :: i < |tokens| && GivesKey(tokens, i, j, key) && tokens[i].value == value
                       && NoneGives(tokens, i + 1, j, key)
  }

  /** No line from line n on gives this key to item j. */
  ghost predicate NoneGives(tokens: seq<Token>, n: nat, j: nat, key: string) {
    forall i: nat :: n <= i < |tokens| ==> !GivesKey(tokens, i, j, key)
  }

  lemma {:induction false} LastValueIs(tokens: seq<Token>, j: nat, key: string)
    ensures IsLastValue(LastValue(tokens, j, key), tokens, j, key)
  {
    if tokens != [] {
      var n := |tokens| - 1;
      LastValueIs(tokens[..n], j, key);
      ItemsAre(tokens);
      assert tokens[..n + 1] == tokens;
      forall i: nat | i < n
        ensures GivesKey(tokens, i, j, key) == GivesKey(tokens[..n], i, j, key)
      {
        assert tokens[..n][..i + 1] == tokens[..i + 1];
      }
      if !GivesKey(tokens, n, j, key) {
        LastValueStays(LastValue(tokens[..n], j, key), tokens, n, j, key);
      }
    }
  }

  lemma LastValueStays(v: Option<string>, tokens: seq<Token>, n: nat, j: nat, key: string)
    requires |tokens| == n + 1 && IsLastValue(v, tokens[..n], j, key) && !GivesKey(tokens, n, j, key)
    requires forall i: nat :: i < n ==> GivesKey(tokens, i, j, key) == GivesKey(tokens[..n], i, j, key)
    ensures IsLastValue(v, tokens, j, key)
  {
    if v.Some? {
      var i: nat :| i < n && GivesKey(tokens[..n], i, j, key) && tokens[..n][i].value == v.value
                    && NoneGives(tokens[..n], i + 1, j, key);
      assert GivesKey(tokens, i, j, key) && tokens[i].value == v.value;
      assert NoneGives(tokens, i + 1, j, key);
    }
  }

  /** A record list is the grouping of lines exactly when it has one record for each item
      line and each record gives every key the value of the last line of its item that has
      the key. */
  lemma GroupedMeans(tokens: seq<Token>, records: seq<Record>)
    ensures Grouped(tokens, records) <==>
      && |records| == |Filter(tokens, IsStart())|
      && forall j: nat, key :: j < |records| ==>
           IsLastValue(if key in records[j] then Some(records[j][key]) else None, tokens, j, key)
  {
    ItemsAre(tokens);
    forall j: nat, key | j < |records|
      ensures Lookup(records[j], key) == LastValue(tokens, j, key) <==>
        IsLastValue(if key in records[j] then Some(records[j][key]) else None, tokens, j, key)
    {
      LastValueIs(tokens, j, key);
      OneLastValue(tokens, j, key, Lookup(records[j], key), LastValue(tokens, j, key));
    }
  }

  lemma OneLastValue(tokens: seq<Token>, j: nat, key: string, a: Option<string>, b: Option<string>)
    ensures IsLastValue(a, tokens, j, key) && IsLastValue(b, tokens, j, key) ==> a == b
  {
  }
}
