/** String operations shared by the stylesheet step and the audit tool. */
module Text {
  import opened Wrappers

  // Stripping. JavaScript and Python disagree about what counts as white
  // space, so the set of white-space characters is a parameter.

  function StripLeft(s: string, space: char -> bool): (r: string)
    ensures |r| <= |s|
    ensures r == "" || !space(r[0])
  {
    if s != "" && space(s[0]) then StripLeft(s[1..], space) else s
  }

  function StripRight(s: string, space: char -> bool): (r: string)
    ensures r <= s
    ensures r == "" || !space(r[|r| - 1])
  {
    if s != "" && space(s[|s| - 1]) then StripRight(s[..|s| - 1], space) else s
  }

  function Strip(s: string, space: char -> bool): (r: string)
    ensures Stripped(r, space)
  {
    StripRight(StripLeft(s, space), space)
  }

  /** Neither end of s is white space. */
  predicate Stripped(s: string, space: char -> bool) {
    s == "" || (!space(s[0]) && !space(s[|s| - 1]))
  }

  lemma StripStripped(s: string, space: char -> bool)
    requires Stripped(s, space)
    ensures Strip(s, space) == s
  {
  }

  lemma {:induction false} StripLeftSkips(blanks: string, s: string, space: char -> bool)
    requires forall c :: c in blanks ==> space(c)
    requires s == "" || !space(s[0])
    ensures StripLeft(blanks + s, space) == s
  {
    if blanks == "" {
      assert blanks + s == s;
    } else {
      assert (blanks + s)[1..] == blanks[1..] + s;
      StripLeftSkips(blanks[1..], s, space);
    }
  }

  lemma {:induction false} StripRightSkips(s: string, blanks: string, space: char -> bool)
    requires forall c :: c in blanks ==> space(c)
    requires s == "" || !space(s[|s| - 1])
    ensures StripRight(s + blanks, space) == s
  {
    if blanks == "" {
      assert s + blanks == s;
    } else {
      var n := |blanks| - 1;
      assert (s + blanks)[..|s| + n] == s + blanks[..n];
      StripRightSkips(s, blanks[..n], space);
    }
  }

  /** Stripping takes off exactly the white space at both ends. */
  lemma StripAround(left: string, s: string, right: string, space: char -> bool)
    requires forall c :: c in left + right ==> space(c)
    requires Stripped(s, space)
    ensures Strip(left + s + right, space) == s
  {
    assert forall c :: c in left ==> c in left + right;
    assert forall c :: c in right ==> c in left + right;
    if s == "" {
      assert left + s + right == left + right + "";
      StripLeftSkips(left + right, "", space);
    } else {
      assert left + s + right == left + (s + right);
      assert (s + right)[0] == s[0];
      StripLeftSkips(left, s + right, space);
      StripRightSkips(s, right, space);
    }
  }

  // Splitting and joining.

  /** The position of the first c in s, or |s| when there is none. */
  function Find(s: string, c: char): (k: nat)
    ensures k <= |s|
    ensures c !in s[..k]
    ensures k < |s| ==> s[k] == c
  {
    if s == "" || s[0] == c then 0 else 1 + Find(s[1..], c)
  }

  lemma {:induction false} FindIs(s: string, c: char, k: nat)
    requires k <= |s| && c !in s[..k] && (k < |s| ==> s[k] == c)
    ensures Find(s, c) == k
  {
    if s != "" && s[0] != c {
      assert s[..k] == [s[0]] + s[1..][..k - 1];
      FindIs(s[1..], c, k - 1);
    }
  }

  function Split(s: string, sep: char): (parts: seq<string>)
    ensures parts != []
    decreases |s|
  {
    var k := Find(s, sep);
    if k == |s| then [s] else [s[..k]] + Split(s[k + 1..], sep)
  }

  lemma {:induction false} SplitPieces(s: string, sep: char)
    ensures forall p :: p in Split(s, sep) ==> sep !in p
    decreases |s|
  {
    var k := Find(s, sep);
    if k < |s| {
      SplitPieces(s[k + 1..], sep);
    } else {
      assert s[..k] == s;
    }
  }

  function Join(parts: seq<string>, sep: char): string {
    if parts == [] then ""
    else if |parts| == 1 then parts[0]
    else parts[0] + [sep] + Join(parts[1..], sep)
  }

  lemma {:induction false} SplitJoin(parts: seq<string>, sep: char)
    requires parts != []
    requires forall p :: p in parts ==> sep !in p
    ensures Split(Join(parts, sep), sep) == parts
  {
    var s, k := Join(parts, sep), |parts[0]|;
    assert s[..k] == parts[0];
    FindIs(s, sep, k);
    if |parts| > 1 {
      assert s[k + 1..] == Join(parts[1..], sep);
      SplitJoin(parts[1..], sep);
    }
  }

  // Hexadecimal numerals.

  const HEX_DIGITS := "0123456789abcdef"

  function DigitValue(c: char): Option<nat> {
    if '0' <= c <= '9' then Some(c as int - '0' as int)
    else if 'a' <= c <= 'f' then Some(c as int - 'a' as int + 10)
    else if 'A' <= c <= 'F' then Some(c as int - 'A' as int + 10)
    else None
  }

  predicate AllHex(s: string) {
    forall i :: 0 <= i < |s| ==> DigitValue(s[i]).Some?
  }

  /** The number a string of hexadecimal digits denotes. */
  function HexValue(s: string): nat {
    if s == "" then 0 else HexValue(s[..|s| - 1]) * 16 + DigitValue(s[|s| - 1]).Or(0)
  }

  /** The longest prefix of s made of hexadecimal digits. */
  function HexPrefix(s: string): string {
    if s == "" || DigitValue(s[0]).None? then "" else [s[0]] + HexPrefix(s[1..])
  }

  lemma {:induction false} HexPrefixAll(s: string)
    requires AllHex(s)
    ensures HexPrefix(s) == s
  {
    if s != "" {
      HexPrefixAll(s[1..]);
    }
  }

  lemma DigitRoundTrip(d: nat)
    requires d < 16
    ensures DigitValue(HEX_DIGITS[d]) == Some(d)
    ensures HEX_DIGITS[d] !in "-,"
  {
  }

  function ToHex(n: nat): (s: string) {
    if n < 16 then [HEX_DIGITS[n]] else ToHex(n / 16) + [HEX_DIGITS[n % 16]]
  }

  /** Printing a number in base 16 and reading the digits back gives the number. */
  lemma {:induction false} HexRoundTrip(n: nat)
    ensures ToHex(n) != "" && AllHex(ToHex(n)) && HexValue(ToHex(n)) == n
    ensures '-' !in ToHex(n) && ',' !in ToHex(n)
    decreases n
  {
    var s := ToHex(n);
    DigitRoundTrip(n % 16);
    if n < 16 {
      assert s[..0] == "";
    } else {
      HexRoundTrip(n / 16);
      assert s[..|s| - 1] == ToHex(n / 16);
    }
  }
}
