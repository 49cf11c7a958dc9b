/** JSON values and the text JSON.stringify gives them; strings are quoted as in section 7 of RFC 8259. */
module Json {
  import opened Prelude
  import Hex

  datatype Json =
    | Null
    | Bool(value: bool)
    | Number(digits: NumberText)
    | Text(text: string)
    | Array(items: seq<Json>)
    | Object(members: seq<Member>)

  datatype Member = Member(key: string, value: Json)

  /** A finite number is known by its shortest text, which is one to one. */
  type NumberText = t: string | IsNumberText(t) witness "0"

  predicate IsNumberChar(c: char) {
    '0' <= c <= '9' || c == '-' || c == '+' || c == '.' || c == 'e'
  }

  predicate IsNumberText(t: string) {
    t != "" && ('0' <= t[0] <= '9' || t[0] == '-') && forall i :: 0 <= i < |t| ==> IsNumberChar(t[i])
  }

  // ---- Text --------------------------------------------------------------------------------------------------------

  function HexDigit(value: nat): (c: char)
    requires value < 16
  {
    if value < 10 then '0' + value as char else 'a' + (value - 10) as char
  }

  function EscapeChar(c: char): string {
    if c == '"' then "\\\""
    else if c == '\\' then "\\\\"
    else if c == 8 as char then "\\b"
    else if c == 9 as char then "\\t"
    else if c == 10 as char then "\\n"
    else if c == 12 as char then "\\f"
    else if c == 13 as char then "\\r"
    else if c < 32 as char then "\\u00" + [HexDigit(c as nat / 16), HexDigit(c as nat % 16)]
    else [c]
  }

  /** The characters of a string and the closing quote. */
  function Escaped(text: string): string {
    if text == "" then "\"" else EscapeChar(text[0]) + Escaped(text[1..])
  }

  function Quote(text: string): string {
    "\"" + Escaped(text)
  }

  function Render(j: Json): string {
    match j
    case Null => "null"
    case Bool(b) => if b then "true" else "false"
    case Number(digits) => digits
    case Text(text) => Quote(text)
    case Array(items) => "[" + RenderItems(items, true)
    case Object(members) => "{" + RenderMembers(members, true)
  }

  function RenderItems(items: seq<Json>, first: bool): string {
    if items == [] then "]"
    else (if first then "" else ",") + Render(items[0]) + RenderItems(items[1..], false)
  }

  function RenderMembers(members: seq<Member>, first: bool): string {
    if members == [] then "}"
    else (if first then "" else ",") + Quote(members[0].key) + ":" + Render(members[0].value) + RenderMembers(members[1..], false)
  }

  // ---- Every text has one reading ----------------------------------------------------------------------------------

  lemma RestAfter(prefix: string, x: string, y: string)
    requires prefix + x == prefix + y
    ensures x == y
  {
    assert (prefix + x)[|prefix|..] == x && (prefix + y)[|prefix|..] == y;
  }

  lemma UnfoldList(open: string, rest: string, x: string)
    ensures (open + rest) + x == open + (rest + x)
  {
  }

  lemma EscapeHasOneReading(c: char, d: char, x: string, y: string)
    requires EscapeChar(c) + x == EscapeChar(d) + y
    ensures c == d && x == y
  {
    var s, t := EscapeChar(c) + x, EscapeChar(d) + y;
    assert s[0] == EscapeChar(c)[0] && t[0] == EscapeChar(d)[0];
    assert x == s[|EscapeChar(c)|..] && y == t[|EscapeChar(d)|..];
    if s[0] == '\\' {
      assert s[1] == EscapeChar(c)[1] && t[1] == EscapeChar(d)[1];
      if s[1] == 'u' {
        assert s[4] == EscapeChar(c)[4] && t[4] == EscapeChar(d)[4];
        assert s[5] == EscapeChar(c)[5] && t[5] == EscapeChar(d)[5];
        HexDigitIsInjective(c as nat / 16, d as nat / 16);
        HexDigitIsInjective(c as nat % 16, d as nat % 16);
      }
    }
  }

  lemma HexDigitIsInjective(a: nat, b: nat)
    requires a < 16 && b < 16 && HexDigit(a) == HexDigit(b)
    ensures a == b
  {
  }

  lemma EscapeIsNoQuote(c: char)
    ensures EscapeChar(c)[0] != '"'
  {
  }

  lemma UnfoldEscaped(text: string, x: string)
    ensures (Escaped(text) + x)[0] == '"' <==> text == ""
    ensures text != "" ==> Escaped(text) + x == EscapeChar(text[0]) + (Escaped(text[1..]) + x)
  {
    if text != "" {
      EscapeIsNoQuote(text[0]);
      UnfoldList(EscapeChar(text[0]), Escaped(text[1..]), x);
    }
  }

  lemma {:induction false} EscapedHasOneReading(a: string, b: string, x: string, y: string)
    requires Escaped(a) + x == Escaped(b) + y
    ensures a == b && x == y
  {
    UnfoldEscaped(a, x);
    UnfoldEscaped(b, y);
    if a == "" {
      RestAfter("\"", x, y);
    } else {
      EscapeHasOneReading(a[0], b[0], Escaped(a[1..]) + x, Escaped(b[1..]) + y);
      EscapedHasOneReading(a[1..], b[1..], x, y);
      assert a == [a[0]] + a[1..] && b == [b[0]] + b[1..];
    }
  }

  lemma QuoteHasOneReading(a: string, b: string, x: string, y: string)
    requires Quote(a) + x == Quote(b) + y
    ensures a == b && x == y
  {
    UnfoldList("\"", Escaped(a), x);
    UnfoldList("\"", Escaped(b), y);
    RestAfter("\"", Escaped(a) + x, Escaped(b) + y);
    EscapedHasOneReading(a, b, x, y);
  }

  /** What may follow a value: nothing that could continue a number. */
  predicate Delimited(rest: string) {
    rest != "" ==> !IsNumberChar(rest[0])
  }

  lemma ShorterNumberGoesOn(a: string, b: string, x: string, y: string)
    requires forall i :: 0 <= i < |b| ==> IsNumberChar(b[i])
    requires a + x == b + y && |a| < |b|
    ensures !Delimited(x)
  {
    assert |a + x| == |a| + |x| && |b + y| == |b| + |y|;
    assert (a + x)[|a|] == x[0] && (b + y)[|a|] == b[|a|];
  }

  lemma NumberHasOneReading(a: string, b: string, x: string, y: string)
    requires forall i :: 0 <= i < |a| ==> IsNumberChar(a[i])
    requires forall i :: 0 <= i < |b| ==> IsNumberChar(b[i])
    requires Delimited(x) && Delimited(y) && a + x == b + y
    ensures a == b && x == y
  {
    if |a| < |b| {
      ShorterNumberGoesOn(a, b, x, y);
    } else if |b| < |a| {
      ShorterNumberGoesOn(b, a, y, x);
    }
    assert a == (a + x)[..|a|] && b == (b + y)[..|b|];
    assert x == (a + x)[|a|..] && y == (b + y)[|b|..];
  }

  /** The first character of a value tells its kind. */
  function Kind(c: char): nat {
    if c == 'n' then 0 else if c == 't' then 1 else if c == 'f' then 2 else if c == '"' then 3
    else if c == '[' then 4 else if c == '{' then 5 else if '0' <= c <= '9' || c == '-' then 6 else 7
  }

  function KindOf(j: Json): nat {
    match j
    case Null => 0
    case Bool(b) => if b then 1 else 2
    case Number(_) => 6
    case Text(_) => 3
    case Array(_) => 4
    case Object(_) => 5
  }

  lemma FirstCharTellsKind(j: Json)
    ensures Render(j) != "" && Kind(Render(j)[0]) == KindOf(j)
  {
  }

  lemma SameStartSameKind(a: Json, b: Json, x: string, y: string)
    requires Render(a) + x == Render(b) + y
    ensures KindOf(a) == KindOf(b)
  {
    FirstCharTellsKind(a);
    FirstCharTellsKind(b);
    assert Render(a)[0] == (Render(a) + x)[0] && Render(b)[0] == (Render(b) + y)[0];
  }

  /** Two values whose texts start the same way, whatever follows, are the same value: rendering is injective and self-delimiting. */
  lemma {:induction false} RenderHasOneReading(a: Json, b: Json, x: string, y: string)
    requires Delimited(x) && Delimited(y)
    requires Render(a) + x == Render(b) + y
    ensures a == b && x == y
    decreases a, 0
  {
    SameStartSameKind(a, b, x, y);
    match a
    case Null => RestAfter("null", x, y);
    case Bool(v) => RestAfter(if v then "true" else "false", x, y);
    case Number(digits) => NumberHasOneReading(digits, b.digits, x, y);
    case Text(text) => QuoteHasOneReading(text, b.text, x, y);
    case Array(items) =>
      UnfoldList("[", RenderItems(items, true), x);
      UnfoldList("[", RenderItems(b.items, true), y);
      RestAfter("[", RenderItems(items, true) + x, RenderItems(b.items, true) + y);
      ItemsHaveOneReading(items, b.items, true, x, y);
    case Object(members) =>
      UnfoldList("{", RenderMembers(members, true), x);
      UnfoldList("{", RenderMembers(b.members, true), y);
      RestAfter("{", RenderMembers(members, true) + x, RenderMembers(b.members, true) + y);
      MembersHaveOneReading(members, b.members, true, x, y);
  }

  lemma ItemsAreDelimited(items: seq<Json>, x: string)
    ensures RenderItems(items, false) != "" && Delimited(RenderItems(items, false) + x)
  {
  }

  lemma MembersAreDelimited(members: seq<Member>, x: string)
    ensures RenderMembers(members, false) != "" && Delimited(RenderMembers(members, false) + x)
  {
  }

  /** A list goes on exactly when its text does not start with the closing bracket. */
  lemma ItemsGoOn(items: seq<Json>, first: bool, x: string)
    ensures RenderItems(items, first) != ""
    ensures (RenderItems(items, first) + x)[0] == ']' <==> items == []
  {
    if items != [] {
      FirstCharTellsKind(items[0]);
      assert RenderItems(items, first)[0] == if first then Render(items[0])[0] else ',';
    }
  }

  lemma MembersGoOn(members: seq<Member>, first: bool, x: string)
    ensures RenderMembers(members, first) != ""
    ensures (RenderMembers(members, first) + x)[0] == '}' <==> members == []
  {
    if members != [] {
      assert RenderMembers(members, first)[0] == if first then '"' else ',';
    }
  }

  lemma UnfoldItems(items: seq<Json>, first: bool, x: string)
    requires items != []
    ensures RenderItems(items, first) + x
            == (if first then "" else ",") + (Render(items[0]) + (RenderItems(items[1..], false) + x))
  {
    var separator, head, rest := if first then "" else ",", Render(items[0]), RenderItems(items[1..], false);
    UnfoldList(separator + head, rest, x);
    UnfoldList(separator, head, rest + x);
  }

  lemma UnfoldMembers(members: seq<Member>, first: bool, x: string)
    requires members != []
    ensures RenderMembers(members, first) + x
            == (if first then "" else ",")
               + (Quote(members[0].key) + (":" + (Render(members[0].value) + (RenderMembers(members[1..], false) + x))))
  {
    var separator, key := if first then "" else ",", Quote(members[0].key);
    var value, rest := Render(members[0].value), RenderMembers(members[1..], false);
    UnfoldList(separator + key + ":" + value, rest, x);
    UnfoldList(separator + key + ":", value, rest + x);
    UnfoldList(separator + key, ":", value + (rest + x));
    UnfoldList(separator, key, ":" + (value + (rest + x)));
  }

  lemma {:induction false} ItemsHaveOneReading(a: seq<Json>, b: seq<Json>, first: bool, x: string, y: string)
    requires RenderItems(a, first) + x == RenderItems(b, first) + y
    ensures a == b && x == y
    decreases a, 1
  {
    ItemsGoOn(a, first, x);
    ItemsGoOn(b, first, y);
    if a == [] {
      RestAfter("]", x, y);
    } else {
      UnfoldItems(a, first, x);
      UnfoldItems(b, first, y);
      var restA, restB := RenderItems(a[1..], false) + x, RenderItems(b[1..], false) + y;
      RestAfter(if first then "" else ",", Render(a[0]) + restA, Render(b[0]) + restB);
      ItemsAreDelimited(a[1..], x);
      ItemsAreDelimited(b[1..], y);
      RenderHasOneReading(a[0], b[0], restA, restB);
      ItemsHaveOneReading(a[1..], b[1..], false, x, y);
      assert a == [a[0]] + a[1..] && b == [b[0]] + b[1..];
    }
  }

  lemma {:induction false} MembersHaveOneReading(a: seq<Member>, b: seq<Member>, first: bool, x: string, y: string)
    requires RenderMembers(a, first) + x == RenderMembers(b, first) + y
    ensures a == b && x == y
    decreases a, 1
  {
    MembersGoOn(a, first, x);
    MembersGoOn(b, first, y);
    if a == [] {
      RestAfter("}", x, y);
    } else {
      UnfoldMembers(a, first, x);
      UnfoldMembers(b, first, y);
      var restA, restB := RenderMembers(a[1..], false) + x, RenderMembers(b[1..], false) + y;
      var afterA, afterB := Render(a[0].value) + restA, Render(b[0].value) + restB;
      RestAfter(if first then "" else ",", Quote(a[0].key) + (":" + afterA), Quote(b[0].key) + (":" + afterB));
      QuoteHasOneReading(a[0].key, b[0].key, ":" + afterA, ":" + afterB);
      RestAfter(":", afterA, afterB);
      MembersAreDelimited(a[1..], x);
      MembersAreDelimited(b[1..], y);
      RenderHasOneReading(a[0].value, b[0].value, restA, restB);
      MembersHaveOneReading(a[1..], b[1..], false, x, y);
      assert a == [a[0]] + a[1..] && b == [b[0]] + b[1..];
    }
  }

  lemma RenderIsInjective(a: Json, b: Json)
    ensures Render(a) == Render(b) <==> a == b
  {
    if Render(a) == Render(b) {
      assert Render(a) + "" == Render(b) + "";
      RenderHasOneReading(a, b, "", "");
    }
  }

  // ---- Quoting as section 7 of RFC 8259 asks -----------------------------------------------------------------------

  /** Only the two closing and opening quotes are bare: every quote inside follows a backslash, and no control stands bare. */
  lemma {:induction false} QuotedTextIsWellFormed(text: string, i: nat)
    requires i < |Escaped(text)|
    ensures Escaped(text)[i] >= 32 as char
    ensures Escaped(text)[i] == '"' && i < |Escaped(text)| - 1 ==> i > 0 && Escaped(text)[i - 1] == '\\'
    ensures Escaped(text)[|Escaped(text)| - 1] == '"'
  {
    if text != "" {
      var head := EscapeChar(text[0]);
      EscapeIsNoQuote(text[0]);
      QuotedTextIsWellFormed(text[1..], if i < |head| then 0 else i - |head|);
    }
  }

  /** The character that a two-character escape stands for. */
  function ShortEscape(c: char): Option<char> {
    if c == '"' || c == '\\' || c == '/' then Some(c)
    else if c == 'b' then Some(8 as char)
    else if c == 't' then Some(9 as char)
    else if c == 'n' then Some(10 as char)
    else if c == 'f' then Some(12 as char)
    else if c == 'r' then Some(13 as char)
    else None
  }

  function Prepend(c: char, read: Option<(string, string)>): Option<(string, string)> {
    if read.Some? then Some(([c] + read.value.0, read.value.1)) else None
  }

  /** A reader of strings as section 7 of RFC 8259 defines them, after the opening quote: the content and what follows. */
  function ReadString(text: string): Option<(string, string)> {
    if text == "" || text[0] < 32 as char then None
    else if text[0] == '"' then Some(("", text[1..]))
    else if text[0] != '\\' then Prepend(text[0], ReadString(text[1..]))
    else if |text| >= 2 && ShortEscape(text[1]).Some? then Prepend(ShortEscape(text[1]).value, ReadString(text[2..]))
    else if |text| >= 6 && text[1] == 'u' && Hex.AllDigits(text[2..6]) && Hex.Value(text[2..6]) < 0xD800
    then Prepend(Hex.Value(text[2..6]) as char, ReadString(text[6..]))
    else None
  }

  lemma UnicodeEscapeReads(code: nat, x: string)
    requires code < 32
    ensures var digits := [HexDigit(code / 16), HexDigit(code % 16)];
            var text := "\\u00" + digits + x;
            && |text| >= 6 && text[0] == '\\' && text[1] == 'u' && text[6..] == x
            && Hex.AllDigits(text[2..6]) && Hex.Value(text[2..6]) == code
  {
    var digits := [HexDigit(code / 16), HexDigit(code % 16)];
    var four := "00" + digits;
    assert ("\\u00" + digits + x)[2..6] == four;
    assert four[..3] == "00" + [digits[0]] && four[..3][..2] == "00" && "00"[..1] == "0" && "0"[..0] == "";
    assert Hex.Value("0") == 0 && Hex.Value("00") == 0;
    assert Hex.Value(four[..3]) == Hex.DigitValue(digits[0]);
  }

  /** An escape is the character itself, a short escape for it, or its code. */
  lemma EscapeShapes(c: char)
    ensures |EscapeChar(c)| == 1 ==> EscapeChar(c) == [c] && c != '"' && c != '\\' && c >= 32 as char
    ensures |EscapeChar(c)| == 2 ==> EscapeChar(c)[0] == '\\' && ShortEscape(EscapeChar(c)[1]) == Some(c)
    ensures |EscapeChar(c)| == 1 || |EscapeChar(c)| == 2
            || (c < 32 as char && EscapeChar(c) == "\\u00" + [HexDigit(c as nat / 16), HexDigit(c as nat % 16)])
  {
  }

  lemma PlainReads(c: char, x: string)
    requires c != '"' && c != '\\' && c >= 32 as char
    ensures ReadString([c] + x) == Prepend(c, ReadString(x))
  {
    assert ([c] + x)[1..] == x;
  }

  lemma ShortReads(escape: string, c: char, x: string)
    requires |escape| == 2 && escape[0] == '\\' && ShortEscape(escape[1]) == Some(c)
    ensures ReadString(escape + x) == Prepend(c, ReadString(x))
  {
    assert (escape + x)[2..] == x;
  }

  lemma EscapeReads(c: char, x: string)
    ensures ReadString(EscapeChar(c) + x) == Prepend(c, ReadString(x))
  {
    EscapeShapes(c);
    if |EscapeChar(c)| == 1 {
      PlainReads(c, x);
    } else if |EscapeChar(c)| == 2 {
      ShortReads(EscapeChar(c), c, x);
    } else {
      UnicodeEscapeReads(c as nat, x);
    }
  }

  /** Such a reader gets back exactly the quoted string: every escape sequence stands for the character it was written for. */
  lemma {:induction false} QuotedTextReadsBack(text: string, x: string)
    ensures Quote(text)[0] == '"' && ReadString(Escaped(text) + x) == Some((text, x))
  {
    if text == "" {
      assert (Escaped(text) + x)[1..] == x;
    } else {
      UnfoldEscaped(text, x);
      EscapeReads(text[0], Escaped(text[1..]) + x);
      QuotedTextReadsBack(text[1..], x);
      assert [text[0]] + text[1..] == text;
    }
  }
}
