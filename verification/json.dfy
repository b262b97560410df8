/** `JSON.stringify` of an argument list, the memoizer's default cache key,
    together with a reader for the text it produces. The reader exists to
    prove what the key does and does not tell apart. */
module Json {
  import opened JsValues

  // ---------------------------------------------------------------------
  // Writing
  // ---------------------------------------------------------------------

  predicate IsDigit(c: char) {
    '0' <= c <= '9'
  }

  predicate IsHex(c: char) {
    IsDigit(c) || 'a' <= c <= 'f' || 'A' <= c <= 'F'
  }

  function DigitChar(d: nat): (c: char)
    requires d < 10
    ensures IsDigit(c)
  {
    ('0' as int + d) as char
  }

  /** Lower-case hexadecimal digit, as in a `\u00XX` escape. */
  function HexChar(d: nat): (c: char)
    requires d < 16
    ensures IsHex(c)
  {
    if d < 10 then DigitChar(d) else ('a' as int + (d - 10)) as char
  }

  /** Decimal text of a natural number, without leading zeros. */
  function NatText(n: nat): (s: string)
    ensures |s| > 0
    ensures forall i :: 0 <= i < |s| ==> IsDigit(s[i])
    decreases n
  {
    if n < 10 then [DigitChar(n)] else NatText(n / 10) + [DigitChar(n % 10)]
  }

  /** Text of an integer-valued number. */
  function IntText(n: int): string {
    if n < 0 then "-" + NatText(-n) else NatText(n)
  }

  /** One character of a string literal: `"` and `\` and the control
      characters are escaped, with the short forms where JSON has them. */
  function EscapeChar(c: char): (e: string)
    ensures |e| > 0 && e[0] != '"'
  {
    var u := c as int;
    if c == '"' then ['\\', '"']
    else if c == '\\' then ['\\', '\\']
    else if u == 8 then ['\\', 'b']
    else if u == 9 then ['\\', 't']
    else if u == 10 then ['\\', 'n']
    else if u == 12 then ['\\', 'f']
    else if u == 13 then ['\\', 'r']
    else if u < 0x20 then ['\\', 'u', '0', '0', HexChar(u / 16), HexChar(u % 16)]
    else [c]
  }

  function Escape(s: string): string {
    if s == [] then [] else EscapeChar(s[0]) + Escape(s[1..])
  }

  function Quote(s: string): string {
    ['"'] + Escape(s) + ['"']
  }

  /** The text of one array element; `undefined` inside an array is written `null`. */
  function Element(v: JsVal): (e: string)
    ensures |e| > 0
  {
    match v
    case Undefined => "null"
    case Null => "null"
    case Bool(b) => if b then "true" else "false"
    case Num(n) => IntText(n)
    case Str(s) => Quote(s)
  }

  /** Elements separated by commas. */
  function Join(args: seq<JsVal>): string {
    if |args| == 0 then ""
    else if |args| == 1 then Element(args[0])
    else Element(args[0]) + "," + Join(args[1..])
  }

  /** `JSON.stringify(args)` for an argument array. */
  function Serialize(args: seq<JsVal>): string {
    "[" + Join(args) + "]"
  }

  /** What survives serialisation of an array element. */
  function Normalize(v: JsVal): JsVal {
    if v.Undefined? then Null else v
  }

  function NormalizeAll(args: seq<JsVal>): seq<JsVal> {
    if args == [] then [] else [Normalize(args[0])] + NormalizeAll(args[1..])
  }

  // ---------------------------------------------------------------------
  // Reading
  // ---------------------------------------------------------------------

  function DigitValue(c: char): nat
    requires IsDigit(c)
  {
    c as int - '0' as int
  }

  function HexValue(c: char): nat
    requires IsHex(c)
  {
    if IsDigit(c) then DigitValue(c)
    else if 'a' <= c <= 'f' then c as int - 'a' as int + 10
    else c as int - 'A' as int + 10
  }

  /** Value of a run of decimal digits, most significant first. */
  function DigitsValue(s: string): nat
    requires forall i :: 0 <= i < |s| ==> IsDigit(s[i])
  {
    if |s| == 0 then 0 else DigitsValue(s[..|s| - 1]) * 10 + DigitValue(s[|s| - 1])
  }

  /** Length of the run of digits that starts `s`. */
  function DigitSpan(s: string): (k: nat)
    ensures k <= |s|
    ensures forall i :: 0 <= i < k ==> IsDigit(s[i])
    ensures k < |s| ==> !IsDigit(s[k])
  {
    if |s| == 0 || !IsDigit(s[0]) then 0 else 1 + DigitSpan(s[1..])
  }

  function ReadNumber(s: string): (r: Option<(JsVal, string)>)
    ensures r.Some? ==> |r.value.1| < |s|
  {
    if |s| > 0 && s[0] == '-' then
      var k := DigitSpan(s[1..]);
      if k == 0 then None else Some((Num(0 - DigitsValue(s[1..][..k])), s[1..][k..]))
    else
      var k := DigitSpan(s);
      if k == 0 then None else Some((Num(DigitsValue(s[..k])), s[k..]))
  }

  predicate IsScalar(v: int) {
    0 <= v < 0xD800 || 0xE000 <= v < 0x11_0000
  }

  /** Reads the escape sequence that follows a backslash. */
  function ReadEscape(s: string): (r: Option<(char, string)>)
    ensures r.Some? ==> |r.value.1| < |s|
  {
    if |s| == 0 then None
    else if s[0] == '"' then Some(('"', s[1..]))
    else if s[0] == '\\' then Some(('\\', s[1..]))
    else if s[0] == '/' then Some(('/', s[1..]))
    else if s[0] == 'b' then Some((8 as char, s[1..]))
    else if s[0] == 't' then Some((9 as char, s[1..]))
    else if s[0] == 'n' then Some((10 as char, s[1..]))
    else if s[0] == 'f' then Some((12 as char, s[1..]))
    else if s[0] == 'r' then Some((13 as char, s[1..]))
    else if s[0] == 'u' && |s| >= 5 && IsHex(s[1]) && IsHex(s[2]) && IsHex(s[3]) && IsHex(s[4]) then
      var v := HexValue(s[1]) * 4096 + HexValue(s[2]) * 256 + HexValue(s[3]) * 16 + HexValue(s[4]);
      if IsScalar(v) then Some((v as char, s[5..])) else None
    else None
  }

  /** Reads one character of a string literal's body. */
  function ReadChar(s: string): (r: Option<(char, string)>)
    requires |s| > 0 && s[0] != '"'
    ensures r.Some? ==> |r.value.1| < |s|
  {
    if s[0] == '\\' then ReadEscape(s[1..])
    else if (s[0] as int) < 0x20 then None
    else Some((s[0], s[1..]))
  }

  /** Reads a string literal's body and its closing quote. */
  function ReadString(s: string): (r: Option<(string, string)>)
    ensures r.Some? ==> |r.value.1| < |s|
    decreases |s|
  {
    if |s| == 0 then None
    else if s[0] == '"' then Some(([], s[1..]))
    else
      match ReadChar(s)
      case None => None
      case Some((c, rest)) =>
        match ReadString(rest)
        case None => None
        case Some((body, after)) => Some(([c] + body, after))
  }

  function ReadElement(s: string): (r: Option<(JsVal, string)>)
    ensures r.Some? ==> |r.value.1| < |s|
  {
    if |s| >= 4 && s[..4] == "null" then Some((Null, s[4..]))
    else if |s| >= 4 && s[..4] == "true" then Some((Bool(true), s[4..]))
    else if |s| >= 5 && s[..5] == "false" then Some((Bool(false), s[5..]))
    else if |s| > 0 && s[0] == '"' then
      match ReadString(s[1..])
      case None => None
      case Some((body, rest)) => Some((Str(body), rest))
    else ReadNumber(s)
  }

  /** Reads `element (, element)* ]` to the end of the text. */
  function ReadItems(s: string): Option<seq<JsVal>>
    decreases |s|
  {
    match ReadElement(s)
    case None => None
    case Some((v, rest)) =>
      if rest == "]" then Some([v])
      else if |rest| > 0 && rest[0] == ',' then
        match ReadItems(rest[1..])
        case None => None
        case Some(vs) => Some([v] + vs)
      else None
  }

  /** Reads the text of an array of scalar values. */
  function Parse(s: string): Option<seq<JsVal>> {
    if s == "[]" then Some([])
    else if |s| > 0 && s[0] == '[' then ReadItems(s[1..])
    else None
  }

  // ---------------------------------------------------------------------
  // Reading what was written
  // ---------------------------------------------------------------------

  lemma {:induction false} NatTextValue(n: nat)
    ensures DigitsValue(NatText(n)) == n
    decreases n
  {
    if n >= 10 {
      NatTextValue(n / 10);
      var s := NatText(n);
      assert s[..|s| - 1] == NatText(n / 10);
    }
  }

  lemma {:induction false} DigitSpanOfDigits(d: string, rest: string)
    requires forall i :: 0 <= i < |d| ==> IsDigit(d[i])
    requires rest == [] || !IsDigit(rest[0])
    ensures DigitSpan(d + rest) == |d|
    decreases |d|
  {
    if |d| > 0 {
      assert (d + rest)[1..] == d[1..] + rest;
      DigitSpanOfDigits(d[1..], rest);
    } else {
      assert d + rest == rest;
    }
  }

  lemma ReadNatText(n: nat, rest: string)
    requires rest == [] || !IsDigit(rest[0])
    ensures DigitSpan(NatText(n) + rest) == |NatText(n)|
    ensures (NatText(n) + rest)[..|NatText(n)|] == NatText(n)
    ensures (NatText(n) + rest)[|NatText(n)|..] == rest
    ensures DigitsValue(NatText(n)) == n
  {
    DigitSpanOfDigits(NatText(n), rest);
    NatTextValue(n);
  }

  lemma ReadIntText(n: int, rest: string)
    requires rest == [] || !IsDigit(rest[0])
    ensures ReadNumber(IntText(n) + rest) == Some((Num(n), rest))
  {
    if n < 0 {
      ReadNegativeText(-n, rest);
    } else {
      ReadNatNumber(n, rest);
    }
  }

  lemma ReadNatNumber(n: nat, rest: string)
    requires rest == [] || !IsDigit(rest[0])
    ensures ReadNumber(NatText(n) + rest) == Some((Num(n), rest))
  {
    var d := NatText(n);
    var s := d + rest;
    assert s[0] == d[0] && IsDigit(d[0]);
    ReadNatText(n, rest);
  }

  lemma ReadNegativeText(n: nat, rest: string)
    requires n > 0
    requires rest == [] || !IsDigit(rest[0])
    ensures ReadNumber("-" + NatText(n) + rest) == Some((Num(0 - n), rest))
  {
    var d := NatText(n);
    var s := "-" + d + rest;
    assert s[0] == '-';
    assert s[1..] == d + rest;
    ReadNatText(n, rest);
  }

  lemma HexRoundTrip(d: nat)
    requires d < 16
    ensures HexValue(HexChar(d)) == d
  {
  }

  lemma {:induction false} ReadEscapedChar(c: char, rest: string)
    ensures ReadChar(EscapeChar(c) + rest) == Some((c, rest))
  {
    var u := c as int;
    var s := EscapeChar(c) + rest;
    if u < 0x20 && u != 8 && u != 9 && u != 10 && u != 12 && u != 13 {
      HexRoundTrip(u / 16);
      HexRoundTrip(u % 16);
      assert s[1..][5..] == rest;
      assert (u as char) == c;
    } else if c == '"' || c == '\\' || u == 8 || u == 9 || u == 10 || u == 12 || u == 13 {
      assert s[1..][1..] == rest;
      assert (u as char) == c;
    } else {
      assert s[1..] == rest;
    }
  }

  lemma {:induction false} ReadQuoted(str: string, rest: string)
    ensures ReadString(Escape(str) + ['"'] + rest) == Some((str, rest))
    decreases |str|
  {
    if str == [] {
      assert Escape(str) + ['"'] + rest == ['"'] + rest;
    } else {
      var e := EscapeChar(str[0]);
      var tail := Escape(str[1..]) + ['"'] + rest;
      var s := Escape(str) + ['"'] + rest;
      assert s[0] != '"' && ReadChar(s) == Some((str[0], tail)) by {
        assert s == e + tail;
        ReadEscapedChar(str[0], tail);
      }
      assert ReadString(tail) == Some((str[1..], rest)) by {
        ReadQuoted(str[1..], rest);
      }
      ReadStringStep(s, str[0], tail, str[1..], rest);
      assert [str[0]] + str[1..] == str;
    }
  }

  /** One character read, then the rest of the literal. */
  lemma ReadStringStep(s: string, c: char, tail: string, body: string, after: string)
    requires |s| > 0 && s[0] != '"'
    requires ReadChar(s) == Some((c, tail))
    requires ReadString(tail) == Some((body, after))
    ensures ReadString(s) == Some(([c] + body, after))
  {
  }

  lemma ReadWrittenLiteral(lit: string, v: JsVal, rest: string)
    requires lit == "null" || lit == "true" || lit == "false"
    requires v == (if lit == "null" then Null else Bool(lit == "true"))
    ensures ReadElement(lit + rest) == Some((v, rest))
  {
    var s := lit + rest;
    assert s[..|lit|] == lit && s[|lit|..] == rest;
    if lit == "false" {
      assert s[..4] != "null" && s[..4] != "true" by { assert s[..4][0] == 'f'; }
    }
  }

  lemma ReadWrittenNumber(n: int, rest: string)
    requires |rest| > 0 && (rest[0] == ',' || rest[0] == ']')
    ensures ReadElement(IntText(n) + rest) == Some((Num(n), rest))
  {
    var s := IntText(n) + rest;
    assert s[0] == '-' || IsDigit(s[0]);
    assert |s| >= 4 ==> s[..4][0] == s[0];
    assert |s| >= 5 ==> s[..5][0] == s[0];
    ReadIntText(n, rest);
  }

  lemma ReadWrittenString(str: string, rest: string)
    ensures ReadElement(Quote(str) + rest) == Some((Str(str), rest))
  {
    var s := Quote(str) + rest;
    assert s[0] == '"';
    assert |s| >= 4 ==> s[..4][0] == s[0];
    assert |s| >= 5 ==> s[..5][0] == s[0];
    assert s[1..] == Escape(str) + ['"'] + rest;
    ReadQuoted(str, rest);
  }

  /** An element followed by `,` or `]` reads back as its normalised value. */
  lemma ReadWrittenElement(v: JsVal, rest: string)
    requires |rest| > 0 && (rest[0] == ',' || rest[0] == ']')
    ensures ReadElement(Element(v) + rest) == Some((Normalize(v), rest))
  {
    match v
    case Undefined => ReadWrittenLiteral("null", Null, rest);
    case Null => ReadWrittenLiteral("null", Null, rest);
    case Bool(b) => ReadWrittenLiteral(if b then "true" else "false", v, rest);
    case Num(n) => ReadWrittenNumber(n, rest);
    case Str(str) => ReadWrittenString(str, rest);
  }

  lemma ReadLastItem(s: string, v: JsVal)
    requires ReadElement(s) == Some((v, "]"))
    ensures ReadItems(s) == Some([v])
  {
  }

  lemma ReadNextItem(s: string, v: JsVal, tail: string, vs: seq<JsVal>)
    requires ReadElement(s) == Some((v, "," + tail))
    requires ReadItems(tail) == Some(vs)
    ensures ReadItems(s) == Some([v] + vs)
  {
    assert ("," + tail)[1..] == tail;
  }

  lemma {:induction false} ReadJoined(args: seq<JsVal>)
    requires |args| > 0
    ensures ReadItems(Join(args) + "]") == Some(NormalizeAll(args))
    decreases |args|
  {
    if |args| == 1 {
      assert Join(args) == Element(args[0]);
      ReadWrittenElement(args[0], "]");
      ReadLastItem(Element(args[0]) + "]", Normalize(args[0]));
      assert args[1..] == [];
      assert NormalizeAll(args[1..]) == [];
      assert NormalizeAll(args) == [Normalize(args[0])];
    } else {
      var tail := Join(args[1..]) + "]";
      assert Join(args) + "]" == Element(args[0]) + ("," + tail);
      ReadWrittenElement(args[0], "," + tail);
      ReadJoined(args[1..]);
      ReadNextItem(Element(args[0]) + ("," + tail), Normalize(args[0]), tail, NormalizeAll(args[1..]));
    }
  }

  /** The reader recovers the argument list from its key, up to `undefined`
      being written as `null`. */
  lemma ParseSerialize(args: seq<JsVal>)
    ensures Parse(Serialize(args)) == Some(NormalizeAll(args))
  {
    if |args| > 0 {
      var s := Serialize(args);
      assert |Join(args)| > 0;
      assert s[1..] == Join(args) + "]";
      ReadJoined(args);
    }
  }

  lemma {:induction false} JoinNormalized(args: seq<JsVal>)
    ensures Join(NormalizeAll(args)) == Join(args)
    decreases |args|
  {
    if |args| > 1 {
      JoinNormalized(args[1..]);
      assert NormalizeAll(args)[1..] == NormalizeAll(args[1..]);
    }
  }

  /** Two argument lists give the same key exactly when they agree after
      `undefined` is replaced by `null`: the key keeps every argument and
      their order, and loses only that one distinction. */
  lemma SerializeEqualIff(a: seq<JsVal>, b: seq<JsVal>)
    ensures Serialize(a) == Serialize(b) <==> NormalizeAll(a) == NormalizeAll(b)
  {
    ParseSerialize(a);
    ParseSerialize(b);
    JoinNormalized(a);
    JoinNormalized(b);
  }
}
