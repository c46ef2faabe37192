/** JSON text (RFC 8259): the printer that canonical identities hash, and the reader. */
module JsonText {
  import opened Base
  import Decimal

  /** A decoded or hand-built value: objects are lists of members, and floats are only recognised. */
  datatype Value =
    | VNull | VBool(b: bool) | VInt(n: int) | VFloat | VText(s: string)
    | VArray(items: seq<Value>) | VObject(members: seq<Member>) | VOther

  /** A mapping key may be anything in memory; JSON text only has string keys. */
  datatype Key = TextKey(s: string) | OtherKey

  datatype Member = Member(key: Key, value: Value)

  /** A canonical value: objects are written out in key order. */
  datatype Json =
    | Null | Bool(b: bool) | Int(n: int) | Text(s: string) | Array(items: seq<Json>) | Object(members: seq<Pair>)

  datatype Pair = Pair(key: string, value: Json)

  // ---------------------------------------------------------------- printing

  function HexDigit(d: nat): char
    requires d < 16
  {
    if d < 10 then Decimal.Digit(d) else (87 + d) as char
  }

  /** `json.dumps(..., ensure_ascii=False)` escapes the quote, the backslash and control characters. */
  function Escape(c: char): string {
    if c == '"' then "\\\""
    else if c == '\\' then "\\\\"
    else if c == '\n' then "\\n"
    else if c == '\r' then "\\r"
    else if c == '\t' then "\\t"
    else if c as int == 8 then "\\b"
    else if c as int == 12 then "\\f"
    else if c as int < 32 then "\\u00" + [HexDigit(c as int / 16), HexDigit(c as int % 16)]
    else [c]
  }

  function Escaped(s: string): string {
    if s == [] then [] else Escape(s[0]) + Escaped(s[1..])
  }

  function Quoted(s: string): string {
    "\"" + Escaped(s) + "\""
  }

  function IntText(n: int): string {
    if n < 0 then "-" + Decimal.ToText(-n) else Decimal.ToText(n)
  }

  /** Separators are "," and ":" without spaces. */
  function Print(j: Json): string
    decreases j
  {
    match j
    case Null => "null"
    case Bool(b) => if b then "true" else "false"
    case Int(n) => IntText(n)
    case Text(s) => Quoted(s)
    case Array(items) => "[" + PrintItems(items) + "]"
    case Object(members) => "{" + PrintMembers(members) + "}"
  }

  function PrintItems(items: seq<Json>): string
    decreases items
  {
    if items == [] then ""
    else if |items| == 1 then Print(items[0])
    else Print(items[0]) + "," + PrintItems(items[1..])
  }

  function PrintMembers(members: seq<Pair>): string
    decreases members
  {
    if members == [] then ""
    else if |members| == 1 then PrintPair(members[0])
    else PrintPair(members[0]) + "," + PrintMembers(members[1..])
  }

  function PrintPair(p: Pair): string
    decreases p
  {
    Quoted(p.key) + ":" + Print(p.value)
  }

  /** The text is compact: nothing stands around a comma or a colon. */
  lemma CompactText(a: Json, b: Json, k: string, l: string)
    ensures Print(Array([a, b])) == "[" + (Print(a) + "," + Print(b)) + "]"
    ensures Print(Object([Pair(k, a), Pair(l, b)]))
         == "{" + ((Quoted(k) + ":" + Print(a)) + "," + (Quoted(l) + ":" + Print(b))) + "}"
  {
    hide Quoted;
    TwoItems(a, b);
    TwoMembers(Pair(k, a), Pair(l, b));
    hide PrintItems, PrintMembers;
  }

  lemma TwoItems(a: Json, b: Json)
    ensures PrintItems([a, b]) == Print(a) + "," + Print(b)
  {
    hide Print;
    assert [a, b][1..] == [b];
    assert PrintItems([b]) == Print(b);
  }

  lemma TwoMembers(p: Pair, q: Pair)
    ensures PrintMembers([p, q]) == PrintPair(p) + "," + PrintPair(q)
  {
    hide PrintPair;
    assert [p, q][1..] == [q];
    assert PrintMembers([q]) == PrintPair(q);
  }

  /** Only what must be escaped is: any other text, of whatever alphabet, stands in its quotes as it is. */
  lemma {:induction false} PlainText(s: string)
    requires forall i :: 0 <= i < |s| ==> s[i] as int >= 32 && s[i] != '"' && s[i] != '\\'
    ensures Escaped(s) == s
  {
    if s != [] {
      PlainText(s[1..]);
    }
  }

  // ---------------------------------------------------------------- reading

  function Skip(s: string): (r: string)
    ensures |r| <= |s|
  {
    if s != [] && s[0] in {' ', '\n', '\r', '\t'} then Skip(s[1..]) else s
  }

  function HexValue(c: char): Option<nat> {
    if '0' <= c <= '9' then Some(c as int - 48)
    else if 'a' <= c <= 'f' then Some(c as int - 87)
    else if 'A' <= c <= 'F' then Some(c as int - 55)
    else None
  }

  function HexCode(s: string): Option<nat>
    requires |s| == 4
  {
    var a, b, c, d := HexValue(s[0]), HexValue(s[1]), HexValue(s[2]), HexValue(s[3]);
    if a.None? || b.None? || c.None? || d.None? then None
    else Some(((a.value * 16 + b.value) * 16 + c.value) * 16 + d.value)
  }

  /** The character of an escape sequence (without its backslash) and how long the sequence is. */
  function Unescape(s: string): Option<(char, nat)>
    requires s != []
  {
    match s[0]
    case '"' => Some(('"', 1))
    case '\\' => Some(('\\', 1))
    case '/' => Some(('/', 1))
    case 'b' => Some((8 as char, 1))
    case 'f' => Some((12 as char, 1))
    case 'n' => Some(('\n', 1))
    case 'r' => Some(('\r', 1))
    case 't' => Some(('\t', 1))
    case 'u' =>
      if |s| < 5 || HexCode(s[1..5]).None? then None
      else
        var code := HexCode(s[1..5]).value;
        if 0xD800 <= code < 0xE000 || code >= 0x10000 then None else Some((code as char, 5))
    case _ => None
  }

  /** The rest of a string literal behind its opening quote. */
  function ReadString(s: string): (r: Option<(string, string)>)
    ensures r.Some? ==> |r.value.1| < |s|
  {
    if s == [] then None
    else if s[0] == '"' then Some(([], s[1..]))
    else if s[0] as int < 32 then None
    else if s[0] == '\\' then
      if |s| == 1 || Unescape(s[1..]).None? then None
      else
        var (c, n) := Unescape(s[1..]).value;
        if 1 + n > |s| then None
        else
          match ReadString(s[1 + n..])
          case None => None
          case Some((text, rest)) => Some(([c] + text, rest))
    else
      match ReadString(s[1..])
      case None => None
      case Some((text, rest)) => Some(([s[0]] + text, rest))
  }

  /** How many digits a text begins with. */
  function DigitRun(s: string): (n: nat)
    ensures n <= |s| && Decimal.AllDigits(s[..n])
  {
    if s != [] && Decimal.IsDigit(s[0]) then
      var n := DigitRun(s[1..]);
      assert s[..1 + n] == [s[0]] + s[1..][..n];
      1 + n
    else 0
  }

  /** A fraction or an exponent behind an integer makes the number a float. */
  function FloatTail(s: string): (n: nat)
    ensures n <= |s|
  {
    if |s| >= 2 && s[0] == '.' && Decimal.IsDigit(s[1]) then
      var k := 1 + DigitRun(s[1..]);
      k + Exponent(s[k..])
    else Exponent(s)
  }

  function Exponent(s: string): (n: nat)
    ensures n <= |s|
  {
    if |s| >= 2 && s[0] in {'e', 'E'} && Decimal.IsDigit(s[1]) then 1 + DigitRun(s[1..])
    else if |s| >= 3 && s[0] in {'e', 'E'} && s[1] in {'+', '-'} && Decimal.IsDigit(s[2]) then 2 + DigitRun(s[2..])
    else 0
  }

  /** An unsigned number: an integer has no leading zero; anything with a float tail is a float. */
  function ReadUnsigned(s: string, negative: bool): (r: Option<(Value, string)>)
    ensures r.Some? ==> |r.value.1| < |s|
  {
    var n := if s != [] && s[0] == '0' then 1 else DigitRun(s);
    if n == 0 then None
    else
      var magnitude: int := Decimal.FromText(s[..n]);
      var tail := FloatTail(s[n..]);
      Some((if tail > 0 then VFloat else VInt(if negative then -magnitude else magnitude), s[n + tail..]))
  }

  function ReadNumber(s: string): (r: Option<(Value, string)>)
    ensures r.Some? ==> |r.value.1| < |s|
  {
    if s != [] && s[0] == '-' then ReadUnsigned(s[1..], true) else ReadUnsigned(s, false)
  }

  function ReadScalar(s: string): (r: Option<(Value, string)>)
    ensures r.Some? ==> |r.value.1| < |s|
  {
    if "null" <= s then Some((VNull, s[4..]))
    else if "true" <= s then Some((VBool(true), s[4..]))
    else if "false" <= s then Some((VBool(false), s[5..]))
    else if "NaN" <= s then Some((VFloat, s[3..]))
    else if "Infinity" <= s then Some((VFloat, s[8..]))
    else if "-Infinity" <= s then Some((VFloat, s[9..]))
    else ReadNumber(s)
  }

  /** One value at the start of a text, and what follows it. */
  function ReadValue(s: string): (r: Option<(Value, string)>)
    ensures r.Some? ==> |r.value.1| < |s|
    decreases |s|, 0
  {
    if s == [] then None
    else if s[0] == '"' then ReadText(s[1..])
    else if s[0] == '[' then ReadArray(s[1..])
    else if s[0] == '{' then ReadObject(s[1..])
    else ReadScalar(s)
  }

  function ReadText(s: string): (r: Option<(Value, string)>)
    ensures r.Some? ==> |r.value.1| < |s|
  {
    match ReadString(s)
    case None => None
    case Some((text, rest)) => Some((VText(text), rest))
  }

  function ReadArray(s: string): (r: Option<(Value, string)>)
    ensures r.Some? ==> |r.value.1| < |s|
    decreases |s|, 3
  {
    var inner := Skip(s);
    if inner != [] && inner[0] == ']' then Some((VArray([]), inner[1..]))
    else
      match ReadItems(inner)
      case None => None
      case Some((items, rest)) => Some((VArray(items), rest))
  }

  function ReadObject(s: string): (r: Option<(Value, string)>)
    ensures r.Some? ==> |r.value.1| < |s|
    decreases |s|, 3
  {
    var inner := Skip(s);
    if inner != [] && inner[0] == '}' then Some((VObject([]), inner[1..]))
    else
      match ReadMembers(inner)
      case None => None
      case Some((members, rest)) => Some((VObject(members), rest))
  }

  /** At least one item, up to and including the closing bracket. */
  function ReadItems(s: string): (r: Option<(seq<Value>, string)>)
    ensures r.Some? ==> |r.value.1| < |s|
    decreases |s|, 1
  {
    match ReadValue(s)
    case None => None
    case Some((item, after)) =>
      var next := Skip(after);
      if next == [] then None
      else if next[0] == ']' then Some(([item], next[1..]))
      else if next[0] != ',' then None
      else
        match ReadItems(Skip(next[1..]))
        case None => None
        case Some((items, rest)) => Some(([item] + items, rest))
  }

  function ReadMember(s: string): (r: Option<(Member, string)>)
    ensures r.Some? ==> |r.value.1| < |s|
    decreases |s|, 1
  {
    if s == [] || s[0] != '"' then None
    else
      match ReadString(s[1..])
      case None => None
      case Some((key, after)) =>
        var colon := Skip(after);
        if colon == [] || colon[0] != ':' then None
        else
          match ReadValue(Skip(colon[1..]))
          case None => None
          case Some((value, rest)) => Some((Member(TextKey(key), value), rest))
  }

  /** At least one member, up to and including the closing brace. */
  function ReadMembers(s: string): (r: Option<(seq<Member>, string)>)
    ensures r.Some? ==> |r.value.1| < |s|
    decreases |s|, 2
  {
    match ReadMember(s)
    case None => None
    case Some((member, after)) =>
      var next := Skip(after);
      if next == [] then None
      else if next[0] == '}' then Some(([member], next[1..]))
      else if next[0] != ',' then None
      else
        match ReadMembers(Skip(next[1..]))
        case None => None
        case Some((members, rest)) => Some(([member] + members, rest))
  }

  /** A whole document: one value between white space. */
  function Read(s: string): Option<Value> {
    match ReadValue(Skip(s))
    case None => None
    case Some((v, rest)) => if Skip(rest) == [] then Some(v) else None
  }

  // ---------------------------------------------------------------- reading what was printed

  /** The value that a canonical value denotes. */
  function ToValue(j: Json): Value
    decreases j
  {
    match j
    case Null => VNull
    case Bool(b) => VBool(b)
    case Int(n) => VInt(n)
    case Text(s) => VText(s)
    case Array(items) => VArray(ToValues(items))
    case Object(members) => VObject(ToMembers(members))
  }

  function ToValues(items: seq<Json>): seq<Value>
    decreases items
  {
    if items == [] then [] else [ToValue(items[0])] + ToValues(items[1..])
  }

  function ToMember(p: Pair): Member
    decreases p
  {
    Member(TextKey(p.key), ToValue(p.value))
  }

  function ToMembers(members: seq<Pair>): seq<Member>
    decreases members
  {
    if members == [] then [] else [ToMember(members[0])] + ToMembers(members[1..])
  }

  /** What may follow a value inside canonical text. */
  predicate Terminated(rest: string) {
    rest == [] || rest[0] in {',', ']', '}'}
  }

  lemma HexRoundTrip(d: nat)
    requires d < 16
    ensures HexValue(HexDigit(d)) == Some(d)
  {
  }

  /** A printed character is read back as itself. */
  lemma ReadEscaped(c: char, t: string, text: string, rest: string)
    requires ReadString(t) == Some((text, rest))
    ensures ReadString(Escape(c) + t) == Some(([c] + text, rest))
  {
    var s, e := Escape(c) + t, Escape(c);
    assert s[|e|..] == t;
    if e == [c] {
      assert s[1..] == t;
    } else if |e| == 2 {
      assert s[1..][0] == e[1];
      assert s[1 + 1..] == t;
    } else {
      ReadControl(c, t);
      assert s[1 + 5..] == t;
    }
  }

  /** The six characters of a control character's escape. */
  lemma ReadControl(c: char, t: string)
    requires |Escape(c)| == 6
    ensures var s := Escape(c) + t; s[0] == '\\' && Unescape(s[1..]) == Some((c, 5))
  {
    var hi, lo := c as int / 16, c as int % 16;
    var e := ['\\', 'u', '0', '0', HexDigit(hi), HexDigit(lo)];
    assert Escape(c) == e;
    var s := e + t;
    var code := s[2..6];
    assert code == ['0', '0', HexDigit(hi), HexDigit(lo)];
    assert s[1..][1..5] == code && s[1..][0] == 'u';
    HexRoundTrip(hi);
    HexRoundTrip(lo);
    assert HexValue('0') == Some(0);
    assert HexCode(code) == Some(hi * 16 + lo);
  }

  lemma {:induction false} StringRoundTrip(s: string, rest: string)
    ensures ReadString(Escaped(s) + ("\"" + rest)) == Some((s, rest))
  {
    hide Escape, Unescape;
    var close := "\"" + rest;
    if s == [] {
      assert Escaped(s) + close == close && close[1..] == rest;
    } else {
      hide ReadString;
      StringRoundTrip(s[1..], rest);
      ReadEscaped(s[0], Escaped(s[1..]) + close, s[1..], rest);
      assert Escaped(s) + close == Escape(s[0]) + (Escaped(s[1..]) + close);
      assert [s[0]] + s[1..] == s;
    }
  }

  lemma {:induction false} DigitRunStops(digits: string, rest: string)
    requires Decimal.AllDigits(digits) && (rest == [] || !Decimal.IsDigit(rest[0]))
    ensures DigitRun(digits + rest) == |digits|
  {
    var s := digits + rest;
    if digits == [] {
      assert s == rest;
    } else {
      assert s[1..] == digits[1..] + rest;
      DigitRunStops(digits[1..], rest);
    }
  }

  lemma UnsignedRoundTrip(m: int, negative: bool, rest: string)
    requires m >= 0 && Terminated(rest)
    ensures ReadUnsigned(Decimal.ToText(m) + rest, negative) == Some((VInt(if negative then -m else m), rest))
  {
    var digits := Decimal.ToText(m);
    var s := digits + rest;
    Decimal.RoundTrip(m);
    DigitRunStops(digits, rest);
    assert s[..|digits|] == digits && s[|digits|..] == rest && s[0] == digits[0];
    assert digits[0] == '0' ==> digits == "0";
    hide DigitRun, Decimal.ToText, Decimal.FromText;
    assert FloatTail(rest) == 0;
  }

  lemma ReadPrintedInt(n: int, rest: string)
    requires Terminated(rest)
    ensures ReadScalar(IntText(n) + rest) == Some((VInt(n), rest))
  {
    hide ReadUnsigned, Decimal.ToText;
    var m: int := if n < 0 then -n else n;
    var s, digits := IntText(n) + rest, Decimal.ToText(m);
    if n < 0 {
      UnsignedRoundTrip(-n, true, rest);
      assert s[0] == '-' && s[1] == digits[0] && s[1..] == digits + rest;
      assert "-Infinity"[1] == 'I' && Decimal.IsDigit(s[1]);
    } else {
      UnsignedRoundTrip(n, false, rest);
      assert s[0] == digits[0] && Decimal.IsDigit(s[0]);
    }
  }

  /** Reading a printed value gives it back, whatever canonical text follows. */
  lemma {:induction false} ReadPrinted(j: Json, rest: string)
    requires Terminated(rest)
    ensures ReadValue(Print(j) + rest) == Some((ToValue(j), rest))
    decreases j
  {
    hide ReadText, ReadArray, ReadObject, ReadScalar, Quoted, IntText;
    match j
    case Null => ReadLiterals(rest);
    case Bool(b) => ReadLiterals(rest);
    case Int(n) =>
      ReadPrintedInt(n, rest);
      PrintSolid(j);
      NotStructural(n, rest);
    case Text(t) => ReadPrintedText(t, rest);
    case Array(items) =>
      ReadPrintedArray(items, rest);
      assert (Print(j) + rest)[1..] == PrintItems(items) + ("]" + rest);
    case Object(members) =>
      ReadPrintedObject(members, rest);
      assert (Print(j) + rest)[1..] == PrintMembers(members) + ("}" + rest);
  }

  lemma ReadLiterals(rest: string)
    ensures ReadScalar("null" + rest) == Some((VNull, rest))
    ensures ReadScalar("true" + rest) == Some((VBool(true), rest))
    ensures ReadScalar("false" + rest) == Some((VBool(false), rest))
  {
    hide ReadNumber;
    assert ("null" + rest)[4..] == rest && ("true" + rest)[4..] == rest && ("false" + rest)[5..] == rest;
    assert ("true" + rest)[0] == 't' && ("false" + rest)[0] == 'f' && "null"[0] == 'n' && "true"[0] == 't';
  }

  lemma NotStructural(n: int, rest: string)
    ensures var s := IntText(n) + rest; s != [] && s[0] != '"' && s[0] != '[' && s[0] != '{'
  {
    assert IntText(n)[0] == '-' || Decimal.IsDigit(IntText(n)[0]);
  }

  lemma ReadPrintedText(t: string, rest: string)
    ensures ReadValue(Quoted(t) + rest) == Some((VText(t), rest))
  {
    hide ReadString, Escaped;
    StringRoundTrip(t, rest);
    var s := Quoted(t) + rest;
    assert s[0] == '"' && s[1..] == Escaped(t) + ("\"" + rest);
  }

  lemma ReadPrintedArray(items: seq<Json>, rest: string)
    ensures ReadArray(PrintItems(items) + ("]" + rest)) == Some((VArray(ToValues(items)), rest))
    decreases items, 1
  {
    hide ReadItems;
    if items == [] {
      assert PrintItems(items) + ("]" + rest) == "]" + rest && ("]" + rest)[1..] == rest;
    } else {
      ReadPrintedItems(items, rest);
      NoSkipItems(items, "]" + rest);
      hide PrintItems, ToValues;
    }
  }

  lemma ReadPrintedObject(members: seq<Pair>, rest: string)
    ensures ReadObject(PrintMembers(members) + ("}" + rest)) == Some((VObject(ToMembers(members)), rest))
    decreases members, 1
  {
    hide ReadMembers;
    if members == [] {
      assert PrintMembers(members) + ("}" + rest) == "}" + rest && ("}" + rest)[1..] == rest;
    } else {
      ReadPrintedMembers(members, rest);
      NoSkipMembers(members, "}" + rest);
      hide PrintMembers, ToMembers;
    }
  }

  /** No printed value begins with white space or with punctuation that ends one. */
  predicate Solid(s: string) {
    s != [] && s[0] !in {' ', '\n', '\r', '\t', ',', ']', '}'}
  }

  lemma PrintSolid(j: Json)
    ensures Solid(Print(j))
  {
    if j.Int? {
      assert IntText(j.n)[0] == '-' || Decimal.IsDigit(IntText(j.n)[0]);
    }
  }

  lemma NoSkipItems(items: seq<Json>, rest: string)
    requires items != []
    ensures Solid(PrintItems(items) + rest) && Skip(PrintItems(items) + rest) == PrintItems(items) + rest
  {
    PrintSolid(items[0]);
  }

  lemma NoSkipMembers(members: seq<Pair>, rest: string)
    requires members != []
    ensures Solid(PrintMembers(members) + rest) && Skip(PrintMembers(members) + rest) == PrintMembers(members) + rest
  {
    assert PrintPair(members[0])[0] == '"';
  }

  lemma {:induction false} ReadPrintedItems(items: seq<Json>, rest: string)
    requires items != []
    ensures ReadItems(PrintItems(items) + ("]" + rest)) == Some((ToValues(items), rest))
    decreases items, 0
  {
    hide ReadValue, Print, ToValue;
    var close := "]" + rest;
    assert close[1..] == rest && Skip(close) == close;
    if |items| == 1 {
      ReadPrinted(items[0], close);
      assert ToValues(items) == [ToValue(items[0])];
    } else {
      var tail := PrintItems(items[1..]) + close;
      var comma := "," + tail;
      ReadPrintedItems(items[1..], rest);
      ReadPrinted(items[0], comma);
      NoSkipItems(items[1..], close);
      assert PrintItems(items) + close == Print(items[0]) + comma;
      assert comma[1..] == tail && Skip(comma) == comma;
    }
  }

  lemma ReadPrintedPair(p: Pair, rest: string)
    requires Terminated(rest)
    ensures ReadMember(PrintPair(p) + rest) == Some((ToMember(p), rest))
    decreases p
  {
    hide ReadValue, ReadString, Print, Escaped, ToValue;
    var value := Print(p.value) + rest;
    var s, colon := PrintPair(p) + rest, ":" + value;
    StringRoundTrip(p.key, colon);
    ReadPrinted(p.value, rest);
    PrintSolid(p.value);
    assert s == "\"" + (Escaped(p.key) + ("\"" + colon));
    assert s[1..] == Escaped(p.key) + ("\"" + colon);
    assert colon[1..] == value && Skip(colon) == colon;
    assert value[0] == Print(p.value)[0] && Skip(value) == value;
  }

  lemma {:induction false} ReadPrintedMembers(members: seq<Pair>, rest: string)
    requires members != []
    ensures ReadMembers(PrintMembers(members) + ("}" + rest)) == Some((ToMembers(members), rest))
    decreases members, 0
  {
    hide ReadMember, PrintPair, ToMember;
    var close := "}" + rest;
    assert close[1..] == rest && Skip(close) == close;
    if |members| == 1 {
      ReadPrintedPair(members[0], close);
      assert ToMembers(members) == [ToMember(members[0])];
    } else {
      var tail := PrintMembers(members[1..]) + close;
      var comma := "," + tail;
      ReadPrintedMembers(members[1..], rest);
      ReadPrintedPair(members[0], comma);
      NoSkipMembers(members[1..], close);
      assert PrintMembers(members) + close == PrintPair(members[0]) + comma;
      assert comma[1..] == tail && Skip(comma) == comma;
    }
  }

  /** A printed document reads back as the value it was printed from. */
  lemma DocumentRoundTrip(j: Json)
    ensures Read(Print(j)) == Some(ToValue(j))
  {
    ReadPrinted(j, "");
    PrintSolid(j);
    assert Print(j) + "" == Print(j);
  }
}
