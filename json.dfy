/** JSON values and Python's `json.dumps` with its default settings
    (`ensure_ascii=True`, separators ", " and ": ", keys in insertion
    order). The audit log relies on one property of it: the text it
    produces is printable ASCII, so it never contains a line break. */
module Json {
  import Decimal

  datatype Json =
    | JNull
    | JBool(b: bool)
    | JInt(i: int)
    | JStr(s: string)
    | JArr(items: seq<Json>)
    | JObj(members: seq<Member>)

  datatype Member = Member(key: string, value: Json)

  predicate IsPrintable(c: char) { ' ' <= c <= '~' }

  predicate Printable(s: string) { forall i :: 0 <= i < |s| ==> IsPrintable(s[i]) }

  function HexDigit(d: nat): (c: char)
    requires d < 16
    ensures IsPrintable(c)
  {
    if d < 10 then ('0' as int + d) as char else ('a' as int + d - 10) as char
  }

  /** Four lower-case hexadecimal digits, as in `'\\u{0:04x}'`. */
  function Hex4(n: nat): (s: string)
    requires n < 0x1_0000
    ensures |s| == 4 && Printable(s)
  {
    [HexDigit(n / 0x1000), HexDigit(n / 0x100 % 16), HexDigit(n / 0x10 % 16), HexDigit(n % 16)]
  }

  /** The escaped form of one character inside a JSON string. */
  function EscapeChar(c: char): (e: string)
    ensures Printable(e) && |e| >= 1
  {
    if c == '"' then "\\\""
    else if c == '\\' then "\\\\"
    else if c == '\n' then "\\n"
    else if c == '\r' then "\\r"
    else if c == '\t' then "\\t"
    else if c == 8 as char then "\\b"
    else if c == 12 as char then "\\f"
    else if IsPrintable(c) then [c]
    else if (c as int) < 0x1_0000 then "\\u" + Hex4(c as int)
    else
      var v := c as int - 0x1_0000;
      "\\u" + Hex4(0xD800 + v / 0x400) + "\\u" + Hex4(0xDC00 + v % 0x400)
  }

  function EscapeString(s: string): (e: string)
    ensures Printable(e)
  {
    if s == [] then [] else EscapeChar(s[0]) + EscapeString(s[1..])
  }

  function Quote(s: string): (q: string)
    ensures Printable(q)
  {
    "\"" + EscapeString(s) + "\""
  }

  /** `sep.join(parts)` for a separator of any length. */
  function JoinWith(parts: seq<string>, sep: string): string
  {
    if parts == [] then ""
    else if |parts| == 1 then parts[0]
    else parts[0] + sep + JoinWith(parts[1..], sep)
  }

  lemma {:induction false} JoinWithPrintable(parts: seq<string>, sep: string)
    requires Printable(sep)
    requires forall i :: 0 <= i < |parts| ==> Printable(parts[i])
    ensures Printable(JoinWith(parts, sep))
  {
    if |parts| > 1 {
      JoinWithPrintable(parts[1..], sep);
    }
  }

  function IntText(i: int): string
  {
    if i < 0 then "-" + Decimal.Dec(-i) else Decimal.Dec(i)
  }

  /** `json.dumps(value)`. */
  function Dumps(j: Json): string
    decreases j
  {
    match j
    case JNull => "null"
    case JBool(b) => if b then "true" else "false"
    case JInt(i) => IntText(i)
    case JStr(s) => Quote(s)
    case JArr(items) =>
      "[" + JoinWith(seq(|items|, k requires 0 <= k < |items| => Dumps(items[k])), ", ") + "]"
    case JObj(members) =>
      "{" + JoinWith(seq(|members|, k requires 0 <= k < |members| =>
        assert members[k] < j;
        Quote(members[k].key) + ": " + Dumps(members[k].value)), ", ") + "}"
  }

  /** Every character `json.dumps` writes is printable ASCII; in particular
      a dumped value never holds a newline. */
  lemma {:induction false} DumpsPrintable(j: Json)
    ensures Printable(Dumps(j))
    decreases j
  {
    match j
    case JNull =>
    case JBool(b) =>
    case JInt(i) =>
      var d := Decimal.Dec(if i < 0 then -i else i);
      assert Printable(d);
    case JStr(s) =>
    case JArr(items) =>
      var parts := seq(|items|, k requires 0 <= k < |items| => Dumps(items[k]));
      forall k | 0 <= k < |items| ensures Printable(parts[k]) {
        DumpsPrintable(items[k]);
      }
      JoinWithPrintable(parts, ", ");
    case JObj(members) =>
      var parts := seq(|members|, k requires 0 <= k < |members| =>
        Quote(members[k].key) + ": " + Dumps(members[k].value));
      forall k | 0 <= k < |members| ensures Printable(parts[k]) {
        assert members[k] < j;
        DumpsPrintable(members[k].value);
      }
      JoinWithPrintable(parts, ", ");
  }

  lemma DumpsHasNoNewline(j: Json)
    ensures '\n' !in Dumps(j)
  {
    DumpsPrintable(j);
    var d := Dumps(j);
    assert forall i :: 0 <= i < |d| ==> d[i] != '\n';
  }
}
