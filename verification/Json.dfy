/** JSON texts (RFC 8259): the compact writer the server uses and a full reader, with the
    proof that reading undoes writing and that written text never contains a line break. */
module Json {
  import opened Wrappers

  datatype Json =
    | Null
    | Bool(b: bool)
    | Number(lexeme: string)
    | Str(text: string)
    | Arr(items: seq<Json>)
    | Obj(fields: seq<Field>)

  datatype Field = Field(name: string, value: Json)

  // ---------- characters ----------

  function HexChar(d: nat): (c: char)
    requires d < 16
  {
    if d < 10 then '0' + d as char else 'a' + (d - 10) as char
  }

  function HexValue(c: char): Option<nat> {
    if '0' <= c <= '9' then Some(c as nat - '0' as nat)
    else if 'a' <= c <= 'f' then Some(c as nat - 'a' as nat + 10)
    else if 'A' <= c <= 'F' then Some(c as nat - 'A' as nat + 10)
    else None
  }

  predicate IsControl(c: char) {
    c < ' '
  }

  predicate IsJsonSpace(c: char) {
    c == ' ' || c == '\t' || c == '\n' || c == '\r'
  }

  predicate IsDigit(c: char) {
    '0' <= c <= '9'
  }

  predicate IsNumberChar(c: char) {
    IsDigit(c) || c == '-' || c == '+' || c == '.' || c == 'e' || c == 'E'
  }

  // ---------- writing ----------

  /** Section 7: quote, backslash and control characters are escaped, nothing else is. */
  function EscapeChar(c: char): string {
    if c == '\"' then "\\\""
    else if c == '\\' then "\\\\"
    else if c == '\n' then "\\n"
    else if c == '\r' then "\\r"
    else if c == '\t' then "\\t"
    else if c == '\U{8}' then "\\b"
    else if c == '\U{c}' then "\\f"
    else if IsControl(c) then ['\\', 'u', '0', '0', HexChar(c as nat / 16), HexChar(c as nat % 16)]
    else [c]
  }

  function Escape(s: string): string {
    if s == "" then "" else EscapeChar(s[0]) + Escape(s[1..])
  }

  function Quote(s: string): string {
    "\"" + Escape(s) + "\""
  }

  function Write(v: Json): string
    decreases v, 1
  {
    match v
    case Null => "null"
    case Bool(b) => if b then "true" else "false"
    case Number(lexeme) => lexeme
    case Str(text) => Quote(text)
    case Arr(items) => "[" + WriteItems(items) + "]"
    case Obj(fields) => "{" + WriteFields(fields) + "}"
  }

  function WriteItems(items: seq<Json>): string
    decreases items, 0
  {
    if items == [] then ""
    else if |items| == 1 then Write(items[0])
    else Write(items[0]) + "," + WriteItems(items[1..])
  }

  function WriteFields(fields: seq<Field>): string
    decreases fields, 0
  {
    if fields == [] then ""
    else if |fields| == 1 then WriteField(fields[0])
    else WriteField(fields[0]) + "," + WriteFields(fields[1..])
  }

  function WriteField(f: Field): string
    decreases f, 2
  {
    Quote(f.name) + ":" + Write(f.value)
  }

  // ---------- reading ----------

  datatype Parsed<+T> = Bad | Good(value: T, rest: string)

  function SkipSpace(s: string): (r: string)
    ensures |r| <= |s|
    ensures r == "" || !IsJsonSpace(r[0])
  {
    if s != "" && IsJsonSpace(s[0]) then SkipSpace(s[1..]) else s
  }

  function HexCode(s: string): Option<nat>
    requires |s| == 4
  {
    var a, b, c, d := HexValue(s[0]), HexValue(s[1]), HexValue(s[2]), HexValue(s[3]);
    if a.Some? && b.Some? && c.Some? && d.Some?
    then Some(4096 * a.value + 256 * b.value + 16 * c.value + d.value) else None
  }

  predicate IsScalar(code: nat) {
    code < 0xD800 || 0xE000 <= code < 0x110000
  }

  /** The character after `\u`, and what follows it; a surrogate must come in a pair. */
  function UnicodeEscape(s: string): (r: Parsed<char>)
    ensures r.Good? ==> |r.rest| < |s|
  {
    if |s| < 4 || HexCode(s[..4]).None? then Bad
    else
      var code := HexCode(s[..4]).value;
      if IsScalar(code) then Good(code as char, s[4..])
      else if code < 0xDC00 && |s| >= 10 && s[4] == '\\' && s[5] == 'u' && HexCode(s[6..10]).Some? then
        var low := HexCode(s[6..10]).value;
        var joined := 0x10000 + (code - 0xD800) * 0x400 + (low - 0xDC00);
        if 0xDC00 <= low < 0xE000 && 0x10000 <= joined && IsScalar(joined) then Good(joined as char, s[10..]) else Bad
      else Bad
  }

  /** One possibly escaped character of a string. */
  function ReadChar(s: string): (r: Parsed<char>)
    ensures r.Good? ==> |r.rest| < |s|
  {
    if s == "" || s[0] == '\"' || IsControl(s[0]) then Bad
    else if s[0] != '\\' then Good(s[0], s[1..])
    else if |s| == 1 then Bad
    else
      var c := s[1];
      if c == '\"' || c == '\\' || c == '/' then Good(c, s[2..])
      else if c == 'b' then Good('\U{8}', s[2..])
      else if c == 'f' then Good('\U{c}', s[2..])
      else if c == 'n' then Good('\n', s[2..])
      else if c == 'r' then Good('\r', s[2..])
      else if c == 't' then Good('\t', s[2..])
      else if c == 'u' then UnicodeEscape(s[2..])
      else Bad
  }

  /** The rest of a string after its opening quote. */
  function ReadString(s: string): (r: Parsed<string>)
    ensures r.Good? ==> |r.rest| < |s|
    decreases |s|
  {
    if s != "" && s[0] == '\"' then Good("", s[1..])
    else
      match ReadChar(s)
      case Bad => Bad
      case Good(c, rest) =>
        match ReadString(rest)
        case Bad => Bad
        case Good(text, rest') => Good([c] + text, rest')
  }

  function DropDigits(s: string): (r: string)
    ensures |r| <= |s|
  {
    if s != "" && IsDigit(s[0]) then DropDigits(s[1..]) else s
  }

  predicate StartsWithDigit(s: string) {
    s != "" && IsDigit(s[0])
  }

  /** Section 6: optional minus, integer, optional fraction, optional exponent. */
  predicate IsNumber(s: string) {
    var unsigned := if s != "" && s[0] == '-' then s[1..] else s;
    && StartsWithDigit(unsigned)
    && (forall i | 0 <= i < |s| :: IsNumberChar(s[i]))
    && var afterInt := if unsigned[0] == '0' then unsigned[1..] else DropDigits(unsigned);
       var hasFraction := afterInt != "" && afterInt[0] == '.';
       var fraction := if hasFraction then afterInt[1..] else afterInt;
       && (hasFraction ==> StartsWithDigit(fraction))
       && var afterFraction := if hasFraction then DropDigits(fraction) else afterInt;
          afterFraction == "" ||
          ((afterFraction[0] == 'e' || afterFraction[0] == 'E') &&
           var exponent := afterFraction[1..];
           var digits := if exponent != "" && (exponent[0] == '+' || exponent[0] == '-') then exponent[1..] else exponent;
           StartsWithDigit(digits) && DropDigits(digits) == "")
  }

  function NumberLength(s: string): (n: nat)
    ensures n <= |s|
  {
    if s != "" && IsNumberChar(s[0]) then 1 + NumberLength(s[1..]) else 0
  }

  function Literal(s: string, word: string, v: Json): (r: Parsed<Json>)
    requires word != ""
    ensures r.Good? ==> |r.rest| < |s|
  {
    if word <= s then Good(v, s[|word|..]) else Bad
  }

  function ReadValue(s: string): (r: Parsed<Json>)
    ensures r.Good? ==> |r.rest| < |s|
    decreases |s|, 1
  {
    var t := SkipSpace(s);
    if t == "" then Bad
    else if t[0] == '\"' then
      match ReadString(t[1..])
      case Bad => Bad
      case Good(text, rest) => Good(Str(text), rest)
    else if t[0] == '[' then ReadArray(t[1..])
    else if t[0] == '{' then ReadObject(t[1..])
    else if t[0] == 'n' then Literal(t, "null", Null)
    else if t[0] == 't' then Literal(t, "true", Bool(true))
    else if t[0] == 'f' then Literal(t, "false", Bool(false))
    else
      var n := NumberLength(t);
      if n > 0 && IsNumber(t[..n]) then Good(Number(t[..n]), t[n..]) else Bad
  }

  /** After `[`. */
  function ReadArray(s: string): (r: Parsed<Json>)
    ensures r.Good? ==> |r.rest| < |s|
    decreases |s|, 3
  {
    var t := SkipSpace(s);
    if t != "" && t[0] == ']' then Good(Arr([]), t[1..])
    else
      match ReadItems(s)
      case Bad => Bad
      case Good(items, rest) => Good(Arr(items), rest)
  }

  /** One or more items and the closing bracket. */
  function ReadItems(s: string): (r: Parsed<seq<Json>>)
    ensures r.Good? ==> |r.rest| < |s|
    decreases |s|, 2
  {
    match ReadValue(s)
    case Bad => Bad
    case Good(v, rest) =>
      var t := SkipSpace(rest);
      if t == "" then Bad
      else if t[0] == ']' then Good([v], t[1..])
      else if t[0] != ',' then Bad
      else
        match ReadItems(t[1..])
        case Bad => Bad
        case Good(items, rest') => Good([v] + items, rest')
  }

  /** After `{`. */
  function ReadObject(s: string): (r: Parsed<Json>)
    ensures r.Good? ==> |r.rest| < |s|
    decreases |s|, 3
  {
    var t := SkipSpace(s);
    if t != "" && t[0] == '}' then Good(Obj([]), t[1..])
    else
      match ReadFields(s)
      case Bad => Bad
      case Good(fields, rest) => Good(Obj(fields), rest)
  }

  function ReadField(s: string): (r: Parsed<Field>)
    ensures r.Good? ==> |r.rest| < |s|
    decreases |s|, 0
  {
    var t := SkipSpace(s);
    if t == "" || t[0] != '\"' then Bad
    else
      match ReadString(t[1..])
      case Bad => Bad
      case Good(name, rest) =>
        var u := SkipSpace(rest);
        if u == "" || u[0] != ':' then Bad
        else
          match ReadValue(u[1..])
          case Bad => Bad
          case Good(v, rest') => Good(Field(name, v), rest')
  }

  function ReadFields(s: string): (r: Parsed<seq<Field>>)
    ensures r.Good? ==> |r.rest| < |s|
    decreases |s|, 2
  {
    match ReadField(s)
    case Bad => Bad
    case Good(f, rest) =>
      var t := SkipSpace(rest);
      if t == "" then Bad
      else if t[0] == '}' then Good([f], t[1..])
      else if t[0] != ',' then Bad
      else
        match ReadFields(t[1..])
        case Bad => Bad
        case Good(fields, rest') => Good([f] + fields, rest')
  }

  /** `JSON.parse` */
  function Read(s: string): Option<Json> {
    match ReadValue(s)
    case Bad => None
    case Good(v, rest) => if SkipSpace(rest) == "" then Some(v) else None
  }
}
