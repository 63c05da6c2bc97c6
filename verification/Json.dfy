// JSON: the trees parted prints, and a parser for the texts, as in sections 2
// to 7 of RFC 8259.

module Json {
  import opened Common
  import opened Characters
  import opened Decimals

  datatype Value =
    | Object(fields: Fields)
    | Array(items: Items)
    | Text(s: string)
    | Number(n: nat)
    | Boolean(b: bool)
    | Null
  {
    predicate IsScalar() {
      !Object? && !Array?
    }
  }

  datatype Fields = NoFields | Field(name: string, value: Value, rest: Fields)
  datatype Items = NoItems | Item(value: Value, rest: Items)

  // ----- The parser -----

  /** ws. */
  function SkipWs(s: string): (r: string)
    ensures |r| <= |s|
  {
    if s != "" && (s[0] == ' ' || s[0] == '\t' || s[0] == '\n' || s[0] == '\r') then SkipWs(s[1..]) else s
  }

  datatype Parsed<+T> = Fail | Done(value: T, rest: string)

  /** The character behind a reverse solidus, section 7. */
  function ShortEscape(c: char): Option<char> {
    if c == '"' || c == '\\' || c == '/' then Some(c)
    else if c == 'b' then Some(8 as char)
    else if c == 'f' then Some(12 as char)
    else if c == 'n' then Some('\n')
    else if c == 'r' then Some('\r')
    else if c == 't' then Some('\t')
    else None
  }

  /** A string, behind its opening quotation mark.  Surrogate pairs are refused. */
  function ParseString(s: string): (r: Parsed<string>)
    ensures r.Done? ==> |r.rest| < |s|
  {
    if s == "" || s[0] < ' ' then Fail
    else if s[0] == '"' then Done("", s[1..])
    else if s[0] != '\\' then
      match ParseString(s[1..])
      case Fail => Fail
      case Done(v, rest) => Done([s[0]] + v, rest)
    else if |s| >= 2 && ShortEscape(s[1]).Some? then
      match ParseString(s[2..])
      case Fail => Fail
      case Done(v, rest) => Done([ShortEscape(s[1]).value] + v, rest)
    else if |s| >= 6 && s[1] == 'u' && Hex(s[2]) >= 0 && Hex(s[3]) >= 0 && Hex(s[4]) >= 0 && Hex(s[5]) >= 0 then
      var n := Hex(s[2]) * 4096 + Hex(s[3]) * 256 + Hex(s[4]) * 16 + Hex(s[5]);
      if 0xD800 <= n <= 0xDFFF then Fail
      else
        match ParseString(s[6..])
        case Fail => Fail
        case Done(v, rest) => Done([n as char] + v, rest)
    else Fail
  }

  /** A number that is a natural one; no sign, fraction or exponent. */
  function ParseNumber(s: string): (r: Parsed<Value>)
    ensures r.Done? ==> |r.rest| < |s|
  {
    var k := Digits(s);
    if k == 0 || (s[0] == '0' && k > 1) || (k < |s| && s[k] in {'.', 'e', 'E'}) then Fail
    else Done(Number(ValueOf(s[..k])), s[k..])
  }

  function ParseWord(s: string, word: string, v: Value): (r: Parsed<Value>)
    requires word != ""
    ensures r.Done? ==> |r.rest| < |s|
  {
    if |s| >= |word| && s[..|word|] == word then Done(v, s[|word|..]) else Fail
  }

  /** A value, with no blanks in front. */
  function ParseValue(s: string): (r: Parsed<Value>)
    ensures r.Done? ==> |r.rest| < |s|
    decreases |s|, 1
  {
    if s == "" then Fail
    else if s[0] == '{' then
      match ParseFields(SkipWs(s[1..]), true)
      case Fail => Fail
      case Done(v, rest) => Done(Object(v), rest)
    else if s[0] == '[' then
      match ParseItems(SkipWs(s[1..]), true)
      case Fail => Fail
      case Done(v, rest) => Done(Array(v), rest)
    else if s[0] == '"' then
      match ParseString(s[1..])
      case Fail => Fail
      case Done(v, rest) => Done(Text(v), rest)
    else if IsDigit(s[0]) then ParseNumber(s)
    else if s[0] == 't' then ParseWord(s, "true", Boolean(true))
    else if s[0] == 'f' then ParseWord(s, "false", Boolean(false))
    else ParseWord(s, "null", Null)
  }

  /** The members of an object up to its closing brace; it may be empty only at
      the start. */
  function ParseFields(s: string, first: bool): (r: Parsed<Fields>)
    ensures r.Done? ==> |r.rest| < |s|
    decreases |s|, 0
  {
    if s == "" then Fail
    else if first && s[0] == '}' then Done(NoFields, s[1..])
    else if s[0] != '"' then Fail
    else
      match ParseString(s[1..])
      case Fail => Fail
      case Done(name, afterName) =>
        var colon := SkipWs(afterName);
        if colon == "" || colon[0] != ':' then Fail
        else
          match ParseValue(SkipWs(colon[1..]))
          case Fail => Fail
          case Done(v, afterValue) =>
            var next := SkipWs(afterValue);
            if next == "" then Fail
            else if next[0] == '}' then Done(Field(name, v, NoFields), next[1..])
            else if next[0] != ',' then Fail
            else
              match ParseFields(SkipWs(next[1..]), false)
              case Fail => Fail
              case Done(more, rest) => Done(Field(name, v, more), rest)
  }

  function ParseItems(s: string, first: bool): (r: Parsed<Items>)
    ensures r.Done? ==> |r.rest| < |s|
    decreases |s|, 2
  {
    if s == "" then Fail
    else if first && s[0] == ']' then Done(NoItems, s[1..])
    else
      match ParseValue(s)
      case Fail => Fail
      case Done(v, afterValue) =>
        var next := SkipWs(afterValue);
        if next == "" then Fail
        else if next[0] == ']' then Done(Item(v, NoItems), next[1..])
        else if next[0] != ',' then Fail
        else
          match ParseItems(SkipWs(next[1..]), false)
          case Fail => Fail
          case Done(more, rest) => Done(Item(v, more), rest)
  }

  /** JSON-text: ws value ws. */
  function Parse(s: string): Option<Value> {
    match ParseValue(SkipWs(s))
    case Fail => None
    case Done(v, rest) => if SkipWs(rest) == "" then Some(v) else None
  }
}
