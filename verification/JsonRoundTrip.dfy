// What the JSON writer writes is read back as the tree it was given.

module JsonRoundTrip {
  import opened Common
  import opened Characters
  import opened Decimals
  import opened Json
  import opened JsonWriter

  // ----- Strings and numbers -----

  /** A character in the case asked for: 1 upper, -1 lower, 0 its own. */
  function InCase(c: char, dir: int): char {
    if dir == 1 then Upper(c) else if dir == -1 then Lower(c) else c
  }

  /** How a string comes back: names in lower case. */
  function Cased(s: string, dir: int): string {
    if s == "" then "" else [InCase(s[0], dir)] + Cased(s[1..], dir)
  }

  /** One escaped character is one character read. */
  lemma ParseChar(c: char, dir: int, text: string)
    ensures ParseString(EscapeChar(c, dir) + text) == InFront(InCase(c, dir), ParseString(text))
  {
    hide ParseString;
    if c == '"' || c == '\\' {
      ParsePair(c, text);
    } else if c >= ' ' {
      ParsePlain(InCase(c, dir), text);
    } else if |EscapeChar(c, dir)| == 2 {
      ParsePair(EscapeChar(c, dir)[1], text);
      assert EscapeChar(c, dir) == ['\\', EscapeChar(c, dir)[1]];
    } else {
      ParseUnicode(c, text);
    }
  }

  /** What ParseString makes of a character in front of text. */
  function InFront(c: char, p: Parsed<string>): Parsed<string> {
    match p
    case Fail => Fail
    case Done(v, rest) => Done([c] + v, rest)
  }

  lemma ParsePlain(c: char, text: string)
    requires c >= ' ' && c != '"' && c != '\\'
    ensures ParseString([c] + text) == InFront(c, ParseString(text))
  {
    assert ([c] + text)[1..] == text;
  }

  lemma ParsePair(e: char, text: string)
    requires ShortEscape(e).Some?
    ensures ParseString(['\\', e] + text) == InFront(ShortEscape(e).value, ParseString(text))
  {
    assert (['\\', e] + text)[2..] == text;
  }

  lemma ParseUnicode(c: char, text: string)
    requires c < ' '
    ensures ParseString("\\u00" + [HexDigit(c as int / 16, false), HexDigit(c as int % 16, false)] + text)
         == InFront(c, ParseString(text))
  {
    var a, b := HexDigit(c as int / 16, false), HexDigit(c as int % 16, false);
    var s := "\\u00" + [a, b] + text;
    assert s == ['\\', 'u', '0', '0', a, b] + text && s[6..] == text;
    hide HexDigit;
    assert Hex('0') == 0;
  }

  lemma {:induction false} ParseEscaped(s: string, dir: int, tail: string)
    ensures ParseString(Escape(s, dir) + "\"" + tail) == Done(Cased(s, dir), tail)
  {
    if s == "" {
      assert Escape(s, dir) + "\"" + tail == "\"" + tail;
      assert ("\"" + tail)[1..] == tail;
    } else {
      hide EscapeChar, ParseString;
      ParseEscaped(s[1..], dir, tail);
      var rest := Escape(s[1..], dir) + "\"" + tail;
      assert Escape(s, dir) + "\"" + tail == EscapeChar(s[0], dir) + rest;
      ParseChar(s[0], dir, rest);
    }
  }

  /** What may follow a value: no character that could belong to a number. */
  predicate Ends(tail: string) {
    tail != "" && (tail[0] == ',' || tail[0] == '\n')
  }

  lemma ParseDecimal(n: nat, tail: string)
    requires Ends(tail)
    ensures ParseValue(Decimal(n) + tail) == Done(Number(n), tail)
  {
    hide Decimal, ValueOf, Digits;
    var d := Decimal(n);
    DecimalDigits(n);
    DigitsEnd(d, tail);
    assert (d + tail)[0] == d[0] && (d + tail)[..|d|] == d && (d + tail)[|d|..] == tail;
    assert IsDigit(d[0]);
  }

  /** How a tree comes back. */
  function Lowered(v: Value): Value
    decreases v
  {
    match v
    case Object(fields) => Object(LoweredFields(fields))
    case Array(items) => Array(LoweredItems(items))
    case _ => v
  }

  function LoweredFields(fields: Fields): Fields
    decreases fields
  {
    match fields
    case NoFields => NoFields
    case Field(name, v, rest) => Field(Cased(name, -1), Lowered(v), LoweredFields(rest))
  }

  function LoweredItems(items: Items): Items
    decreases items
  {
    match items
    case NoItems => NoItems
    case Item(v, rest) => Item(Lowered(v), LoweredItems(rest))
  }

  lemma {:induction false} CasedSame(s: string)
    ensures Cased(s, 0) == s
  {
    if s != "" {
      CasedSame(s[1..]);
    }
  }

  lemma ParseText(s: string, tail: string)
    ensures ParseValue(Quote(s, 0) + tail) == Done(Text(s), tail)
  {
    hide Escape, ParseString;
    var text := Quote(s, 0) + tail;
    ParseEscaped(s, 0, tail);
    CasedSame(s);
    assert text[0] == '"' && text[1..] == Escape(s, 0) + "\"" + tail;
  }

  lemma ParseLiteral(word: string, v: Value, tail: string)
    requires (word == "true" && v == Boolean(true)) || (word == "false" && v == Boolean(false))
        || (word == "null" && v == Null)
    ensures ParseValue(word + tail) == Done(v, tail)
  {
    var text := word + tail;
    assert text[0] == word[0] && text[..|word|] == word && text[|word|..] == tail;
  }

  lemma ParseScalar(v: Value, tail: string)
    requires v.IsScalar() && Ends(tail)
    ensures ParseValue(ScalarText(v) + tail) == Done(Lowered(v), tail)
  {
    hide ParseValue, Quote, Decimal;
    match v
    case Text(s) => ParseText(s, tail);
    case Number(n) => ParseDecimal(n, tail);
    case Boolean(b) => ParseLiteral(ScalarText(v), v, tail);
    case Null => ParseLiteral("null", v, tail);
  }

  // ----- Text -----

  function KindOf(v: Value): Kind {
    match v
    case Object(_) => OBJECT
    case Array(_) => ARRAY
    case _ => VALUE
  }

  /** The text of a value behind what opens it. */
  function Inner(v: Value, indent: int): string
    decreases v
  {
    match v
    case Object(fields) => FieldsText(fields, indent + 1, false) + "\n" + Indent(indent) + "}"
    case Array(items) => ItemsText(items, indent + 1, false) + "\n" + Indent(indent) + "]"
    case _ => ScalarText(v)
  }

  function FieldsText(fields: Fields, indent: int, after: bool): string
    decreases fields
  {
    match fields
    case NoFields => ""
    case Field(name, v, rest) =>
      Head(Some(name), indent, after) + Opening(Some(name), KindOf(v)) + Inner(v, indent) + FieldsText(rest, indent,
          true)
  }

  function ItemsText(items: Items, indent: int, after: bool): string
    decreases items
  {
    match items
    case NoItems => ""
    case Item(v, rest) =>
      Head(None, indent, after) + Opening(None, KindOf(v)) + Inner(v, indent) + ItemsText(rest, indent, true)
  }

  lemma Regroup(p: string, a: string, b: string, c: string, d: string)
    ensures p + a + b + c + d == p + (a + b + c + d)
  {
  }

  /** A container may stand directly in the root object, a scalar may not. */
  predicate Deep(v: Value, indent: int) {
    indent >= 2 || (indent == 1 && !v.IsScalar())
  }

  /** The writer produces that text. */
  lemma {:induction false} EmitsText(w: State, name: Option<string>, v: Value)
    requires Deep(v, w.indent)
    ensures Emitted(w, name, v)
         == Some(State(w.out + Head(name, w.indent, w.afterClose) + Opening(name, KindOf(v)) + Inner(v, w.indent),
             w.indent, true))
    decreases v
  {
    hide Head, Indent, ScalarText, Opening, Inner;
    match v
    case Object(fields) =>
      EmitsFields(Opened(w, name, OBJECT), fields);
      EmitsObject(w, name, fields);
    case Array(items) =>
      EmitsItems(Opened(w, name, ARRAY), items);
      EmitsArray(w, name, items);
    case _ =>
      EmitsScalar(w, name, v);
  }

  lemma EmitsObject(w: State, name: Option<string>, fields: Fields)
    requires w.indent >= 1
    requires var o := Opened(w, name, OBJECT);
      EmittedFields(o, fields)
          == Some(State(o.out + FieldsText(fields, o.indent, o.afterClose), o.indent, o.afterClose || fields.Field?))
    ensures Emitted(w, name, Object(fields))
         == Some(State(w.out + Head(name, w.indent, w.afterClose) + Opening(name, OBJECT) + Inner(Object(fields),
             w.indent), w.indent, true))
  {
    hide Head, Indent, Opening, FieldsText, EmittedFields;
    var h := w.out + Head(name, w.indent, w.afterClose) + Opening(name, OBJECT);
    Regroup(h, FieldsText(fields, w.indent + 1, false), "\n", Indent(w.indent), "}");
  }

  lemma EmitsArray(w: State, name: Option<string>, items: Items)
    requires w.indent >= 1
    requires var o := Opened(w, name, ARRAY);
      EmittedItems(o, items)
          == Some(State(o.out + ItemsText(items, o.indent, o.afterClose), o.indent, o.afterClose || items.Item?))
    ensures Emitted(w, name, Array(items))
         == Some(State(w.out + Head(name, w.indent, w.afterClose) + Opening(name, ARRAY) + Inner(Array(items),
             w.indent), w.indent, true))
  {
    hide Head, Indent, Opening, ItemsText, EmittedItems;
    var h := w.out + Head(name, w.indent, w.afterClose) + Opening(name, ARRAY);
    Regroup(h, ItemsText(items, w.indent + 1, false), "\n", Indent(w.indent), "]");
  }

  lemma EmitsScalar(w: State, name: Option<string>, v: Value)
    requires w.indent >= 2 && v.IsScalar()
    ensures Emitted(w, name, v)
         == Some(State(w.out + Head(name, w.indent, w.afterClose) + Opening(name, VALUE) + Inner(v, w.indent),
             w.indent, true))
  {
    hide Head, Opening, ScalarText;
  }

  lemma {:induction false} EmitsFields(w: State, fields: Fields)
    requires w.indent >= 2
    ensures EmittedFields(w, fields)
         == Some(State(w.out + FieldsText(fields, w.indent, w.afterClose), w.indent, w.afterClose || fields.Field?))
    decreases fields
  {
    match fields
    case NoFields =>
      assert w.out + "" == w.out;
    case Field(name, v, rest) =>
      hide Head, Inner, Opening;
      EmitsText(w, Some(name), v);
      EmitsFields(Emitted(w, Some(name), v).value, rest);
      Regroup(w.out, Head(Some(name), w.indent, w.afterClose), Opening(Some(name), KindOf(v)), Inner(v, w.indent),
          FieldsText(rest, w.indent, true));
  }

  lemma {:induction false} EmitsItems(w: State, items: Items)
    requires w.indent >= 2
    ensures EmittedItems(w, items)
         == Some(State(w.out + ItemsText(items, w.indent, w.afterClose), w.indent, w.afterClose || items.Item?))
    decreases items
  {
    match items
    case NoItems =>
      assert w.out + "" == w.out;
    case Item(v, rest) =>
      hide Head, Inner, Opening;
      EmitsText(w, None, v);
      EmitsItems(Emitted(w, None, v).value, rest);
      Regroup(w.out, Head(None, w.indent, w.afterClose), Opening(None, KindOf(v)), Inner(v, w.indent),
          ItemsText(rest, w.indent, true));
  }

  // ----- Reading the text back -----

  predicate IsWs(c: char) {
    c == ' ' || c == '\t' || c == '\n' || c == '\r'
  }

  predicate Solid(s: string) {
    s != "" && !IsWs(s[0])
  }

  lemma SkipBlank(s: string)
    ensures SkipWs(" " + s) == SkipWs(s)
  {
    assert (" " + s)[1..] == s;
  }

  lemma {:induction false} SkipIndent(n: int, s: string)
    ensures SkipWs(Indent(n) + s) == SkipWs(s)
    decreases n
  {
    if n <= 0 {
      assert Indent(n) + s == s;
    } else {
      var t := Indent(n - 1) + s;
      assert Indent(n) + s == "   " + t;
      assert "   " + t == " " + (" " + (" " + t));
      SkipBlank(t);
      SkipBlank(" " + t);
      SkipBlank(" " + (" " + t));
      SkipIndent(n - 1, s);
    }
  }

  lemma SkipLine(n: int, s: string)
    requires Solid(s)
    ensures SkipWs("\n" + Indent(n) + s) == s
  {
    hide Indent;
    SkipIndent(n, s);
    assert ("\n" + Indent(n) + s)[1..] == Indent(n) + s;
  }

  /** A value from its first character on. */
  function Whole(v: Value, indent: int): string {
    (if v.Object? then "{\n" else if v.Array? then "[\n" else "") + Inner(v, indent)
  }

  function Before(name: Option<string>, v: Value): string {
    if name.Some? then ": " else if v.IsScalar() then " " else ""
  }

  lemma WholeOpened(name: Option<string>, v: Value, indent: int)
    ensures Opening(name, KindOf(v)) + Inner(v, indent) == Before(name, v) + Whole(v, indent)
  {
    hide Inner;
  }

  lemma WholeSolid(v: Value, indent: int, tail: string)
    ensures Solid(Whole(v, indent) + tail)
  {
    hide Decimal;
    if v.Number? {
      DecimalDigits(v.n);
    }
  }

  /** The text of the members, from the first quotation mark on. */
  function FieldsWhole(fields: Fields, indent: int): string
    requires fields.Field?
  {
    Quote(fields.name, -1) + (": " + Whole(fields.value, indent)) + FieldsText(fields.rest, indent, true)
  }

  function ItemsWhole(items: Items, indent: int): string
    requires items.Item?
  {
    Whole(items.value, indent) + ItemsText(items.rest, indent, true)
  }

  lemma FieldsOpened(fields: Fields, indent: int, after: bool)
    requires fields.Field?
    ensures FieldsText(fields, indent, after)
        == (if after then ",\n" else "") + Indent(indent) + FieldsWhole(fields, indent)
  {
    hide Quote, Indent, Whole, Inner, Opening;
    WholeOpened(Some(fields.name), fields.value, indent);
    var q, o, n := Quote(fields.name, -1), Opening(Some(fields.name), KindOf(fields.value)), Inner(fields.value,
        indent);
    var p, r := (if after then ",\n" else "") + Indent(indent), FieldsText(fields.rest, indent, true);
    assert p + q + o + n + r == p + (q + (o + n) + r);
  }

  /** Items are separated by "," and, in front of a scalar, one blank. */
  lemma ItemsOpened(items: Items, indent: int, after: bool)
    requires items.Item?
    ensures ItemsText(items, indent, after)
         == (if after then "," else Indent(indent)) + Before(None, items.value) + ItemsWhole(items, indent)
  {
    hide Indent, Whole, Inner, Opening, Before;
    var o, n := Opening(None, KindOf(items.value)), Inner(items.value, indent);
    var p, r := if after then "," else Indent(indent), ItemsText(items.rest, indent, true);
    WholeOpened(None, items.value, indent);
    assert ItemsText(items, indent, after) == p + o + n + r;
    hide *;
    Reopened(p, o, n, Before(None, items.value), Whole(items.value, indent), r);
    ItemsWholeOf(items, indent);
  }

  lemma ItemsWholeOf(items: Items, indent: int)
    requires items.Item?
    ensures ItemsWhole(items, indent) == Whole(items.value, indent) + ItemsText(items.rest, indent, true)
  {
    hide Whole, ItemsText;
  }

  lemma Reopened(p: string, o: string, n: string, b: string, w: string, r: string)
    requires o + n == b + w
    ensures p + o + n + r == p + b + (w + r)
  {
    assert p + o + n + r == p + (o + n) + r;
    assert p + (b + w) + r == p + b + (w + r);
  }

  /** The end of a container whose own line has that indentation. */
  function Ending(indent: int, bracket: char): string {
    "\n" + Indent(indent) + [bracket]
  }

  lemma SkipEnding(indent: int, bracket: char, tail: string)
    requires !IsWs(bracket)
    ensures SkipWs(Ending(indent, bracket) + tail) == [bracket] + tail
    ensures Ending(indent, bracket) + tail != "" && (Ending(indent, bracket) + tail)[0] == '\n'
  {
    SkipLine(indent, [bracket] + tail);
    assert Ending(indent, bracket) + tail == "\n" + Indent(indent) + ([bracket] + tail);
  }

  /** What ParseFields does behind a member. */
  function AfterMember(name: string, v: Value, r: string): Parsed<Fields> {
    var next := SkipWs(r);
    if next == "" then Fail
    else if next[0] == '}' then Done(Field(name, v, NoFields), next[1..])
    else if next[0] != ',' then Fail
    else
      match ParseFields(SkipWs(next[1..]), false)
      case Fail => Fail
      case Done(more, rest) => Done(Field(name, v, more), rest)
  }

  function AfterElement(v: Value, r: string): Parsed<Items> {
    var next := SkipWs(r);
    if next == "" then Fail
    else if next[0] == ']' then Done(Item(v, NoItems), next[1..])
    else if next[0] != ',' then Fail
    else
      match ParseItems(SkipWs(next[1..]), false)
      case Fail => Fail
      case Done(more, rest) => Done(Item(v, more), rest)
  }

  /** One step of ParseFields: a name, a colon, a value. */
  lemma MemberRead(name: string, whole: string, v: Value, r: string, first: bool)
    requires Solid(whole + r) && ParseValue(whole + r) == Done(v, r)
    ensures ParseFields(Quote(name, -1) + (": " + whole) + r, first) == AfterMember(Cased(name, -1), v, r)
  {
    hide Escape, ParseString, ParseValue, Cased;
    var s := Quote(name, -1) + (": " + whole) + r;
    var x := ": " + (whole + r);
    ParseEscaped(name, -1, x);
    assert s[0] == '"' && s[1..] == Escape(name, -1) + "\"" + x;
    assert SkipWs(x) == x && x[1..] == " " + (whole + r);
    assert (" " + (whole + r))[1..] == whole + r;
    assert SkipWs(whole + r) == whole + r;
  }

  lemma {:induction false} ParseWhole(v: Value, indent: int, tail: string)
    requires Ends(tail)
    ensures ParseValue(Whole(v, indent) + tail) == Done(Lowered(v), tail)
    decreases v, 0
  {
    match v
    case Object(fields) =>
      ParseObject(fields, indent, tail);
    case Array(items) =>
      ParseArray(items, indent, tail);
    case _ =>
      assert Whole(v, indent) == ScalarText(v);
      ParseScalar(v, tail);
  }

  lemma ObjectOpened(fields: Fields, indent: int, tail: string)
    ensures var s := Whole(Object(fields), indent) + tail;
      s != "" && s[0] == '{' && s[1..] == "\n" + (FieldsText(fields, indent + 1, false) + Ending(indent, '}') + tail)
  {
    hide FieldsText;
    var text, e := FieldsText(fields, indent + 1, false), Ending(indent, '}');
    var s := Whole(Object(fields), indent) + tail;
    assert s == "{\n" + text + e + tail;
  }

  lemma {:induction false} ParseObject(fields: Fields, indent: int, tail: string)
    requires Ends(tail)
    ensures ParseValue(Whole(Object(fields), indent) + tail) == Done(Object(LoweredFields(fields)), tail)
    decreases fields, 2
  {
    hide ParseFields, Indent, FieldsText, FieldsWhole, Whole;
    var text, e := FieldsText(fields, indent + 1, false), Ending(indent, '}');
    ObjectOpened(fields, indent, tail);
    SkipEnding(indent, '}', tail);
    if fields == NoFields {
      EmptyFields(indent, tail);
    } else {
      FieldsOpened(fields, indent + 1, false);
      FieldsSolid(fields, indent + 1, e + tail);
      SkipLine(indent + 1, FieldsWhole(fields, indent + 1) + e + tail);
      assert "\n" + (text + e + tail) == "\n" + Indent(indent + 1) + (FieldsWhole(fields, indent + 1) + e + tail);
      ParseMembers(fields, indent + 1, indent, true, tail);
    }
  }

  lemma EmptyFields(indent: int, tail: string)
    ensures ParseFields(SkipWs("\n" + (FieldsText(NoFields, indent + 1, false) + Ending(indent, '}') + tail)),
        true) == Done(NoFields, tail)
  {
    hide Indent;
    SkipEnding(indent, '}', tail);
    var s := "\n" + (FieldsText(NoFields, indent + 1, false) + Ending(indent, '}') + tail);
    assert s[1..] == Ending(indent, '}') + tail;
    assert (['}'] + tail)[1..] == tail;
  }

  lemma FieldsSolid(fields: Fields, indent: int, tail: string)
    requires fields.Field?
    ensures Solid(FieldsWhole(fields, indent) + tail)
  {
    hide Whole, FieldsText, Escape;
  }

  /** From the first member to the closing brace. */
  lemma {:induction false} ParseMembers(fields: Fields, indent: int, outer: int, first: bool, tail: string)
    requires fields.Field? && Ends(tail)
    ensures ParseFields(FieldsWhole(fields, indent) + Ending(outer, '}') + tail, first)
        == Done(LoweredFields(fields), tail)
    decreases fields, 1
  {
    hide ParseFields, ParseValue, Whole, Indent, Quote, FieldsText, FieldsWhole, AfterMember;
    var e := Ending(outer, '}') + tail;
    var r := FieldsText(fields.rest, indent, true) + e;
    assert FieldsWhole(fields, indent) + Ending(outer, '}') + tail == FieldsWhole(fields, indent) + e;
    FieldsWholeIs(fields, indent, e);
    RestEnds(fields.rest, indent, outer, tail);
    WholeSolid(fields.value, indent, r);
    ParseWhole(fields.value, indent, r);
    MemberRead(fields.name, Whole(fields.value, indent), Lowered(fields.value), r, first);
    if fields.rest == NoFields {
      LastMember(Cased(fields.name, -1), Lowered(fields.value), indent, outer, tail);
    } else {
      ParseMembers(fields.rest, indent, outer, false, tail);
      NextMember(Cased(fields.name, -1), Lowered(fields.value), fields.rest, indent, outer, tail);
    }
  }

  lemma RestEnds(rest: Fields, indent: int, outer: int, tail: string)
    ensures Ends(FieldsText(rest, indent, true) + (Ending(outer, '}') + tail))
  {
    hide Indent, Inner, Opening, Quote;
    if rest.Field? {
      FieldsOpened(rest, indent, true);
    }
  }

  lemma LastMember(name: string, v: Value, indent: int, outer: int, tail: string)
    ensures AfterMember(name, v, FieldsText(NoFields, indent, true) + (Ending(outer, '}') + tail))
        == Done(Field(name, v, NoFields), tail)
  {
    hide Indent, ParseFields;
    var e := Ending(outer, '}') + tail;
    SkipEnding(outer, '}', tail);
    assert FieldsText(NoFields, indent, true) + e == e && (['}'] + tail)[1..] == tail;
  }

  lemma NextMember(name: string, v: Value, rest: Fields, indent: int, outer: int, tail: string)
    requires rest.Field?
    requires ParseFields(FieldsWhole(rest, indent) + Ending(outer, '}') + tail, false)
        == Done(LoweredFields(rest), tail)
    ensures AfterMember(name, v, FieldsText(rest, indent, true) + (Ending(outer, '}') + tail))
        == Done(Field(name, v, LoweredFields(rest)), tail)
  {
    hide Indent, ParseFields, FieldsText, FieldsWhole, LoweredFields, Ending;
    var e := Ending(outer, '}') + tail;
    var r, more := FieldsText(rest, indent, true) + e, FieldsWhole(rest, indent) + e;
    FieldsOpened(rest, indent, true);
    FieldsSolid(rest, indent, e);
    SkipLine(indent, more);
    assert more == FieldsWhole(rest, indent) + Ending(outer, '}') + tail;
    assert r == "," + ("\n" + Indent(indent) + more);
    assert r[0] == ',' && r[1..] == "\n" + Indent(indent) + more;
    assert SkipWs(r) == r;
  }

  lemma FieldsWholeIs(fields: Fields, indent: int, e: string)
    requires fields.Field?
    ensures FieldsWhole(fields, indent) + e
         == Quote(fields.name, -1) + (": " + Whole(fields.value, indent)) + (FieldsText(fields.rest, indent, true) + e)
  {
    hide Quote, Whole, FieldsText;
  }

  // ----- The same for arrays -----

  lemma {:induction false} ParseArray(items: Items, indent: int, tail: string)
    requires Ends(tail)
    ensures ParseValue(Whole(Array(items), indent) + tail) == Done(Array(LoweredItems(items)), tail)
    decreases items, 2
  {
    hide ParseItems, Indent, ItemsText, ItemsWhole, Before;
    var text, e := ItemsText(items, indent + 1, false), Ending(indent, ']');
    var s := Whole(Array(items), indent) + tail;
    assert s == "[\n" + text + e + tail;
    assert s[0] == '[' && s[1..] == "\n" + (text + e + tail);
    SkipEnding(indent, ']', tail);
    if items == NoItems {
      EmptyItems(indent, tail);
    } else {
      FirstElement(items, indent, tail);
      ParseElements(items, indent + 1, indent, true, tail);
    }
  }

  lemma FirstElement(items: Items, indent: int, tail: string)
    requires items.Item?
    ensures SkipWs("\n" + (ItemsText(items, indent + 1, false) + Ending(indent, ']') + tail))
         == ItemsWhole(items, indent + 1) + Ending(indent, ']') + tail
  {
    hide Indent, ItemsText, ItemsWhole, Before, Ending;
    var text, e := ItemsText(items, indent + 1, false), Ending(indent, ']');
    ItemsOpened(items, indent + 1, false);
    ItemsSolid(items, indent + 1, e + tail);
    var more := ItemsWhole(items, indent + 1) + e + tail;
    assert more == ItemsWhole(items, indent + 1) + (e + tail);
    SkipLineBefore(indent + 1, items.value, more);
    assert "\n" + (text + e + tail) == "\n" + Indent(indent + 1) + (Before(None, items.value) + more);
  }

  lemma EmptyItems(indent: int, tail: string)
    ensures ParseItems(SkipWs("\n" + (ItemsText(NoItems, indent + 1, false) + Ending(indent, ']') + tail)), true)
        == Done(NoItems, tail)
  {
    hide Indent;
    SkipEnding(indent, ']', tail);
    var s := "\n" + (ItemsText(NoItems, indent + 1, false) + Ending(indent, ']') + tail);
    assert s[1..] == Ending(indent, ']') + tail;
    assert ([']'] + tail)[1..] == tail;
  }

  lemma ItemsSolid(items: Items, indent: int, tail: string)
    requires items.Item?
    ensures Solid(ItemsWhole(items, indent) + tail)
  {
    WholeSolid(items.value, indent, ItemsText(items.rest, indent, true) + tail);
    hide Whole, ItemsText;
    assert ItemsWhole(items, indent) + tail
        == Whole(items.value, indent) + (ItemsText(items.rest, indent, true) + tail);
  }

  lemma SkipBefore(v: Value, s: string)
    requires Solid(s)
    ensures SkipWs(Before(None, v) + s) == s
  {
    assert (" " + s)[1..] == s && "" + s == s && SkipWs(s) == s;
  }

  lemma {:induction false} SkipLineBefore(n: int, v: Value, s: string)
    requires Solid(s)
    ensures SkipWs("\n" + Indent(n) + (Before(None, v) + s)) == s
    decreases n
  {
    var t := Before(None, v) + s;
    SkipBefore(v, s);
    hide Before;
    assert ("\n" + Indent(n) + t)[1..] == Indent(n) + t;
    SkipIndent(n, t);
  }

  lemma ElementRead(whole: string, v: Value, r: string, first: bool)
    requires whole + r != "" && (whole + r)[0] != ']' && ParseValue(whole + r) == Done(v, r)
    ensures ParseItems(whole + r, first) == AfterElement(v, r)
  {
    hide ParseValue;
  }

  lemma WholeNoBracket(v: Value, indent: int, tail: string)
    ensures Whole(v, indent) + tail != "" && (Whole(v, indent) + tail)[0] != ']'
  {
    hide Decimal;
    if v.Number? {
      DecimalDigits(v.n);
    }
  }

  /** From the first element to the closing bracket. */
  lemma {:induction false} ParseElements(items: Items, indent: int, outer: int, first: bool, tail: string)
    requires items.Item? && Ends(tail)
    ensures ParseItems(ItemsWhole(items, indent) + Ending(outer, ']') + tail, first) == Done(LoweredItems(items), tail)
    decreases items, 1
  {
    hide ParseItems, ParseValue, Whole, Indent, ItemsText, ItemsWhole, AfterElement;
    var e := Ending(outer, ']') + tail;
    var r := ItemsText(items.rest, indent, true) + e;
    assert ItemsWhole(items, indent) + Ending(outer, ']') + tail == ItemsWhole(items, indent) + e;
    ItemsWholeIs(items, indent, e);
    ItemsEnd(items.rest, indent, outer, tail);
    WholeNoBracket(items.value, indent, r);
    ParseWhole(items.value, indent, r);
    ElementRead(Whole(items.value, indent), Lowered(items.value), r, first);
    if items.rest == NoItems {
      LastElement(Lowered(items.value), indent, outer, tail);
    } else {
      ParseElements(items.rest, indent, outer, false, tail);
      NextElement(Lowered(items.value), items.rest, indent, outer, tail);
    }
  }

  lemma ItemsEnd(rest: Items, indent: int, outer: int, tail: string)
    ensures Ends(ItemsText(rest, indent, true) + (Ending(outer, ']') + tail))
  {
    hide Indent, Inner, Opening;
    if rest.Item? {
      ItemsOpened(rest, indent, true);
    }
  }

  lemma LastElement(v: Value, indent: int, outer: int, tail: string)
    ensures AfterElement(v, ItemsText(NoItems, indent, true) + (Ending(outer, ']') + tail))
        == Done(Item(v, NoItems), tail)
  {
    hide Indent, ParseItems;
    var e := Ending(outer, ']') + tail;
    SkipEnding(outer, ']', tail);
    assert ItemsText(NoItems, indent, true) + e == e && ([']'] + tail)[1..] == tail;
  }

  lemma NextElement(v: Value, rest: Items, indent: int, outer: int, tail: string)
    requires rest.Item?
    requires ParseItems(ItemsWhole(rest, indent) + Ending(outer, ']') + tail, false) == Done(LoweredItems(rest), tail)
    ensures AfterElement(v, ItemsText(rest, indent, true) + (Ending(outer, ']') + tail))
        == Done(Item(v, LoweredItems(rest)), tail)
  {
    hide Indent, ParseItems, ItemsText, ItemsWhole, LoweredItems, Ending, Before, SkipWs;
    var e := Ending(outer, ']') + tail;
    var more := ItemsWhole(rest, indent) + e;
    ItemsOpened(rest, indent, true);
    ItemsSolid(rest, indent, e);
    SkipBefore(rest.value, more);
    assert more == ItemsWhole(rest, indent) + Ending(outer, ']') + tail;
    assert ItemsText(rest, indent, true) + e == "," + (Before(None, rest.value) + more);
    CommaThen(Before(None, rest.value) + more);
  }

  lemma CommaThen(s: string)
    ensures SkipWs("," + s) == "," + s && ("," + s)[1..] == s
  {
  }

  lemma ItemsWholeIs(items: Items, indent: int, e: string)
    requires items.Item?
    ensures ItemsWhole(items, indent) + e == Whole(items.value, indent) + (ItemsText(items.rest, indent, true) + e)
  {
    hide Whole, ItemsText;
  }

  // ----- The whole text -----

  /** Only objects and arrays directly under the root. */
  predicate OnlyContainers(fields: Fields) {
    fields.Field? ==> !fields.value.IsScalar() && OnlyContainers(fields.rest)
  }

  lemma {:induction false} EmitsDirect(w: State, fields: Fields)
    requires w.indent == 1 && OnlyContainers(fields)
    ensures EmittedFields(w, fields)
         == Some(State(w.out + FieldsText(fields, 1, w.afterClose), 1, w.afterClose || fields.Field?))
    decreases fields
  {
    match fields
    case NoFields =>
      assert w.out + "" == w.out;
    case Field(name, v, rest) =>
      hide Head, Inner, Opening;
      EmitsText(w, Some(name), v);
      EmitsDirect(Emitted(w, Some(name), v).value, rest);
      Regroup(w.out, Head(Some(name), 1, w.afterClose), Opening(Some(name), KindOf(v)), Inner(v, 1), FieldsText(rest,
          1, true));
  }

  /** Once the indentation is used up it never comes back for good. */
  predicate Sunk(w: Option<State>) {
    w.Some? ==> w.value.indent == 0
  }

  lemma {:induction false} SunkValue(w: State, name: Option<string>, v: Value)
    requires w.indent == 0
    ensures Sunk(Emitted(w, name, v))
    decreases v
  {
    match v
    case Object(fields) => SunkFields(Opened(w, name, OBJECT), fields);
    case Array(items) => SunkItems(Opened(w, name, ARRAY), items);
    case _ =>
  }

  lemma {:induction false} SunkFields(w: State, fields: Fields)
    requires w.indent == 0 || w.indent == 1
    ensures var r := EmittedFields(w, fields);
      && (r.Some? ==> r.value.indent == 0 || r.value.indent == 1)
      && (w.indent == 0 || !OnlyContainers(fields) ==> Sunk(r))
    decreases fields
  {
    match fields
    case NoFields =>
    case Field(name, v, rest) =>
      if w.indent == 0 {
        SunkValue(w, Some(name), v);
      } else if !v.IsScalar() {
        EmitsText(w, Some(name), v);
      }
      var next := Emitted(w, Some(name), v);
      if next.Some? {
        SunkFields(next.value, rest);
      }
  }

  lemma {:induction false} SunkItems(w: State, items: Items)
    requires w.indent == 0 || w.indent == 1
    ensures var r := EmittedItems(w, items);
      && (r.Some? ==> r.value.indent == 0 || r.value.indent == 1)
      && (w.indent == 0 ==> Sunk(r))
    decreases items
  {
    match items
    case NoItems =>
    case Item(v, rest) =>
      if w.indent == 0 {
        SunkValue(w, None, v);
      } else if !v.IsScalar() {
        EmitsText(w, None, v);
      }
      var next := Emitted(w, None, v);
      if next.Some? {
        SunkItems(next.value, rest);
      }
  }

  lemma RootParsed(fields: Fields)
    ensures Parse("{\n" + FieldsText(fields, 1, false) + "\n}\n") == Some(Object(LoweredFields(fields)))
  {
    hide FieldsText, ParseValue;
    var out := "{\n" + FieldsText(fields, 1, false) + "\n}\n";
    assert Indent(0) == "";
    assert Whole(Object(fields), 0) == "{\n" + (FieldsText(fields, 1, false) + "\n" + "" + "}");
    assert out == Whole(Object(fields), 0) + "\n";
    ParseWhole(Object(fields), 0, "\n");
    assert ("\n")[1..] == "";
    assert SkipWs("\n") == "" && SkipWs(out) == out;
  }

  /** The calls for an object as the root get by the assertion in
      ul_jsonwrt_close exactly when no scalar stands directly under it, and
      then their text is read back as the same tree. */
  lemma RootRoundTrip(fields: Fields)
    ensures var w := Emitted(State("", 0, false), None, Object(fields));
      && (w.Some? <==> OnlyContainers(fields))
      && (w.Some? ==> Parse(w.value.out) == Some(Object(LoweredFields(fields))) && w.value.indent == 0)
      && (w.Some? ==> w.value.out == "{\n" + FieldsText(fields, 1, false) + "\n}\n")
  {
    hide FieldsText, Parse, EmittedFields;
    var start := Opened(State("", 0, false), None, OBJECT);
    assert Indent(0) == "" && start == State("{\n", 1, false);
    SunkFields(start, fields);
    if OnlyContainers(fields) {
      EmitsDirect(start, fields);
      RootParsed(fields);
    }
  }

  /** A lone null under the root is enough to make the assertion fail. */
  lemma ScalarUnderRoot()
    ensures Emitted(State("", 0, false), None, Object(Field("a", Null, NoFields))) == None
  {
    RootRoundTrip(Field("a", Null, NoFields));
  }

  /** The same for the writer itself. */
  method WriteRoot(fields: Fields) returns (text: Option<string>)
    ensures text.Some? <==> OnlyContainers(fields)
    ensures text.Some? ==> Parse(text.value) == Some(Object(LoweredFields(fields)))
  {
    RootRoundTrip(fields);
    var w := new Writer(0);
    var ok := w.Write(None, Object(fields));
    text := if ok then Some(w.out) else None;
  }

  // ----- The layout of the text -----

  /** Three blanks for each container that is open. */
  lemma {:induction false} IndentIs(n: nat)
    ensures |Indent(n)| == 3 * n && forall i :: 0 <= i < 3 * n ==> Indent(n)[i] == ' '
  {
    if n > 0 {
      IndentIs(n - 1);
    }
  }

  const ITEMS := Item(Text("x"), Item(Null, NoItems))
  const INNER := Field("b", Number(1), Field("C", Array(ITEMS), NoFields))

  /** Fields stand on lines of their own, behind ",", and items behind each
      other; a bracket is closed on a line of its own. */
  lemma LayoutExample()
    ensures FieldsText(INNER, 2, false)
         == "      \"b\"" + ": " + "1"
            + (",\n      \"c\"" + ": [\n" + ("          \"x\", null" + "\n" + "      " + "]"))
    ensures FieldsText(Field("a", Object(INNER), NoFields), 1, false)
         == "   \"a\"" + ": {\n" + (FieldsText(INNER, 2, false) + "\n" + "   " + "}")
  {
    IndentExamples();
    QuoteExamples();
    ItemsExample();
    HeadExamples();
    OneExample();
    hide Indent, Quote, ItemsText, FieldsText, Head, Decimal;
    LastField("C", Array(ITEMS), 2, true);
    LastField("a", Object(INNER), 1, false);
    FirstField("b", Number(1), INNER.rest, 2, false);
  }

  lemma HeadExamples()
    ensures Head(Some("a"), 1, false) == "   \"a\"" && Head(Some("b"), 2, false) == "      \"b\""
    ensures Head(Some("C"), 2, true) == ",\n      \"c\""
  {
    IndentExamples();
    QuoteExamples();
    hide Indent, Quote;
  }

  lemma FirstField(name: string, v: Value, rest: Fields, indent: int, after: bool)
    ensures FieldsText(Field(name, v, rest), indent, after)
         == Head(Some(name), indent, after) + Opening(Some(name), KindOf(v)) + Inner(v, indent)
            + FieldsText(rest, indent, true)
  {
  }

  lemma LastField(name: string, v: Value, indent: int, after: bool)
    ensures FieldsText(Field(name, v, NoFields), indent, after)
         == Head(Some(name), indent, after) + Opening(Some(name), KindOf(v)) + Inner(v, indent)
  {
    hide Head, Opening, Inner;
    FirstField(name, v, NoFields, indent, after);
    assert FieldsText(NoFields, indent, true) == "";
  }

  lemma OneExample()
    ensures Decimal(1) == "1"
  {
  }

  lemma ItemsExample()
    ensures ItemsText(ITEMS, 3, false) == "          \"x\", null"
  {
    IndentExamples();
    QuoteExamples();
    hide Indent, Quote;
    assert ItemsText(ITEMS.rest, 3, true) == ", null";
  }

  lemma IndentExamples()
    ensures Indent(1) == "   " && Indent(2) == "      " && Indent(3) == "         "
  {
  }

  lemma QuoteExamples()
    ensures Quote("a", -1) == "\"a\"" && Quote("b", -1) == "\"b\"" && Quote("C", -1) == "\"c\""
    ensures Quote("x", 0) == "\"x\""
  {
  }
}
