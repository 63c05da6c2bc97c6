// jsonwrt.c: the stateful JSON writer.

module JsonWriter {
  import opened Common
  import opened Characters
  import opened Decimals
  import opened Json

  datatype Kind = OBJECT | ARRAY | VALUE

  /** What is written for one character; dir is 1 for upper, -1 for lower case. */
  function EscapeChar(c: char, dir: int): string {
    if c == '"' || c == '\\' then ['\\', c]
    else if c >= ' ' then [if dir == 1 then Upper(c) else if dir == -1 then Lower(c) else c]
    else if c == 8 as char then "\\b"
    else if c == '\t' then "\\t"
    else if c == '\n' then "\\n"
    else if c == 12 as char then "\\f"
    else if c == '\r' then "\\r"
    else "\\u00" + [HexDigit(c as int / 16, false), HexDigit(c as int % 16, false)]
  }

  function Escape(s: string, dir: int): string {
    if s == "" then "" else EscapeChar(s[0], dir) + Escape(s[1..], dir)
  }

  function Quote(s: string, dir: int): string {
    "\"" + Escape(s, dir) + "\""
  }

  function Indent(n: int): string {
    if n <= 0 then "" else "   " + Indent(n - 1)
  }

  function ScalarText(v: Value): string
    requires v.IsScalar()
  {
    match v
    case Text(s) => Quote(s, 0)
    case Number(n) => Decimal(n)
    case Boolean(b) => if b then "true" else "false"
    case Null => "null"
  }

  /** The state of a struct ul_jsonwrt, with what it has written. */
  datatype State = State(out: string, indent: int, afterClose: bool)

  /** What stands in front of a value. */
  function Head(name: Option<string>, indent: int, afterClose: bool): string {
    if name.Some? then (if afterClose then ",\n" else "") + Indent(indent) + Quote(name.value, -1)
    else if afterClose then "," else Indent(indent)
  }

  function Opening(name: Option<string>, kind: Kind): string {
    match kind
    case OBJECT => if name.Some? then ": {\n" else "{\n"
    case ARRAY => if name.Some? then ": [\n" else "[\n"
    case VALUE => if name.Some? then ": " else " "
  }

  function Opened(w: State, name: Option<string>, kind: Kind): State {
    State(w.out + Head(name, w.indent, w.afterClose) + Opening(name, kind),
          if kind.VALUE? then w.indent else w.indent + 1, false)
  }

  /** None when the assertion indent > 0 fails. */
  function Closed(w: State, kind: Kind): Option<State> {
    if w.indent == 1 then Some(State(w.out + "\n}\n", 0, true))
    else if w.indent <= 0 then None
    else
      match kind
      case OBJECT => Some(State(w.out + "\n" + Indent(w.indent - 1) + "}", w.indent - 1, true))
      case ARRAY => Some(State(w.out + "\n" + Indent(w.indent - 1) + "]", w.indent - 1, true))
      case VALUE => Some(w.(afterClose := true))
  }

  /** The calls for a whole value, in pre-order. */
  function Emitted(w: State, name: Option<string>, v: Value): Option<State>
    decreases v
  {
    match v
    case Object(fields) =>
      var inner := EmittedFields(Opened(w, name, OBJECT), fields);
      if inner.None? then None else Closed(inner.value, OBJECT)
    case Array(items) =>
      var inner := EmittedItems(Opened(w, name, ARRAY), items);
      if inner.None? then None else Closed(inner.value, ARRAY)
    case _ =>
      var o := Opened(w, name, VALUE);
      Closed(o.(out := o.out + ScalarText(v)), VALUE)
  }

  function EmittedFields(w: State, fields: Fields): Option<State>
    decreases fields
  {
    match fields
    case NoFields => Some(w)
    case Field(name, v, rest) =>
      var next := Emitted(w, Some(name), v);
      if next.None? then None else EmittedFields(next.value, rest)
  }

  function EmittedItems(w: State, items: Items): Option<State>
    decreases items
  {
    match items
    case NoItems => Some(w)
    case Item(v, rest) =>
      var next := Emitted(w, None, v);
      if next.None? then None else EmittedItems(next.value, rest)
  }

  /** struct ul_jsonwrt; out is the stream. */
  class Writer {
    var out: string
    var indent: int
    var afterClose: bool

    /** ul_jsonwrt_init. */
    constructor (indent: int)
      ensures Now() == State("", indent, false)
    {
      out := "";
      this.indent := indent;
      afterClose := false;
    }

    ghost function Now(): State
      reads this
    {
      State(out, indent, afterClose)
    }

    /** fputs. */
    method Put(s: string)
      modifies this`out
      ensures out == old(out) + s
    {
      out := out + s;
    }

    /** The body of the loop of fputs_quoted_case_json. */
    method PutEscaped(c: char, dir: int)
      modifies this`out
      ensures out == old(out) + EscapeChar(c, dir)
    {
      if c == '"' || c == '\\' {
        Put("\\");
        Put([c]);
      } else if c >= ' ' {
        Put([if dir == 1 then Upper(c) else if dir == -1 then Lower(c) else c]);
      } else if c == 8 as char {
        Put("\\b");
      } else if c == '\t' {
        Put("\\t");
      } else if c == '\n' {
        Put("\\n");
      } else if c == 12 as char {
        Put("\\f");
      } else if c == '\r' {
        Put("\\r");
      } else {
        Put("\\u00" + [HexDigit(c as int / 16, false), HexDigit(c as int % 16, false)]);
      }
    }

    /** fputs_quoted_case_json. */
    method PutQuoted(data: string, dir: int)
      modifies this`out
      ensures out == old(out) + Quote(data, dir)
    {
      hide EscapeChar;
      ghost var goal := out + "\"" + Escape(data, dir);
      Put("\"");
      assert data[0..] == data;
      for i := 0 to |data|
        invariant out + Escape(data[i..], dir) == goal
      {
        assert data[i..][1..] == data[i + 1..];
        PutEscaped(data[i], dir);
      }
      assert data[|data|..] == "";
      assert old(out) + Quote(data, dir) == goal + "\"";
      Put("\"");
    }

    /** ul_jsonwrt_indent. */
    method PutIndent()
      modifies this`out
      ensures out == old(out) + Indent(indent)
    {
      ghost var before := out;
      var i := 0;
      while i < indent
        invariant indent > 0 ==> i <= indent
        invariant out + Indent(indent - i) == before + Indent(indent)
      {
        Put("   ");
        i := i + 1;
      }
      assert Indent(indent - i) == "";
    }

    /** The first half of ul_jsonwrt_open. */
    method PutHead(name: Option<string>)
      modifies this`out
      ensures out == old(out) + Head(name, indent, afterClose)
    {
      hide Quote, Indent;
      if name.Some? {
        if afterClose {
          Put(",\n");
        }
        PutIndent();
        PutQuoted(name.value, -1);
      } else if afterClose {
        Put(",");
      } else {
        PutIndent();
      }
    }

    /** ul_jsonwrt_open. */
    method Open(name: Option<string>, kind: Kind)
      modifies this
      ensures Now() == Opened(old(Now()), name, kind)
    {
      hide Head;
      PutHead(name);
      match kind {
      case OBJECT =>
        Put(if name.Some? then ": {\n" else "{\n");
        indent := indent + 1;
      case ARRAY =>
        Put(if name.Some? then ": [\n" else "[\n");
        indent := indent + 1;
      case VALUE =>
        Put(if name.Some? then ": " else " ");
      }
      afterClose := false;
    }

    /** ul_jsonwrt_close; ok is whether its assertion holds. */
    method Close(kind: Kind) returns (ok: bool)
      modifies this
      ensures match Closed(old(Now()), kind)
              case Some(w) => ok && Now() == w
              case None => !ok && Now() == old(Now())
    {
      if indent == 1 {
        Put("\n}\n");
        indent := indent - 1;
        afterClose := true;
        return true;
      }
      if indent <= 0 {
        return false;
      }
      match kind {
      case OBJECT =>
        indent := indent - 1;
        Put("\n");
        PutIndent();
        Put("}");
      case ARRAY =>
        indent := indent - 1;
        Put("\n");
        PutIndent();
        Put("]");
      case VALUE =>
      }
      afterClose := true;
      return true;
    }

    /** ul_jsonwrt_value_s, _u64, _boolean and _null. */
    method PutValue(name: Option<string>, v: Value) returns (ok: bool)
      requires v.IsScalar()
      modifies this
      ensures match Emitted(old(Now()), name, v) case Some(w) => ok && Now() == w case None => !ok
    {
      Open(name, VALUE);
      match v {
      case Text(s) => PutQuoted(s, 0);
      case Number(n) => Put(Decimal(n));
      case Boolean(b) => Put(if b then "true" else "false");
      case Null => Put("null");
      }
      ok := Close(VALUE);
    }

    /** The pre-order calls for a value. */
    method Write(name: Option<string>, v: Value) returns (ok: bool)
      modifies this
      ensures match Emitted(old(Now()), name, v) case Some(w) => ok && Now() == w case None => !ok
      decreases v
    {
      match v
      case Object(fields) =>
        Open(name, OBJECT);
        ok := WriteFields(fields);
        if ok {
          ok := Close(OBJECT);
        }
      case Array(items) =>
        Open(name, ARRAY);
        ok := WriteItems(items);
        if ok {
          ok := Close(ARRAY);
        }
      case _ =>
        ok := PutValue(name, v);
    }

    method WriteFields(fields: Fields) returns (ok: bool)
      modifies this
      ensures match EmittedFields(old(Now()), fields) case Some(w) => ok && Now() == w case None => !ok
      decreases fields
    {
      match fields
      case NoFields =>
        ok := true;
      case Field(name, v, rest) =>
        ok := Write(Some(name), v);
        if ok {
          ok := WriteFields(rest);
        }
    }

    method WriteItems(items: Items) returns (ok: bool)
      modifies this
      ensures match EmittedItems(old(Now()), items) case Some(w) => ok && Now() == w case None => !ok
      decreases items
    {
      match items
      case NoItems =>
        ok := true;
      case Item(v, rest) =>
        ok := Write(None, v);
        if ok {
          ok := WriteItems(rest);
        }
    }
  }
}
