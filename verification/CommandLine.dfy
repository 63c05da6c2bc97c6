// The command line of the interactive parted, and how a typed line is cut into
// words (ui.c).

module CommandLine {
  import opened Characters

  /** sizeof (this_word) - 1. */
  const LIMIT := 255

  /** Whether the scan is inside quotes, and which ones. */
  datatype Quoting = Quoting(on: bool, mark: char)

  /** _str_is_spaces. */
  predicate AllSpaces(s: string) {
    forall c | c in s :: IsSpace(c)
  }

  /** One word: what is left of the line behind it, and whether an empty pair
      of quotes is all there was. */
  datatype Piece = Piece(rest: string, q: Quoting, word: string, emptyQuotes: bool)

  function Scan(line: string, q: Quoting, word: string, emptyQuotes: bool, multi: bool): (r: Piece)
    ensures |r.rest| <= |line|
    ensures line != "" && |word| < LIMIT && line[0] != ' ' ==> |r.rest| < |line|
    ensures |word| <= LIMIT ==> |r.word| <= LIMIT
  {
    if line == "" || |word| >= LIMIT then Piece(line, q, word, emptyQuotes)
    else if line[0] == ' ' && !q.on && (multi || AllSpaces(line)) then Piece(line, q, word, emptyQuotes)
    else if !q.on && (line[0] == '\'' || line[0] == '"') then
      Scan(line[1..], Quoting(true, line[0]), word, emptyQuotes, multi)
    else if q.on && line[0] == q.mark then
      Scan(line[1..], q.(on := false), word, emptyQuotes || word == "", multi)
    else if q.on && line[0] == '\\' && |line| > 1 then
      Scan(line[2..], q, word + [line[1]], false, multi)
    else
      Scan(line[1..], q, word + [line[0]], false, multi)
  }

  /** The words of a line. */
  function Tokens(line: string, q: Quoting, multi: bool): seq<string>
    decreases |line|
  {
    var p := Scan(SkipBlanks(line), q, "", false, multi);
    var words := if p.word != "" || !multi || p.emptyQuotes then [p.word] else [];
    if p.rest != "" && multi then words + Tokens(p.rest, p.q, multi) else words
  }

  lemma TokensStep(line: string, q: Quoting, multi: bool)
    ensures var p := Scan(SkipBlanks(line), q, "", false, multi);
      Tokens(line, q, multi)
      == (if p.word != "" || !multi || p.emptyQuotes then [p.word] else [])
         + (if p.rest != "" && multi then Tokens(p.rest, p.q, multi) else [])
  {
  }

  /** The global command_line. */
  class WordList {
    var words: seq<string>

    constructor ()
      ensures words == []
    {
      words := [];
    }

    /** command_line_push_word. */
    method PushWord(word: string)
      modifies this
      ensures words == old(words) + [word]
    {
      words := words + [word];
    }

    /** command_line_push_line; it always comes to an end. */
    method PushLine(text: string, multi: bool)
      modifies this
      ensures words == old(words) + Tokens(text, Quoting(false, '\0'), multi)
    {
      hide Tokens;
      var line := text;
      var q := Quoting(false, '\0');
      var emptyQuotes := false;
      ghost var all := words + Tokens(line, q, multi);
      var more := true;
      while more
        invariant !emptyQuotes
        invariant all == if more then words + Tokens(line, q, multi) else words
        decreases more, |line|
      {
        TokensStep(line, q, multi);
        line := Skip(line);
        var word := "";
        ghost var p := Scan(line, q, "", false, multi);
        while line != "" && |word| < LIMIT
          invariant Scan(line, q, word, emptyQuotes, multi) == p
          decreases |line|
        {
          if line[0] == ' ' && !q.on && (multi || AllSpaces(line)) {
            break;
          }
          if !q.on && (line[0] == '\'' || line[0] == '"') {
            q := Quoting(true, line[0]);
            line := line[1..];
            continue;
          }
          if q.on && line[0] == q.mark {
            q := q.(on := false);
            if word == "" {
              emptyQuotes := true;
            }
            line := line[1..];
            continue;
          }
          if q.on && line[0] == '\\' && |line| > 1 {
            line := line[1..];
          }
          emptyQuotes := false;
          word := word + [line[0]];
          line := line[1..];
        }
        assert p == Piece(line, q, word, emptyQuotes);
        if word != "" || !multi || emptyQuotes {
          emptyQuotes := false;
          PushWord(word);
        }
        more := line != "" && multi;
      }
    }

    method Skip(line: string) returns (r: string)
      ensures r == SkipBlanks(line)
    {
      r := line;
      while r != "" && r[0] == ' '
        invariant SkipBlanks(r) == SkipBlanks(line)
        decreases |r|
      {
        r := r[1..];
      }
    }
  }

  // ----- Writing words so that they are read back -----

  function Escaped(w: string): (r: string)
    ensures |r| >= |w|
  {
    if w == "" then ""
    else (if w[0] == '\'' || w[0] == '\\' then ['\\', w[0]] else [w[0]]) + Escaped(w[1..])
  }

  function Quoted(w: string): string {
    "'" + Escaped(w) + "'"
  }

  /** Quoted words, with blanks between them. */
  function QuotedLine(ws: seq<string>): string
    decreases |ws|, 0
  {
    if ws == [] then "" else Quoted(ws[0]) + Following(ws[1..])
  }

  function Following(ws: seq<string>): string
    decreases |ws|, 1
  {
    if ws == [] then "" else " " + QuotedLine(ws)
  }

  const INSIDE := Quoting(true, '\'')

  /** Inside quotes the escaped text of w is read as w. */
  lemma {:induction false} ScanEscaped(w: string, tail: string, word: string, e: bool)
    requires |word| + |w| <= LIMIT && tail != ""
    ensures Scan(Escaped(w) + tail, INSIDE, word, e, true)
         == Scan(tail, INSIDE, word + w, e && w == "", true)
    decreases |w|
  {
    if w == "" {
      assert Escaped(w) + tail == tail && word + w == word;
    } else {
      hide Escaped, Scan;
      ScanEscapedChar(w, tail, word, e);
      ScanEscaped(w[1..], tail, word + [w[0]], false);
      assert word + [w[0]] + w[1..] == word + w;
    }
  }

  lemma ScanPlain(c: char, rest: string, word: string, e: bool)
    requires |word| < LIMIT && c != '\'' && c != '\\'
    ensures Scan([c] + rest, INSIDE, word, e, true) == Scan(rest, INSIDE, word + [c], false, true)
  {
    assert ([c] + rest)[1..] == rest;
  }

  lemma ScanBackslash(c: char, rest: string, word: string, e: bool)
    requires |word| < LIMIT
    ensures Scan(['\\', c] + rest, INSIDE, word, e, true) == Scan(rest, INSIDE, word + [c], false, true)
  {
    assert (['\\', c] + rest)[2..] == rest;
  }

  lemma ScanEscapedChar(w: string, tail: string, word: string, e: bool)
    requires |word| < LIMIT && w != ""
    ensures Scan(Escaped(w) + tail, INSIDE, word, e, true)
         == Scan(Escaped(w[1..]) + tail, INSIDE, word + [w[0]], false, true)
  {
    var more := Escaped(w[1..]);
    hide Scan;
    if w[0] == '\'' || w[0] == '\\' {
      assert Escaped(w) == ['\\', w[0]] + more;
      hide *;
      assert ['\\', w[0]] + more + tail == ['\\', w[0]] + (more + tail);
      ScanBackslash(w[0], more + tail, word, e);
    } else {
      assert Escaped(w) == [w[0]] + more;
      hide *;
      assert [w[0]] + more + tail == [w[0]] + (more + tail);
      ScanPlain(w[0], more + tail, word, e);
    }
  }

  /** From inside the quotes to the end of a word that fits. */
  lemma ScanToQuote(w: string, tail: string)
    requires |w| < LIMIT && (tail != "" ==> tail[0] == ' ')
    ensures Scan(Escaped(w) + "'" + tail, INSIDE, "", false, true) == Piece(tail, Quoting(false, '\''), w, w == "")
  {
    ScanEscaped(w, "'" + tail, "", false);
    assert Escaped(w) + "'" + tail == Escaped(w) + ("'" + tail);
    assert ("'" + tail)[1..] == tail && "" + w == w;
  }

  lemma SkipText(s: string)
    requires s == "" || s[0] != ' '
    ensures SkipBlanks(s) == s
  {
  }

  /** A quoted word that fits is one token. */
  lemma TokensQuoted(w: string, tail: string, mark: char)
    requires |w| < LIMIT && (tail != "" ==> tail[0] == ' ')
    ensures Tokens(Quoted(w) + tail, Quoting(false, mark), true)
         == [w] + if tail == "" then [] else Tokens(tail, Quoting(false, '\''), true)
  {
    var line := Quoted(w) + tail;
    assert line[0] == '\'' && line[1..] == Escaped(w) + "'" + tail;
    SkipText(line);
    ScanToQuote(w, tail);
  }

  lemma TokensBlank(line: string, q: Quoting)
    ensures Tokens(" " + line, q, true) == Tokens(line, q, true)
  {
    assert (" " + line)[1..] == line;
  }

  /** Reading back what was quoted, as long as every word fits. */
  lemma {:induction false} RoundTrip(ws: seq<string>, mark: char)
    requires forall w | w in ws :: |w| < LIMIT
    ensures Tokens(QuotedLine(ws), Quoting(false, mark), true) == ws
    decreases |ws|
  {
    if ws != [] {
      var tail := Following(ws[1..]);
      TokensQuoted(ws[0], tail, mark);
      if ws[1..] != [] {
        RoundTrip(ws[1..], '\'');
        TokensBlank(QuotedLine(ws[1..]), Quoting(false, '\''));
      }
      assert ws == [ws[0]] + ws[1..];
    }
  }

  /** What is left of a quoted word that is too long, one token at least. */
  lemma {:induction false} RestOfLong(u: string, tail: string)
    requires tail != "" ==> tail[0] == ' '
    ensures |Tokens(Escaped(u) + "'" + tail, INSIDE, true)|
         >= 1 + if tail == "" then 0 else |Tokens(tail, Quoting(false, '\''), true)|
    decreases |u|
  {
    var line := Escaped(u) + "'" + tail;
    if u != "" && u[0] == ' ' {
      assert line == " " + (Escaped(u[1..]) + "'" + tail);
      RestOfLong(u[1..], tail);
      TokensBlank(Escaped(u[1..]) + "'" + tail, INSIDE);
    } else {
      assert line[0] != ' ';
      SkipText(line);
      if |u| < LIMIT {
        ScanToQuote(u, tail);
      } else {
        ScanChunk(u, "'" + tail);
        assert line == Escaped(u) + ("'" + tail);
        assert Escaped(u[LIMIT..]) + ("'" + tail) == Escaped(u[LIMIT..]) + "'" + tail;
        RestOfLong(u[LIMIT..], tail);
      }
    }
  }

  lemma EscapedConcat(v: string, w: string)
    ensures Escaped(v + w) == Escaped(v) + Escaped(w)
  {
    if v == "" {
      assert v + w == w;
    } else {
      assert (v + w)[1..] == v[1..] + w;
      EscapedConcat(v[1..], w);
    }
  }

  /** A word that does not fit is cut off after LIMIT characters. */
  lemma ScanChunk(u: string, tail: string)
    requires |u| >= LIMIT && tail != ""
    ensures Scan(Escaped(u) + tail, INSIDE, "", false, true)
         == Piece(Escaped(u[LIMIT..]) + tail, INSIDE, u[..LIMIT], false)
  {
    var a, b := u[..LIMIT], u[LIMIT..];
    assert u == a + b;
    EscapedConcat(a, b);
    assert Escaped(u) + tail == Escaped(a) + (Escaped(b) + tail);
    ScanEscaped(a, Escaped(b) + tail, "", false);
    assert "" + a == a;
  }

  predicate TooLong(w: string) {
    |w| >= LIMIT
  }

  /** Every quoted word is one token at least, and a long one two. */
  lemma {:induction false} CountTokens(ws: seq<string>, mark: char)
    ensures |Tokens(QuotedLine(ws), Quoting(false, mark), true)| >= |ws|
    ensures (exists w | w in ws :: TooLong(w)) ==> |Tokens(QuotedLine(ws), Quoting(false, mark), true)| > |ws|
    decreases |ws|
  {
    if ws != [] {
      var w, tail := ws[0], Following(ws[1..]);
      var line := Quoted(w) + tail;
      if ws[1..] != [] {
        CountTokens(ws[1..], '\'');
        TokensBlank(QuotedLine(ws[1..]), Quoting(false, '\''));
      }
      if TooLong(w) {
        LongFirst(w, tail, mark);
      } else {
        TokensQuoted(w, tail, mark);
      }
    }
  }

  lemma LongFirst(w: string, tail: string, mark: char)
    requires TooLong(w) && (tail != "" ==> tail[0] == ' ')
    ensures |Tokens(Quoted(w) + tail, Quoting(false, mark), true)|
         >= 2 + if tail == "" then 0 else |Tokens(tail, Quoting(false, '\''), true)|
  {
    var line := Quoted(w) + tail;
    assert line == "'" + (Escaped(w) + ("'" + tail));
    hide Escaped;
    assert line[0] == '\'' && line[1..] == Escaped(w) + ("'" + tail);
    SkipText(line);
    ScanChunk(w, "'" + tail);
    assert Escaped(w[LIMIT..]) + ("'" + tail) == Escaped(w[LIMIT..]) + "'" + tail;
    RestOfLong(w[LIMIT..], tail);
  }

  /** Quoting and reading back gives the same words exactly when each of them
      is shorter than the buffer. */
  lemma RoundTripIff(ws: seq<string>)
    ensures Tokens(QuotedLine(ws), Quoting(false, '\0'), true) == ws <==> forall w | w in ws :: |w| < LIMIT
  {
    CountTokens(ws, '\0');
    if forall w | w in ws :: |w| < LIMIT {
      RoundTrip(ws, '\0');
    } else {
      var w :| w in ws && |w| >= LIMIT;
      assert TooLong(w);
    }
  }

  /** A word of 255 characters does not come back alone. */
  lemma LongWordSplits()
    ensures Tokens(QuotedLine([seq(LIMIT, _ => 'x')]), Quoting(false, '\0'), true) != [seq(LIMIT, _ => 'x')]
  {
    var w := seq(LIMIT, _ => 'x');
    assert w in [w] && |w| == LIMIT;
    RoundTripIff([w]);
  }
}
