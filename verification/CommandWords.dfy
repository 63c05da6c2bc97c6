// Command lines as a user types them: bare and quoted text, blanks, and what
// the tokenizer makes of them.

module CommandWords {
  import opened Characters
  import opened CommandLine

  /** A stretch of a word: bare text, or raw text between two quote marks. */
  datatype Part = Bare(text: string) | Within(mark: char, raw: string)

  predicate IsMark(c: char) {
    c == '\'' || c == '"'
  }

  /** raw ends where the next quote mark would close it. */
  predicate Closed(raw: string, mark: char) {
    if raw == "" then true
    else if raw[0] == '\\' then |raw| >= 2 && Closed(raw[2..], mark)
    else raw[0] != mark && Closed(raw[1..], mark)
  }

  /** raw never closes; a backslash may be the last character of the line. */
  predicate Unclosed(raw: string, mark: char) {
    if raw == "" || raw == "\\" then true
    else if raw[0] == '\\' then Unclosed(raw[2..], mark)
    else raw[0] != mark && Unclosed(raw[1..], mark)
  }

  /** Between quote marks a backslash stands for the character behind it. */
  function Unescaped(raw: string): (r: string)
    ensures |r| <= |raw| && (r == "" <==> raw == "")
  {
    if raw == "" then ""
    else if raw[0] == '\\' && |raw| > 1 then [raw[1]] + Unescaped(raw[2..])
    else [raw[0]] + Unescaped(raw[1..])
  }

  /** In multi-word mode a blank ends bare text. */
  predicate IsPart(p: Part, multi: bool) {
    match p
    case Bare(text) => forall c | c in text :: !IsMark(c) && (multi ==> c != ' ')
    case Within(mark, raw) => IsMark(mark) && Closed(raw, mark)
  }

  function PartText(p: Part): string {
    match p
    case Bare(text) => text
    case Within(mark, raw) => [mark] + raw + [mark]
  }

  function PartValue(p: Part): string {
    match p
    case Bare(text) => text
    case Within(_, raw) => Unescaped(raw)
  }

  function WordText(ps: seq<Part>): string {
    if ps == [] then "" else PartText(ps[0]) + WordText(ps[1..])
  }

  function WordValue(ps: seq<Part>): string {
    if ps == [] then "" else PartValue(ps[0]) + WordValue(ps[1..])
  }

  predicate HasQuotes(ps: seq<Part>) {
    exists p :: p in ps && p.Within?
  }

  /** A word may end in front of tail. */
  predicate Ends(tail: string, multi: bool) {
    tail == "" || (tail[0] == ' ' && (multi || AllSpaces(tail)))
  }

  // ----- Scanning one word -----

  lemma ScanStop(tail: string, q: Quoting, word: string, e: bool, multi: bool)
    requires !q.on && Ends(tail, multi)
    ensures Scan(tail, q, word, e, multi) == Piece(tail, q, word, e)
  {
  }

  lemma ScanBareChar(c: char, rest: string, q: Quoting, word: string, e: bool, multi: bool)
    requires !q.on && |word| < LIMIT && !IsMark(c) && (c == ' ' ==> !multi && !AllSpaces([c] + rest))
    ensures Scan([c] + rest, q, word, e, multi) == Scan(rest, q, word + [c], false, multi)
  {
    assert ([c] + rest)[1..] == rest;
  }

  lemma {:induction false} ScanBare(text: string, tail: string, q: Quoting, word: string, e: bool, multi: bool)
    requires !q.on && |word| + |text| <= LIMIT && IsPart(Bare(text), multi)
    requires multi || ' ' !in text || !AllSpaces([text[|text| - 1]] + tail)
    ensures Scan(text + tail, q, word, e, multi) == Scan(tail, q, word + text, e && text == "", multi)
  {
    hide Scan, AllSpaces, IsPart;
    Joined(text, tail, word);
    if text != "" {
      var c, more := text[0], text[1..];
      BareFirst(text, tail, multi);
      ScanBareChar(c, more + tail, q, word, e, multi);
      ScanBare(more, tail, q, word + [c], false, multi);
    }
  }

  lemma Joined(text: string, tail: string, word: string)
    ensures text == "" ==> text + tail == tail && word + text == word
    ensures text != "" ==>
      text + tail == [text[0]] + (text[1..] + tail) && word + [text[0]] + text[1..] == word + text
  {
  }

  lemma BareFirst(text: string, tail: string, multi: bool)
    requires text != "" && IsPart(Bare(text), multi)
    requires multi || ' ' !in text || !AllSpaces([text[|text| - 1]] + tail)
    ensures var c, more := text[0], text[1..];
      && !IsMark(c) && (c == ' ' ==> !multi && !AllSpaces([c] + (more + tail)))
      && IsPart(Bare(more), multi)
      && (multi || ' ' !in more || !AllSpaces([more[|more| - 1]] + tail))
  {
    hide AllSpaces;
    LastSpaces(text[0], text[1..], tail);
    assert text == [text[0]] + text[1..];
  }

  /** What is no blank at the end of a text is none behind its first character. */
  lemma LastSpaces(c: char, more: string, tail: string)
    ensures var text := [c] + more;
      AllSpaces([c] + (more + tail)) ==> AllSpaces([text[|text| - 1]] + tail)
    ensures more != "" ==> more[|more| - 1] == ([c] + more)[|more|]
  {
    var text, line := [c] + more, [c] + (more + tail);
    if AllSpaces(line) {
      assert line[|text| - 1] == text[|text| - 1];
      assert forall i :: 0 <= i < |tail| ==> line[|text| + i] == tail[i];
    }
  }

  lemma ScanRawChar(c: char, rest: string, mark: char, word: string, e: bool, multi: bool)
    requires |word| < LIMIT && c != mark && (c == '\\' ==> rest == "")
    ensures Scan([c] + rest, Quoting(true, mark), word, e, multi)
         == Scan(rest, Quoting(true, mark), word + [c], false, multi)
  {
    assert ([c] + rest)[1..] == rest;
  }

  lemma ScanEscape(c: char, rest: string, mark: char, word: string, e: bool, multi: bool)
    requires |word| < LIMIT && IsMark(mark)
    ensures Scan(['\\', c] + rest, Quoting(true, mark), word, e, multi)
         == Scan(rest, Quoting(true, mark), word + [c], false, multi)
  {
    assert (['\\', c] + rest)[2..] == rest;
  }

  lemma {:induction false} ScanRaw(raw: string, tail: string, mark: char, word: string, e: bool, multi: bool)
    requires IsMark(mark) && |word| + |Unescaped(raw)| <= LIMIT
    requires Closed(raw, mark) || (Unclosed(raw, mark) && tail == "")
    ensures Scan(raw + tail, Quoting(true, mark), word, e, multi)
         == Scan(tail, Quoting(true, mark), word + Unescaped(raw), e && raw == "", multi)
    decreases |raw|
  {
    hide Scan;
    if raw == "" {
      assert raw + tail == tail && word + Unescaped(raw) == word;
    } else if raw[0] == '\\' && |raw| > 1 {
      var c, more := raw[1], raw[2..];
      assert raw + tail == ['\\', c] + (more + tail);
      ScanEscape(c, more + tail, mark, word, e, multi);
      ScanRaw(more, tail, mark, word + [c], false, multi);
      assert word + [c] + Unescaped(more) == word + Unescaped(raw);
    } else {
      var c, more := raw[0], raw[1..];
      assert raw + tail == [c] + (more + tail);
      ScanRawChar(c, more + tail, mark, word, e, multi);
      ScanRaw(more, tail, mark, word + [c], false, multi);
      assert word + [c] + Unescaped(more) == word + Unescaped(raw);
    }
  }

  lemma ScanMark(mark: char, rest: string, q: Quoting, word: string, e: bool, multi: bool)
    requires !q.on && |word| < LIMIT && IsMark(mark)
    ensures Scan([mark] + rest, q, word, e, multi) == Scan(rest, Quoting(true, mark), word, e, multi)
  {
    assert ([mark] + rest)[1..] == rest;
  }

  lemma ScanClose(mark: char, rest: string, word: string, e: bool, multi: bool)
    requires |word| < LIMIT
    ensures Scan([mark] + rest, Quoting(true, mark), word, e, multi)
         == Scan(rest, Quoting(false, mark), word, e || word == "", multi)
  {
    assert ([mark] + rest)[1..] == rest;
  }

  lemma ScanWithin(mark: char, raw: string, tail: string, q: Quoting, word: string, e: bool, multi: bool)
    requires !q.on && |word| + |Unescaped(raw)| < LIMIT && IsPart(Within(mark, raw), multi) && (e ==> word == "")
    ensures Scan([mark] + raw + [mark] + tail, q, word, e, multi)
         == Scan(tail, Quoting(false, mark), word + Unescaped(raw), word + Unescaped(raw) == "", multi)
  {
    hide Scan, Closed;
    assert [mark] + raw + [mark] + tail == [mark] + (raw + ([mark] + tail));
    ScanMark(mark, raw + ([mark] + tail), q, word, e, multi);
    ScanRaw(raw, [mark] + tail, mark, word, e, multi);
    ScanClose(mark, tail, word + Unescaped(raw), e && raw == "", multi);
  }

  /** All parts of a word, in a state in which e stands for empty quotes. */
  lemma {:induction false} ScanParts(ps: seq<Part>, tail: string, q: Quoting, word: string, e: bool, multi: bool)
      returns (mark: char)
    requires !q.on && |word| + |WordValue(ps)| < LIMIT && (forall p | p in ps :: IsPart(p, multi)) && (e ==> word == "")
    requires multi || WordText(ps) == "" || !AllSpaces([WordText(ps)[|WordText(ps)| - 1]] + tail)
    ensures var value := word + WordValue(ps);
      Scan(WordText(ps) + tail, q, word, e, multi)
      == Scan(tail, Quoting(false, mark), value, value == "" && (e || HasQuotes(ps)), multi)
  {
    hide Scan, IsPart, WordText, WordValue, HasQuotes, AllSpaces;
    PartsFirst(ps, tail, word);
    if ps == [] {
      mark := q.mark;
    } else {
      var p, more := ps[0], ps[1..];
      var rest := WordText(more) + tail;
      QuotesFirst(ps);
      LastOfRest(ps, tail);
      if p.Bare? {
        ScanBare(p.text, rest, q, word, e, multi);
        mark := ScanParts(more, tail, q, word + p.text, e && p.text == "", multi);
      } else {
        ScanWithin(p.mark, p.raw, rest, q, word, e, multi);
        mark := ScanParts(more, tail, Quoting(false, p.mark), word + PartValue(p), word + PartValue(p) == "", multi);
      }
    }
  }

  lemma PartsFirst(ps: seq<Part>, tail: string, word: string)
    ensures ps == [] ==> WordText(ps) + tail == tail && word + WordValue(ps) == word && !HasQuotes(ps)
    ensures ps != [] ==>
      && WordText(ps) + tail == PartText(ps[0]) + (WordText(ps[1..]) + tail)
      && word + PartValue(ps[0]) + WordValue(ps[1..]) == word + WordValue(ps)
      && |WordValue(ps)| == |PartValue(ps[0])| + |WordValue(ps[1..])|
      && (WordText(ps) == "" <==> PartText(ps[0]) == "" && WordText(ps[1..]) == "")
  {
    hide PartText, PartValue;
  }

  lemma QuotesFirst(ps: seq<Part>)
    requires ps != []
    ensures HasQuotes(ps) <==> ps[0].Within? || HasQuotes(ps[1..])
  {
    if HasQuotes(ps) && !ps[0].Within? {
      var p :| p in ps && p.Within?;
      assert p in ps[1..];
    }
  }

  lemma LastOfRest(ps: seq<Part>, tail: string)
    requires ps != []
    ensures var text, more := WordText(ps), WordText(ps[1..]);
      text != "" && !AllSpaces([text[|text| - 1]] + tail) ==>
        && (more != "" ==> !AllSpaces([more[|more| - 1]] + tail))
        && (PartText(ps[0]) != "" ==> !AllSpaces([PartText(ps[0])[|PartText(ps[0])| - 1]] + (more + tail)))
  {
    hide PartText, AllSpaces;
    LastOfTwo(PartText(ps[0]), WordText(ps[1..]), tail);
  }

  lemma LastOfTwo(p: string, more: string, tail: string)
    ensures var text := p + more;
      text != "" && !AllSpaces([text[|text| - 1]] + tail) ==>
        && (more != "" ==> !AllSpaces([more[|more| - 1]] + tail))
        && (p != "" ==> !AllSpaces([p[|p| - 1]] + (more + tail)))
  {
    hide AllSpaces;
    if p != "" {
      LastSpaces(p[|p| - 1], more, tail);
      LastIs(p, more, tail);
    }
  }

  lemma LastIs(p: string, more: string, tail: string)
    requires p != ""
    ensures var text := p + more;
      text[|text| - 1] == if more == "" then p[|p| - 1] else more[|more| - 1]
    ensures more == "" ==> more + tail == tail
  {
  }

  // ----- Multi-word mode -----

  function Blanks(n: nat): string {
    seq(n, _ => ' ')
  }

  lemma {:induction false} BlanksSkipped(n: nat, line: string)
    ensures SkipBlanks(Blanks(n) + line) == SkipBlanks(line)
    decreases n
  {
    if n == 0 {
      assert Blanks(n) + line == line;
    } else {
      assert Blanks(n) + line == " " + (Blanks(n - 1) + line);
      assert (" " + (Blanks(n - 1) + line))[1..] == Blanks(n - 1) + line;
      BlanksSkipped(n - 1, line);
    }
  }

  /** Which quote mark was seen last does not matter outside of quotes. */
  lemma {:induction false} ScanMarkless(line: string, q: Quoting, r: Quoting, word: string, e: bool, multi: bool)
    requires !q.on && !r.on
    ensures var p, p' := Scan(line, q, word, e, multi), Scan(line, r, word, e, multi);
      && p.rest == p'.rest && p.word == p'.word && p.emptyQuotes == p'.emptyQuotes
      && (p.q == p'.q || (!p.q.on && !p'.q.on))
    decreases |line|
  {
    if line != "" && |word| < LIMIT && !IsMark(line[0]) {
      ScanMarkless(line[1..], q, r, word + [line[0]], false, multi);
    }
  }

  lemma {:induction false} TokensMarkless(line: string, q: Quoting, r: Quoting, multi: bool)
    requires !q.on && !r.on
    ensures Tokens(line, q, multi) == Tokens(line, r, multi)
    decreases |line|
  {
    hide Scan;
    var s := SkipBlanks(line);
    ScanMarkless(s, q, r, "", false, multi);
    TokensStep(line, q, multi);
    TokensStep(line, r, multi);
    var p, p' := Scan(s, q, "", false, multi), Scan(s, r, "", false, multi);
    if p.rest != "" && multi && p.q != p'.q {
      Shorter(line, q, multi);
      TokensMarkless(p.rest, p.q, p'.q, multi);
    }
  }

  lemma Shorter(line: string, q: Quoting, multi: bool)
    ensures var p := Scan(SkipBlanks(line), q, "", false, multi);
      p.rest != "" ==> |p.rest| < |line|
  {
  }

  const OUTSIDE := Quoting(false, '\0')

  /** A word made of parts, up to a blank or the end of the line. */
  lemma TokensWord(ps: seq<Part>, tail: string)
    requires (forall p | p in ps :: IsPart(p, true)) && WordText(ps) != "" && |WordValue(ps)| < LIMIT
    requires Ends(tail, true)
    ensures Tokens(WordText(ps) + tail, OUTSIDE, true) == [WordValue(ps)] + Tokens(tail, OUTSIDE, true)
  {
    hide Scan, IsPart, Tokens;
    var line := WordText(ps) + tail;
    StartsSolid(ps);
    SkipText(line);
    var mark := ScanParts(ps, tail, OUTSIDE, "", false, true);
    assert "" + WordValue(ps) == WordValue(ps);
    ScanStop(tail, Quoting(false, mark), WordValue(ps), WordValue(ps) == "" && HasQuotes(ps), true);
    TokensStep(line, OUTSIDE, true);
    NoWords();
    if tail != "" {
      TokensMarkless(tail, Quoting(false, mark), OUTSIDE, true);
    }
  }

  lemma NoWords()
    ensures Tokens("", OUTSIDE, true) == []
  {
  }

  /** The text of a word starts with no blank, and is not lost. */
  lemma {:induction false} StartsSolid(ps: seq<Part>)
    requires (forall p | p in ps :: IsPart(p, true)) && WordText(ps) != ""
    ensures WordText(ps)[0] != ' ' && (WordValue(ps) == "" ==> HasQuotes(ps))
  {
    var p := ps[0];
    hide IsPart;
    QuotesFirst(ps);
    PartSolid(p);
    if PartText(p) == "" {
      StartsSolid(ps[1..]);
    }
  }

  lemma PartSolid(p: Part)
    requires IsPart(p, true)
    ensures PartText(p) != "" ==> PartText(p)[0] != ' '
    ensures PartText(p) == "" ==> p.Bare?
    ensures PartValue(p) == "" && PartText(p) != "" ==> p.Within?
  {
    assert p.Bare? && p.text != "" ==> p.text[0] in p.text;
  }

  /** Words with gaps[0] blanks in front of the first one, gaps[1] behind it,
      and so on. */
  function LineText(ws: seq<seq<Part>>, gaps: seq<nat>): string
    requires |gaps| == |ws| + 1
  {
    Blanks(gaps[0]) + if ws == [] then "" else WordText(ws[0]) + LineText(ws[1..], gaps[1..])
  }

  function Values(ws: seq<seq<Part>>): seq<string> {
    if ws == [] then [] else [WordValue(ws[0])] + Values(ws[1..])
  }

  predicate IsWord(ps: seq<Part>) {
    (forall p | p in ps :: IsPart(p, true)) && WordText(ps) != "" && |WordValue(ps)| < LIMIT
  }

  lemma TokensBlanks(n: nat, line: string)
    ensures Tokens(Blanks(n) + line, OUTSIDE, true) == Tokens(line, OUTSIDE, true)
  {
    hide Scan;
    BlanksSkipped(n, line);
    TokensStep(line, OUTSIDE, true);
    TokensStep(Blanks(n) + line, OUTSIDE, true);
  }

  /** Every word of bare text and quoted parts comes back as its value, with one
      or more blanks between the words and any number around them; behind the
      last blank an unfinished line may follow. */
  lemma {:induction false} LineWords(ws: seq<seq<Part>>, gaps: seq<nat>, rest: string)
    requires |gaps| == |ws| + 1 && (forall ps | ps in ws :: IsWord(ps))
    requires (forall i :: 0 < i < |ws| ==> gaps[i] >= 1) && (rest != "" && ws != [] ==> gaps[|ws|] >= 1)
    ensures Tokens(LineText(ws, gaps) + rest, OUTSIDE, true) == Values(ws) + Tokens(rest, OUTSIDE, true)
    decreases |ws|
  {
    hide Tokens, IsPart, Blanks, LineText, Values, WordText, WordValue, IsWord;
    LineFirst(ws, gaps, rest);
    ValuesFirst(ws, Tokens(rest, OUTSIDE, true));
    if ws == [] {
      TokensBlanks(gaps[0], rest);
    } else {
      var tail := LineText(ws[1..], gaps[1..]) + rest;
      TokensBlanks(gaps[0], WordText(ws[0]) + tail);
      EndsThere(ws[1..], gaps[1..], rest);
      OneWord(ws[0], tail);
      LineWords(ws[1..], gaps[1..], rest);
    }
  }

  lemma OneWord(ps: seq<Part>, tail: string)
    requires IsWord(ps) && Ends(tail, true)
    ensures Tokens(WordText(ps) + tail, OUTSIDE, true) == [WordValue(ps)] + Tokens(tail, OUTSIDE, true)
  {
    hide Tokens, IsPart;
    TokensWord(ps, tail);
  }

  lemma LineFirst(ws: seq<seq<Part>>, gaps: seq<nat>, rest: string)
    requires |gaps| == |ws| + 1
    ensures LineText(ws, gaps) + rest
         == Blanks(gaps[0]) + if ws == [] then rest else WordText(ws[0]) + (LineText(ws[1..], gaps[1..]) + rest)
  {
    hide Blanks, WordText;
  }

  lemma ValuesFirst(ws: seq<seq<Part>>, more: seq<string>)
    ensures Values(ws) + more == if ws == [] then more else [WordValue(ws[0])] + (Values(ws[1..]) + more)
  {
    hide WordValue;
  }

  lemma EndsThere(ws: seq<seq<Part>>, gaps: seq<nat>, rest: string)
    requires |gaps| == |ws| + 1 && (gaps[0] >= 1 || (ws == [] && rest == ""))
    ensures Ends(LineText(ws, gaps) + rest, true)
  {
    if gaps[0] >= 1 {
      assert Blanks(gaps[0])[0] == ' ';
    } else {
      assert Blanks(0) == "";
    }
  }

  /** An unclosed quote takes the rest of the line into the last word, which is
      no word when nothing is in it. */
  lemma LastUnclosed(ps: seq<Part>, mark: char, raw: string)
    requires (forall p | p in ps :: IsPart(p, true)) && IsMark(mark) && Unclosed(raw, mark)
    requires |WordValue(ps)| + |Unescaped(raw)| < LIMIT
    ensures var value := WordValue(ps) + Unescaped(raw);
      Tokens(WordText(ps) + ([mark] + raw), OUTSIDE, true) == if value == "" && !HasQuotes(ps) then [] else [value]
  {
    hide Scan, IsPart, Tokens, Closed, Unclosed;
    var line := WordText(ps) + ([mark] + raw);
    if WordText(ps) != "" {
      StartsSolid(ps);
    }
    SkipText(line);
    var m := ScanParts(ps, [mark] + raw, OUTSIDE, "", false, true);
    assert "" + WordValue(ps) == WordValue(ps);
    var e := WordValue(ps) == "" && HasQuotes(ps);
    ScanMark(mark, raw, Quoting(false, m), WordValue(ps), e, true);
    assert raw + "" == raw;
    ScanRaw(raw, "", mark, WordValue(ps), e, true);
    ScanNothing(Quoting(true, mark), WordValue(ps) + Unescaped(raw), e && raw == "", true);
    TokensStep(line, OUTSIDE, true);
  }

  lemma ScanNothing(q: Quoting, word: string, e: bool, multi: bool)
    ensures Scan("", q, word, e, multi) == Piece("", q, word, e)
  {
  }

  // ----- Single-word mode -----

  /** One word per line: blanks in front of it go, and all white space behind
      its last character that begins with a blank; those inside stay, and the
      empty line is a word. */
  lemma SingleWord(n: nat, ps: seq<Part>, tail: string)
    requires (forall p | p in ps :: IsPart(p, false)) && |WordValue(ps)| < LIMIT
    requires WordText(ps) != "" ==> WordText(ps)[0] != ' ' && !IsSpace(WordText(ps)[|WordText(ps)| - 1])
    requires Ends(tail, false) && (WordText(ps) == "" ==> tail == "")
    ensures Tokens(Blanks(n) + (WordText(ps) + tail), OUTSIDE, false) == [WordValue(ps)]
  {
    hide Scan, IsPart, Tokens;
    var line := WordText(ps) + tail;
    BlanksSkipped(n, line);
    SkipText(line);
    NotAllSpaces(WordText(ps), tail);
    var mark := ScanParts(ps, tail, OUTSIDE, "", false, false);
    assert "" + WordValue(ps) == WordValue(ps);
    ScanStop(tail, Quoting(false, mark), WordValue(ps), WordValue(ps) == "" && HasQuotes(ps), false);
    TokensStep(Blanks(n) + line, OUTSIDE, false);
  }

  lemma NotAllSpaces(text: string, tail: string)
    ensures text != "" && !IsSpace(text[|text| - 1]) ==> !AllSpaces([text[|text| - 1]] + tail)
  {
    if text != "" && !IsSpace(text[|text| - 1]) {
      assert ([text[|text| - 1]] + tail)[0] in [text[|text| - 1]] + tail;
    }
  }

  // ----- Words that are too long -----

  /** Pieces of 255 characters, and what is left. */
  function Chunks(w: string): seq<string> {
    if w == "" then [] else if |w| <= LIMIT then [w] else [w[..LIMIT]] + Chunks(w[LIMIT..])
  }

  /** Bare text of any length comes back in such pieces; in single-word mode
      only the first of them. */
  lemma {:induction false} BareChunks(w: string, tail: string)
    requires IsPart(Bare(w), true) && Ends(tail, true)
    ensures Tokens(w + tail, OUTSIDE, true) == Chunks(w) + Tokens(tail, OUTSIDE, true)
    ensures w != "" && tail == "" ==> Tokens(w, OUTSIDE, false) == [Chunks(w)[0]]
    decreases |w|
  {
    hide Tokens, Chunks, IsPart;
    NoChunks(tail);
    if w != "" {
      var k := if |w| <= LIMIT then |w| else LIMIT;
      OneChunk(w, w[..k], w[k..], tail);
      ChunkFirst(w);
      StaysBare(w, k);
      BareChunks(w[k..], tail);
      if tail == "" {
        SingleChunk(w, w[..k]);
      }
    }
  }

  lemma NoChunks(tail: string)
    ensures Chunks("") == [] && "" + tail == tail
  {
  }

  lemma StaysBare(w: string, k: nat)
    requires k <= |w| && IsPart(Bare(w), true)
    ensures IsPart(Bare(w[..k]), true) && IsPart(Bare(w[k..]), true)
  {
  }

  lemma OneChunk(w: string, chunk: string, more: string, tail: string)
    requires w != "" && w == chunk + more && |chunk| == (if |w| <= LIMIT then |w| else LIMIT)
    requires IsPart(Bare(w), true) && Ends(tail, true)
    ensures Tokens(w + tail, OUTSIDE, true) == [chunk] + Tokens(more + tail, OUTSIDE, true)
  {
    hide Scan, Tokens;
    var rest := more + tail;
    assert w + tail == chunk + rest;
    assert w[0] in w;
    SkipText(w + tail);
    ScanBare(chunk, rest, OUTSIDE, "", false, true);
    assert "" + chunk == chunk;
    assert |w| <= LIMIT ==> rest == tail;
    ScanFull(rest, chunk);
    TokensStep(w + tail, OUTSIDE, true);
    NoWords();
  }

  lemma ChunkFirst(w: string)
    requires w != ""
    ensures var k := if |w| <= LIMIT then |w| else LIMIT;
      Chunks(w) == [w[..k]] + Chunks(w[k..])
  {
    assert w[..|w|] == w && w[|w|..] == "";
  }

  lemma ScanFull(rest: string, word: string)
    requires Ends(rest, true) || |word| >= LIMIT
    ensures Scan(rest, OUTSIDE, word, false, true) == Piece(rest, OUTSIDE, word, false)
  {
  }

  lemma SingleChunk(w: string, chunk: string)
    requires IsPart(Bare(w), true) && w != ""
    requires chunk == if |w| <= LIMIT then w else w[..LIMIT]
    ensures Tokens(w, OUTSIDE, false) == [chunk]
  {
    hide Tokens, Scan;
    var rest := w[|chunk|..];
    assert w == chunk + rest;
    assert w[0] in w;
    SkipText(w);
    ScanBare(chunk, rest, OUTSIDE, "", false, false);
    assert "" + chunk == chunk;
    ScanSingle(rest, chunk);
    TokensStep(w, OUTSIDE, false);
  }

  lemma ScanSingle(rest: string, word: string)
    requires rest == "" || |word| >= LIMIT
    ensures Scan(rest, OUTSIDE, word, false, false) == Piece(rest, OUTSIDE, word, false)
  {
  }
}
