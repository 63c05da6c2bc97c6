// Argument lists as users write them, rightly or wrongly, and what the scan
// reads from them.

module OptionRoundTrip {
  import opened Common
  import opened OptionScan

  /** A long option behind its dashes, or behind -W: on its own, with =value, or
      with its argument in the next word. */
  datatype LongForm =
    | Bare(name: string)
    | WithValue(name: string, value: string)
    | Followed(name: string, value: string)

  function Body(f: LongForm): string {
    match f
    case Bare(name) => name
    case WithValue(name, value) => name + "=" + value
    case Followed(name, _) => name
  }

  function NextWord(f: LongForm): seq<string> {
    match f
    case Followed(_, value) => [value]
    case _ => []
  }

  /** What ends a cluster of short options: nothing, an option with its argument
      in the same word or in the next one, an option alone although it takes an
      argument, or -W with a long option. */
  datatype Last =
    | Nothing
    | Attached(c: char, value: string)
    | Separate(c: char, value: string)
    | Alone(c: char)
    | Wide(f: LongForm)
    | WideApart(f: LongForm)

  function LastText(x: Last): string {
    match x
    case Nothing => ""
    case Attached(c, value) => [c] + value
    case Separate(c, _) => [c]
    case Alone(c) => [c]
    case Wide(f) => "W" + Body(f)
    case WideApart(_) => "W"
  }

  function LastWords(x: Last): (r: seq<string>)
    ensures |r| <= 2
  {
    match x
    case Separate(_, value) => [value]
    case Wide(f) => NextWord(f)
    case WideApart(f) => [Body(f)] + NextWord(f)
    case _ => []
  }

  /** A cluster of short options, a long option, or an operand. */
  datatype Item = Cluster(cs: string, last: Last) | Long(f: LongForm) | Operand(word: string)

  function Words(x: Item): (r: seq<string>)
    ensures 1 <= |r| <= 3
  {
    match x
    case Cluster(cs, last) => ["-" + cs + LastText(last)] + LastWords(last)
    case Long(f) => ["--" + Body(f)] + NextWord(f)
    case Operand(word) => [word]
  }

  // ----- What may be written, and what it means -----

  /** The name stands for one long option, which requires an argument. */
  predicate Needs(o: Options, name: string) {
    MatchOf(o.longs, name).Found? && o.longs[MatchOf(o.longs, name).k].hasArg == 1
  }

  /** The next word is the argument of an option that requires one, whenever
      there is a next word. */
  predicate IsForm(o: Options, f: LongForm, atEnd: bool) {
    && '=' !in f.name
    && match f
       case Bare(name) => Needs(o, name) ==> atEnd
       case WithValue(_, _) => true
       case Followed(name, _) => Needs(o, name)
  }

  predicate IsLast(o: Options, x: Last, atEnd: bool) {
    match x
    case Nothing => true
    case Attached(c, value) => value != "" && ArityOf(o.shorts, c) in {RequiredArgument, OptionalArgument}
    case Separate(c, _) => ArityOf(o.shorts, c) == RequiredArgument
    case Alone(c) =>
      ArityOf(o.shorts, c) == OptionalArgument || (atEnd && ArityOf(o.shorts, c) in {RequiredArgument, LongName})
    case Wide(f) => ArityOf(o.shorts, 'W') == LongName && Body(f) != "" && IsForm(o, f, atEnd)
    case WideApart(f) => ArityOf(o.shorts, 'W') == LongName && IsForm(o, f, atEnd)
  }

  /** A character that takes no argument, because it has none or is unknown. */
  predicate IsFlag(o: Options, c: char) {
    ArityOf(o.shorts, c) in {NoArgument, Unknown}
  }

  /** A '-' with something behind it. */
  predicate IsDashed(word: string) {
    |word| >= 2 && word[0] == '-'
  }

  /** atEnd says that no word follows. */
  predicate IsItem(o: Options, x: Item, atEnd: bool) {
    match x
    case Cluster(cs, last) =>
      && cs + LastText(last) != "" && (cs + LastText(last))[0] != '-'
      && (forall c | c in cs :: IsFlag(o, c)) && IsLast(o, last, atEnd)
    case Long(f) => Body(f) != "" && IsForm(o, f, atEnd)
    case Operand(word) => !IsDashed(word)
  }

  /** A missing argument is reported as ':' if the option string starts so. */
  function LackCode(o: Options): int {
    if o.shorts != "" && o.shorts[0] == ':' then ':' as int else '?' as int
  }

  /** An unknown or ambiguous name, a value for an option that takes none, and a
      missing argument are faults; all else is the option. */
  function FormEvent(o: Options, f: LongForm): Event {
    match MatchOf(o.longs, f.name)
    case NoMatch => Event('?' as int, None, Some(0))
    case Ambiguous => Event('?' as int, None, Some(0))
    case Found(k) =>
      var p := o.longs[k];
      match f
      case Bare(_) => if p.hasArg == 1 then Event(LackCode(o), None, Some(p.val)) else Event(p.val, None, None)
      case WithValue(_, value) =>
        if p.hasArg == 0 then Event('?' as int, None, Some(p.val)) else Event(p.val, Some(value), None)
      case Followed(_, value) => Event(p.val, Some(value), None)
  }

  function FlagEvent(o: Options, c: char): Event {
    if ArityOf(o.shorts, c) == Unknown then Event('?' as int, None, Some(c as int)) else Event(c as int, None, None)
  }

  function FlagEvents(o: Options, cs: string): (r: seq<Event>)
    ensures |r| == |cs|
  {
    if cs == "" then [] else [FlagEvent(o, cs[0])] + FlagEvents(o, cs[1..])
  }

  function LastEvents(o: Options, x: Last): (r: seq<Event>)
    ensures |r| <= 1
  {
    match x
    case Nothing => []
    case Attached(c, value) => [Event(c as int, Some(value), None)]
    case Separate(c, value) => [Event(c as int, Some(value), None)]
    case Alone(c) =>
      [if ArityOf(o.shorts, c) == OptionalArgument then Event(c as int, None, None)
       else Event(LackCode(o), None, Some(c as int))]
    case Wide(f) => [FormEvent(o, f)]
    case WideApart(f) => [FormEvent(o, f)]
  }

  function EventsOf(o: Options, mode: Ordering, x: Item): seq<Event> {
    match x
    case Cluster(cs, last) => FlagEvents(o, cs) + LastEvents(o, last)
    case Long(f) => [FormEvent(o, f)]
    case Operand(word) => if mode == ReturnInOrder then [Event(1, Some(word), None)] else []
  }

  /** Whether the scan takes the item, or leaves it over. */
  predicate IsTaken(mode: Ordering, x: Item) {
    x.Operand? ==> mode == ReturnInOrder
  }

  // ----- Reading one item -----

  lemma FindAt(s: string, t: string, c: char)
    requires c !in s
    ensures Find(s, c) == |s|
    ensures Find(s + [c] + t, c) == |s|
  {
    var u := s + [c] + t;
    assert u[|s|] == c;
    assert forall i :: 0 <= i < |s| ==> u[i] == s[i];
  }

  /** The words of a list from element i on. */
  ghost predicate WordsAt(args: seq<string>, i: nat, ws: seq<string>) {
    i + |ws| <= |args| && forall k :: 0 <= k < |ws| ==> args[i + k] == ws[k]
  }

  lemma BodyText(f: LongForm)
    requires '=' !in f.name
    ensures var b, n := Body(f), |f.name|;
      && Find(b, '=') == n && n <= |b| && b[..n] == f.name
      && (if f.WithValue? then n < |b| && b[n + 1..] == f.value else n == |b|)
  {
    var value := if f.WithValue? then f.value else "";
    FindAt(f.name, value, '=');
    var u := f.name + ['='] + value;
    assert u[..|f.name|] == f.name && u[|f.name| + 1..] == value && f.name[..|f.name|] == f.name;
  }

  /** A long option is reported, and the scan goes on behind its last word. */
  lemma LongBodyIs(o: Options, args: seq<string>, i: nat, f: LongForm)
    requires i < |args| && WordsAt(args, i + 1, NextWord(f)) && IsForm(o, f, i + 1 + |NextWord(f)| == |args|)
    ensures LongBody(o, args, i, Body(f)) == Stepped(FormEvent(o, f), i + 1 + |NextWord(f)|, "")
  {
    hide MatchOf, Find, Body;
    BodyText(f);
    assert f.Followed? ==> NextWord(f)[0] == f.value && args[i + 1 + 0] == NextWord(f)[0];
  }

  lemma FlagStep(o: Options, args: seq<string>, i: nat, c: char, more: string)
    requires i < |args| && IsFlag(o, c)
    ensures ShortStep(o, args, i, [c] + more) == Stepped(FlagEvent(o, c), if more == "" then i + 1 else i, more)
  {
    hide ArityOf, LongBody;
    assert ([c] + more)[1..] == more;
  }

  /** Nothing but this can end a cluster. */
  lemma LastStep(o: Options, args: seq<string>, i: nat, x: Last)
    requires !x.Nothing? && i < |args| && WordsAt(args, i + 1, LastWords(x))
    requires IsLast(o, x, i + 1 + |LastWords(x)| == |args|)
    ensures LastText(x) != ""
    ensures ShortStep(o, args, i, LastText(x)) == Stepped(LastEvents(o, x)[0], i + 1 + |LastWords(x)|, "")
  {
    hide ArityOf, LongBody, Body, NextWord, FormEvent;
    match x
    case Attached(c, value) => assert ([c] + value)[1..] == value;
    case Separate(c, value) => assert args[i + 1 + 0] == LastWords(x)[0] && [c][1..] == "";
    case Alone(c) => assert [c][1..] == "";
    case Wide(f) =>
      assert ("W" + Body(f))[1..] == Body(f);
      LongBodyIs(o, args, i, f);
    case WideApart(f) => WideApartStep(o, args, i, f);
  }

  lemma WideApartStep(o: Options, args: seq<string>, i: nat, f: LongForm)
    requires i < |args| && WordsAt(args, i + 1, [Body(f)] + NextWord(f))
    requires IsLast(o, WideApart(f), i + 2 + |NextWord(f)| == |args|)
    ensures ShortStep(o, args, i, "W") == Stepped(FormEvent(o, f), i + 2 + |NextWord(f)|, "")
  {
    hide ArityOf, LongBody, Body, FormEvent;
    var ws := [Body(f)] + NextWord(f);
    assert args[i + 1 + 0] == ws[0];
    assert f.Followed? ==> args[i + 1 + 1] == ws[1];
    assert "W"[1..] == "";
    LongBodyIs(o, args, i + 1, f);
  }

  /** A whole cluster, from the first character that is still to be read. */
  lemma {:induction false} ReadCluster(o: Options, mode: Ordering, args: seq<string>, i: nat, cs: string, last: Last)
    requires i < |args| && WordsAt(args, i + 1, LastWords(last)) && cs + LastText(last) != ""
    requires (forall c | c in cs :: IsFlag(o, c)) && IsLast(o, last, i + 1 + |LastWords(last)| == |args|)
    ensures var n := 1 + |LastWords(last)|;
      var r := Read(o, mode, args, i + n, "");
      Read(o, mode, args, i, cs + LastText(last))
      == Reading(FlagEvents(o, cs) + LastEvents(o, last) + r.events, Times(true, n) + r.kinds)
    decreases |cs|
  {
    hide LastText, LastWords, LastEvents, IsLast, IsFlag, ShortStep, FlagEvents, FlagEvent, Times, Read, Prepend;
    var n, text := 1 + |LastWords(last)|, cs + LastText(last);
    var r := Read(o, mode, args, i + n, "");
    ReadsShort(o, mode, args, i, text);
    NothingLast(o, last);
    if cs == "" {
      assert text == LastText(last);
      LastStep(o, args, i, last);
      OnlyLast(o, LastEvents(o, last), r, n);
    } else {
      var more := cs[1..] + LastText(last);
      assert text == [cs[0]] + more;
      FlagStep(o, args, i, cs[0], more);
      if more != "" {
        ReadCluster(o, mode, args, i, cs[1..], last);
        FlagFirst(o, cs, LastEvents(o, last), r, n);
      } else {
        assert |cs| == 1;
        LastFlag(o, cs, r);
      }
    }
  }

  lemma ReadsShort(o: Options, mode: Ordering, args: seq<string>, i: nat, text: string)
    requires i < |args| && text != ""
    ensures var s := ShortStep(o, args, i, text);
      IsAt(args, s.i, s.rest) && i <= s.i && Read(o, mode, args, i, text)
      == Prepend(s.event, s.i - i, Read(o, mode, args, s.i, s.rest))
  {
    hide ShortStep, Prepend;
  }

  lemma NothingLast(o: Options, x: Last)
    ensures LastText(x) == "" <==> x.Nothing?
    ensures x.Nothing? ==> LastWords(x) == [] && LastEvents(o, x) == []
    ensures !x.Nothing? ==> |LastEvents(o, x)| == 1
  {
  }

  lemma FlagFirst(o: Options, cs: string, last: seq<Event>, r: Reading, n: nat)
    requires cs != ""
    ensures Prepend(FlagEvent(o, cs[0]), 0, Reading(FlagEvents(o, cs[1..]) + last + r.events, Times(true, n) + r.kinds))
         == Reading(FlagEvents(o, cs) + last + r.events, Times(true, n) + r.kinds)
  {
    hide FlagEvent, Times;
    NoTimes(Times(true, n) + r.kinds);
    EventFirst(FlagEvent(o, cs[0]), FlagEvents(o, cs[1..]), last, r.events);
  }

  lemma NoTimes(s: seq<bool>)
    ensures Times(true, 0) + s == s
  {
  }

  lemma EventFirst(e: Event, a: seq<Event>, b: seq<Event>, c: seq<Event>)
    ensures [e] + (a + b + c) == ([e] + a) + b + c
  {
  }

  lemma LastFlag(o: Options, cs: string, r: Reading)
    requires |cs| == 1
    ensures Prepend(FlagEvent(o, cs[0]), 1, r) == Reading(FlagEvents(o, cs) + [] + r.events, Times(true, 1) + r.kinds)
  {
    hide FlagEvent, Times;
    assert FlagEvents(o, cs[1..]) == [];
  }

  lemma OnlyLast(o: Options, last: seq<Event>, r: Reading, n: nat)
    requires |last| == 1
    ensures Prepend(last[0], n, r) == Reading(FlagEvents(o, "") + last + r.events, Times(true, n) + r.kinds)
  {
    hide Times;
    assert FlagEvents(o, "") + last == [last[0]];
  }

  /** One item is read as what it means, and the scan goes on behind it. */
  lemma ReadItem(o: Options, mode: Ordering, args: seq<string>, i: nat, x: Item)
    requires WordsAt(args, i, Words(x)) && IsItem(o, x, i + |Words(x)| == |args|)
    requires x.Operand? ==> mode != RequireOrder
    ensures var n := |Words(x)|;
      var r := Read(o, mode, args, i + n, "");
      Read(o, mode, args, i, "") == Reading(EventsOf(o, mode, x) + r.events, Times(IsTaken(mode, x), n) + r.kinds)
  {
    hide Read, FlagEvents, LastEvents, LastText, LastWords, IsLast, IsFlag, FormEvent, IsForm, Body, NextWord, Times;
    WordsBehind(args, i, Words(x)[0], Words(x)[1..]);
    match x
    case Cluster(cs, last) => ReadClusterItem(o, mode, args, i, cs, last);
    case Long(f) => ReadLongItem(o, mode, args, i, f);
    case Operand(word) => ReadOperand(o, mode, args, i);
  }

  lemma ReadClusterItem(o: Options, mode: Ordering, args: seq<string>, i: nat, cs: string, last: Last)
    requires i < |args| && WordsAt(args, i + 1, LastWords(last)) && args[i] == Words(Cluster(cs, last))[0]
    requires IsItem(o, Cluster(cs, last), i + 1 + |LastWords(last)| == |args|)
    ensures var n := 1 + |LastWords(last)|;
      var r := Read(o, mode, args, i + n, "");
      Read(o, mode, args, i, "")
      == Reading(FlagEvents(o, cs) + LastEvents(o, last) + r.events, Times(true, n) + r.kinds)
  {
    hide Read, FlagEvents, LastEvents, LastText, LastWords, IsLast, IsFlag, Times, Words;
    ClusterWord(cs, last);
    ReadsCluster(o, mode, args, i);
    ReadCluster(o, mode, args, i, cs, last);
  }

  lemma WordsBehind(args: seq<string>, i: nat, w: string, ws: seq<string>)
    requires WordsAt(args, i, [w] + ws)
    ensures args[i] == w && WordsAt(args, i + 1, ws)
  {
    var all := [w] + ws;
    assert args[i + 0] == all[0];
    forall k | 0 <= k < |ws|
      ensures args[i + 1 + k] == ws[k]
    {
      assert args[i + (1 + k)] == all[1 + k];
    }
  }

  lemma ClusterWord(cs: string, last: Last)
    ensures var w, text := Words(Cluster(cs, last))[0], cs + LastText(last);
      |w| == 1 + |text| && w[0] == '-' && w[1..] == text && (text != "" ==> w[1] == text[0])
  {
    hide LastText, LastWords;
    assert "-" + cs + LastText(last) == "-" + (cs + LastText(last));
  }

  lemma ReadsCluster(o: Options, mode: Ordering, args: seq<string>, i: nat)
    requires i < |args| && |args[i]| >= 2 && args[i][0] == '-' && args[i][1] != '-'
    ensures Read(o, mode, args, i, "") == Read(o, mode, args, i, args[i][1..])
  {
  }

  lemma ReadLongItem(o: Options, mode: Ordering, args: seq<string>, i: nat, f: LongForm)
    requires WordsAt(args, i + 1, NextWord(f)) && i < |args| && args[i] == "--" + Body(f) && Body(f) != ""
    requires IsForm(o, f, i + 1 + |NextWord(f)| == |args|)
    ensures var n := 1 + |NextWord(f)|;
      var r := Read(o, mode, args, i + n, "");
      Read(o, mode, args, i, "") == Reading([FormEvent(o, f)] + r.events, Times(true, n) + r.kinds)
  {
    hide LongBody, FormEvent, IsForm, Body, NextWord, Times;
    assert args[i][2..] == Body(f);
    LongBodyIs(o, args, i, f);
    ReadsLong(o, mode, args, i);
  }

  lemma ReadsLong(o: Options, mode: Ordering, args: seq<string>, i: nat)
    requires i < |args| && |args[i]| > 2 && args[i][0] == '-' && args[i][1] == '-'
    ensures var s := LongBody(o, args, i, args[i][2..]);
      IsAt(args, s.i, s.rest) && Read(o, mode, args, i, "")
      == Prepend(s.event, s.i - i, Read(o, mode, args, s.i, s.rest))
  {
    hide LongBody, Prepend;
  }

  lemma ReadOperand(o: Options, mode: Ordering, args: seq<string>, i: nat)
    requires i < |args| && IsNonOption(args[i]) && mode != RequireOrder
    ensures var r := Read(o, mode, args, i + 1, "");
      Read(o, mode, args, i, "")
      == Reading((if mode == ReturnInOrder then [Event(1, Some(args[i]), None)] else []) + r.events,
                 Times(mode == ReturnInOrder, 1) + r.kinds)
  {
    assert Times(false, 1) == [false] && args[i] != "--";
  }

  // ----- Whole argument lists -----

  function AllWords(xs: seq<Item>): seq<string> {
    if xs == [] then [] else Words(xs[0]) + AllWords(xs[1..])
  }

  function AllEvents(o: Options, mode: Ordering, xs: seq<Item>): seq<Event> {
    if xs == [] then [] else EventsOf(o, mode, xs[0]) + AllEvents(o, mode, xs[1..])
  }

  /** The words of the items that are taken, or of those that are left over. */
  function WordsOf(mode: Ordering, xs: seq<Item>, taken: bool): seq<string> {
    if xs == [] then []
    else (if IsTaken(mode, xs[0]) == taken then Words(xs[0]) else []) + WordsOf(mode, xs[1..], taken)
  }

  /** How a list ends: with no word left, with "--" and words of any kind, or,
      if order is required, with the first operand. */
  predicate IsRest(mode: Ordering, rest: seq<string>) {
    rest == [] || rest[0] == "--" || (mode == RequireOrder && !IsDashed(rest[0]))
  }

  /** The number of its words that are taken. */
  function Skipped(rest: seq<string>): (n: nat)
    ensures n <= |rest|
  {
    if rest != [] && rest[0] == "--" then 1 else 0
  }

  predicate AllItems(o: Options, mode: Ordering, xs: seq<Item>, rest: seq<string>) {
    xs == [] ||
    (IsItem(o, xs[0], xs[1..] == [] && rest == []) && (xs[0].Operand? ==> mode != RequireOrder)
     && AllItems(o, mode, xs[1..], rest))
  }

  /** From element i on the scan reports events, and takes and leaves these words. */
  ghost predicate Reads(o: Options, mode: Ordering, args: seq<string>, i: nat, events: seq<Event>,
      taken: seq<string>, left: seq<string>)
    requires i <= |args|
  {
    var r := Read(o, mode, args, i, "");
    r.events == events && Pick(args[i..], r.kinds, true) == taken && Pick(args[i..], r.kinds, false) == left
  }

  lemma {:induction false} ReadItems(o: Options, mode: Ordering, pre: seq<string>, xs: seq<Item>, rest: seq<string>)
    requires AllItems(o, mode, xs, rest) && IsRest(mode, rest)
    ensures Reads(o, mode, pre + AllWords(xs) + rest, |pre|, AllEvents(o, mode, xs),
        WordsOf(mode, xs, true) + rest[..Skipped(rest)], WordsOf(mode, xs, false) + rest[Skipped(rest)..])
    decreases |xs|
  {
    hide IsItem, Words, Reads, EventsOf, IsTaken;
    var args, n := pre + AllWords(xs) + rest, Skipped(rest);
    if xs == [] {
      ReadRest(o, mode, args, |pre|, rest);
      assert [] + rest[..n] == rest[..n] && [] + rest[n..] == rest[n..];
    } else {
      var x, w := xs[0], Words(xs[0]);
      assert args == (pre + w) + AllWords(xs[1..]) + rest;
      assert forall k :: 0 <= k < |w| ==> args[|pre| + k] == w[k];
      NoWords(xs[1..]);
      assert |pre| + |w| == |args| <==> xs[1..] == [] && rest == [];
      ReadItems(o, mode, pre + w, xs[1..], rest);
      ReadItem(o, mode, args, |pre|, x);
      ReadsItem(o, mode, args, |pre|, x, AllEvents(o, mode, xs[1..]), WordsOf(mode, xs[1..], true) + rest[..n],
          WordsOf(mode, xs[1..], false) + rest[n..]);
      ItemFirst(mode, xs, rest[..n], rest[n..]);
    }
  }

  lemma NoWords(xs: seq<Item>)
    ensures AllWords(xs) == [] <==> xs == []
  {
  }

  lemma ItemFirst(mode: Ordering, xs: seq<Item>, a: seq<string>, b: seq<string>)
    requires xs != []
    ensures WordsOf(mode, xs, true) + a
         == (if IsTaken(mode, xs[0]) then Words(xs[0]) else []) + (WordsOf(mode, xs[1..], true) + a)
    ensures WordsOf(mode, xs, false) + b
         == (if IsTaken(mode, xs[0]) then [] else Words(xs[0])) + (WordsOf(mode, xs[1..], false) + b)
  {
    hide Words, IsTaken;
  }

  lemma ReadRest(o: Options, mode: Ordering, args: seq<string>, i: nat, rest: seq<string>)
    requires i + |rest| == |args| && args[i..] == rest && IsRest(mode, rest)
    ensures Reads(o, mode, args, i, [], rest[..Skipped(rest)], rest[Skipped(rest)..])
  {
    if rest != [] {
      assert args[i] == rest[0];
      PickTimes(rest, false, true);
      PickTimes(rest, false, false);
      PickTimes(rest[1..], false, true);
      PickTimes(rest[1..], false, false);
      assert ([true] + Times(false, |rest| - 1))[1..] == Times(false, |rest| - 1);
    }
  }

  lemma ReadsItem(o: Options, mode: Ordering, args: seq<string>, i: nat, x: Item, events: seq<Event>,
      taken: seq<string>, left: seq<string>)
    requires WordsAt(args, i, Words(x)) && Reads(o, mode, args, i + |Words(x)|, events, taken, left)
    requires var n := |Words(x)|;
      var r := Read(o, mode, args, i + n, "");
      Read(o, mode, args, i, "") == Reading(EventsOf(o, mode, x) + r.events, Times(IsTaken(mode, x), n) + r.kinds)
    ensures Reads(o, mode, args, i, EventsOf(o, mode, x) + events,
        (if IsTaken(mode, x) then Words(x) else []) + taken, (if IsTaken(mode, x) then [] else Words(x)) + left)
  {
    hide Read, IsItem, Pick, Words, EventsOf, IsTaken;
    var w, b := Words(x), IsTaken(mode, x);
    var r := Read(o, mode, args, i + |w|, "");
    assert args[i..] == w + args[i + |w|..];
    PickConcat(w, args[i + |w|..], Times(b, |w|), r.kinds, true);
    PickConcat(w, args[i + |w|..], Times(b, |w|), r.kinds, false);
    PickTimes(w, b, true);
    PickTimes(w, b, false);
  }

  /** However options, faults and operands are mixed, in every ordering mode,
      getopt_long reports each item as what it means, and rearranges the list
      into what is taken and what is left over. */
  lemma ReadWritten(o: Options, mode: Ordering, program: string, xs: seq<Item>, rest: seq<string>)
    requires AllItems(o, mode, xs, rest) && IsRest(mode, rest)
    ensures var args, n := [program] + AllWords(xs) + rest, Skipped(rest);
      var r := Read(o, mode, args, 1, "");
      && r.events == AllEvents(o, mode, xs)
      && Rearranged(args, r)
         == [program] + (WordsOf(mode, xs, true) + rest[..n]) + (WordsOf(mode, xs, false) + rest[n..])
  {
    hide Read, Pick, AllWords, AllEvents, WordsOf;
    ReadItems(o, mode, [program], xs, rest);
    var args := [program] + AllWords(xs) + rest;
    assert args[..1] == [program];
  }

  // ----- Every list is written so -----

  /** Takes body apart, with the words more behind it. */
  lemma AnyForm(o: Options, body: string, more: seq<string>) returns (f: LongForm)
    ensures Body(f) == body && |NextWord(f)| <= |more|
    ensures NextWord(f) == more[..|NextWord(f)|] && IsForm(o, f, more[|NextWord(f)|..] == [])
  {
    hide MatchOf;
    var n := Find(body, '=');
    var name := body[..n];
    assert '=' !in name;
    if n < |body| {
      f := WithValue(name, body[n + 1..]);
      assert body == name + [body[n]] + body[n + 1..];
    } else if Needs(o, body) && more != [] {
      f := Followed(body, more[0]);
    } else {
      f := LongForm.Bare(body);
    }
  }

  lemma AnyLast(o: Options, text: string, more: seq<string>) returns (last: Last)
    requires text != "" && !IsFlag(o, text[0])
    ensures LastText(last) == text && |LastWords(last)| <= |more|
    ensures LastWords(last) == more[..|LastWords(last)|] && IsLast(o, last, more[|LastWords(last)|..] == [])
  {
    hide ArityOf, Body, NextWord, IsForm;
    var c, rest := text[0], text[1..];
    assert text == [c] + rest;
    if ArityOf(o.shorts, c) == LongName {
      OnlyWide(o, c);
      if rest != "" {
        var f := AnyForm(o, rest, more);
        last := Wide(f);
      } else if more == [] {
        last := Alone(c);
      } else {
        var f := AnyForm(o, more[0], more[1..]);
        last := WideApart(f);
        assert more == [more[0]] + more[1..];
      }
    } else if rest != "" {
      last := Attached(c, rest);
    } else if ArityOf(o.shorts, c) == OptionalArgument || more == [] {
      last := Alone(c);
    } else {
      last := Separate(c, more[0]);
    }
  }

  lemma OnlyWide(o: Options, c: char)
    ensures ArityOf(o.shorts, c) == LongName ==> c == 'W'
  {
  }

  lemma {:induction false} AnyCluster(o: Options, text: string, more: seq<string>) returns (cs: string, last: Last)
    ensures cs + LastText(last) == text && |LastWords(last)| <= |more| && forall c | c in cs :: IsFlag(o, c)
    ensures LastWords(last) == more[..|LastWords(last)|] && IsLast(o, last, more[|LastWords(last)|..] == [])
    decreases |text|
  {
    hide IsFlag;
    if text == "" {
      cs, last := "", Nothing;
    } else if IsFlag(o, text[0]) {
      cs, last := AnyCluster(o, text[1..], more);
      hide IsLast, LastText, LastWords;
      assert [text[0]] + (cs + LastText(last)) == [text[0]] + cs + LastText(last) == text;
      cs := [text[0]] + cs;
    } else {
      hide IsLast, LastText, LastWords;
      cs := "";
      last := AnyLast(o, text, more);
      assert "" + LastText(last) == LastText(last);
    }
  }

  lemma AnyItem(o: Options, mode: Ordering, ws: seq<string>) returns (x: Item)
    requires !IsRest(mode, ws)
    ensures |Words(x)| <= |ws| && Words(x) == ws[..|Words(x)|]
    ensures IsItem(o, x, ws[|Words(x)|..] == []) && (x.Operand? ==> mode != RequireOrder)
  {
    hide Body, NextWord, IsForm, LastText, LastWords, IsLast, IsFlag;
    var w, more := ws[0], ws[1..];
    assert ws == [w] + more;
    if IsNonOption(w) {
      x := Operand(w);
    } else if w[1] == '-' {
      var f := AnyForm(o, w[2..], more);
      x := Long(f);
      assert w == "--" + w[2..];
    } else {
      var cs, last := AnyCluster(o, w[1..], more);
      x := Cluster(cs, last);
      assert "-" + cs + LastText(last) == "-" + w[1..] == w;
    }
  }

  /** There is no argument list that is not written so. */
  lemma {:induction false} EveryList(o: Options, mode: Ordering, ws: seq<string>)
      returns (xs: seq<Item>, rest: seq<string>)
    ensures AllWords(xs) + rest == ws && AllItems(o, mode, xs, rest) && IsRest(mode, rest)
    decreases |ws|
  {
    hide IsItem, Words, IsRest;
    if IsRest(mode, ws) {
      xs, rest := [], ws;
      assert [] + ws == ws;
    } else {
      var x := AnyItem(o, mode, ws);
      var n := |Words(x)|;
      xs, rest := EveryList(o, mode, ws[n..]);
      NoWords(xs);
      ItemThen(x, xs, rest, ws);
      xs := [x] + xs;
    }
  }

  lemma ItemThen(x: Item, xs: seq<Item>, rest: seq<string>, ws: seq<string>)
    requires |Words(x)| <= |ws| && Words(x) == ws[..|Words(x)|] && AllWords(xs) + rest == ws[|Words(x)|..]
    ensures AllWords([x] + xs) + rest == ws && ([x] + xs)[1..] == xs
    ensures ws[|Words(x)|..] == [] <==> AllWords(xs) == [] && rest == []
  {
    hide Words;
    assert ([x] + xs)[1..] == xs;
    assert ws == Words(x) + ws[|Words(x)|..];
  }

  // ----- The option string -----

  /** An option that the caller declares. */
  datatype Decl = Decl(c: char, arity: Arity)

  function DeclText(d: Decl): string {
    [d.c] + match d.arity
            case RequiredArgument => ":"
            case OptionalArgument => "::"
            case LongName => ";"
            case _ => ""
  }

  predicate IsDecl(d: Decl) {
    d.c != ':' && d.c != ';' && d.arity != Unknown && (d.arity == LongName ==> d.c == 'W')
  }

  function OptionString(ds: seq<Decl>): string {
    if ds == [] then "" else DeclText(ds[0]) + OptionString(ds[1..])
  }

  /** What is declared for c: the first declaration counts. */
  function Declared(ds: seq<Decl>, c: char): Arity {
    if ds == [] then Unknown else if ds[0].c == c then ds[0].arity else Declared(ds[1..], c)
  }

  /** The option string is read as it was declared, with or without a leading
      colon. */
  lemma ArityDeclared(ds: seq<Decl>, lead: string, c: char)
    requires (forall d | d in ds :: IsDecl(d)) && lead in {"", ":"}
    ensures ArityOf(lead + OptionString(ds), c) == Declared(ds, c)
  {
    if c == ':' || c == ';' {
      NotDeclared(ds, c);
    } else {
      ArityBehind(ds, lead, c);
    }
  }

  lemma {:induction false} NotDeclared(ds: seq<Decl>, c: char)
    requires (forall d | d in ds :: IsDecl(d)) && (c == ':' || c == ';')
    ensures Declared(ds, c) == Unknown
  {
    if ds != [] {
      assert IsDecl(ds[0]);
      NotDeclared(ds[1..], c);
    }
  }

  lemma {:induction false} ArityBehind(ds: seq<Decl>, pre: string, c: char)
    requires (forall d | d in ds :: IsDecl(d)) && c != ':' && c != ';' && c !in pre
    ensures ArityOf(pre + OptionString(ds), c) == Declared(ds, c)
    decreases |ds|
  {
    hide IsDecl;
    if ds == [] {
      assert pre + OptionString(ds) == pre;
    } else {
      var d, more := ds[0], OptionString(ds[1..]);
      assert pre + OptionString(ds) == pre + DeclText(d) + more;
      assert IsDecl(d);
      if d.c == c {
        NextDecl(ds[1..]);
        ArityHere(d, pre, more);
      } else {
        OtherDecl(d, c);
        ArityBehind(ds[1..], pre + DeclText(d), c);
      }
    }
  }

  lemma OtherDecl(d: Decl, c: char)
    requires c != d.c && c != ':' && c != ';'
    ensures c !in DeclText(d)
  {
  }

  lemma NextDecl(ds: seq<Decl>)
    requires forall d | d in ds :: IsDecl(d)
    ensures OptionString(ds) != "" ==> OptionString(ds)[0] != ':' && OptionString(ds)[0] != ';'
  {
    if ds != [] {
      assert IsDecl(ds[0]) && OptionString(ds)[0] == ds[0].c;
    }
  }

  lemma ArityHere(d: Decl, pre: string, more: string)
    requires IsDecl(d) && d.c !in pre && (more != "" ==> more[0] != ':' && more[0] != ';')
    ensures ArityOf(pre + DeclText(d) + more, d.c) == d.arity
  {
    var s, n, t := pre + DeclText(d) + more, |pre|, DeclText(d);
    assert s[n] == d.c && forall i :: 0 <= i < n ==> s[i] == pre[i];
    assert forall i :: 0 <= i < |t| ==> s[n + i] == t[i];
    assert n + |t| < |s| ==> s[n + |t|] == more[0];
    assert |t| >= 2 ==> s[n + 1] == t[1];
    assert |t| >= 3 ==> s[n + 2] == t[2];
  }

  /** The short options of parted. */
  const PARTED := [
    Decl('h', NoArgument), Decl('l', NoArgument), Decl('m', NoArgument), Decl('j', NoArgument),
    Decl('s', NoArgument), Decl('f', NoArgument), Decl('v', NoArgument), Decl('a', RequiredArgument)]

  lemma PartedString()
    ensures OptionString(PARTED) == "hlmjsfva:" && Declared(PARTED, 'a') == RequiredArgument
  {
  }

  /** An option that requires an argument, last in the list, is a fault. */
  lemma LackingRead(o: Options, mode: Ordering, program: string, c: char)
    requires ArityOf(o.shorts, c) == RequiredArgument && c != '-'
    ensures Read(o, mode, [program, "-" + [c]], 1, "").events == [Event(LackCode(o), None, Some(c as int))]
  {
    var x := Cluster("", Alone(c));
    assert "-" + "" + [c] == "-" + [c] && "" + [c] == [c];
    assert LastWords(Alone(c)) == [] && FlagEvents(o, "") == [];
    assert Words(x) == ["-" + [c]] && EventsOf(o, mode, x) == [Event(LackCode(o), None, Some(c as int))];
    assert IsItem(o, x, true);
    hide Read, ArityOf, IsItem, Words, EventsOf;
    OneItem(o, mode, x);
    ReadWritten(o, mode, program, [x], []);
    assert [program] + AllWords([x]) + [] == [program, "-" + [c]];
  }

  lemma OneItem(o: Options, mode: Ordering, x: Item)
    ensures AllWords([x]) == Words(x) && AllEvents(o, mode, [x]) == EventsOf(o, mode, x)
    ensures IsItem(o, x, true) && !x.Operand? ==> AllItems(o, mode, [x], [])
  {
    hide IsItem, Words, EventsOf;
    assert [x][1..] == [];
  }

  /** "parted -a" is one. */
  lemma PartedLacks(longs: seq<LongOpt>)
    ensures Read(Options("hlmjsfva:", longs), Permute, ["parted", "-a"], 1, "").events
         == [Event('?' as int, None, Some('a' as int))]
  {
    PartedString();
    hide OptionString, Declared, Read, ArityOf;
    ArityDeclared(PARTED, "", 'a');
    assert "" + OptionString(PARTED) == "hlmjsfva:";
    LackingRead(Options("hlmjsfva:", longs), Permute, "parted", 'a');
    assert "-" + ['a'] == "-a";
  }
}
