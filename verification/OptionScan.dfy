// What a sequence of getopt_long calls must report: a scan of the argument
// list from left to right that never rearranges anything.

module OptionScan {
  import opened Common

  /** A struct option without a flag to set. */
  datatype LongOpt = LongOpt(name: string, hasArg: int, val: int)

  /** shorts is the option string behind a leading '-' or '+'. */
  datatype Options = Options(shorts: string, longs: seq<LongOpt>) {
    /** ... with a leading ':' a missing argument is reported as ':'. */
    function Missing(): int {
      if shorts != "" && shorts[0] == ':' then ':' as int else '?' as int
    }
  }

  datatype Ordering = Permute | RequireOrder | ReturnInOrder

  datatype Arity = Unknown | NoArgument | RequiredArgument | OptionalArgument | LongName

  /** strchr: the first place of c in s, or |s|. */
  function Find(s: string, c: char): (k: nat)
    ensures k <= |s|
    ensures k < |s| ==> s[k] == c
    ensures forall i :: 0 <= i < k ==> s[i] != c
  {
    if s == "" || s[0] == c then 0 else 1 + Find(s[1..], c)
  }

  /** How the option string describes c. */
  function ArityOf(shorts: string, c: char): Arity {
    var k := Find(shorts, c);
    if k == |shorts| || c == ':' || c == ';' then Unknown
    else if c == 'W' && k + 1 < |shorts| && shorts[k + 1] == ';' then LongName
    else if k + 1 < |shorts| && shorts[k + 1] == ':' then
      if k + 2 < |shorts| && shorts[k + 2] == ':' then OptionalArgument else RequiredArgument
    else NoArgument
  }

  predicate IsNonOption(arg: string) {
    arg == "" || arg[0] != '-' || |arg| == 1
  }

  predicate IsPrefix(s: string, t: string) {
    |s| <= |t| && t[..|s|] == s
  }

  datatype Match = NoMatch | Ambiguous | Found(k: nat)

  /** m is the long option that name stands for: an exact one, or else what it
      abbreviates, provided that all it abbreviates behave alike. */
  ghost predicate IsMatch(longs: seq<LongOpt>, name: string, m: Match) {
    match m
    case Found(k) =>
      && k < |longs|
      && (if longs[k].name == name then forall i :: 0 <= i < k ==> longs[i].name != name
          else
            && (forall i :: 0 <= i < |longs| ==> longs[i].name != name)
            && IsPrefix(name, longs[k].name)
            && (forall i :: 0 <= i < k ==> !IsPrefix(name, longs[i].name))
            && (forall i :: k < i < |longs| && IsPrefix(name, longs[i].name) ==> Alike(longs[k], longs[i])))
    case NoMatch => forall i :: 0 <= i < |longs| ==> !IsPrefix(name, longs[i].name)
    case Ambiguous =>
      && (forall i :: 0 <= i < |longs| ==> longs[i].name != name)
      && exists i, j :: 0 <= i < j < |longs| && IsPrefix(name, longs[i].name) && IsPrefix(name, longs[j].name)
                        && !Alike(longs[i], longs[j])
  }

  predicate Alike(a: LongOpt, b: LongOpt) {
    a.hasArg == b.hasArg && a.val == b.val
  }

  lemma MatchUnique(longs: seq<LongOpt>, name: string, m: Match, m': Match)
    requires IsMatch(longs, name, m) && IsMatch(longs, name, m')
    ensures m == m'
  {
    assert forall i :: 0 <= i < |longs| && longs[i].name == name ==> IsPrefix(name, longs[i].name);
  }

  function FirstNamed(longs: seq<LongOpt>, name: string): (k: nat)
    ensures k <= |longs|
    ensures k < |longs| ==> longs[k].name == name
    ensures forall i :: 0 <= i < k ==> longs[i].name != name
  {
    if longs == [] || longs[0].name == name then 0 else 1 + FirstNamed(longs[1..], name)
  }

  function FirstAbbreviated(longs: seq<LongOpt>, name: string): (k: nat)
    ensures k <= |longs|
    ensures k < |longs| ==> IsPrefix(name, longs[k].name)
    ensures forall i :: 0 <= i < k ==> !IsPrefix(name, longs[i].name)
  {
    if longs == [] || IsPrefix(name, longs[0].name) then 0 else 1 + FirstAbbreviated(longs[1..], name)
  }

  function MatchOf(longs: seq<LongOpt>, name: string): (m: Match)
    ensures IsMatch(longs, name, m)
  {
    var e, k := FirstNamed(longs, name), FirstAbbreviated(longs, name);
    assert forall i :: 0 <= i < |longs| && longs[i].name == name ==> IsPrefix(name, longs[i].name);
    if e < |longs| then Found(e)
    else if k == |longs| then NoMatch
    else if forall i :: k < i < |longs| && IsPrefix(name, longs[i].name) ==> Alike(longs[k], longs[i]) then Found(k)
    else Ambiguous
  }

  /** One result of getopt: the code, optarg, and optopt where it is set. */
  datatype Event = Event(code: int, arg: Option<string>, fault: Option<int>)

  /** An event, and where the scan goes on: at element i, of which rest is
      still to be read if it is a cluster of short options. */
  datatype Stepped = Stepped(event: Event, i: nat, rest: string)

  /** A long option, written as body at the end of element i. */
  function LongBody(o: Options, args: seq<string>, i: nat, body: string): (r: Stepped)
    requires i < |args|
    ensures i < r.i <= |args| && r.rest == ""
  {
    var n := Find(body, '=');
    match MatchOf(o.longs, body[..n])
    case NoMatch => Stepped(Event('?' as int, None, Some(0)), i + 1, "")
    case Ambiguous => Stepped(Event('?' as int, None, Some(0)), i + 1, "")
    case Found(k) =>
      var p := o.longs[k];
      if n < |body| then
        if p.hasArg != 0 then Stepped(Event(p.val, Some(body[n + 1..]), None), i + 1, "")
        else Stepped(Event('?' as int, None, Some(p.val)), i + 1, "")
      else if p.hasArg == 1 then
        if i + 1 < |args| then Stepped(Event(p.val, Some(args[i + 1]), None), i + 2, "")
        else Stepped(Event(o.Missing(), None, Some(p.val)), i + 1, "")
      else Stepped(Event(p.val, None, None), i + 1, "")
  }

  /** The element --name or --name=value at i. */
  function LongStep(o: Options, args: seq<string>, i: nat): (r: Stepped)
    requires i < |args| && |args[i]| >= 2
    ensures i < r.i <= |args| && r.rest == ""
  {
    LongBody(o, args, i, args[i][2..])
  }

  /** The next character of a cluster of short options. */
  function ShortStep(o: Options, args: seq<string>, i: nat, rest: string): (r: Stepped)
    requires i < |args| && rest != ""
    ensures i <= r.i <= |args|
    ensures r.i == i ==> r.rest == rest[1..] && r.rest != ""
    ensures r.i > i ==> r.rest == ""
  {
    var c, more := rest[0], rest[1..];
    var next := if more == "" then i + 1 else i;
    match ArityOf(o.shorts, c)
    case Unknown => Stepped(Event('?' as int, None, Some(c as int)), next, more)
    case NoArgument => Stepped(Event(c as int, None, None), next, more)
    case OptionalArgument => Stepped(Event(c as int, if more == "" then None else Some(more), None), i + 1, "")
    case RequiredArgument =>
      if more != "" then Stepped(Event(c as int, Some(more), None), i + 1, "")
      else if i + 1 == |args| then Stepped(Event(o.Missing(), None, Some(c as int)), i + 1, "")
      else Stepped(Event(c as int, Some(args[i + 1]), None), i + 2, "")
    case LongName =>
      if more != "" then LongBody(o, args, i, more)
      else if i + 1 == |args| then Stepped(Event(o.Missing(), None, Some(c as int)), i + 1, "")
      else LongBody(o, args, i + 1, args[i + 1])
  }

  /** What a scan finds: the events, and of each element from the start on
      whether it is read as an option, or left over for the caller. */
  datatype Reading = Reading(events: seq<Event>, kinds: seq<bool>)

  function Times(b: bool, n: nat): (r: seq<bool>)
    ensures |r| == n && forall i :: 0 <= i < n ==> r[i] == b
  {
    seq(n, _ => b)
  }

  /** How much of element i is still to be read. */
  function Left(args: seq<string>, i: nat, rest: string): nat {
    if rest == "" && i < |args| then |args[i]| + 1 else |rest|
  }

  /** A position the scan can be in. */
  predicate IsAt(args: seq<string>, i: nat, rest: string) {
    i <= |args| && (rest != "" ==> i < |args|)
  }

  function Prepend(e: Event, n: nat, r: Reading): Reading {
    Reading([e] + r.events, Times(true, n) + r.kinds)
  }

  /** The scan, from element i on. */
  function Read(o: Options, mode: Ordering, args: seq<string>, i: nat, rest: string): (r: Reading)
    requires IsAt(args, i, rest)
    ensures |r.kinds| == |args| - i
    decreases |args| - i, Left(args, i, rest)
  {
    if rest != "" then
      var s := ShortStep(o, args, i, rest);
      Prepend(s.event, s.i - i, Read(o, mode, args, s.i, s.rest))
    else if i == |args| then Reading([], [])
    else if args[i] == "--" then Reading([], [true] + Times(false, |args| - i - 1))
    else if IsNonOption(args[i]) then
      match mode
      case Permute =>
        var r := Read(o, mode, args, i + 1, "");
        Reading(r.events, [false] + r.kinds)
      case RequireOrder => Reading([], Times(false, |args| - i))
      case ReturnInOrder => Prepend(Event(1, Some(args[i]), None), 1, Read(o, mode, args, i + 1, ""))
    else if args[i][1] == '-' then
      var s := LongStep(o, args, i);
      Prepend(s.event, s.i - i, Read(o, mode, args, s.i, s.rest))
    else
      Read(o, mode, args, i, args[i][1..])
  }

  /** The elements marked b, in order. */
  function Pick(s: seq<string>, kinds: seq<bool>, b: bool): (r: seq<string>)
    requires |s| == |kinds|
  {
    if s == [] then [] else (if kinds[0] == b then [s[0]] else []) + Pick(s[1..], kinds[1..], b)
  }

  lemma {:induction false} PickConcat(s: seq<string>, t: seq<string>, k: seq<bool>, l: seq<bool>, b: bool)
    requires |s| == |k| && |t| == |l|
    ensures Pick(s + t, k + l, b) == Pick(s, k, b) + Pick(t, l, b)
  {
    if s == [] {
      assert s + t == t && k + l == l;
    } else {
      assert (s + t)[1..] == s[1..] + t && (k + l)[1..] == k[1..] + l;
      PickConcat(s[1..], t, k[1..], l, b);
    }
  }

  lemma {:induction false} PickTimes(s: seq<string>, k: bool, b: bool)
    ensures Pick(s, Times(k, |s|), b) == if k == b then s else []
  {
    if s != [] {
      assert Times(k, |s|)[1..] == Times(k, |s| - 1);
      PickTimes(s[1..], k, b);
    }
  }

  /** Nothing is lost and nothing is made up. */
  lemma {:induction false} PickPermutes(s: seq<string>, kinds: seq<bool>)
    requires |s| == |kinds|
    ensures multiset(Pick(s, kinds, true) + Pick(s, kinds, false)) == multiset(s)
    ensures |Pick(s, kinds, true)| + |Pick(s, kinds, false)| == |s|
  {
    if s != [] {
      PickPermutes(s[1..], kinds[1..]);
      assert s == [s[0]] + s[1..];
    }
  }

  /** An argument list with everything the scan reads in front. */
  function Rearranged(args: seq<string>, r: Reading): (t: seq<string>)
    requires args != [] && |r.kinds| == |args| - 1
  {
    args[..1] + Pick(args[1..], r.kinds, true) + Pick(args[1..], r.kinds, false)
  }

  /** What a caller sees of an event. */
  function Seen(es: seq<Event>): (r: seq<(int, Option<string>)>)
    ensures |r| == |es| && forall i :: 0 <= i < |es| ==> r[i] == (es[i].code, es[i].arg)
  {
    seq(|es|, i requires 0 <= i < |es| => (es[i].code, es[i].arg))
  }

  /** What a caller sees before it is told -1, or an option with that value. */
  function BeforeEnd(es: seq<Event>): (r: seq<Event>) {
    if es == [] || es[0].code == -1 then [] else [es[0]] + BeforeEnd(es[1..])
  }

  lemma {:induction false} BeforeEndIs(met: seq<Event>, rest: seq<Event>)
    requires (forall i :: 0 <= i < |met| ==> met[i].code != -1) && (rest != [] ==> rest[0].code == -1)
    ensures BeforeEnd(met + rest) == met
  {
    if met == [] {
      assert met + rest == rest;
    } else {
      assert (met + rest)[1..] == met[1..] + rest;
      BeforeEndIs(met[1..], rest);
    }
  }

  lemma CodesLong(o: Options, args: seq<string>, i: nat, body: string)
    requires i < |args| && forall p | p in o.longs :: p.val != -1
    ensures LongBody(o, args, i, body).event.code != -1
  {
    var m := MatchOf(o.longs, body[..Find(body, '=')]);
    assert m.Found? ==> o.longs[m.k] in o.longs;
  }

  /** No event looks like the end, unless the table has an option that does. */
  lemma {:induction false} CodesDiffer(o: Options, mode: Ordering, args: seq<string>, i: nat, rest: string)
    requires IsAt(args, i, rest) && forall p | p in o.longs :: p.val != -1
    ensures forall e | e in Read(o, mode, args, i, rest).events :: e.code != -1
    decreases |args| - i, Left(args, i, rest)
  {
    hide ShortStep, LongBody, Times;
    if rest != "" {
      var s := ShortStep(o, args, i, rest);
      CodesShort(o, args, i, rest);
      CodesDiffer(o, mode, args, s.i, s.rest);
    } else if i == |args| || args[i] == "--" {
    } else if IsNonOption(args[i]) {
      CodesDiffer(o, mode, args, i + 1, "");
    } else if args[i][1] == '-' {
      var s := LongStep(o, args, i);
      CodesLong(o, args, i, args[i][2..]);
      CodesDiffer(o, mode, args, s.i, s.rest);
    } else {
      CodesDiffer(o, mode, args, i, args[i][1..]);
    }
  }

  lemma CodesShort(o: Options, args: seq<string>, i: nat, rest: string)
    requires i < |args| && rest != "" && forall p | p in o.longs :: p.val != -1
    ensures ShortStep(o, args, i, rest).event.code != -1
  {
    hide LongBody, ArityOf;
    CodesLong(o, args, i, rest[1..]);
    if i + 1 < |args| {
      CodesLong(o, args, i + 1, args[i + 1]);
    }
  }

  lemma RearrangedKinds(args: seq<string>, r: Reading)
    requires args != [] && |r.kinds| == |args| - 1
    ensures Rearranged(args, r) == Rearranged(args, Reading([], r.kinds))
  {
  }

  lemma RearrangedPermutes(args: seq<string>, r: Reading)
    requires args != [] && |r.kinds| == |args| - 1
    ensures multiset(Rearranged(args, r)) == multiset(args) && |Rearranged(args, r)| == |args|
  {
    PickPermutes(args[1..], r.kinds);
    assert args == args[..1] + args[1..];
  }
}
