// lib/getopt.c: option scanning that permutes argv in place.

module Exchange {

  /** The blocks of len elements at x and at y swapped. */
  function Swapped(s: seq<string>, x: nat, y: nat, len: nat): (r: seq<string>)
    requires x + len <= y && y + len <= |s|
    ensures |r| == |s|
  {
    s[..x] + s[y..y + len] + s[x + len..y] + s[x..x + len] + s[y + len..]
  }

  /** The inner loops of exchange. */
  method SwapBlocks(argv: array<string>, x: nat, y: nat, len: nat)
    requires x + len <= y && y + len <= argv.Length
    modifies argv
    ensures argv[..] == Swapped(old(argv[..]), x, y, len)
  {
    hide Swapped;
    for i := 0 to len
      invariant forall k :: x <= k < x + i ==> argv[k] == old(argv[k + (y - x)])
      invariant forall k :: y <= k < y + i ==> argv[k] == old(argv[k - (y - x)])
      invariant forall k :: 0 <= k < argv.Length && !(x <= k < x + i) && !(y <= k < y + i) ==> argv[k] == old(argv[k])
    {
      argv[x + i], argv[y + i] := argv[y + i], argv[x + i];
    }
    SwappedAt(old(argv[..]), x, y, len);
  }

  /** The elements bottom..top with their two parts changed over. */
  function Rotated(s: seq<string>, bottom: nat, middle: nat, top: nat): (r: seq<string>)
    requires bottom <= middle <= top <= |s|
    ensures |r| == |s|
    ensures r[..bottom] == s[..bottom] && r[top..] == s[top..]
    ensures r[bottom..bottom + (top - middle)] == s[middle..top] && r[bottom + (top - middle)..top] == s[bottom..middle]
  {
    s[..bottom] + s[middle..top] + s[bottom..middle] + s[top..]
  }

  lemma RotatedAt(s: seq<string>, bottom: nat, middle: nat, top: nat)
    requires bottom <= middle <= top <= |s|
    ensures var r := Rotated(s, bottom, middle, top);
      |r| == |s| && forall k :: 0 <= k < |s| ==>
        r[k] == s[if !(bottom <= k < top) then k else if k < bottom + (top - middle) then k + (middle - bottom)
               else k - (top - middle)]
  {
  }

  lemma SwappedAt(s: seq<string>, x: nat, y: nat, len: nat)
    requires x + len <= y && y + len <= |s|
    ensures var r := Swapped(s, x, y, len);
      |r| == |s| && forall k :: 0 <= k < |s| ==>
        r[k] == s[if x <= k < x + len then k + (y - x) else if y <= k < y + len then k - (y - x) else k]
  {
  }

  lemma RotatedParts(s: seq<string>, a: seq<string>, b: seq<string>, m: seq<string>, c: seq<string>,
      bottom: nat, middle: nat, top: nat)
    requires s == a + b + m + c && |a| == bottom && |b| == middle - bottom && |m| == top - middle
    ensures Rotated(s, bottom, middle, top) == a + m + b + c
  {
    assert s[..bottom] == a && s[bottom..middle] == b && s[middle..top] == m && s[top..] == c;
  }

  /** One round of exchange when the bottom part is the shorter one. */
  lemma RotateShortBottom(s: seq<string>, bottom: nat, middle: nat, top: nat)
    requires bottom <= middle <= top <= |s| && middle - bottom <= top - middle
    ensures var len := middle - bottom;
      Rotated(Swapped(s, bottom, top - len, len), bottom, middle, top - len) == Rotated(s, bottom, middle, top)
  {
    hide Rotated, Swapped;
    var len := middle - bottom;
    var a, x, y, z, c := Parts(s, bottom, middle, top - len, top);
    RotatedParts(s, a, x, y + z, c, bottom, middle, top);
    RotatedParts(Swapped(s, bottom, top - len, len), a, z, y, x + c, bottom, middle, top - len);
    SameGroups(a, y, z, x, c);
  }

  lemma Parts(s: seq<string>, i: nat, j: nat, k: nat, l: nat)
      returns (a: seq<string>, x: seq<string>, y: seq<string>, z: seq<string>, c: seq<string>)
    requires i <= j <= k <= l <= |s| && j - i == l - k
    ensures s == a + x + (y + z) + c && Swapped(s, i, k, l - k) == a + z + y + (x + c)
    ensures |a| == i && |x| == j - i && |y| == k - j && |z| == l - k
  {
    a, x, y, z, c := s[..i], s[i..j], s[j..k], s[k..l], s[l..];
    SameGroups(a, z, y, x, c);
    assert Swapped(s, i, k, l - k) == a + z + y + x + c;
    assert a + z + y + x + c == a + z + y + (x + c);
    assert s == s[..j] + s[j..] && s[..j] == a + x && s[j..] == y + z + c;
    assert (a + x) + (y + z + c) == a + x + (y + z) + c;
  }

  lemma SameGroups(a: seq<string>, y: seq<string>, z: seq<string>, x: seq<string>, c: seq<string>)
    ensures a + y + z + (x + c) == a + (y + z) + x + c
  {
    assert a + y + z == a + (y + z);
  }

  lemma RotateShortTop(s: seq<string>, bottom: nat, middle: nat, top: nat)
    requires bottom <= middle <= top <= |s| && top - middle <= middle - bottom
    ensures var len := top - middle;
      Rotated(Swapped(s, bottom, middle, len), bottom + len, middle, top) == Rotated(s, bottom, middle, top)
  {
    hide Rotated, Swapped;
    var len := top - middle;
    var t := Swapped(s, bottom, middle, len);
    SwappedAt(s, bottom, middle, len);
    RotatedAt(t, bottom + len, middle, top);
    RotatedAt(s, bottom, middle, top);
    forall k | 0 <= k < |s|
      ensures Rotated(t, bottom + len, middle, top)[k] == Rotated(s, bottom, middle, top)[k]
    {
    }
  }

  /** The loop of exchange: the parts [bottom, middle) and [middle, top) change
      over, each in its own order. */
  method Rotate(argv: array<string>, bottom: nat, middle: nat, top: nat)
    requires bottom <= middle <= top <= argv.Length
    modifies argv
    ensures argv[..] == Rotated(old(argv[..]), bottom, middle, top)
  {
    hide Rotated, Swapped;
    var b: nat, t: nat := bottom, top;
    while t > middle && middle > b
      invariant b <= middle <= t <= argv.Length
      invariant Rotated(argv[..], b, middle, t) == Rotated(old(argv[..]), bottom, middle, top)
      decreases t - b
    {
      if t - middle > middle - b {
        var len := middle - b;
        RotateShortBottom(argv[..], b, middle, t);
        SwapBlocks(argv, b, t - len, len);
        t := t - len;
      } else {
        var len := t - middle;
        RotateShortTop(argv[..], b, middle, t);
        SwapBlocks(argv, b, middle, len);
        b := b + len;
      }
    }
    RotateNothing(argv[..], b, middle, t);
  }

  lemma RotateNothing(s: seq<string>, bottom: nat, middle: nat, top: nat)
    requires bottom <= middle <= top <= |s| && (bottom == middle || middle == top)
    ensures Rotated(s, bottom, middle, top) == s
  {
  }
}

module Getopt {
  import opened Common
  import opened Exchange
  import opened OptionScan

  function ModeOf(optstring: string, posixly: bool): Ordering {
    if optstring != "" && optstring[0] == '-' then ReturnInOrder
    else if optstring != "" && optstring[0] == '+' then RequireOrder
    else if posixly then RequireOrder
    else Permute
  }

  function ShortsOf(optstring: string): string {
    if optstring != "" && (optstring[0] == '-' || optstring[0] == '+') then optstring[1..] else optstring
  }

  /** A leading '-' or '+' is no option, but sets the order, and so does the
      environment. */
  lemma LeadingMark(s: string, posixly: bool)
    ensures ModeOf("-" + s, posixly) == ReturnInOrder && ShortsOf("-" + s) == s
    ensures ModeOf("+" + s, posixly) == RequireOrder && ShortsOf("+" + s) == s
    ensures s == "" || (s[0] != '-' && s[0] != '+') ==>
      ModeOf(s, true) == RequireOrder && ModeOf(s, false) == Permute && ShortsOf(s) == s
  {
    assert ("-" + s)[1..] == s && ("+" + s)[1..] == s;
  }

  /** How argv stands to the original list args when its elements in front of
      optind have been read as kinds say: options outside first..last, skipped
      non-options inside, everything from optind on as it was. */
  ghost predicate Layout(argv: seq<string>, args: seq<string>, kinds: seq<bool>, first: nat, last: nat, optind: nat) {
    && 1 <= first <= last <= optind <= |args| == |argv| && |kinds| == optind - 1
    && argv[0] == args[0] && argv[optind..] == args[optind..]
    && argv[1..first] + argv[last..optind] == Pick(args[1..optind], kinds, true)
    && argv[first..last] == Pick(args[1..optind], kinds, false)
  }

  lemma LayoutStart(args: seq<string>, i: nat)
    requires 1 <= i <= |args|
    ensures Layout(args, args, Times(true, i - 1), i, i, i)
  {
    PickTimes(args[1..i], true, true);
    PickTimes(args[1..i], true, false);
  }

  lemma LayoutRotated(argv: seq<string>, args: seq<string>, kinds: seq<bool>, first: nat, last: nat, optind: nat)
    requires Layout(argv, args, kinds, first, last, optind)
    ensures Layout(Rotated(argv, first, last, optind), args, kinds, first + (optind - last), optind, optind)
  {
    var r, mid := Rotated(argv, first, last, optind), first + (optind - last);
    assert r[first..mid] == argv[last..optind];
    assert r[1..mid] == argv[1..first] + argv[last..optind];
  }

  /** The next n elements are read as kind says, without moving. */
  lemma LayoutGrows(argv: seq<string>, args: seq<string>, kinds: seq<bool>, first: nat, last: nat, optind: nat,
      b: bool, n: nat)
    requires Layout(argv, args, kinds, first, last, optind) && optind + n <= |args|
    requires b || last == optind
    ensures Layout(argv, args, kinds + Times(b, n), first, if b then last else optind + n, optind + n)
  {
    hide Pick;
    var to := optind + n;
    var next := args[optind..to];
    PickConcat(args[1..optind], next, kinds, Times(b, n), true);
    PickConcat(args[1..optind], next, kinds, Times(b, n), false);
    PickTimes(next, b, true);
    PickTimes(next, b, false);
    SlicesGrow(argv, args, first, last, optind, to);
  }

  lemma SlicesGrow(argv: seq<string>, args: seq<string>, first: nat, last: nat, optind: nat, to: nat)
    requires 1 <= first <= last <= optind <= to <= |args| == |argv| && argv[optind..] == args[optind..]
    ensures args[1..to] == args[1..optind] + args[optind..to]
    ensures argv[to..] == args[to..]
    ensures argv[last..to] == argv[last..optind] + args[optind..to]
    ensures argv[first..to] == argv[first..optind] + args[optind..to]
  {
    assert argv[optind..][..to - optind] == argv[optind..to] && args[optind..][..to - optind] == args[optind..to];
    assert argv[optind..][to - optind..] == argv[to..] && args[optind..][to - optind..] == args[to..];
  }

  /** Without non-options in between, first is arbitrary. */
  lemma LayoutNone(argv: seq<string>, args: seq<string>, kinds: seq<bool>, first: nat, last: nat, optind: nat)
    requires Layout(argv, args, kinds, first, last, optind) && first == last
    ensures Layout(argv, args, kinds, optind, optind, optind)
  {
    assert argv[1..optind] == argv[1..first] + argv[last..optind];
  }

  /** At the end: read elements first, then what is left, as optind says. */
  lemma LayoutEnd(argv: seq<string>, args: seq<string>, kinds: seq<bool>, first: nat)
    requires Layout(argv, args, kinds, first, |args|, |args|)
    ensures argv == Rearranged(args, Reading([], kinds))
    ensures first == 1 + |Pick(args[1..], kinds, true)|
  {
    assert args[1..|args|] == args[1..];
    assert argv == argv[..1] + argv[1..first] + argv[first..];
  }

  /** Both lists agree from i on, so the next step is the same. */
  lemma StepsSame(o: Options, argv: seq<string>, args: seq<string>, i: nat, rest: string)
    requires |argv| == |args| && i < |args| && forall k :: i <= k < |args| ==> argv[k] == args[k]
    ensures rest != "" ==> ShortStep(o, argv, i, rest) == ShortStep(o, args, i, rest)
    ensures |args[i]| >= 2 ==> LongStep(o, argv, i) == LongStep(o, args, i)
  {
  }

  /** Skipped non-options are no events. */
  lemma {:induction false} ReadSkips(o: Options, args: seq<string>, i: nat, j: nat)
    requires i <= j <= |args| && forall k :: i <= k < j ==> IsNonOption(args[k])
    ensures var r := Read(o, Permute, args, j, "");
      Read(o, Permute, args, i, "") == Reading(r.events, Times(false, j - i) + r.kinds)
    decreases j - i
  {
    if i < j {
      ReadSkips(o, args, i + 1, j);
      var r := Read(o, Permute, args, j, "");
      assert [false] + (Times(false, j - i - 1) + r.kinds) == Times(false, j - i) + r.kinds;
    } else {
      var r := Read(o, Permute, args, j, "");
      assert Times(false, 0) + r.kinds == r.kinds;
    }
  }

  /** The scan has come to i having read the elements in front as kinds; once
      the rest is read as more, the final arrangement is this. */
  ghost predicate Finished(argv: seq<string>, args: seq<string>, kinds: seq<bool>, optind: nat) {
    && args != [] && |kinds| == |args| - 1
    && argv == Rearranged(args, Reading([], kinds))
    && optind == 1 + |Pick(args[1..], kinds, true)|
  }

  /** Stopping at i with all the rest unread. */
  lemma LayoutStops(argv: seq<string>, args: seq<string>, kinds: seq<bool>, first: nat, i: nat)
    requires Layout(argv, args, kinds, first, i, i)
    ensures Finished(argv, args, kinds + Times(false, |args| - i), first)
    ensures Layout(argv, args, kinds + Times(false, |args| - i), first, |args|, |args|)
  {
    LayoutGrows(argv, args, kinds, first, i, i, false, |args| - i);
    LayoutEnd(argv, args, kinds + Times(false, |args| - i), first);
  }

  lemma LayoutInOrder(argv: seq<string>, args: seq<string>, kinds: seq<bool>, first: nat, last: nat, optind: nat)
    requires Layout(argv, args, kinds, first, last, optind) && kinds == Times(true, |kinds|)
    ensures first == last && Layout(argv, args, kinds, optind, optind, optind)
  {
    PickTimes(args[1..optind], true, false);
    assert |argv[first..last]| == 0;
    LayoutNone(argv, args, kinds, first, last, optind);
  }

  datatype Status = Stop | Operand | Element

  /** What the scan says about the element at i once the non-options in front of
      it are skipped; kinds are those of the elements in front of i. */
  ghost predicate Turn(o: Options, mode: Ordering, args: seq<string>, i: nat, st: Status, r: Reading)
    requires i <= |args|
  {
    match st
    case Stop => r.events == [] && |r.kinds| == |args| - i
    case Operand =>
      && i < |args| && mode == ReturnInOrder
      && r == Prepend(Event(1, Some(args[i]), None), 1, Read(o, mode, args, i + 1, ""))
    case Element => i < |args| && args[i] != "--" && !IsNonOption(args[i]) && r == Read(o, mode, args, i, "")
  }

  /** One event e lies between two positions of the scan. */
  ghost predicate Took(o: Options, mode: Ordering, args: seq<string>, i: nat, rest: string, kinds: seq<bool>,
                       e: Event, i': nat, rest': string, kinds': seq<bool>)
  {
    && IsAt(args, i, rest) && IsAt(args, i', rest')
    && Read(o, mode, args, i, rest).events == [e] + Read(o, mode, args, i', rest').events
    && kinds + Read(o, mode, args, i, rest).kinds == kinds' + Read(o, mode, args, i', rest').kinds
  }

  lemma TookStep(o: Options, mode: Ordering, args: seq<string>, i: nat, rest: string, kinds: seq<bool>, s: Stepped)
    requires IsAt(args, i, rest) && i <= s.i && IsAt(args, s.i, s.rest)
    requires Read(o, mode, args, i, rest) == Prepend(s.event, s.i - i, Read(o, mode, args, s.i, s.rest))
    ensures Took(o, mode, args, i, rest, kinds, s.event, s.i, s.rest, kinds + Times(true, s.i - i))
  {
    hide Read;
  }

  /** Reading from i0 is reading from element |kinds1| + 1, by way of skipping. */
  ghost predicate Skipped(o: Options, mode: Ordering, args: seq<string>, i0: nat, kinds: seq<bool>,
      kinds1: seq<bool>, r: Reading)
    requires i0 <= |args|
  {
    var whole := Read(o, mode, args, i0, "");
    whole.events == r.events && kinds + whole.kinds == kinds1 + r.kinds
  }

  lemma OperandTook(o: Options, mode: Ordering, args: seq<string>, i0: nat, kinds: seq<bool>, kinds1: seq<bool>,
      r: Reading)
    requires i0 <= |args| && |kinds1| + 1 <= |args| && Skipped(o, mode, args, i0, kinds, kinds1, r)
    requires Turn(o, mode, args, |kinds1| + 1, Operand, r)
    ensures var i := |kinds1| + 1;
      && i < |args| && mode == ReturnInOrder
      && Took(o, mode, args, i0, "", kinds, Event(1, Some(args[i]), None), i + 1, "", kinds1 + Times(true, 1))
  {
    hide Read;
  }

  lemma ElementTook(o: Options, mode: Ordering, args: seq<string>, i0: nat, kinds: seq<bool>, kinds1: seq<bool>,
      r: Reading, s: Stepped)
    requires i0 <= |args| && |kinds1| + 1 <= s.i && IsAt(args, s.i, s.rest)
        && Skipped(o, mode, args, i0, kinds, kinds1, r)
    requires Turn(o, mode, args, |kinds1| + 1, Element, r)
    requires r == Prepend(s.event, s.i - (|kinds1| + 1), Read(o, mode, args, s.i, s.rest))
    ensures Took(o, mode, args, i0, "", kinds, s.event, s.i, s.rest, kinds1 + Times(true, s.i - (|kinds1| + 1)))
  {
    hide Read;
  }


  lemma StopSkipped(o: Options, mode: Ordering, args: seq<string>, i0: nat, kinds: seq<bool>, kinds1: seq<bool>,
      r: Reading)
    requires i0 <= |args| && |kinds1| + 1 <= |args| && Skipped(o, mode, args, i0, kinds, kinds1, r)
    requires Turn(o, mode, args, |kinds1| + 1, Stop, r)
    ensures Read(o, mode, args, i0, "").events == [] && kinds + Read(o, mode, args, i0, "").kinds == kinds1 + r.kinds
  {
    hide Read;
  }

  lemma TurnElement(o: Options, mode: Ordering, args: seq<string>, i: nat, r: Reading)
    requires i <= |args| && Turn(o, mode, args, i, Element, r)
    ensures i < |args| && args[i] != "--" && !IsNonOption(args[i]) && r == Read(o, mode, args, i, "")
  {
    hide Read;
  }

  lemma ReadCluster(o: Options, mode: Ordering, args: seq<string>, i: nat)
    requires i < |args| && args[i] != "--" && !IsNonOption(args[i])
    ensures |args[i]| >= 2
    ensures args[i][1] != '-' ==>
      IsAt(args, i, args[i][1..]) && Read(o, mode, args, i, "") == Read(o, mode, args, i, args[i][1..])
  {
  }

  lemma ReadShort(o: Options, mode: Ordering, args: seq<string>, i: nat, rest: string)
    requires i < |args| && rest != ""
    ensures var s := ShortStep(o, args, i, rest);
      i <= s.i && IsAt(args, s.i, s.rest)
          && Read(o, mode, args, i, rest) == Prepend(s.event, s.i - i, Read(o, mode, args, s.i, s.rest))
  {
    hide ShortStep, LongBody, Prepend;
  }

  lemma ReadLong(o: Options, mode: Ordering, args: seq<string>, i: nat)
    requires i < |args| && args[i] != "--" && !IsNonOption(args[i]) && args[i][1] == '-'
    ensures var s := LongStep(o, args, i);
      i <= s.i && IsAt(args, s.i, s.rest)
          && Read(o, mode, args, i, "") == Prepend(s.event, s.i - i, Read(o, mode, args, s.i, s.rest))
  {
    hide ShortStep, LongBody, Prepend;
  }

  /** struct _getopt_data. */
  class Scanner {
    var optind: nat
    var optarg: Option<string>
    var optopt: int
    var initialized: bool
    var nextchar: string  // what is left of a cluster; "" also for NULL
    var ordering: Ordering
    var firstNonopt: nat
    var lastNonopt: nat

    constructor ()
      ensures optind == 1 && !initialized && nextchar == ""
    {
      optind := 1;
      optarg := None;
      optopt := '?' as int;
      initialized := false;
      nextchar := "";
      ordering := Permute;
      firstNonopt := 0;
      lastNonopt := 0;
    }

    /** The element the next call starts at. */
    ghost function At(): nat
      reads this
    {
      if optind == 0 then 1 else optind
    }

    /** Between two calls that read args. */
    ghost predicate Resumable(argv: seq<string>, args: seq<string>, kinds: seq<bool>, mode: Ordering)
      reads this
    {
      && IsAt(args, At(), nextchar) && |args| == |argv| >= 1
      && if initialized && optind > 0 then
           && ordering == mode && Layout(argv, args, kinds, firstNonopt, lastNonopt, optind)
           && (mode != Permute ==> kinds == Times(true, |kinds|))
         else argv == args && kinds == Times(true, At() - 1) && nextchar == ""
    }

    /** exchange. */
    method ExchangeArgs(argv: array<string>)
      requires firstNonopt <= lastNonopt <= optind <= argv.Length
      modifies argv, this`firstNonopt, this`lastNonopt
      ensures argv[..] == Rotated(old(argv[..]), old(firstNonopt), old(lastNonopt), optind)
      ensures firstNonopt == old(firstNonopt) + (optind - old(lastNonopt)) && lastNonopt == optind
    {
      Rotate(argv, firstNonopt, lastNonopt, optind);
      firstNonopt := firstNonopt + (optind - lastNonopt);
      lastNonopt := optind;
    }

    /** _getopt_initialize. */
    method Initialize(optstring: string, posixly: bool) returns (shorts: string)
      modifies this
      ensures optind == old(At()) && firstNonopt == lastNonopt == optind && nextchar == "" && initialized
      ensures ordering == ModeOf(optstring, posixly) && shorts == ShortsOf(optstring)
      ensures optarg == old(optarg) && optopt == old(optopt)
    {
      if optind == 0 {
        optind := 1;
      }
      firstNonopt, lastNonopt := optind, optind;
      nextchar := "";
      shorts := optstring;
      if optstring != "" && optstring[0] == '-' {
        ordering := ReturnInOrder;
        shorts := shorts[1..];
      } else if optstring != "" && optstring[0] == '+' {
        ordering := RequireOrder;
        shorts := shorts[1..];
      } else if posixly {
        ordering := RequireOrder;
      } else {
        ordering := Permute;
      }
      initialized := true;
    }

    /** PERMUTE: options read since the last skipped non-options are exchanged
        with them. */
    method BringOptionsForward(argv: array<string>, ghost args: seq<string>, ghost kinds: seq<bool>)
      requires Layout(argv[..], args, kinds, firstNonopt, lastNonopt, optind)
      modifies argv, this`firstNonopt, this`lastNonopt
      ensures Layout(argv[..], args, kinds, firstNonopt, optind, optind)
    {
      hide Rotated, Pick;
      ghost var was := argv[..];
      if firstNonopt != lastNonopt && lastNonopt != optind {
        LayoutRotated(was, args, kinds, firstNonopt, lastNonopt, optind);
        ExchangeArgs(argv);
      } else if lastNonopt != optind {
        LayoutNone(was, args, kinds, firstNonopt, lastNonopt, optind);
        firstNonopt := optind;
      }
    }

    /** Further non-options are skipped. */
    method PassNonOptions(argv: array<string>)
      requires optind <= argv.Length
      modifies this`optind
      ensures old(optind) <= optind <= argv.Length
      ensures forall i :: old(optind) <= i < optind ==> IsNonOption(argv[i])
      ensures optind < argv.Length ==> !IsNonOption(argv[optind])
    {
      while optind < argv.Length && IsNonOption(argv[optind])
        invariant old(optind) <= optind <= argv.Length
        invariant forall i :: old(optind) <= i < optind ==> IsNonOption(argv[i])
      {
        optind := optind + 1;
      }
    }

    /** The two searches of process_long_option. */
    method MatchLong(longs: seq<LongOpt>, name: string) returns (m: Match)
      ensures m == MatchOf(longs, name)
    {
      for k := 0 to |longs|
        invariant forall i :: 0 <= i < k ==> longs[i].name != name
      {
        if longs[k].name == name {
          MatchUnique(longs, name, Found(k), MatchOf(longs, name));
          return Found(k);
        }
      }
      var found: int, ambiguous := -1, false;
      for k := 0 to |longs|
        invariant -1 <= found < k
        invariant forall i :: 0 <= i < (if found < 0 then k else found) ==> !IsPrefix(name, longs[i].name)
        invariant found >= 0 ==> IsPrefix(name, longs[found].name)
        invariant !ambiguous ==> forall i :: 0 <= found < i < k && IsPrefix(name, longs[i].name) ==>
            Alike(longs[found], longs[i])
        invariant ambiguous ==>
            exists i :: 0 <= found < i < k && IsPrefix(name, longs[i].name) && !Alike(longs[found], longs[i])
      {
        if IsPrefix(name, longs[k].name) {
          if found < 0 {
            found := k;
          } else if !Alike(longs[found], longs[k]) {
            ambiguous := true;
          }
        }
      }
      m := if ambiguous then Ambiguous else if found < 0 then NoMatch else Found(found);
      MatchUnique(longs, name, m, MatchOf(longs, name));
    }

    /** What a call reports and where it leaves off is as s says. */
    ghost predicate Reports(s: Stepped, code: int, faultBefore: int)
      reads this
    {
      && code == s.event.code && optarg == s.event.arg
      && optopt == (if s.event.fault.Some? then s.event.fault.value else faultBefore)
      && optind == s.i && nextchar == s.rest
    }

    /** process_long_option for a name, or name=value, at nextchar. */
    method ProcessLongOption(argv: array<string>, o: Options) returns (code: int)
      requires optind < argv.Length && optarg == None
      modifies this`optind, this`nextchar, this`optarg, this`optopt
      ensures Reports(LongBody(o, argv[..], old(optind), old(nextchar)), code, old(optopt))
    {
      var nameend := 0;
      while nameend < |nextchar| && nextchar[nameend] != '='
        invariant nameend <= |nextchar|
        invariant forall i :: 0 <= i < nameend ==> nextchar[i] != '='
      {
        nameend := nameend + 1;
      }
      assert nameend == Find(nextchar, '=');
      var value := nextchar[nameend..];
      var m := MatchLong(o.longs, nextchar[..nameend]);
      nextchar := "";
      optind := optind + 1;
      if !m.Found? {
        optopt := 0;
        return '?' as int;
      }
      var p := o.longs[m.k];
      if value != "" {
        if p.hasArg == 0 {
          optopt := p.val;
          return '?' as int;
        }
        optarg := Some(value[1..]);
      } else if p.hasArg == 1 {
        if optind < argv.Length {
          optarg := Some(argv[optind]);
          optind := optind + 1;
        } else {
          optopt := p.val;
          return o.Missing();
        }
      }
      return p.val;
    }

    /** The part of _getopt_internal_r that handles the next short option. */
    method ProcessShortOption(argv: array<string>, o: Options) returns (code: int)
      requires optind < argv.Length && nextchar != "" && optarg == None
      modifies this`optind, this`nextchar, this`optarg, this`optopt
      ensures Reports(ShortStep(o, argv[..], old(optind), old(nextchar)), code, old(optopt))
    {
      hide LongBody, Find;
      var c := nextchar[0];
      nextchar := nextchar[1..];
      var temp := Find(o.shorts, c);
      if nextchar == "" {
        optind := optind + 1;
      }
      if temp == |o.shorts| || c == ':' || c == ';' {
        optopt := c as int;
        return '?' as int;
      }
      if c == 'W' && temp + 1 < |o.shorts| && o.shorts[temp + 1] == ';' {
        if nextchar == "" {
          if optind == argv.Length {
            optopt := c as int;
            return o.Missing();
          }
          nextchar := argv[optind];
        }
        code := ProcessLongOption(argv, o);
        return;
      }
      code := c as int;
      if temp + 1 < |o.shorts| && o.shorts[temp + 1] == ':' {
        if temp + 2 < |o.shorts| && o.shorts[temp + 2] == ':' {
          if nextchar != "" {
            optarg := Some(nextchar);
            optind := optind + 1;
          } else {
            optarg := None;
          }
        } else if nextchar != "" {
          optarg := Some(nextchar);
          optind := optind + 1;
        } else if optind == argv.Length {
          optopt := c as int;
          code := o.Missing();
        } else {
          optarg := Some(argv[optind]);
          optind := optind + 1;
        }
        nextchar := "";
      }
    }

    method SkipNonOptions(argv: array<string>, ghost args: seq<string>, ghost kinds: seq<bool>)
      requires Layout(argv[..], args, kinds, firstNonopt, lastNonopt, optind)
      modifies argv, this`firstNonopt, this`lastNonopt, this`optind
      ensures old(optind) <= optind == lastNonopt
      ensures Layout(argv[..], args, kinds + Times(false, optind - old(optind)), firstNonopt, lastNonopt, optind)
      ensures forall i :: old(optind) <= i < optind ==> IsNonOption(args[i])
      ensures optind < argv.Length ==> !IsNonOption(args[optind])
    {
      hide Layout, IsNonOption;
      BringOptionsForward(argv, args, kinds);
      ghost var from := optind;
      LayoutTail(argv[..], args, kinds, firstNonopt, from, from);
      PassNonOptions(argv);
      LayoutGrows(argv[..], args, kinds, firstNonopt, from, from, false, optind - from);
      lastNonopt := optind;
    }

    /** The element "--": everything behind it is left to the caller. */
    method EndOptions(argv: array<string>, ghost args: seq<string>, ghost kinds: seq<bool>)
      requires Layout(argv[..], args, kinds, firstNonopt, lastNonopt, optind) && optind < argv.Length
      requires firstNonopt == lastNonopt || lastNonopt == optind
      modifies argv, this`firstNonopt, this`lastNonopt, this`optind
      ensures optind == lastNonopt == argv.Length && firstNonopt <= lastNonopt
      ensures Finished(argv[..], args, kinds + ([true] + Times(false, |args| - old(optind) - 1)), firstNonopt)
    {
      hide Layout, Finished, Rotated;
      ghost var i := optind;
      LayoutTail(argv[..], args, kinds, firstNonopt, lastNonopt, optind);
      LayoutGrows(argv[..], args, kinds, firstNonopt, lastNonopt, optind, true, 1);
      ghost var grown := kinds + Times(true, 1);
      optind := optind + 1;
      if firstNonopt != lastNonopt && lastNonopt != optind {
        LayoutRotated(argv[..], args, grown, firstNonopt, lastNonopt, optind);
        ExchangeArgs(argv);
      } else if firstNonopt == lastNonopt {
        LayoutNone(argv[..], args, grown, firstNonopt, lastNonopt, optind);
        firstNonopt := optind;
      }
      LayoutStops(argv[..], args, grown, firstNonopt, optind);
      assert grown + Times(false, |args| - optind) == kinds + ([true] + Times(false, |args| - i - 1));
      lastNonopt := argv.Length;
      optind := argv.Length;
    }

    /** _getopt_internal_r at an element, once non-options have been skipped. */
    method Decide(argv: array<string>, ghost o: Options, ghost args: seq<string>, ghost kinds: seq<bool>)
        returns (st: Status, ghost r: Reading)
      requires Layout(argv[..], args, kinds, firstNonopt, lastNonopt, optind) && optarg == None
      requires if ordering == Permute then lastNonopt == optind && (optind < argv.Length ==> !IsNonOption(args[optind]))
               else kinds == Times(true, |kinds|)
      modifies argv, this`firstNonopt, this`lastNonopt, this`optind, this`optarg
      ensures old(optind) == |kinds| + 1 <= |args| == argv.Length
      ensures r == Read(o, ordering, args, old(optind), "") && Turn(o, ordering, args, old(optind), st, r)
      ensures st.Stop? ==> Finished(argv[..], args, kinds + r.kinds, optind) && optarg == None
      ensures st.Operand? ==>
        && Layout(argv[..], args, kinds + Times(true, 1), firstNonopt, lastNonopt, optind)
        && optind == old(optind) + 1 <= |args| && optarg == Some(args[old(optind)])
      ensures st.Element? ==>
        Layout(argv[..], args, kinds, firstNonopt, lastNonopt, optind) && optind == old(optind) && optarg == None
    {
      hide Rotated, Finished;
      LayoutTail(argv[..], args, kinds, firstNonopt, lastNonopt, optind);
      if ordering != Permute {
        LayoutInOrder(argv[..], args, kinds, firstNonopt, lastNonopt, optind);
      }
      hide Layout;
      r := Read(o, ordering, args, optind, "");
      if optind != argv.Length && argv[optind] == "--" {
        EndOptions(argv, args, kinds);
        if firstNonopt != lastNonopt {
          optind := firstNonopt;
        }
        return Stop, r;
      }
      if optind == argv.Length {
        LayoutStops(argv[..], args, kinds, if ordering == Permute then firstNonopt else optind, optind);
        if firstNonopt != lastNonopt {
          optind := firstNonopt;
        }
        return Stop, r;
      }
      if IsNonOption(argv[optind]) {
        if ordering == RequireOrder {
          LayoutStops(argv[..], args, kinds, optind, optind);
          return Stop, r;
        }
        LayoutGrows(argv[..], args, kinds, firstNonopt, lastNonopt, optind, true, 1);
        optarg := Some(argv[optind]);
        optind := optind + 1;
        return Operand, r;
      }
      return Element, r;
    }

    /** Only after the caller has moved optind back does this have an effect. */
    method ClampRecords()
      modifies this`firstNonopt, this`lastNonopt
      ensures firstNonopt == if old(firstNonopt) > optind then optind else old(firstNonopt)
      ensures lastNonopt == if old(lastNonopt) > optind then optind else old(lastNonopt)
    {
      if lastNonopt > optind {
        lastNonopt := optind;
      }
      if firstNonopt > optind {
        firstNonopt := optind;
      }
    }

    /** The records are clamped, and non-options skipped if getopt is to permute. */
    method SkipIfPermuting(argv: array<string>, ghost o: Options, ghost args: seq<string>, ghost kinds: seq<bool>)
        returns (ghost kinds1: seq<bool>)
      requires Layout(argv[..], args, kinds, firstNonopt, lastNonopt, optind)
      requires ordering != Permute ==> kinds == Times(true, |kinds|)
      modifies argv, this`firstNonopt, this`lastNonopt, this`optind
      ensures Layout(argv[..], args, kinds1, firstNonopt, lastNonopt, optind)
      ensures old(optind) <= optind == |kinds1| + 1 <= |args| == argv.Length
      ensures if ordering == Permute then lastNonopt == optind && (optind < argv.Length ==> !IsNonOption(args[optind]))
              else kinds1 == kinds == Times(true, |kinds|)
      ensures Skipped(o, ordering, args, old(optind), kinds, kinds1, Read(o, ordering, args, optind, ""))
    {
      hide Read, Layout, IsNonOption;
      LayoutCount(argv[..], args, kinds, firstNonopt, lastNonopt, optind);
      ClampRecords();
      ghost var from := optind;
      kinds1 := kinds;
      if ordering == Permute {
        SkipNonOptions(argv, args, kinds);
        kinds1 := kinds + Times(false, optind - from);
        LayoutCount(argv[..], args, kinds1, firstNonopt, lastNonopt, optind);
        ReadSkips(o, args, from, optind);
      }
    }

    /** _getopt_internal_r at the start of an element: up to the point where
        an option element is found, or the call returns. */
    method AdvanceElement(argv: array<string>, ghost o: Options, ghost args: seq<string>, ghost kinds: seq<bool>)
        returns (st: Status, ghost kinds1: seq<bool>, ghost r: Reading)
      requires Layout(argv[..], args, kinds, firstNonopt, lastNonopt, optind) && optarg == None
      requires ordering != Permute ==> kinds == Times(true, |kinds|)
      modifies argv, this`firstNonopt, this`lastNonopt, this`optind, this`optarg
      ensures ordering != Permute ==> kinds1 == kinds
      ensures old(optind) <= |kinds1| + 1 <= |args| == argv.Length
      ensures Turn(o, ordering, args, |kinds1| + 1, st, r)
      ensures Skipped(o, ordering, args, old(optind), kinds, kinds1, r)
      ensures st.Stop? ==> Finished(argv[..], args, kinds1 + r.kinds, optind) && optarg == None
      ensures st.Operand? ==>
        && Layout(argv[..], args, kinds1 + Times(true, 1), firstNonopt, lastNonopt, optind)
        && optind == |kinds1| + 2 <= |args| && optarg == Some(args[|kinds1| + 1])
      ensures st.Element? ==>
        Layout(argv[..], args, kinds1, firstNonopt, lastNonopt, optind) && optind == |kinds1| + 1 && optarg == None
    {
      hide Layout, Finished, Turn, Read, IsNonOption, Skipped;
      LayoutTail(argv[..], args, kinds, firstNonopt, lastNonopt, optind);
      kinds1 := SkipIfPermuting(argv, o, args, kinds);
      st, r := Decide(argv, o, args, kinds1);
    }

    /** A long option at i. */
    method TakeLong(argv: array<string>, o: Options, ghost args: seq<string>, ghost kinds: seq<bool>)
        returns (code: int, ghost s: Stepped)
      requires Layout(argv[..], args, kinds, firstNonopt, lastNonopt, optind) && optarg == None && optind < argv.Length
      requires args[optind] != "--" && !IsNonOption(args[optind]) && args[optind][1] == '-'
      modifies this`optind, this`nextchar, this`optarg, this`optopt
      ensures old(optind) <= s.i && IsAt(args, s.i, s.rest) && Reports(s, code, old(optopt))
      ensures Layout(argv[..], args, kinds + Times(true, s.i - old(optind)), firstNonopt, lastNonopt, s.i)
      ensures Read(o, ordering, args, old(optind), "")
           == Prepend(s.event, s.i - old(optind), Read(o, ordering, args, s.i, s.rest))
    {
      hide Layout, Read, Prepend, Times, LongBody, ShortStep;
      ghost var i := optind;
      LayoutTail(argv[..], args, kinds, firstNonopt, lastNonopt, i);
      s := LongStep(o, args, i);
      StepsSame(o, argv[..], args, i, "");
      ReadLong(o, ordering, args, i);
      nextchar := argv[optind][2..];
      code := ProcessLongOption(argv, o);
      LayoutGrows(argv[..], args, kinds, firstNonopt, lastNonopt, i, true, s.i - i);
    }

    /** A short option; nextchar is what is left of its element. */
    method TakeShort(argv: array<string>, o: Options, ghost args: seq<string>, ghost kinds: seq<bool>)
        returns (code: int, ghost s: Stepped)
      requires Layout(argv[..], args, kinds, firstNonopt, lastNonopt, optind) && optarg == None && optind < argv.Length
      requires nextchar != ""
      modifies this`optind, this`nextchar, this`optarg, this`optopt
      ensures old(optind) <= s.i && IsAt(args, s.i, s.rest) && Reports(s, code, old(optopt))
      ensures Layout(argv[..], args, kinds + Times(true, s.i - old(optind)), firstNonopt, lastNonopt, s.i)
      ensures Read(o, ordering, args, old(optind), old(nextchar))
           == Prepend(s.event, s.i - old(optind), Read(o, ordering, args, s.i, s.rest))
    {
      hide Layout, Read, Prepend, Times, ShortStep, LongStep;
      ghost var i := optind;
      LayoutTail(argv[..], args, kinds, firstNonopt, lastNonopt, i);
      s := ShortStep(o, args, i, nextchar);
      StepsSame(o, argv[..], args, i, nextchar);
      ReadShort(o, ordering, args, i, nextchar);
      code := ProcessShortOption(argv, o);
      LayoutGrows(argv[..], args, kinds, firstNonopt, lastNonopt, i, true, s.i - i);
    }

    /** An option element, from its start. */
    method TakeOption(argv: array<string>, o: Options, ghost args: seq<string>, ghost kinds: seq<bool>)
        returns (code: int, ghost s: Stepped)
      requires Layout(argv[..], args, kinds, firstNonopt, lastNonopt, optind) && optarg == None && optind < argv.Length
      requires args[optind] != "--" && !IsNonOption(args[optind])
      modifies this`optind, this`nextchar, this`optarg, this`optopt
      ensures old(optind) <= s.i && IsAt(args, s.i, s.rest) && Reports(s, code, old(optopt))
      ensures Layout(argv[..], args, kinds + Times(true, s.i - old(optind)), firstNonopt, lastNonopt, s.i)
      ensures Read(o, ordering, args, old(optind), "")
           == Prepend(s.event, s.i - old(optind), Read(o, ordering, args, s.i, s.rest))
    {
      hide Layout, Reports, Prepend, Read, IsNonOption;
      LayoutTail(argv[..], args, kinds, firstNonopt, lastNonopt, optind);
      ReadCluster(o, ordering, args, optind);
      if argv[optind][1] == '-' {
        code, s := TakeLong(argv, o, args, kinds);
      } else {
        nextchar := argv[optind][1..];
        code, s := TakeShort(argv, o, args, kinds);
      }
    }

    /** The first lines of _getopt_internal_r. */
    method Begin(argv: array<string>, optstring: string, posixly: bool, ghost args: seq<string>, ghost kinds: seq<bool>)
        returns (shorts: string)
      requires Resumable(argv[..], args, kinds, ModeOf(optstring, posixly))
      modifies this
      ensures optind == old(At()) && nextchar == old(nextchar) && optarg == None && optopt == old(optopt)
      ensures initialized && ordering == ModeOf(optstring, posixly) && shorts == ShortsOf(optstring)
      ensures Layout(argv[..], args, kinds, firstNonopt, lastNonopt, optind) && IsAt(args, optind, nextchar)
      ensures ordering != Permute ==> kinds == Times(true, |kinds|)
    {
      hide Layout;
      optarg := None;
      if optind == 0 || !initialized {
        LayoutStart(args, At());
        shorts := Initialize(optstring, posixly);
      } else {
        shorts := if optstring != "" && (optstring[0] == '-' || optstring[0] == '+') then optstring[1..] else optstring;
      }
    }

    /** The call has reported event e of the scan. */
    ghost predicate Reported(e: Event, code: int, faultBefore: int)
      reads this
    {
      code == e.code && optarg == e.arg && optopt == (if e.fault.Some? then e.fault.value else faultBefore)
    }

    /** At the start of an element: _getopt_internal_r from there on. */
    method NextElement(argv: array<string>, o: Options, ghost args: seq<string>, ghost kinds: seq<bool>)
        returns (code: int, ghost done: bool, ghost e: Event, ghost kinds': seq<bool>)
      requires Layout(argv[..], args, kinds, firstNonopt, lastNonopt, optind) && optarg == None && nextchar == ""
      requires ordering != Permute ==> kinds == Times(true, |kinds|)
      modifies argv, this`firstNonopt, this`lastNonopt, this`optind, this`nextchar, this`optarg, this`optopt
      ensures done ==>
        var r := Read(o, ordering, args, old(optind), "");
        code == -1 && optarg == None && nextchar == "" && r.events == []
            && Finished(argv[..], args, kinds + r.kinds, optind)
      ensures !done ==>
        && Took(o, ordering, args, old(optind), "", kinds, e, optind, nextchar, kinds')
        && Layout(argv[..], args, kinds', firstNonopt, lastNonopt, optind)
        && (ordering != Permute ==> kinds' == Times(true, |kinds'|))
        && Reported(e, code, old(optopt))
    {
      hide Layout, Finished, Read, Took, Prepend, Turn, Skipped, Times;
      LayoutTail(argv[..], args, kinds, firstNonopt, lastNonopt, optind);
      ghost var i0, kinds1, r := optind, kinds, Reading([], []);
      var st;
      st, kinds1, r := AdvanceElement(argv, o, args, kinds);
      done := st.Stop?;
      match st
      case Stop =>
        StopSkipped(o, ordering, args, i0, kinds, kinds1, r);
        code, e, kinds' := -1, Event(-1, None, None), kinds1;
      case Operand =>
        OperandTook(o, ordering, args, i0, kinds, kinds1, r);
        code, e, kinds' := 1, Event(1, optarg, None), kinds1 + Times(true, 1);
      case Element =>
        code, e, kinds' := TakeElement(argv, o, args, i0, kinds, kinds1, r);
    }

    /** The element found is an option. */
    method TakeElement(argv: array<string>, o: Options, ghost args: seq<string>, ghost i0: nat,
                       ghost kinds: seq<bool>, ghost kinds1: seq<bool>, ghost r: Reading)
        returns (code: int, ghost e: Event, ghost kinds': seq<bool>)
      requires Layout(argv[..], args, kinds1, firstNonopt, lastNonopt, optind) && optarg == None
      requires ordering != Permute ==> kinds1 == Times(true, |kinds1|)
      requires i0 <= optind == |kinds1| + 1 <= |args| == argv.Length
      requires Turn(o, ordering, args, optind, Element, r) && Skipped(o, ordering, args, i0, kinds, kinds1, r)
      modifies this`optind, this`nextchar, this`optarg, this`optopt
      ensures Took(o, ordering, args, i0, "", kinds, e, optind, nextchar, kinds')
      ensures Layout(argv[..], args, kinds', firstNonopt, lastNonopt, optind)
      ensures ordering != Permute ==> kinds' == Times(true, |kinds'|)
      ensures Reported(e, code, old(optopt))
    {
      hide Layout, Read, Took, Prepend, Turn, Skipped;
      ghost var i := optind;
      TurnElement(o, ordering, args, i, r);
      ghost var s;
      code, s := TakeOption(argv, o, args, kinds1);
      ElementTook(o, ordering, args, i0, kinds, kinds1, r, s);
      e, kinds' := s.event, kinds1 + Times(true, s.i - i);
    }

    /** One call of getopt_long.  Unless it is the last one it reports the next
        event of the scan, and can be resumed. */
    method Next(argv: array<string>, optstring: string, longs: seq<LongOpt>, posixly: bool,
                ghost args: seq<string>, ghost kinds: seq<bool>)
        returns (code: int, ghost done: bool, ghost e: Event, ghost kinds': seq<bool>)
      requires argv.Length >= 1 ==> Resumable(argv[..], args, kinds, ModeOf(optstring, posixly))
      modifies this, argv
      ensures argv.Length == 0 ==> done && code == -1
      ensures argv.Length >= 1 && done ==>
        var r := Read(Options(ShortsOf(optstring), longs), ModeOf(optstring, posixly), args, old(At()), old(nextchar));
        code == -1 && optarg == None && r.events == [] && Finished(argv[..], args, kinds + r.kinds, optind)
      ensures argv.Length >= 1 && !done ==>
        && Took(Options(ShortsOf(optstring), longs), ModeOf(optstring, posixly), args, old(At()), old(nextchar), kinds,
                e, optind, nextchar, kinds')
        && initialized && optind > 0 && Resumable(argv[..], args, kinds', ModeOf(optstring, posixly))
        && Reported(e, code, old(optopt))
    {
      if argv.Length < 1 {
        return -1, true, Event(-1, None, None), kinds;
      }
      hide Layout, Finished, Read, Took, Prepend;
      var shorts := Begin(argv, optstring, posixly, args, kinds);
      code, done, e, kinds' := Dispatch(argv, Options(shorts, longs), args, kinds);
    }

    /** _getopt_internal_r behind its first lines. */
    method Dispatch(argv: array<string>, o: Options, ghost args: seq<string>, ghost kinds: seq<bool>)
        returns (code: int, ghost done: bool, ghost e: Event, ghost kinds': seq<bool>)
      requires Layout(argv[..], args, kinds, firstNonopt, lastNonopt, optind) && optarg == None
          && IsAt(args, optind, nextchar)
      requires ordering != Permute ==> kinds == Times(true, |kinds|)
      modifies argv, this`firstNonopt, this`lastNonopt, this`optind, this`nextchar, this`optarg, this`optopt
      ensures done ==>
        var r := Read(o, ordering, args, old(optind), old(nextchar));
        code == -1 && optarg == None && r.events == [] && Finished(argv[..], args, kinds + r.kinds, optind)
      ensures !done ==>
        && Took(o, ordering, args, old(optind), old(nextchar), kinds, e, optind, nextchar, kinds')
        && Layout(argv[..], args, kinds', firstNonopt, lastNonopt, optind)
        && (ordering != Permute ==> kinds' == Times(true, |kinds'|))
        && Reported(e, code, old(optopt))
    {
      hide Layout, Finished, Read, Took, Prepend;
      LayoutTail(argv[..], args, kinds, firstNonopt, lastNonopt, optind);
      if nextchar == "" {
        code, done, e, kinds' := NextElement(argv, o, args, kinds);
      } else {
        ghost var i, rest := optind, nextchar;
        ghost var s;
        code, s := TakeShort(argv, o, args, kinds);
        TookStep(o, ordering, args, i, rest, kinds, s);
        done, e, kinds' := false, s.event, kinds + Times(true, s.i - i);
      }
    }
  }

  lemma LayoutTail(argv: seq<string>, args: seq<string>, kinds: seq<bool>, first: nat, last: nat, optind: nat)
    requires Layout(argv, args, kinds, first, last, optind)
    ensures 1 <= first <= last <= optind <= |args| == |argv|
    ensures forall i :: optind <= i < |args| ==> argv[i] == args[i]
  {
    assert forall i :: optind <= i < |args| ==>
        argv[i] == argv[optind..][i - optind] && args[i] == args[optind..][i - optind];
  }

  lemma LayoutCount(argv: seq<string>, args: seq<string>, kinds: seq<bool>, first: nat, last: nat, optind: nat)
    requires Layout(argv, args, kinds, first, last, optind)
    ensures 1 <= first <= last <= optind == |kinds| + 1 && optind <= |args| == |argv|
  {
  }

  /** Reading and exchanging only ever permutes. */
  lemma LayoutPermutes(argv: seq<string>, args: seq<string>, kinds: seq<bool>, first: nat, last: nat, optind: nat)
    requires Layout(argv, args, kinds, first, last, optind)
    ensures multiset(argv) == multiset(args)
  {
    hide Pick;
    var o, n := Pick(args[1..optind], kinds, true), Pick(args[1..optind], kinds, false);
    PickPermutes(args[1..optind], kinds);
    MultisetSplit(argv, 1, first, last, optind);
    MultisetSplit(args, 1, 1, 1, optind);
    assert multiset(o) == multiset(argv[1..first]) + multiset(argv[last..optind]);
    assert multiset(o + n) == multiset(o) + multiset(n);
    assert argv[..1] == args[..1];
  }

  lemma MultisetSplit(s: seq<string>, i: nat, j: nat, k: nat, l: nat)
    requires i <= j <= k <= l <= |s|
    ensures multiset(s)
         == multiset(s[..i]) + multiset(s[i..j]) + multiset(s[j..k]) + multiset(s[k..l]) + multiset(s[l..])
  {
    assert s == s[..i] + s[i..j] + s[j..k] + s[k..l] + s[l..];
  }

  lemma SeenStep(met: seq<Event>, e: Event, tail: seq<Event>)
    ensures met + ([e] + tail) == met + [e] + tail && |[e] + tail| == |tail| + 1 && ([e] + tail)[0] == e
    ensures Seen(met + [e]) == Seen(met) + [(e.code, e.arg)]
  {
  }

  lemma NothingSeen()
    ensures Seen([]) == []
  {
  }

  /** The calls a program makes until it is told -1: it sees the events of the
      scan, in order, up to an option whose value is -1, if there is one; else
      it then finds argv rearranged with everything that was read in front and,
      from optind on, the elements left to it. */
  method ScanAll(argv: array<string>, optstring: string, longs: seq<LongOpt>, posixly: bool)
      returns (seen: seq<(int, Option<string>)>, optind: nat)
    requires argv.Length >= 1
    modifies argv
    ensures var r := Read(Options(ShortsOf(optstring), longs), ModeOf(optstring, posixly), old(argv[..]), 1, "");
      && seen == Seen(BeforeEnd(r.events))
      && ((forall i :: 0 <= i < |r.events| ==> r.events[i].code != -1) ==>
            && seen == Seen(r.events)
            && argv[..] == Rearranged(old(argv[..]), r)
            && optind == 1 + |Pick(old(argv[..])[1..], r.kinds, true)|)
    ensures multiset(argv[..]) == multiset(old(argv[..]))
  {
    hide Read, Layout, Pick, Rearranged, Times, BeforeEnd, Seen;
    ghost var o, mode, args := Options(ShortsOf(optstring), longs), ModeOf(optstring, posixly), argv[..];
    ghost var whole := Read(o, mode, args, 1, "");
    RearrangedPermutes(args, whole);
    RearrangedKinds(args, whole);
    var d := new Scanner();
    seen := [];
    NothingSeen();
    ghost var kinds: seq<bool> := [];
    ghost var met: seq<Event> := [];
    while true
      invariant fresh(d) && d.Resumable(argv[..], args, kinds, mode)
      invariant whole.events == met + Read(o, mode, args, d.At(), d.nextchar).events && seen == Seen(met)
      invariant forall i :: 0 <= i < |met| ==> met[i].code != -1
      invariant whole.kinds == kinds + Read(o, mode, args, d.At(), d.nextchar).kinds
      decreases |Read(o, mode, args, d.At(), d.nextchar).events|
    {
      ghost var done, e;
      ghost var left := Read(o, mode, args, d.At(), d.nextchar).events;
      var opt;
      opt, done, e, kinds := d.Next(argv, optstring, longs, posixly, args, kinds);
      if !done {
        SeenStep(met, e, Read(o, mode, args, d.At(), d.nextchar).events);
      }
      if opt == -1 {
        BeforeEndIs(met, left);
        if !done {
          assert whole.events[|met|].code == -1;
          LayoutPermutes(argv[..], args, kinds, d.firstNonopt, d.lastNonopt, d.optind);
        }
        break;
      }
      met := met + [e];
      seen := seen + [(opt, d.optarg)];
    }
    optind := d.optind;
  }
}
