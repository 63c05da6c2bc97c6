// libparted/unit.c: cylinder, head, sector locations, and ranges around a sector.

module Chs {
  import opened Common
  import opened Geometry
  import opened Characters
  import opened Decimals

  const INT_MAX := 0x7fff_ffff

  /** A PedDevice as far as locations go; ped_disk_new_fresh asserts that heads
      and sectors are not zero. */
  datatype Device = Device(length: int, heads: int, sectors: int) {
    ghost predicate Valid() {
      heads > 0 && sectors > 0 && heads * sectors <= INT_MAX && length <= LLONG_MAX
    }
  }

  // ----- Printing -----

  /** The CHS text of cylinder c, head h, sector s. */
  function ChsText(c: nat, h: nat, s: nat): string {
    Decimal(c) + "," + Decimal(h) + "," + Decimal(s)
  }

  /** The CHS branch of ped_unit_format_custom_byte. */
  function Format(dev: Device, sector: nat): string
    requires dev.Valid()
  {
    RemainderFits(sector, dev.sectors);
    RemainderFits(sector / dev.sectors, dev.heads);
    ChsText(sector / dev.sectors / dev.heads, (sector / dev.sectors) % dev.heads, sector % dev.sectors)
  }

  // ----- Parsing -----

  /** ispunct. */
  predicate IsPunct(c: char) {
    '!' <= c <= '/' || ':' <= c <= '@' || '[' <= c <= '`' || '{' <= c <= '~'
  }

  /** All that can be seen, but for letters and digits. */
  lemma PunctIff(c: char)
    ensures IsPunct(c) <==> ' ' < c < 127 as char && !IsDigit(c) && !('a' <= Lower(c) <= 'z')
  {
  }

  function CountPunct(s: string): nat {
    if s == "" then 0 else CountPunct(s[..|s| - 1]) + if IsPunct(s[|s| - 1]) then 1 else 0
  }

  /** is_chs. */
  method IsChs(str: string) returns (r: bool)
    ensures r <==> CountPunct(str) == 2
  {
    var count := 0;
    for i := 0 to |str|
      invariant count == CountPunct(str[..i])
    {
      assert str[..i + 1][..i] == str[..i];
      if IsPunct(str[i]) {
        count := count + 1;
      }
    }
    assert str[..|str|] == str;
    return count == 2;
  }

  /** remove_punct. */
  method RemovePunct(str: array<char>)
    modifies str
    ensures forall i :: 0 <= i < str.Length ==> str[i] == if IsPunct(old(str[i])) then ' ' else old(str[i])
  {
    for i := 0 to str.Length
      invariant forall k :: 0 <= k < str.Length ==> str[k] == if k < i && IsPunct(old(str[k])) then ' ' else old(str[k])
    {
      if IsPunct(str[i]) {
        str[i] := ' ';
      }
    }
  }

  function Unpunctuated(s: string): (r: string)
    ensures |r| == |s| && forall i :: 0 <= i < |s| ==> r[i] == if IsPunct(s[i]) then ' ' else s[i]
  {
    if s == "" then "" else [if IsPunct(s[0]) then ' ' else s[0]] + Unpunctuated(s[1..])
  }

  /** s with everything behind place i moved down by one; the last character
      stays, because the terminator does not move. */
  function Shifted(s: string, i: nat): (r: string)
    requires i < |s|
    ensures |r| == |s|
  {
    s[..i] + s[i + 1..] + [s[|s| - 1]]
  }

  lemma ShiftedAt(s: string, i: nat)
    requires i < |s|
    ensures forall k :: 0 <= k < |s| ==> Shifted(s, i)[k] == s[if k < i || k == |s| - 1 then k else k + 1]
  {
  }

  /** What strip_string leaves of s, from place i on. */
  function Stripped(s: string, i: nat): (r: string)
    ensures |r| == |s|
    decreases |s| - i
  {
    if i >= |s| then s else Stripped(if IsSpace(s[i]) then Shifted(s, i) else s, i + 1)
  }

  /** Its inner loop. */
  method ShiftDown(str: array<char>, i: nat)
    requires i < str.Length
    modifies str
    ensures str[..] == Shifted(old(str[..]), i)
  {
    hide Shifted;
    ShiftedAt(str[..], i);
    for j := i + 1 to str.Length
      invariant forall k :: 0 <= k < i || j - 1 <= k < str.Length ==> str[k] == old(str[k])
      invariant forall k :: i <= k < j - 1 ==> str[k] == old(str[k + 1])
    {
      str[j - 1] := str[j];
    }
  }

  /** strip_string. */
  method StripString(str: array<char>)
    modifies str
    ensures str[..] == Stripped(old(str[..]), 0)
    ensures str.Length > 0 ==>
      str[..] == Padded(Squeezed(old(str[..])), str.Length, old(str[str.Length - 1]))
  {
    hide Squeezed, Padded, Shifted;
    if str.Length > 0 {
      StrippedWhole(str[..]);
    }
    for i := 0 to str.Length
      invariant Stripped(str[..], i) == Stripped(old(str[..]), 0)
    {
      if IsSpace(str[i]) {
        ShiftDown(str, i);
      }
    }
  }

  lemma StrippedWhole(s: string)
    requires s != ""
    ensures Stripped(s, 0) == Padded(Squeezed(s), |s|, s[|s| - 1])
  {
    StrippedIs(s, 0);
    assert s[0..] == s && s[..0] == "";
  }

  /** s, where each space gives way to the character behind it, which is not
      looked at itself; one at the end stays. */
  function Squeezed(s: string): (r: string)
    ensures |r| <= |s|
  {
    if |s| <= 1 then s
    else if IsSpace(s[0]) then [s[1]] + Squeezed(s[2..])
    else [s[0]] + Squeezed(s[1..])
  }

  /** s, filled up to n characters with c. */
  function Padded(s: string, n: nat, c: char): (r: string)
    requires |s| <= n
    ensures |r| == n
  {
    s + seq(n - |s|, _ => c)
  }

  lemma {:induction false} SqueezedMore(u: string, c: char)
    requires u == "" || u[|u| - 1] == c
    ensures Squeezed(u + [c]) == Squeezed(u) || Squeezed(u + [c]) == Squeezed(u) + [c]
  {
    if |u| >= 1 {
      var k := if IsSpace(u[0]) then 2 else 1;
      if k <= |u| {
        assert (u + [c])[k..] == u[k..] + [c];
        SqueezedMore(u[k..], c);
      }
    }
  }

  lemma SqueezeStep(s: string)
    requires s != ""
    ensures !IsSpace(s[0]) ==> Squeezed(s) == [s[0]] + Squeezed(s[1..])
    ensures IsSpace(s[0]) && |s| >= 2 ==> Squeezed(s) == [s[1]] + Squeezed(s[2..])
    ensures |s| == 1 ==> Squeezed(s) == s
  {
  }

  /** What is left is squeezed, and filled up with the last character. */
  lemma {:induction false} StrippedIs(s: string, i: nat)
    requires i <= |s| && s != ""
    ensures Stripped(s, i) == s[..i] + Padded(Squeezed(s[i..]), |s| - i, s[|s| - 1])
    decreases |s| - i
  {
    hide Stripped, Squeezed, Padded, Shifted, IsSpace;
    if i < |s| {
      var t, c, n := if IsSpace(s[i]) then Shifted(s, i) else s, s[|s| - 1], |s| - i;
      StripStep(s, i);
      var x, u := StripFront(s, i, t);
      StrippedIs(t, i + 1);
      JoinedFront(s[..i], x, u, n, c);
    } else {
      AllStripped(s, s[|s| - 1]);
    }
  }

  lemma AllStripped(s: string, c: char)
    ensures Stripped(s, |s|) == s[..|s|] + Padded(Squeezed(s[|s|..]), 0, c)
  {
    assert s[..|s|] == s && s[|s|..] == "";
  }

  lemma StripStep(s: string, i: nat)
    requires i < |s|
    ensures Stripped(s, i) == Stripped(if IsSpace(s[i]) then Shifted(s, i) else s, i + 1)
  {
  }

  /** One step: the character x takes place i, and u is what the rest comes to. */
  lemma StripFront(s: string, i: nat, t: string) returns (x: char, u: string)
    requires i < |s| && t == if IsSpace(s[i]) then Shifted(s, i) else s
    ensures |t| == |s| && t[|s| - 1] == s[|s| - 1] && t[..i + 1] == s[..i] + [x]
    ensures |u| < |s| - i && Squeezed(s[i..]) == [x] + u
    ensures Padded(Squeezed(t[i + 1..]), |s| - i - 1, s[|s| - 1]) == Padded(u, |s| - i - 1, s[|s| - 1])
  {
    hide Squeezed, Padded, Shifted, IsSpace;
    var c := s[|s| - 1];
    ShiftedParts(s, i);
    SqueezeStep(s[i..]);
    if IsSpace(s[i]) && i + 1 < |s| {
      x, u := s[i + 1], Squeezed(s[i + 2..]);
      SqueezedMore(s[i + 2..], c);
      PaddedMore(x, u, |s| - i, c);
    } else {
      x, u := s[i], Squeezed(s[i + 1..]);
    }
  }

  lemma ShiftedParts(s: string, i: nat)
    requires i < |s|
    ensures s[i..][0] == s[i] && s[i..][1..] == s[i + 1..] && s[..i + 1] == s[..i] + [s[i]]
    ensures i + 1 == |s| ==> Shifted(s, i) == s && s[i..] == [s[i]] && Squeezed(s[i + 1..]) == ""
    ensures i + 1 < |s| ==>
      var t := Shifted(s, i);
      && s[i..][1] == s[i + 1] && s[i..][2..] == s[i + 2..] && t[|s| - 1] == s[|s| - 1]
      && t[..i + 1] == s[..i] + [s[i + 1]] && t[i + 1..] == s[i + 2..] + [s[|s| - 1]]
  {
  }

  lemma PaddedMore(x: char, u: string, n: nat, c: char)
    requires |u| < n
    ensures Padded([x] + u, n, c) == [x] + Padded(u, n - 1, c)
    ensures |u| + 1 < n ==> Padded(u + [c], n - 1, c) == Padded(u, n - 1, c)
  {
  }

  lemma JoinedFront(front: string, x: char, u: string, n: nat, c: char)
    requires |u| < n
    ensures (front + [x]) + Padded(u, n - 1, c) == front + Padded([x] + u, n, c)
  {
    PaddedMore(x, u, n, c);
    hide Padded;
    var p := Padded(u, n - 1, c);
    assert (front + [x]) + p == front + ([x] + p);
  }

  predicate NotSpace(c: char) {
    !IsSpace(c)
  }

  /** Every space is followed by another character. */
  predicate SpacedOut(s: string) {
    forall i :: 0 <= i < |s| && IsSpace(s[i]) ==> i + 1 < |s| && !IsSpace(s[i + 1])
  }

  lemma SpacedTail(s: string)
    requires s != ""
    ensures SpacedOut(s) <==> (IsSpace(s[0]) ==> |s| >= 2 && !IsSpace(s[1])) && SpacedOut(s[1..])
  {
    var u := s[1..];
    assert forall i :: 0 <= i < |u| ==> u[i] == s[i + 1];
    if SpacedOut(u) {
      assert forall i :: 0 < i < |s| ==> s[i] == u[i - 1];
    }
  }

  lemma KeptStep(s: string)
    requires s != ""
    ensures Filter(NotSpace, s) == if IsSpace(s[0]) then Filter(NotSpace, s[1..]) else [s[0]] + Filter(NotSpace, s[1..])
  {
  }

  lemma SameTail(c: char, a: string, b: string)
    ensures [c] + a == [c] + b <==> a == b
  {
    assert ([c] + a)[1..] == a && ([c] + b)[1..] == b;
  }

  lemma NoneKept(s: string, c: char)
    requires IsSpace(c)
    ensures c !in Filter(NotSpace, s)
  {
  }

  /** Squeezing drops all spaces exactly when no two of them are neighbours and
      none is at the end. */
  lemma {:induction false} SqueezedDrops(s: string)
    ensures Squeezed(s) == Filter(NotSpace, s) <==> SpacedOut(s)
  {
    if s != "" {
      hide SpacedOut, Squeezed, Filter, IsSpace;
      SpacedTail(s);
      SqueezeStep(s);
      KeptStep(s);
      if !IsSpace(s[0]) {
        SqueezedDrops(s[1..]);
        SameTail(s[0], Squeezed(s[1..]), Filter(NotSpace, s[1..]));
      } else if |s| == 1 || IsSpace(s[1]) {
        assert Squeezed(s)[0] in Squeezed(s);
        NoneKept(s, Squeezed(s)[0]);
      } else {
        assert s[1..][0] == s[1] && s[1..][1..] == s[2..];
        KeptStep(s[1..]);
        SpacedTail(s[1..]);
        SqueezedDrops(s[2..]);
        SameTail(s[1], Squeezed(s[2..]), Filter(NotSpace, s[2..]));
      }
    } else {
      assert SpacedOut(s);
    }
  }

  /** strip_string gives s without its spaces only if there were none: the
      characters that move up leave the last one behind them. */
  lemma {:induction false} StripsNothing(s: string)
    ensures Stripped(s, 0) == Filter(NotSpace, s) <==> forall k :: 0 <= k < |s| ==> !IsSpace(s[k])
    ensures (forall k :: 0 <= k < |s| ==> !IsSpace(s[k])) ==> Stripped(s, 0) == s
  {
    if forall k :: 0 <= k < |s| ==> !IsSpace(s[k]) {
      FilterAll(NotSpace, s);
      StrippedSame(s, 0);
    } else {
      var k :| 0 <= k < |s| && IsSpace(s[k]);
      assert s == s[..k] + [s[k]] + s[k + 1..];
      FilterConcat(NotSpace, s[..k] + [s[k]], s[k + 1..]);
      FilterSnoc(NotSpace, s[..k], s[k]);
    }
  }

  lemma {:induction false} StrippedSame(s: string, i: nat)
    requires forall k :: 0 <= k < |s| ==> !IsSpace(s[k])
    ensures Stripped(s, i) == s
    decreases |s| - i
  {
    if i < |s| {
      StrippedSame(s, i + 1);
    }
  }

  /** What sscanf skips in front of a number. */
  function SkipSpaces(s: string): (r: string)
    ensures |r| <= |s| && (r != "" ==> !IsSpace(r[0]))
  {
    if s != "" && IsSpace(s[0]) then SkipSpaces(s[1..]) else s
  }

  /** One "%d" on a text without signs: the number and what follows it. */
  function ScanInt(s: string): Option<(nat, string)> {
    var t := SkipSpaces(s);
    var k := Digits(t);
    if k == 0 then None else Some((ValueOf(t[..k]), t[k..]))
  }

  /** sscanf (copy, "%d %d %d", ...), when it converts all three. */
  function ScanThree(s: string): Option<(nat, nat, nat)> {
    match ScanInt(s)
    case None => None
    case Some((a, s1)) =>
      match ScanInt(s1)
      case None => None
      case Some((b, s2)) =>
        match ScanInt(s2)
        case None => None
        case Some((c, _)) => Some((a, b, c))
  }

  /** Overflows is for numbers that do not fit an int and sums that do not fit
      a PedSector. */
  datatype Outcome = Rejected | Overflows | Accepted(sector: int, range: Geom)

  /** What the code makes of the three numbers. */
  function Located(dev: Device, c: nat, h: nat, s: nat): Outcome {
    var sector := c * (dev.heads * dev.sectors) + h * dev.sectors + s;
    if c > INT_MAX || h > INT_MAX || s > INT_MAX then Overflows
    else if h >= dev.heads || s >= dev.sectors then Rejected
    else if sector > LLONG_MAX then Overflows
    else if sector >= dev.length then Rejected
    else Accepted(sector, Geom(sector, sector))
  }

  function Parsed(str: string, dev: Device): Outcome {
    match ScanThree(Unpunctuated(Stripped(str, 0)))
    case None => Rejected
    case Some((c, h, s)) => Located(dev, c, h, s)
  }

  /** The copy that parse_chs scans. */
  method CleanCopy(str: string) returns (text: string)
    ensures text == Unpunctuated(Stripped(str, 0))
  {
    var copy := new char[|str|](i requires 0 <= i < |str| => str[i]);
    assert copy[..] == str;
    StripString(copy);
    ghost var stripped := copy[..];
    RemovePunct(copy);
    text := copy[..];
    assert text == Unpunctuated(stripped);
  }

  /** parse_chs. */
  method ParseChs(str: string, dev: Device) returns (r: Outcome)
    requires dev.Valid()
    ensures r == Parsed(str, dev)
  {
    hide ScanThree, Unpunctuated, Stripped;
    var copy := CleanCopy(str);
    var cylSize := dev.heads * dev.sectors;
    var chs := ScanThree(copy);
    if chs.None? {
      return Rejected;
    }
    var (cylinders, heads, sectors) := chs.value;
    if cylinders > INT_MAX || heads > INT_MAX || sectors > INT_MAX {
      return Overflows;
    }
    if heads >= dev.heads {
      return Rejected;
    }
    if sectors >= dev.sectors {
      return Rejected;
    }
    var sector := cylinders * cylSize + heads * dev.sectors + sectors;
    if sector > LLONG_MAX {
      return Overflows;
    }
    if sector >= dev.length {
      return Rejected;
    }
    return Accepted(sector, Geom(sector, sector));
  }

  // ----- Round trips -----

  lemma {:induction false} CountConcat(a: string, b: string)
    ensures CountPunct(a + b) == CountPunct(a) + CountPunct(b)
    decreases |b|
  {
    if b == "" {
      assert a + b == a;
    } else {
      assert (a + b)[..|a + b| - 1] == a + b[..|b| - 1];
      CountConcat(a, b[..|b| - 1]);
    }
  }

  lemma {:induction false} CountNone(s: string)
    requires forall i :: 0 <= i < |s| ==> !IsPunct(s[i])
    ensures CountPunct(s) == 0
    decreases |s|
  {
    if s != "" {
      CountNone(s[..|s| - 1]);
    }
  }

  lemma CountText(c: nat, h: nat, s: nat)
    ensures CountPunct(ChsText(c, h, s)) == 2
  {
    hide Decimal, CountPunct;
    var x, y, z := Decimal(c), Decimal(h), Decimal(s);
    DecimalDigits(c);
    DecimalDigits(h);
    DecimalDigits(s);
    CountNone(x);
    CountNone(y);
    CountNone(z);
    CountComma();
    CountConcat(x + "," + y + ",", z);
    CountConcat(x + "," + y, ",");
    CountConcat(x + ",", y);
    CountConcat(x, ",");
  }

  lemma CountComma()
    ensures CountPunct(",") == 1
  {
    assert ","[..0] == "" && CountPunct("") == 0;
  }

  /** A numeral, with or without a blank in front, is read up to its end. */
  lemma ScanNumeral(n: nat, tail: string, blank: bool)
    requires tail != "" ==> !IsDigit(tail[0])
    ensures ScanInt((if blank then " " else "") + Decimal(n) + tail) == Some((n, tail))
  {
    hide Decimal, ValueOf, Digits;
    var d := Decimal(n);
    var t := d + tail;
    DecimalDigits(n);
    DigitsEnd(d, tail);
    assert IsDigit(t[0]) && SkipSpaces(t) == t;
    if blank {
      assert " " + d + tail == " " + t && (" " + t)[1..] == t;
    } else {
      assert "" + d + tail == t;
    }
    assert t[..|d|] == d && t[|d|..] == tail;
  }

  predicate Plain(s: string) {
    forall i :: 0 <= i < |s| ==> !IsPunct(s[i])
  }

  /** Commas become blanks. */
  lemma CommasGone(x: string, y: string, z: string)
    requires Plain(x) && Plain(y) && Plain(z)
    ensures Unpunctuated(x + "," + y + "," + z) == x + (" " + y + (" " + z))
  {
    hide Unpunctuated;
    var t := x + "," + y + "," + z;
    var u := x + (" " + y + (" " + z));
    assert |t| == |u| && t[|x|] == ',' && t[|x| + 1 + |y|] == ',';
    forall i | 0 <= i < |t|
      ensures Unpunctuated(t)[i] == u[i]
    {
      if i < |x| {
        assert t[i] == x[i];
      } else if |x| < i < |x| + 1 + |y| {
        assert t[i] == y[i - |x| - 1];
      } else if |x| + 1 + |y| < i {
        assert t[i] == z[i - |x| - |y| - 2];
      }
    }
  }

  lemma ScanText(c: nat, h: nat, s: nat)
    ensures ScanThree(Unpunctuated(ChsText(c, h, s))) == Some((c, h, s))
  {
    hide Decimal, ScanInt, Unpunctuated;
    var x, y, z := Decimal(c), Decimal(h), Decimal(s);
    DecimalDigits(c);
    DecimalDigits(h);
    DecimalDigits(s);
    CommasGone(x, y, z);
    var s2 := " " + z;
    var s1 := " " + y + s2;
    ScanNumeral(c, s1, false);
    assert "" + x + s1 == x + s1;
    ScanNumeral(h, s2, true);
    ScanNumeral(s, "", true);
    assert " " + z + "" == s2;
  }

  lemma TimesNatural(a: int, b: int)
    requires a >= 0 && b >= 0
    ensures a * b >= 0
  {
  }

  lemma TimesAtLeast(k: int, d: int)
    requires k >= 1 && d > 0
    ensures k * d >= d && d * k >= d
  {
    assert (k - 1) * d >= 0;
  }

  /** Quotient and remainder are the only numbers of their kind. */
  lemma DivisionIs(x: int, d: int, q: int, r: int)
    requires d > 0 && x == q * d + r && 0 <= r < d
    ensures x / d == q && x % d == r
  {
    var q', r' := x / d, x % d;
    DivisionOf(x, d);
    assert (q' - q) * d == r - r' && (q - q') * d == r' - r;
    if q' > q {
      TimesAtLeast(q' - q, d);
    } else if q' < q {
      TimesAtLeast(q - q', d);
    }
  }

  lemma DivisionOf(x: int, d: int)
    requires d > 0
    ensures x == (x / d) * d + x % d && 0 <= x % d < d
  {
  }

  /** The three numbers of a sector, and back. */
  lemma Decomposed(dev: Device, sector: nat, c: nat, h: nat, s: nat)
    requires dev.Valid() && h < dev.heads && s < dev.sectors
    ensures sector == c * (dev.heads * dev.sectors) + h * dev.sectors + s
       <==>
           c == sector / dev.sectors / dev.heads && h == (sector / dev.sectors) % dev.heads && s == sector % dev.sectors
  {
    var H, S := dev.heads, dev.sectors;
    assert (c * H + h) * S == c * (H * S) + h * S;
    if sector == c * (H * S) + h * S + s {
      DivisionIs(sector, S, c * H + h, s);
      DivisionIs(c * H + h, H, c, h);
    }
    if c == sector / S / H && h == (sector / S) % H && s == sector % S {
      assert sector / S == c * H + h;
    }
  }

  lemma RemainderFits(x: int, d: int)
    requires d > 0
    ensures 0 <= x % d < d && (x >= 0 ==> x / d >= 0)
  {
  }

  /** Printing a sector and parsing the text gives the sector back, with a range
      of just that sector. */
  lemma FormatParses(dev: Device, sector: nat)
    requires dev.Valid() && sector < dev.length && sector / dev.sectors / dev.heads <= INT_MAX
    ensures Parsed(Format(dev, sector), dev) == Accepted(sector, Geom(sector, sector))
    ensures CountPunct(Format(dev, sector)) == 2
  {
    hide ChsText, Parsed, CountPunct;
    RemainderFits(sector, dev.sectors);
    RemainderFits(sector / dev.sectors, dev.heads);
    var c: nat, h: nat, s: nat := sector / dev.sectors / dev.heads, (sector / dev.sectors) % dev.heads,
        sector % dev.sectors;
    CountText(c, h, s);
    Decomposed(dev, sector, c, h, s);
    ParsedText(dev, sector, c, h, s);
  }

  lemma TextStays(c: nat, h: nat, s: nat)
    ensures Stripped(ChsText(c, h, s), 0) == ChsText(c, h, s)
  {
    hide Decimal;
    DecimalDigits(c);
    DecimalDigits(h);
    DecimalDigits(s);
    var x, y, z := Decimal(c), Decimal(h), Decimal(s);
    NoSpaces(x + "," + y, "," + z);
    NoSpaces(x, "," + y);
    NoSpaces(",", y);
    NoSpaces(",", z);
    assert x + "," + y + "," + z == x + ("," + y) + ("," + z) && x + "," + y == x + ("," + y);
    StrippedSame(ChsText(c, h, s), 0);
  }

  lemma NoSpaces(a: string, b: string)
    requires (forall k :: 0 <= k < |a| ==> !IsSpace(a[k])) && (forall k :: 0 <= k < |b| ==> !IsSpace(b[k]))
    ensures forall k :: 0 <= k < |a + b| ==> !IsSpace((a + b)[k])
  {
  }

  lemma ParsedText(dev: Device, sector: nat, c: nat, h: nat, s: nat)
    requires dev.Valid() && sector < dev.length && c <= INT_MAX && h < dev.heads && s < dev.sectors
    requires sector == c * (dev.heads * dev.sectors) + h * dev.sectors + s
    ensures Parsed(ChsText(c, h, s), dev) == Accepted(sector, Geom(sector, sector))
  {
    hide ChsText, ScanThree, Unpunctuated, Stripped;
    ScanText(c, h, s);
    TextStays(c, h, s);
    TimesAtLeast(dev.heads, dev.sectors);
    TimesAtLeast(dev.sectors, dev.heads);
  }

  /** An accepted text names a sector of the device, the one whose own text has
      the same three numbers. */
  lemma ParseFormats(dev: Device, str: string)
    requires dev.Valid() && Parsed(str, dev).Accepted?
    ensures var sector := Parsed(str, dev).sector;
      && 0 <= sector < dev.length && Parsed(str, dev).range == Geom(sector, sector)
      && ScanThree(Unpunctuated(Stripped(str, 0))).Some?
      && var (c, h, s) := ScanThree(Unpunctuated(Stripped(str, 0))).value;
         Format(dev, sector) == ChsText(c, h, s)
  {
    hide ChsText, ScanThree, Unpunctuated, Stripped;
    var (c, h, s) := ScanThree(Unpunctuated(Stripped(str, 0))).value;
    var sector := Parsed(str, dev).sector;
    assert sector == c * (dev.heads * dev.sectors) + h * dev.sectors + s;
    TimesNatural(dev.heads, dev.sectors);
    TimesNatural(c, dev.heads * dev.sectors);
    TimesNatural(h, dev.sectors);
    hide Parsed;
    Decomposed(dev, sector, c, h, s);
  }

  // ----- Locations as users write them -----

  predicate AllPunct(s: string) {
    forall i :: 0 <= i < |s| ==> IsPunct(s[i])
  }

  /** Digits, leading zeros allowed. */
  predicate IsNumeral(s: string) {
    s != "" && forall i :: 0 <= i < |s| ==> IsDigit(s[i])
  }

  /** Neither blanks in it nor a digit in front. */
  predicate IsTail(s: string) {
    (s != "" ==> !IsDigit(s[0])) && forall i :: 0 <= i < |s| ==> !IsSpace(s[i])
  }

  lemma UnpunctuatedConcat(a: string, b: string)
    ensures Unpunctuated(a + b) == Unpunctuated(a) + Unpunctuated(b)
  {
    hide Unpunctuated;
    assert forall i :: 0 <= i < |a + b| ==> (a + b)[i] == if i < |a| then a[i] else b[i - |a|];
  }

  lemma {:induction false} SkipGap(gap: string, s: string)
    requires (forall i :: 0 <= i < |gap| ==> IsSpace(gap[i])) && s != "" && !IsSpace(s[0])
    ensures SkipSpaces(gap + s) == s
  {
    if gap == "" {
      assert gap + s == s;
    } else {
      assert (gap + s)[1..] == gap[1..] + s;
      SkipGap(gap[1..], s);
    }
  }

  /** A numeral behind punctuation is read up to its end. */
  lemma ScanBehind(gap: string, d: string, tail: string)
    requires AllPunct(gap) && IsNumeral(d) && (tail != "" ==> !IsDigit(tail[0]))
    ensures ScanInt(Unpunctuated(gap) + d + tail) == Some((ValueOf(d), tail))
  {
    hide ValueOf, Digits, SkipSpaces, Unpunctuated;
    var t := d + tail;
    assert t[0] == d[0];
    SkipGap(Unpunctuated(gap), t);
    assert Unpunctuated(gap) + d + tail == Unpunctuated(gap) + t;
    DigitsEnd(d, tail);
    assert t[..|d|] == d && t[|d|..] == tail;
  }

  lemma NumeralStays(d: string)
    requires IsNumeral(d)
    ensures Unpunctuated(d) == d
  {
    hide Unpunctuated;
  }

  lemma GapFirst(gap: string, d: string, rest: string)
    requires AllPunct(gap) && gap != ""
    ensures var t := Unpunctuated(gap) + d + rest;
      t != "" && !IsDigit(t[0])
  {
    hide Unpunctuated;
    assert (Unpunctuated(gap) + d + rest)[0] == Unpunctuated(gap)[0];
  }

  /** The scan of three numerals, with punctuation between them. */
  lemma ScanWritten(lead: string, x: string, p: string, y: string, q: string, z: string, tail: string)
    requires AllPunct(lead) && AllPunct(p) && AllPunct(q) && p != "" && q != ""
    requires IsNumeral(x) && IsNumeral(y) && IsNumeral(z) && IsTail(tail)
    ensures ScanThree(Behind(lead, x, Behind(p, y, Behind(q, z, Unpunctuated(tail)))))
         == Some((ValueOf(x), ValueOf(y), ValueOf(z)))
  {
    hide ScanInt, ScanThree, ValueOf, Unpunctuated, AllPunct, IsTail;
    var t := Unpunctuated(tail);
    var t3 := Behind(q, z, t);
    var t2 := Behind(p, y, t3);
    TailFirst(tail);
    ScanNext(q, z, t);
    ScanNext(p, y, t3);
    ScanBehind(lead, x, t2);
    ThreeScans(Behind(lead, x, t2), t2, t3, t, ValueOf(x), ValueOf(y), ValueOf(z));
  }

  function Behind(gap: string, d: string, tail: string): string {
    Unpunctuated(gap) + d + tail
  }

  lemma ScanNext(gap: string, d: string, tail: string)
    requires AllPunct(gap) && gap != "" && IsNumeral(d) && (tail != "" ==> !IsDigit(tail[0]))
    ensures ScanInt(Behind(gap, d, tail)) == Some((ValueOf(d), tail))
    ensures var t := Behind(gap, d, tail);
      t != "" && !IsDigit(t[0])
  {
    hide ScanInt, ValueOf;
    GapFirst(gap, d, tail);
    ScanBehind(gap, d, tail);
  }

  lemma ThreeScans(s: string, s1: string, s2: string, s3: string, a: nat, b: nat, c: nat)
    requires ScanInt(s) == Some((a, s1)) && ScanInt(s1) == Some((b, s2)) && ScanInt(s2) == Some((c, s3))
    ensures ScanThree(s) == Some((a, b, c))
  {
    hide ScanInt;
  }

  lemma TailFirst(tail: string)
    requires IsTail(tail)
    ensures Unpunctuated(tail) != "" ==> !IsDigit(Unpunctuated(tail)[0])
  {
    hide Unpunctuated;
  }

  lemma SolidWritten(lead: string, x: string, p: string, y: string, q: string, z: string, tail: string)
    requires AllPunct(lead) && AllPunct(p) && AllPunct(q) && IsNumeral(x) && IsNumeral(y) && IsNumeral(z)
    requires IsTail(tail)
    ensures var s := lead + x + (p + y + (q + z + tail));
      forall i :: 0 <= i < |s| ==> !IsSpace(s[i])
  {
    NoSpaces(q + z, tail);
    NoSpaces(q, z);
    NoSpaces(p, y);
    NoSpaces(p + y, q + z + tail);
    NoSpaces(lead, x);
    NoSpaces(lead + x, p + y + (q + z + tail));
  }

  lemma UnpunctuatedWritten(lead: string, x: string, rest: string)
    requires IsNumeral(x)
    ensures Unpunctuated(lead + x + rest) == Behind(lead, x, Unpunctuated(rest))
  {
    UnpunctuatedConcat(lead + x, rest);
    UnpunctuatedConcat(lead, x);
    NumeralStays(x);
  }

  /** Any three numerals with any punctuation between and in front of them, and
      anything behind them, are the location of these three numbers. */
  lemma WrittenParses(lead: string, x: string, p: string, y: string, q: string, z: string, tail: string, dev: Device)
    requires AllPunct(lead) && AllPunct(p) && AllPunct(q) && p != "" && q != ""
    requires IsNumeral(x) && IsNumeral(y) && IsNumeral(z) && IsTail(tail)
    ensures Parsed(lead + x + (p + y + (q + z + tail)), dev) == Located(dev, ValueOf(x), ValueOf(y), ValueOf(z))
  {
    hide Stripped, Unpunctuated, ScanThree, ValueOf, Located, Behind;
    var s := lead + x + (p + y + (q + z + tail));
    SolidWritten(lead, x, p, y, q, z, tail);
    StrippedSame(s, 0);
    UnpunctuatedWritten(lead, x, p + y + (q + z + tail));
    UnpunctuatedWritten(p, y, q + z + tail);
    UnpunctuatedWritten(q, z, tail);
    ScanWritten(lead, x, p, y, q, z, tail);
  }

  /** Three numbers are accepted exactly when a sector of the device has them. */
  lemma LocatedIff(dev: Device, c: nat, h: nat, s: nat)
    requires dev.Valid()
    ensures Located(dev, c, h, s).Accepted? <==>
      c <= INT_MAX && exists x: nat :: x < dev.length && Coordinates(dev, x) == (c, h, s)
    ensures Located(dev, c, h, s).Accepted? ==>
      var x := Located(dev, c, h, s).sector;
      0 <= x < dev.length && Coordinates(dev, x) == (c, h, s) && Located(dev, c, h, s).range == Geom(x, x)
  {
    var sector := SectorOf(dev, c, h, s);
    AcceptedIff(dev, c, h, s);
    hide Located, SectorOf, Coordinates;
    if h < dev.heads && s < dev.sectors {
      HasCoordinates(dev, sector, c, h, s);
    }
    forall x: nat | Coordinates(dev, x) == (c, h, s)
      ensures h < dev.heads && s < dev.sectors && x == sector
    {
      CoordinatesFit(dev, x);
      HasCoordinates(dev, x, c, h, s);
    }
  }

  function SectorOf(dev: Device, c: nat, h: nat, s: nat): (x: nat)
    requires dev.Valid()
    ensures x == c * (dev.heads * dev.sectors) + h * dev.sectors + s
  {
    TimesNatural(dev.heads, dev.sectors);
    TimesNatural(c, dev.heads * dev.sectors);
    TimesNatural(h, dev.sectors);
    c * (dev.heads * dev.sectors) + h * dev.sectors + s
  }

  lemma AcceptedIff(dev: Device, c: nat, h: nat, s: nat)
    requires dev.Valid()
    ensures Located(dev, c, h, s).Accepted? <==>
      c <= INT_MAX && h < dev.heads && s < dev.sectors && SectorOf(dev, c, h, s) < dev.length
    ensures Located(dev, c, h, s).Accepted? ==>
      Located(dev, c, h, s) == Accepted(SectorOf(dev, c, h, s), Geom(SectorOf(dev, c, h, s), SectorOf(dev, c, h, s)))
  {
    TimesAtLeast(dev.heads, dev.sectors);
    TimesAtLeast(dev.sectors, dev.heads);
  }

  lemma HasCoordinates(dev: Device, x: nat, c: nat, h: nat, s: nat)
    requires dev.Valid() && h < dev.heads && s < dev.sectors
    ensures x == SectorOf(dev, c, h, s) <==> Coordinates(dev, x) == (c, h, s)
  {
    Decomposed(dev, x, c, h, s);
    hide SectorOf;
  }

  /** Cylinder, head and sector of a sector. */
  function Coordinates(dev: Device, x: int): (int, int, int)
    requires dev.Valid()
  {
    (x / dev.sectors / dev.heads, (x / dev.sectors) % dev.heads, x % dev.sectors)
  }

  lemma CoordinatesFit(dev: Device, x: int)
    requires dev.Valid()
    ensures Coordinates(dev, x).1 < dev.heads && Coordinates(dev, x).2 < dev.sectors
  {
    RemainderFits(x, dev.sectors);
    RemainderFits(x / dev.sectors, dev.heads);
  }

  // ----- Ranges -----

  /** clip. */
  function Clip(dev: Device, sector: int): int {
    if sector < 0 then 0 else if sector > dev.length - 1 then dev.length - 1 else sector
  }

  /** geometry_from_centre_radius: what the device has of the range around a
      sector. */
  method GeometryFromCentreRadius(dev: Device, sector: int, radius: nat) returns (r: Option<Geom>)
    requires dev.length > 0
    ensures r == Intersect(Geom(sector - radius, sector + radius), Geom(0, dev.length - 1))
  {
    var start, end := Clip(dev, sector - radius), Clip(dev, sector + radius);
    if sector - end > radius || start - sector > radius {
      return None;
    }
    return Some(Geom(start, end));
  }
}
