// lib/uuid: reading and writing the text form of UUIDs (sections 3 and 4.1.2
// of RFC 4122).

module Uuid {
  import opened Characters

  /** Where the two digits of byte i stand in the text. */
  function Place(i: nat): (p: nat)
    requires i < 16
    ensures p + 1 < 36 && !IsDash(p) && !IsDash(p + 1)
  {
    2 * i + if i < 4 then 0 else if i < 6 then 1 else if i < 8 then 2 else if i < 10 then 3 else 4
  }

  predicate IsDash(p: nat) {
    p == 8 || p == 13 || p == 18 || p == 23
  }

  predicate IsBytes(b: seq<nat>) {
    |b| == 16 && forall i :: 0 <= i < 16 ==> b[i] < 256
  }

  /** The accepted texts. */
  predicate IsText(s: string) {
    |s| == 36 && forall p :: 0 <= p < 36 ==> if IsDash(p) then s[p] == '-' else Hex(s[p]) >= 0
  }

  /** Text and bytes belong together: the bytes are the pairs of digits, in order. */
  ghost predicate Denotes(s: string, b: seq<nat>) {
    && IsText(s) && IsBytes(b)
    && forall i :: 0 <= i < 16 ==> b[i] == 16 * Hex(s[Place(i)]) + Hex(s[Place(i) + 1])
  }

  // ----- Parsing -----

  /** The number the digits s[from..to] stand for. */
  function Number(s: string, from: nat, to: nat): nat
    requires from <= to <= |s| && forall p :: from <= p < to ==> Hex(s[p]) >= 0
  {
    if from == to then 0 else 16 * Number(s, from, to - 1) + Hex(s[to - 1])
  }

  /** strtoul (text, NULL, 16) from place from on. */
  method StrToUl(s: string, from: nat, ghost to: nat) returns (n: nat)
    requires from <= to <= |s| && (forall p :: from <= p < to ==> Hex(s[p]) >= 0)
    requires to == |s| || Hex(s[to]) < 0
    ensures n == Number(s, from, to)
  {
    n := 0;
    var p := from;
    while p < |s| && Hex(s[p]) >= 0
      invariant from <= p <= to && n == Number(s, from, p)
    {
      n := 16 * n + Hex(s[p]);
      p := p + 1;
    }
  }

  /** struct uuid. */
  datatype Fields = Fields(timeLow: nat, timeMid: nat, timeHiAndVersion: nat, clockSeq: nat, node: seq<nat>)

  /** n as count bytes, the most significant one first. */
  function BigEndian(n: nat, count: nat): (r: seq<nat>)
    ensures |r| == count
  {
    if count == 0 then [] else BigEndian(n / 256, count - 1) + [n % 256]
  }

  function Packed(u: Fields): seq<nat> {
    BigEndian(u.timeLow, 4) + BigEndian(u.timeMid, 2) + BigEndian(u.timeHiAndVersion, 2) + BigEndian(u.clockSeq,
        2) + u.node
  }

  /** The stores of uuid_pack for one field at out[at..at + count]. */
  method Store(n: nat, out: array<nat>, at: nat, count: nat)
    requires at + count <= out.Length
    modifies out
    ensures out[..] == old(out[..at]) + BigEndian(n, count) + old(out[at + count..])
  {
    var tmp: nat, k: nat := n, count;
    while k > 0
      invariant k <= count && out[..at] == old(out[..at]) && out[at + count..] == old(out[at + count..])
      invariant BigEndian(n, count) == BigEndian(tmp, k) + out[at + k..at + count]
    {
      k := k - 1;
      ghost var done := out[at + k + 1..at + count];
      out[at + k] := tmp % 256;
      assert out[at + k..at + count] == [tmp % 256] + done;
      assert BigEndian(tmp, k + 1) == BigEndian(tmp / 256, k) + [tmp % 256];
      tmp := tmp / 256;
    }
    assert out[at..at + count] == BigEndian(n, count);
    assert out[..] == out[..at] + out[at..at + count] + out[at + count..];
  }

  /** uuid_pack. */
  method Pack(u: Fields, out: array<nat>)
    requires out.Length == 16 && |u.node| == 6
    modifies out
    ensures out[..] == Packed(u)
  {
    hide BigEndian;
    Store(u.timeLow, out, 0, 4);
    Store(u.timeMid, out, 4, 2);
    Store(u.timeHiAndVersion, out, 6, 2);
    Store(u.clockSeq, out, 8, 2);
    forall i | 0 <= i < 6 {
      out[10 + i] := u.node[i];
    }
    assert out[10..] == u.node;
  }

  /** The last two digits of a number are its last byte. */
  lemma NumberByte(s: string, from: nat, to: nat)
    requires from + 2 <= to <= |s| && forall p :: from <= p < to ==> Hex(s[p]) >= 0
    ensures Number(s, from, to) % 256 == 16 * Hex(s[to - 2]) + Hex(s[to - 1])
    ensures Number(s, from, to) / 256 == Number(s, from, to - 2)
  {
    var n, x, y := Number(s, from, to - 2), Hex(s[to - 2]), Hex(s[to - 1]);
    assert Number(s, from, to - 1) == 16 * n + x;
    assert Number(s, from, to) == 16 * (16 * n + x) + y;
    hide Number, Hex;
    LastByte(n, 16 * x + y);
  }

  lemma LastByte(n: nat, r: nat)
    requires r < 256
    ensures (256 * n + r) % 256 == r && (256 * n + r) / 256 == n
  {
  }

  /** A field of count bytes holds its pairs of digits. */
  lemma {:induction false} FieldPairs(s: string, from: nat, count: nat)
    requires from + 2 * count <= |s| && forall p :: from <= p < from + 2 * count ==> Hex(s[p]) >= 0
    ensures HasPairs(s, from, BigEndian(Number(s, from, from + 2 * count), count))
  {
    hide Number, Hex;
    if count > 0 {
      var less := Number(s, from, from + 2 * (count - 1));
      FieldPairs(s, from, count - 1);
      NumberByte(s, from, from + 2 * count);
      assert from + 2 * count - 2 == from + 2 * (count - 1);
      assert BigEndian(Number(s, from, from + 2 * count), count)
          == BigEndian(less, count - 1) + [Number(s, from, from + 2 * count) % 256];
    }
  }

  /** uuid_parse_range on a whole string, and with it uuid_parse: it accepts
      exactly the texts of section 3, and then stores the bytes they denote. */
  method Parse(s: string, uu: array<nat>) returns (ok: bool)
    requires uu.Length == 16
    modifies uu
    ensures ok <==> IsText(s)
    ensures ok ==> Denotes(s, uu[..])
    ensures !ok ==> uu[..] == old(uu[..])
  {
    if |s| != 36 {
      return false;
    }
    ok := Check(s);
    if ok {
      Fill(s, uu);
    }
  }

  /** The validation loop. */
  method Check(s: string) returns (ok: bool)
    requires |s| == 36
    ensures ok <==> IsText(s)
  {
    for i := 0 to 36
      invariant forall p :: 0 <= p < i ==> if IsDash(p) then s[p] == '-' else Hex(s[p]) >= 0
    {
      if i == 8 || i == 13 || i == 18 || i == 23 {
        if s[i] == '-' {
          continue;
        }
        return false;
      }
      if Hex(s[i]) < 0 {
        return false;
      }
    }
    return true;
  }

  /** From the validated text to the bytes. */
  method Fill(s: string, uu: array<nat>)
    requires uu.Length == 16 && IsText(s)
    modifies uu
    ensures Denotes(s, uu[..])
  {
    hide Number, BigEndian, HasPairs;
    var low := StrToUl(s, 0, 8);
    var mid := StrToUl(s, 9, 13);
    var hi := StrToUl(s, 14, 18);
    var seq_ := StrToUl(s, 19, 23);
    var node := NodeBytes(s);
    Pack(Fields(low, mid, hi, seq_, node), uu);
    FieldPairs(s, 0, 4);
    FieldPairs(s, 9, 2);
    FieldPairs(s, 14, 2);
    FieldPairs(s, 19, 2);
    PackedDenotes(s, Fields(low, mid, hi, seq_, node));
  }

  /** The last six bytes, read two digits at a time. */
  method NodeBytes(s: string) returns (node: seq<nat>)
    requires IsText(s)
    ensures |node| == 6 && HasPairs(s, 24, node)
  {
    hide Number;
    node := [];
    for i := 0 to 6
      invariant |node| == i
      invariant forall k :: 0 <= k < i ==> node[k] == 16 * Hex(s[24 + 2 * k]) + Hex(s[24 + 2 * k + 1])
    {
      var buf := s[24 + 2 * i..26 + 2 * i];
      assert buf[0] == s[24 + 2 * i] && buf[1] == s[24 + 2 * i + 1];
      var n := StrToUl(buf, 0, 2);
      PairNumber(buf);
      node := node + [n];
    }
  }

  lemma PairNumber(buf: string)
    requires |buf| == 2 && Hex(buf[0]) >= 0 && Hex(buf[1]) >= 0
    ensures Number(buf, 0, 2) == 16 * Hex(buf[0]) + Hex(buf[1])
  {
    assert Number(buf, 0, 1) == Hex(buf[0]);
  }

  predicate HasPairs(s: string, from: nat, b: seq<nat>) {
    from + 2 * |b| <= |s| && forall i :: 0 <= i < |b| ==> b[i] == 16 * Hex(s[from + 2 * i]) + Hex(s[from + 2 * i + 1])
  }

  /** A part of the bytes, at place at, that holds the pairs from from on. */
  lemma PartDenotes(s: string, b: seq<nat>, at: nat, part: seq<nat>, from: nat)
    requires |b| == 16 && at + |part| <= 16 && b[at..at + |part|] == part && HasPairs(s, from, part) && |s| == 36
    requires forall i :: at <= i < at + |part| ==> Place(i) == from + 2 * (i - at)
    ensures forall i :: at <= i < at + |part| ==> b[i] == 16 * Hex(s[Place(i)]) + Hex(s[Place(i) + 1])
  {
    hide Hex, Place;
    assert forall i :: at <= i < at + |part| ==> b[i] == part[i - at];
  }

  lemma PackedDenotes(s: string, u: Fields)
    requires IsText(s) && |u.node| == 6 && HasPairs(s, 24, u.node)
    requires HasPairs(s, 0, BigEndian(u.timeLow, 4)) && HasPairs(s, 9, BigEndian(u.timeMid, 2))
    requires HasPairs(s, 14, BigEndian(u.timeHiAndVersion, 2)) && HasPairs(s, 19, BigEndian(u.clockSeq, 2))
    ensures Denotes(s, Packed(u))
  {
    hide BigEndian, HasPairs, Hex;
    var b := Packed(u);
    PartDenotes(s, b, 0, BigEndian(u.timeLow, 4), 0);
    PartDenotes(s, b, 4, BigEndian(u.timeMid, 2), 9);
    PartDenotes(s, b, 6, BigEndian(u.timeHiAndVersion, 2), 14);
    PartDenotes(s, b, 8, BigEndian(u.clockSeq, 2), 19);
    PartDenotes(s, b, 10, u.node, 24);
    PairsAreBytes(s, b);
  }

  lemma PairsAreBytes(s: string, b: seq<nat>)
    requires IsText(s) && |b| == 16
    requires forall i :: 0 <= i < 16 ==> b[i] == 16 * Hex(s[Place(i)]) + Hex(s[Place(i) + 1])
    ensures IsBytes(b)
  {
  }

  // ----- Unparsing -----

  /** What uuid_fmt writes for the bytes b. */
  ghost predicate IsFormatted(r: string, b: seq<nat>, upper: bool)
    requires IsBytes(b)
  {
    && |r| == 36
    && (forall p :: 0 <= p < 36 && IsDash(p) ==> r[p] == '-')
    && forall i :: 0 <= i < 16 ==>
        r[Place(i)] == HexDigit(b[i] / 16, upper) && r[Place(i) + 1] == HexDigit(b[i] % 16, upper)
  }

  /** uuid_fmt. */
  method Unparse(b: seq<nat>, upper: bool) returns (buf: string)
    requires IsBytes(b)
    ensures IsFormatted(buf, b, upper)
  {
    buf := "";
    for i := 0 to 16
      invariant |buf| == 2 * i
          + (if i <= 4 then 0 else if i <= 6 then 1 else if i <= 8 then 2 else if i <= 10 then 3 else 4)
      invariant forall p :: 0 <= p < |buf| && IsDash(p) ==> buf[p] == '-'
      invariant forall k :: 0 <= k < i ==>
        Place(k) + 1 < |buf| && buf[Place(k)] == HexDigit(b[k] / 16, upper)
            && buf[Place(k) + 1] == HexDigit(b[k] % 16, upper)
    {
      if i == 4 || i == 6 || i == 8 || i == 10 {
        buf := buf + "-";
      }
      buf := buf + [HexDigit(b[i] / 16, upper)];
      buf := buf + [HexDigit(b[i] % 16, upper)];
    }
  }

  lemma PlaceOf(p: nat) returns (i: nat)
    requires p < 36 && !IsDash(p)
    ensures i < 16 && (p == Place(i) || p == Place(i) + 1)
  {
    i := if p < 8 then p / 2 else if p < 13 then (p - 1) / 2 else if p < 18 then (p - 2) / 2
         else if p < 23 then (p - 3) / 2 else (p - 4) / 2;
  }

  /** Either form of any bytes is accepted, and denotes these bytes and no others. */
  lemma UnparseParses(b: seq<nat>, upper: bool, r: string)
    requires IsBytes(b) && IsFormatted(r, b, upper)
    ensures forall b': seq<nat> :: Denotes(r, b') <==> b' == b
  {
    forall p | 0 <= p < 36 && !IsDash(p)
      ensures Hex(r[p]) >= 0
    {
      var i := PlaceOf(p);
    }
    assert Denotes(r, b);
    forall b': seq<nat> | Denotes(r, b')
      ensures b' == b
    {
      assert forall i :: 0 <= i < 16 ==> b'[i] == b[i];
    }
  }

  /** The lower-case form of what an accepted text denotes is the text in lower case. */
  lemma ParseUnparses(s: string, b: seq<nat>, r: string)
    requires Denotes(s, b) && IsFormatted(r, b, false)
    ensures |r| == |s| && forall p :: 0 <= p < 36 ==> r[p] == Lower(s[p])
  {
    forall p | 0 <= p < 36
      ensures r[p] == Lower(s[p])
    {
      if !IsDash(p) {
        var i := PlaceOf(p);
        var x, y := Hex(s[Place(i)]), Hex(s[Place(i) + 1]);
        assert b[i] / 16 == x && b[i] % 16 == y;
      }
    }
  }
}
