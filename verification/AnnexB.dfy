/**
 * Splitting an H.264 byte stream (Annex B of ITU-T H.264) into NAL units, and those into
 * access units.
 */
module AnnexB {

  type byte = bv8
  type Nal = seq<byte>

  // ---------------------------------------------------------------- the scan, on values

  /** A three-byte start code. */
  predicate CodeAt(b: seq<byte>, i: nat) {
    i + 2 < |b| && b[i] == 0 && b[i + 1] == 0 && b[i + 2] == 1
  }

  /** A start code of either length, which ends the NAL before it. */
  predicate EndAt(b: seq<byte>, k: nat) {
    && k + 2 < |b| && b[k] == 0 && b[k + 1] == 0
    && (b[k + 2] == 1 || (b[k + 2] == 0 && k + 3 < |b| && b[k + 3] == 1))
  }

  /** Where NALs begin: just after each start code that something follows. */
  function Starts(b: seq<byte>, i: nat): seq<nat>
    decreases |b| - i
  {
    if i + 3 >= |b| then []
    else if CodeAt(b, i) then [i + 3] + Starts(b, i + 3)
    else Starts(b, i + 1)
  }

  /** The first start code at or after `k`, or the end of the stream. */
  function NextCode(b: seq<byte>, k: nat): (e: nat)
    requires k <= |b|
    ensures k <= e <= |b|
    decreases |b| - k
  {
    if k + 2 >= |b| then |b| else if EndAt(b, k) then k else NextCode(b, k + 1)
  }

  /** `to` without the zero bytes before it, as far as `from`. */
  function TrimZeros(b: seq<byte>, from: nat, to: nat): (t: nat)
    requires from <= to <= |b|
    ensures from <= t <= to
  {
    if to > from && b[to - 1] == 0 then TrimZeros(b, from, to - 1) else to
  }

  function NalEnd(b: seq<byte>, from: nat): (t: nat)
    requires from < |b|
    ensures from <= t <= |b|
  {
    var e := NextCode(b, from + 1);
    if e < |b| then TrimZeros(b, from, e) else |b|
  }

  /** The NAL that begins here, unless nothing or nothing but padding does. */
  function NalFrom(b: seq<byte>, from: nat): seq<Nal> {
    if from >= |b| || NalEnd(b, from) == from then [] else [b[from..NalEnd(b, from)]]
  }

  /** The NALs that begin at these starts. */
  function NalsFrom(b: seq<byte>, starts: seq<nat>): seq<Nal> {
    if starts == [] then []
    else NalsFrom(b, starts[..|starts| - 1]) + NalFrom(b, starts[|starts| - 1])
  }

  lemma {:induction false} StartsInside(b: seq<byte>, i: nat)
    ensures forall n :: 0 <= n < |Starts(b, i)| ==> i < Starts(b, i)[n] < |b|
    decreases |b| - i
  {
    if i + 3 >= |b| {
    } else {
      StartsInside(b, if CodeAt(b, i) then i + 3 else i + 1);
    }
  }

  function Nals(b: seq<byte>): seq<Nal> {
    NalsFrom(b, Starts(b, 0))
  }

  function NalType(nal: Nal): byte
    requires nal != []
  {
    nal[0] & 0x1f
  }

  /** An SPS, or a slice whose header's first bit says it is the first of its frame. */
  predicate StartsUnit(nal: Nal) {
    && nal != []
    && (|| NalType(nal) == 7
        || ((NalType(nal) == 1 || NalType(nal) == 5) && |nal| >= 2 && nal[1] & 0x80 != 0))
  }

  /** Which of the first `n` NALs start an access unit. */
  function UnitStarts(nals: seq<Nal>, n: nat): seq<nat>
    requires n <= |nals|
  {
    if n == 0 then [] else UnitStarts(nals, n - 1) + if StartsUnit(nals[n - 1]) then [n - 1] else []
  }

  function AccessUnitStarts(nals: seq<Nal>): seq<nat> {
    var u := UnitStarts(nals, |nals|);
    if u == [] || u[0] != 0 then [0] + u else u
  }

  // ---------------------------------------------------------------- the parser

  method ParseAnnexB(bytes: seq<byte>) returns (nals: seq<Nal>, accessUnitStarts: seq<nat>)
    ensures nals == Nals(bytes)
    ensures accessUnitStarts == AccessUnitStarts(nals)
  {
    var starts := FindStarts(bytes);
    StartsInside(bytes, 0);
    nals := [];
    for n := 0 to |starts|
      invariant nals == NalsFrom(bytes, starts[..n])
    {
      var from := starts[n];
      var to := FindEnd(bytes, from);
      var data := bytes[from..to];
      assert starts[..n + 1][..n] == starts[..n];
      if |data| == 0 {
        continue;
      }
      nals := nals + [data];
    }
    assert starts[..|starts|] == starts;
    accessUnitStarts := FindUnits(nals);
  }

  /** Where NALs begin. */
  method FindStarts(bytes: seq<byte>) returns (starts: seq<nat>)
    ensures starts == Starts(bytes, 0)
  {
    starts := [];
    var i := 0;
    while i < |bytes| - 3
      invariant 0 <= i
      invariant Starts(bytes, 0) == starts + Starts(bytes, i)
    {
      if bytes[i] == 0 && bytes[i + 1] == 0 && bytes[i + 2] == 1 {
        starts := starts + [i + 3];
        i := i + 3;
        continue;
      }
      i := i + 1;
    }
  }

  /** Which NALs start an access unit, the first always. */
  method FindUnits(nals: seq<Nal>) returns (starts: seq<nat>)
    ensures starts == AccessUnitStarts(nals)
  {
    starts := [];
    for j := 0 to |nals|
      invariant starts == UnitStarts(nals, j)
    {
      if |nals[j]| == 0 {
        continue;
      }
      var nalType := NalType(nals[j]);
      if nalType == 7 {
        starts := starts + [j];
        continue;
      }
      if nalType != 1 && nalType != 5 {
        continue;
      }
      if |nals[j]| < 2 {
        continue;
      }
      if nals[j][1] & 0x80 != 0 {
        starts := starts + [j];
      }
    }
    if |starts| == 0 || starts[0] != 0 {
      starts := [0] + starts;
    }
  }

  /** Where the NAL that begins at `from` ends. */
  method FindEnd(bytes: seq<byte>, from: nat) returns (to: nat)
    requires from < |bytes|
    ensures to == NalEnd(bytes, from)
  {
    to := |bytes|;
    var k := from + 1;
    while k < |bytes| - 2
      invariant from + 1 <= k <= |bytes|
      invariant NextCode(bytes, from + 1) == NextCode(bytes, k)
    {
      if bytes[k] == 0 && bytes[k + 1] == 0
         && (bytes[k + 2] == 1 || (bytes[k + 2] == 0 && k + 3 < |bytes| && bytes[k + 3] == 1)) {
        to := k;
        while to > from && bytes[to - 1] == 0
          invariant from <= to <= k
          invariant TrimZeros(bytes, from, k) == TrimZeros(bytes, from, to)
        {
          to := to - 1;
        }
        return;
      }
      k := k + 1;
    }
  }

  // ---------------------------------------------------------------- round trip

  /** A NAL a framing can carry: not empty, no start code inside, no zero at the end. */
  predicate Carriable(nal: Nal) {
    nal != [] && nal[|nal| - 1] != 0 && forall i :: 0 <= i < |nal| ==> !CodeAt(nal, i)
  }

  function Code(long: bool): seq<byte> {
    if long then [0, 0, 0, 1] else [0, 0, 1]
  }

  /** NALs framed one after another, each with a start code of the given length. */
  function Framed(nals: seq<Nal>, long: seq<bool>): seq<byte>
    requires |nals| == |long|
  {
    if nals == [] then [] else Code(long[0]) + nals[0] + Framed(nals[1..], long[1..])
  }

  /** A carriable NAL lies in `b` from `s` to `e`, and the stream or the next start code follows. */
  predicate NalAt(b: seq<byte>, s: nat, e: nat) {
    s < e <= |b| && Carriable(b[s..e]) && (e < |b| ==> EndAt(b, e))
  }

  lemma NoShortCodeInside(b: seq<byte>, s: nat, e: nat, i: nat)
    requires NalAt(b, s, e) && s <= i < e
    ensures !CodeAt(b, i)
  {
    var nal := b[s..e];
    assert b[e - 1] == nal[|nal| - 1];
    assert !CodeAt(nal, i - s);
    if i + 2 < e {
      assert b[i] == nal[i - s] && b[i + 1] == nal[i - s + 1] && b[i + 2] == nal[i - s + 2];
    }
  }

  lemma NoCodeInside(b: seq<byte>, s: nat, e: nat, i: nat)
    requires NalAt(b, s, e) && s <= i < e
    ensures !CodeAt(b, i) && !EndAt(b, i)
  {
    NoShortCodeInside(b, s, e, i);
    if i + 1 < e {
      NoShortCodeInside(b, s, e, i + 1);
    } else {
      assert b[i] == b[s..e][i - s];
    }
  }

  lemma {:induction false} ScanPastNal(b: seq<byte>, s: nat, e: nat, i: nat)
    requires NalAt(b, s, e) && s <= i <= e
    ensures Starts(b, i) == Starts(b, e)
    decreases e - i
  {
    if i == e {
    } else {
      NoCodeInside(b, s, e, i);
      ScanPastNal(b, s, e, i + 1);
    }
  }

  lemma {:induction false} EndOfNal(b: seq<byte>, s: nat, e: nat, k: nat)
    requires NalAt(b, s, e) && s < k <= e
    ensures NextCode(b, k) == e
    decreases e - k
  {
    if k == e {
    } else {
      NoCodeInside(b, s, e, k);
      EndOfNal(b, s, e, k + 1);
    }
  }

  lemma FoundNal(b: seq<byte>, s: nat, e: nat)
    requires NalAt(b, s, e)
    ensures NalEnd(b, s) == e
  {
    EndOfNal(b, s, e, s + 1);
    assert b[e - 1] == b[s..e][e - s - 1];
  }

  /** At a start code the scan notes the NAL after it. */
  lemma ScanCode(b: seq<byte>, o: nat, long: bool)
    requires o + |Code(long)| < |b| && b[o..o + |Code(long)|] == Code(long)
    ensures Starts(b, o) == [o + |Code(long)|] + Starts(b, o + |Code(long)|)
    ensures EndAt(b, o)
  {
  }

  /** The same starts, without the last and with it. */
  lemma OneMoreStart(b: seq<byte>, starts: seq<nat>, all: seq<nat>)
    requires all != [] && all[..|all| - 1] == starts
    ensures NalsFrom(b, all) == NalsFrom(b, starts) + NalFrom(b, all[|all| - 1])
  {
  }

  lemma Regrouped(x: seq<Nal>, y: seq<Nal>, z: seq<Nal>)
    ensures (x + y) + z == x + (y + z)
  {
  }

  lemma {:induction false} NalsFromAppend(b: seq<byte>, xs: seq<nat>, ys: seq<nat>)
    ensures NalsFrom(b, xs + ys) == NalsFrom(b, xs) + NalsFrom(b, ys)
    decreases |ys|
  {
    if ys == [] {
      assert xs + ys == xs;
    } else {
      var init, all := ys[..|ys| - 1], xs + ys;
      NalsFromAppend(b, xs, init);
      OneMoreStart(b, init, ys);
      OneMoreStart(b, xs + init, all);
      Regrouped(NalsFrom(b, xs), NalsFrom(b, init), NalFrom(b, ys[|ys| - 1]));
    }
  }

  /** From `o` on the parser finds these NALs, and if there are any, a start code first. */
  predicate ParsesTo(b: seq<byte>, o: nat, nals: seq<Nal>) {
    NalsFrom(b, Starts(b, o)) == nals && (nals != [] ==> EndAt(b, o))
  }

  /** A start code from `o` to `s`, and this NAL from there to `e`. */
  predicate HeadAt(b: seq<byte>, o: nat, s: nat, e: nat, nal: Nal, long: bool) {
    s == o + |Code(long)| <= e <= |b| && b[o..s] == Code(long) && b[s..e] == nal
  }

  /** A framing is its first start code, its first NAL, and the framing of the rest. */
  lemma FramedHead(b: seq<byte>, o: nat, nals: seq<Nal>, long: seq<bool>) returns (s: nat, e: nat)
    requires |nals| == |long| && o <= |b| && b[o..] == Framed(nals, long) && nals != []
    ensures HeadAt(b, o, s, e, nals[0], long[0]) && b[e..] == Framed(nals[1..], long[1..])
    ensures e < |b| ==> nals[1..] != []
  {
    s := o + |Code(long[0])|;
    e := s + |nals[0]|;
    Pieces(b, o, Code(long[0]), nals[0], Framed(nals[1..], long[1..]));
  }

  lemma OneStart(b: seq<byte>, from: nat)
    ensures NalsFrom(b, [from]) == NalFrom(b, from)
  {
    assert [from][..0] == [];
  }

  lemma NalIsFound(b: seq<byte>, s: nat, e: nat)
    requires NalAt(b, s, e)
    ensures NalsFrom(b, [s]) == [b[s..e]]
  {
    FoundNal(b, s, e);
    OneStart(b, s);
  }

  lemma StartsPastOne(b: seq<byte>, o: nat, s: nat, e: nat, nal: Nal, long: bool)
    requires HeadAt(b, o, s, e, nal, long) && NalAt(b, s, e)
    ensures Starts(b, o) == [s] + Starts(b, e) && EndAt(b, o)
  {
    ScanCode(b, o, long);
    ScanPastNal(b, s, e, s);
  }

  lemma OneFramed(b: seq<byte>, o: nat, s: nat, e: nat, nal: Nal, long: bool, rest: seq<Nal>)
    requires HeadAt(b, o, s, e, nal, long) && Carriable(nal)
    requires (e < |b| ==> rest != []) && ParsesTo(b, e, rest)
    ensures ParsesTo(b, o, [nal] + rest)
  {
    StartsPastOne(b, o, s, e, nal, long);
    NalIsFound(b, s, e);
    NalsFromAppend(b, [s], Starts(b, e));
  }

  lemma Pieces(b: seq<byte>, o: nat, x: seq<byte>, y: seq<byte>, z: seq<byte>)
    requires o <= |b| && b[o..] == x + y + z
    ensures |b| == o + |x| + |y| + |z|
    ensures b[o..o + |x|] == x && b[o + |x|..o + |x| + |y|] == y && b[o + |x| + |y|..] == z
  {
  }

  /** The stream from `o` on is a framing of these NALs. */
  lemma {:induction false} ParseFramedFrom(b: seq<byte>, o: nat, nals: seq<Nal>, long: seq<bool>)
    requires |nals| == |long| && o <= |b| && b[o..] == Framed(nals, long)
    requires forall i :: 0 <= i < |nals| ==> Carriable(nals[i])
    ensures ParsesTo(b, o, nals)
    decreases |nals|
  {
    if nals == [] {
    } else {
      var s, e := FramedHead(b, o, nals, long);
      ParseFramedFrom(b, e, nals[1..], long[1..]);
      OneFramed(b, o, s, e, nals[0], long[0], nals[1..]);
      assert [nals[0]] + nals[1..] == nals;
    }
  }

  /** Whatever mix of start codes frames them, the parser gives back exactly the NALs framed. */
  lemma FramingRoundTrip(nals: seq<Nal>, long: seq<bool>)
    requires |nals| == |long|
    requires forall i :: 0 <= i < |nals| ==> Carriable(nals[i])
    ensures Nals(Framed(nals, long)) == nals
  {
    var b := Framed(nals, long);
    assert b[0..] == b;
    ParseFramedFrom(b, 0, nals, long);
  }

  // ---------------------------------------------------------------- what cannot be carried

  /** Something parsed out of `b`, from `from` on. */
  predicate IsParsed(b: seq<byte>, nal: Nal, from: nat) {
    from < |b| && nal != [] && nal == b[from..NalEnd(b, from)]
  }

  lemma {:induction false} ParsedFrom(b: seq<byte>, starts: seq<nat>, j: nat) returns (n: nat)
    requires j < |NalsFrom(b, starts)|
    ensures n < |starts| && IsParsed(b, NalsFrom(b, starts)[j], starts[n])
  {
    var init := starts[..|starts| - 1];
    if j < |NalsFrom(b, init)| {
      n := ParsedFrom(b, init, j);
    } else {
      n := |starts| - 1;
    }
  }

  lemma {:induction false} NextCodeIsFirst(b: seq<byte>, k: nat, j: nat)
    requires k <= j && EndAt(b, j)
    ensures NextCode(b, k) <= j
    decreases j - k
  {
    if k == j {
    } else {
      NextCodeIsFirst(b, k + 1, j);
    }
  }

  lemma {:induction false} TrimEndsNonzero(b: seq<byte>, from: nat, end: nat)
    requires from <= end <= |b|
    ensures TrimZeros(b, from, end) > from ==> b[TrimZeros(b, from, end) - 1] != 0
    decreases end
  {
    if end == from || b[end - 1] != 0 {
    } else {
      TrimEndsNonzero(b, from, end - 1);
    }
  }

  /** What is parsed has no start code but at its beginning, and ends with a zero only if the stream does. */
  lemma ParsedIsNearlyCarriable(b: seq<byte>, nal: Nal, from: nat, i: nat)
    requires IsParsed(b, nal, from) && b[|b| - 1] != 0
    ensures nal[|nal| - 1] != 0
    ensures 0 < i < |nal| ==> !CodeAt(nal, i)
  {
    var e := NalEnd(b, from);
    assert nal[|nal| - 1] == b[e - 1];
    TrimEndsNonzero(b, from, NextCode(b, from + 1));
    if 0 < i < |nal| && CodeAt(nal, i) {
      assert b[from + i] == nal[i] && b[from + i + 1] == nal[i + 1] && b[from + i + 2] == nal[i + 2];
      NextCodeIsFirst(b, from + 1, from + i);
      assert false;
    }
  }

  /** A code that something follows is found by the scan, from wherever before it that starts. */
  lemma {:induction false} CodeIsFound(b: seq<byte>, i: nat, p: nat) returns (n: nat)
    requires i <= p && CodeAt(b, p) && p + 3 < |b|
    ensures n < |Starts(b, i)| && Starts(b, i)[n] == p + 3
    decreases p - i
  {
    if i == p {
      n := 0;
    } else if CodeAt(b, i) {
      n := CodeIsFound(b, i + 3, p);
      n := n + 1;
    } else {
      n := CodeIsFound(b, i + 1, p);
    }
  }

  lemma {:induction false} SomethingParsed(b: seq<byte>, starts: seq<nat>, n: nat)
    requires n < |starts| && starts[n] < |b| && NalEnd(b, starts[n]) > starts[n]
    ensures NalsFrom(b, starts) != []
  {
    if n == |starts| - 1 {
    } else {
      SomethingParsed(b, starts[..|starts| - 1], n);
    }
  }


  /** A NAL, and one more to follow it. */
  const NEXT: Nal := [0x41]

  function Followed(nal: Nal): seq<byte> {
    [0, 0, 1] + nal + [0, 0, 1] + NEXT
  }

  lemma FollowedIsFramed(nal: Nal)
    ensures Followed(nal) == Framed([nal, NEXT], [false, false])
  {
    assert [nal, NEXT][1..] == [NEXT] && [false, false][1..] == [false];
    assert Framed([NEXT], [false]) == [0, 0, 1] + NEXT + Framed([], []);
  }

  lemma FollowedParts(nal: Nal)
    ensures var b := Followed(nal);
            && |b| == |nal| + 7 && b[|b| - 1] == 0x41
            && (forall i :: 0 <= i < |nal| ==> b[3 + i] == nal[i])
            && CodeAt(b, 0) && CodeAt(b, |nal| + 3) && EndAt(b, |nal| + 3)
  {
    var b := Followed(nal);
    assert b[|nal| + 3] == 0 && b[|nal| + 4] == 0 && b[|nal| + 5] == 1;
  }

  /** An empty NAL, one that ends in a zero, or one with a start code further in is not parsed from there. */
  lemma NotParsedBack(nal: Nal, i: nat)
    requires nal == [] || nal[|nal| - 1] == 0 || (0 < i < |nal| && CodeAt(nal, i))
    ensures Nals(Followed(nal)) != [nal, NEXT]
  {
    var b := Followed(nal);
    FollowedParts(nal);
    if Nals(b) == [nal, NEXT] {
      var n := ParsedFrom(b, Starts(b, 0), 0);
      ParsedIsNearlyCarriable(b, nal, Starts(b, 0)[n], i);
      assert false;
    }
  }

  /** A start code at the beginning makes a NAL of its own, and of what is after it another. */
  predicate BeginsWithCode(nal: Nal) {
    nal != [] && nal[|nal| - 1] != 0 && CodeAt(nal, 0) && forall i :: 0 < i < |nal| ==> !CodeAt(nal, i)
  }

  lemma {:induction false} NoEndBefore(b: seq<byte>, k: nat, e: nat)
    requires k <= e <= |b| && forall i :: k <= i < e ==> !EndAt(b, i)
    ensures NextCode(b, k) >= e
    decreases e - k
  {
    if k == e {
    } else {
      NoEndBefore(b, k + 1, e);
    }
  }

  lemma {:induction false} TrimStops(b: seq<byte>, from: nat, end: nat, at: nat)
    requires from <= at < end <= |b| && b[at] != 0
    ensures TrimZeros(b, from, end) > at
    decreases end
  {
    if b[end - 1] != 0 {
    } else {
      TrimStops(b, from, end - 1, at);
    }
  }

  /** A NAL parsed from `from` reaches beyond a byte that is not zero, if no start code comes before it. */
  lemma ParsedReaches(b: seq<byte>, from: nat, at: nat)
    requires from <= at < |b| && b[at] != 0 && forall i :: from < i <= at ==> !EndAt(b, i)
    ensures NalEnd(b, from) > at
  {
    NoEndBefore(b, from + 1, at + 1);
    TrimStops(b, from, if NextCode(b, from + 1) < |b| then NextCode(b, from + 1) else |b|, at);
  }

  lemma NoEndInside(nal: Nal, i: nat)
    requires BeginsWithCode(nal) && 3 < i < |nal| + 3
    ensures !EndAt(Followed(nal), i)
  {
    var b := Followed(nal);
    FollowedParts(nal);
    if EndAt(b, i) {
      assert b[|nal| + 2] == nal[|nal| - 1];
      var j := if b[i + 2] == 1 then i else i + 1;
      assert CodeAt(b, j);
      if j + 2 < |nal| + 3 {
        assert b[j] == nal[j - 3] && b[j + 1] == nal[j - 2] && b[j + 2] == nal[j - 1];
        assert CodeAt(nal, j - 3);
      }
      assert false;
    }
  }

  lemma SecondReaches(nal: Nal)
    requires BeginsWithCode(nal)
    ensures NalEnd(Followed(nal), 3) > 3 && NalEnd(Followed(nal), 6) > 6
  {
    var b := Followed(nal);
    FollowedParts(nal);
    assert b[5] == nal[2];
    forall i | 3 < i < |nal| + 3
      ensures !EndAt(b, i)
    {
      NoEndInside(nal, i);
    }
    ParsedReaches(b, 3, 5);
    if |nal| == 3 {
      assert b[8] == 1;
      ParsedReaches(b, 6, 8);
    } else {
      assert b[|nal| + 2] == nal[|nal| - 1];
      ParsedReaches(b, 6, |nal| + 2);
    }
  }

  lemma StartsOfFollowed(nal: Nal)
    requires BeginsWithCode(nal)
    ensures Starts(Followed(nal), 0) == [3] + ([6] + Starts(Followed(nal), 6))
  {
    var b := Followed(nal);
    FollowedParts(nal);
    assert b[3] == nal[0] && b[4] == nal[1] && b[5] == nal[2];
    assert CodeAt(b, 3);
  }

  lemma CodeAtStartSplits(nal: Nal)
    requires BeginsWithCode(nal)
    ensures |Nals(Followed(nal))| >= 3
  {
    var b := Followed(nal);
    FollowedParts(nal);
    StartsOfFollowed(nal);
    SecondReaches(nal);
    var n := CodeIsFound(b, 6, |nal| + 3);
    SomethingParsed(b, Starts(b, 6), n);
    NalsFromAppend(b, [3], [6] + Starts(b, 6));
    NalsFromAppend(b, [6], Starts(b, 6));
    OneStart(b, 3);
    OneStart(b, 6);
  }

  /** However both are framed, a NAL and the next come back. */
  ghost predicate IsCarried(nal: Nal) {
    forall a: bool, b: bool :: Nals(Framed([nal, NEXT], [a, b])) == [nal, NEXT]
  }

  /** The NALs that framing carries are exactly the carriable ones. */
  lemma CarriedIffCarriable(nal: Nal)
    ensures IsCarried(nal) <==> Carriable(nal)
  {
    if Carriable(nal) {
      forall a: bool, b: bool
        ensures Nals(Framed([nal, NEXT], [a, b])) == [nal, NEXT]
      {
        FramingRoundTrip([nal, NEXT], [a, b]);
      }
    } else {
      FollowedIsFramed(nal);
      NotCarriable(nal);
    }
  }

  lemma NotCarriable(nal: Nal)
    requires !Carriable(nal)
    ensures Nals(Followed(nal)) != [nal, NEXT]
  {
    if BeginsWithCode(nal) {
      CodeAtStartSplits(nal);
    } else if nal == [] || nal[|nal| - 1] == 0 {
      NotParsedBack(nal, 0);
    } else {
      var i :| 0 < i < |nal| && CodeAt(nal, i);
      NotParsedBack(nal, i);
    }
  }

  // ---------------------------------------------------------------- access units

  predicate Increasing(xs: seq<nat>) {
    forall i, j :: 0 <= i < j < |xs| ==> xs[i] < xs[j]
  }

  predicate IncreasingBelow(xs: seq<nat>, n: nat) {
    Increasing(xs) && forall i :: 0 <= i < |xs| ==> xs[i] < n
  }

  lemma {:induction false} UnitStartsOrdered(nals: seq<Nal>, n: nat)
    requires n <= |nals|
    ensures IncreasingBelow(UnitStarts(nals, n), n)
  {
    if n == 0 {
    } else {
      UnitStartsOrdered(nals, n - 1);
    }
  }

  /** A NAL is among them exactly if it starts an access unit. */
  lemma {:induction false} UnitStartsMark(nals: seq<Nal>, n: nat, j: nat)
    requires n <= |nals|
    ensures j in UnitStarts(nals, n) <==> j < n && StartsUnit(nals[j])
    decreases n
  {
    if n == 0 {
    } else {
      UnitStartsMark(nals, n - 1, j);
    }
  }

  /** Access units start at 0 and then exactly where a NAL says so, in order. */
  lemma UnitsAreOrdered(nals: seq<Nal>)
    ensures var u := AccessUnitStarts(nals);
            && u != [] && u[0] == 0 && Increasing(u)
            && (forall i :: 0 < i < |u| ==> u[i] < |nals|)
            && (forall j :: 0 < j < |nals| ==> (j in u <==> StartsUnit(nals[j])))
  {
    UnitStartsOrdered(nals, |nals|);
    FromZero(UnitStarts(nals, |nals|), |nals|);
    forall j | 0 < j < |nals|
      ensures j in AccessUnitStarts(nals) <==> StartsUnit(nals[j])
    {
      UnitStartsMark(nals, |nals|, j);
      AlsoAfterZero(UnitStarts(nals, |nals|), j);
    }
  }

  lemma FromZero(u: seq<nat>, n: nat)
    requires IncreasingBelow(u, n)
    ensures var w := if |u| == 0 || u[0] != 0 then [0] + u else u;
            w != [] && w[0] == 0 && Increasing(w) && forall i :: 0 < i < |w| ==> w[i] < n
  {
  }

  lemma AlsoAfterZero(u: seq<nat>, j: nat)
    requires j > 0
    ensures j in [0] + u <==> j in u
  {
  }

  /** Where access unit `i` ends: where the next one starts. */
  function UnitEnd(nals: seq<Nal>, u: seq<nat>, i: nat): nat
    requires i < |u|
  {
    if i + 1 < |u| then u[i + 1] else |nals|
  }

  predicate Partitions(nals: seq<Nal>, u: seq<nat>) {
    && u != [] && u[0] == 0
    && forall i :: 0 <= i < |u| ==> u[i] <= UnitEnd(nals, u, i) <= |nals|
  }

  /** The NALs of access unit `i`. */
  function Unit(nals: seq<Nal>, u: seq<nat>, i: nat): seq<Nal>
    requires Partitions(nals, u) && i < |u|
  {
    nals[u[i]..UnitEnd(nals, u, i)]
  }

  function Units(nals: seq<Nal>, u: seq<nat>, n: nat): seq<Nal>
    requires Partitions(nals, u) && n <= |u|
  {
    if n == 0 then [] else Units(nals, u, n - 1) + Unit(nals, u, n - 1)
  }

  lemma {:induction false} UnitsPrefix(nals: seq<Nal>, u: seq<nat>, n: nat)
    requires Partitions(nals, u) && 0 < n <= |u|
    ensures UnitEnd(nals, u, n - 1) <= |nals| && Units(nals, u, n) == nals[..UnitEnd(nals, u, n - 1)]
  {
    if n <= 1 {
    } else {
      UnitsPrefix(nals, u, n - 1);
    }
  }

  /** The access units, one after another, are the NALs: none is lost, doubled or moved. */
  lemma UnitsCoverTheStream(nals: seq<Nal>)
    ensures var u := AccessUnitStarts(nals);
            Partitions(nals, u) && Units(nals, u, |u|) == nals
  {
    UnitsAreOrdered(nals);
    UnitsPrefix(nals, AccessUnitStarts(nals), |AccessUnitStarts(nals)|);
  }
}
