/** The stream sender: access unit by access unit, counting sequence numbers and rollovers. */
module Sender {
  import opened Wrappers
  import opened PacketIndex
  import opened AnnexB
  import opened RtpPayloads
  import Tracking
  import PortSpec

  datatype Packet = Packet(roc: nat, sn: nat, payload: seq<byte>, marker: bool)

  /** The index after `index`, on the circle of 2^48. */
  function Successor(index: nat, n: nat): nat {
    (index + n) % INDEX_MODULO
  }

  /** The `i`-th packet a sender at `index` sends. */
  function PacketAt(index: nat, i: nat, piece: Piece, marker: bool): Packet {
    Packet(Roc(Successor(index, i)), Seq(Successor(index, i)), piece.payload, marker)
  }

  /** The packets a sender at `index` makes of these pieces; `endsUnit` marks the last. */
  function PacketsOf(index: nat, pieces: seq<Piece>, endsUnit: bool): seq<Packet> {
    if pieces == [] then []
    else
      var p := |pieces| - 1;
      PacketsOf(index, pieces[..p], false) + [PacketAt(index, p, pieces[p], endsUnit)]
  }

  /** The pieces of each NAL. */
  function Cut(nals: seq<Nal>): (cut: seq<seq<Piece>>)
    ensures |cut| == |nals|
  {
    if nals == [] then [] else Cut(nals[..|nals| - 1]) + [PiecesOf(nals[|nals| - 1])]
  }

  lemma {:induction false} CutAt(nals: seq<Nal>, n: nat)
    requires n < |nals|
    ensures Cut(nals)[n] == PiecesOf(nals[n])
  {
    if n == |nals| - 1 {
    } else {
      CutAt(nals[..|nals| - 1], n);
    }
  }

  /** What is in the lists from `from` up to `n`, one after another. */
  function Between<T>(xs: seq<seq<T>>, from: nat, n: nat): seq<T>
    requires from <= n <= |xs|
    decreases n
  {
    if n == from then [] else Between(xs, from, n - 1) + xs[n - 1]
  }

  class E2eSender {
    const nals: seq<Nal>
    const accessUnitStarts: seq<nat>
    ghost const cut: seq<seq<Piece>>
    var roc: nat
    var sn: nat

    predicate Ranged()
      reads this
    {
      roc < ROC_MODULO && sn < SEQ_MODULO
    }

    ghost predicate Valid()
      reads this
    {
      Ranged() && cut == Cut(nals) && Partitions(nals, accessUnitStarts)
    }

    function NextIndex(): nat
      reads this
    {
      Index(roc, sn)
    }

    constructor (bytes: seq<byte>, roc: nat, sn: nat)
      requires roc < ROC_MODULO && sn < SEQ_MODULO
      ensures Valid() && NextIndex() == Index(roc, sn) && nals == Nals(bytes)
      ensures accessUnitStarts == AccessUnitStarts(nals)
    {
      var parsed, starts := ParseAnnexB(bytes);
      UnitsCoverTheStream(parsed);
      this.nals, this.accessUnitStarts := parsed, starts;
      this.cut := Cut(parsed);
      this.roc, this.sn := roc, sn;
    }

    /** Advances the sequence number, and the rollover counter when that wraps. */
    method Advance()
      requires Ranged()
      modifies this
      ensures Ranged() && NextIndex() == Successor(old(NextIndex()), 1)
    {
      sn := (sn + 1) % SEQ_MODULO;
      if sn == 0 {
        roc := (roc + 1) % ROC_MODULO;
      }
    }

    /** Sends one NAL's pieces; `endsUnit` says it is the last of its access unit. */
    method SendPieces(pieces: seq<Piece>, endsUnit: bool) returns (packets: seq<Packet>)
      requires Ranged()
      modifies this
      ensures Ranged() && Sent(old(NextIndex()), packets, pieces, endsUnit, NextIndex())
    {
      packets := [];
      ghost var start := NextIndex();
      NoStep(roc, sn);
      assert pieces[..0] == [];
      for p := 0 to |pieces|
        invariant Ranged() && NextIndex() == Successor(start, p)
        invariant packets == PacketsOf(start, pieces[..p], endsUnit && p == |pieces|)
      {
        var isLastPacket := endsUnit && p == |pieces| - 1;
        IndexParts(roc, sn);
        packets := packets + [Packet(roc, sn, pieces[p].payload, isLastPacket)];
        assert pieces[..p + 1][..p] == pieces[..p];
        Advance();
        Onwards(start, p, 1);
      }
      assert pieces[..|pieces|] == pieces;
    }

    /** Sends NAL number `n`, after `packets` that carry those from `from` to it. */
    method SendNal(ghost start: nat, packets: seq<Packet>, ghost from: nat, n: nat, to: nat) returns (all: seq<Packet>)
      requires Valid() && from <= n < to <= |nals| && SentTo(start, packets, cut, from, n, to, NextIndex())
      modifies this
      ensures Valid() && SentTo(start, all, cut, from, n + 1, to, NextIndex())
    {
      var pieces := RtpPayloadsForNal(nals[n]);
      PiecesFit(nals[n]);
      CutAt(nals, n);
      var more := SendPieces(pieces, n == to - 1);
      SentJoin(start, packets, Between(cut, from, n), more, pieces, n == to - 1, NextIndex());
      all := packets + more;
    }

    /** Sends the NALs of one access unit. */
    method SendNals(from: nat, to: nat) returns (packets: seq<Packet>)
      requires Valid() && from <= to <= |nals|
      modifies this
      ensures Valid() && SentTo(old(NextIndex()), packets, cut, from, to, to, NextIndex())
    {
      ghost var start := NextIndex();
      packets := [];
      SentNothing(roc, sn, packets, cut, from, to);
      for n := from to to
        invariant Valid() && SentTo(start, packets, cut, from, n, to, NextIndex())
      {
        packets := SendNal(start, packets, from, n, to);
      }
    }

    /** Sends the access unit whose turn frame number `frame` is, round and round the stream. */
    method SendAccessUnit(frame: nat) returns (packets: seq<Packet>)
      requires Valid()
      modifies this
      ensures Valid()
      ensures Sent(old(NextIndex()), packets, PiecesOfAll(Unit(nals, accessUnitStarts, frame % |accessUnitStarts|)),
                   true, NextIndex())
    {
      var auIndex := frame % |accessUnitStarts|;
      var from := accessUnitStarts[auIndex];
      var to := UnitEnd(nals, accessUnitStarts, auIndex);
      packets := SendNals(from, to);
      BetweenIsAll(nals, from, to);
    }
  }

  /** These pieces sent from this index on, leaving the sender at `next`. */
  predicate Sent(start: nat, packets: seq<Packet>, pieces: seq<Piece>, endsUnit: bool, next: nat) {
    packets == PacketsOf(start, pieces, endsUnit) && next == Successor(start, |pieces|)
  }

  /** The NALs from `from` up to `n` sent, of an access unit that ends at `to`. */
  predicate SentTo(start: nat, packets: seq<Packet>, cut: seq<seq<Piece>>, from: nat, n: nat, to: nat, next: nat)
    requires from <= n <= |cut|
  {
    Sent(start, packets, Between(cut, from, n), n == to, next)
  }

  lemma SentNothing(roc: nat, sn: nat, none: seq<Packet>, cut: seq<seq<Piece>>, from: nat, to: nat)
    requires roc < ROC_MODULO && sn < SEQ_MODULO && from <= |cut| && none == []
    ensures SentTo(Index(roc, sn), none, cut, from, from, to, Index(roc, sn))
  {
    NoStep(roc, sn);
  }

  lemma SentJoin(start: nat, packets: seq<Packet>, xs: seq<Piece>, more: seq<Packet>, ys: seq<Piece>,
                 endsUnit: bool, next: nat)
    requires ys != []
    requires packets == PacketsOf(start, xs, false)
    requires Sent(Successor(start, |xs|), more, ys, endsUnit, next)
    ensures Sent(start, packets + more, xs + ys, endsUnit, next)
  {
    JoinPackets(start, xs, ys, endsUnit);
    Onwards(start, |xs|, |ys|);
  }

  lemma {:induction false} JoinPackets(start: nat, xs: seq<Piece>, ys: seq<Piece>, endsUnit: bool)
    requires ys != []
    ensures PacketsOf(start, xs, false) + PacketsOf(Successor(start, |xs|), ys, endsUnit)
         == PacketsOf(start, xs + ys, endsUnit)
    decreases |ys|
  {
    var p := |ys| - 1;
    assert (xs + ys)[..|xs| + p] == xs + ys[..p];
    Onwards(start, |xs|, p);
    if p == 0 {
      assert xs + ys[..p] == xs;
    } else {
      JoinPackets(start, xs, ys[..p], false);
    }
  }

  /** What each of these packets is. */
  lemma {:induction false} PacketOfPiece(index: nat, pieces: seq<Piece>, endsUnit: bool, i: nat)
    requires i < |pieces|
    ensures |PacketsOf(index, pieces, endsUnit)| == |pieces|
    ensures PacketsOf(index, pieces, endsUnit)[i] == PacketAt(index, i, pieces[i], endsUnit && i == |pieces| - 1)
    decreases |pieces|
  {
    var p := |pieces| - 1;
    if p == 0 {
    } else {
      PacketOfPiece(index, pieces[..p], false, if i < p then i else 0);
    }
  }

  function Flat<T>(xs: seq<seq<T>>): seq<T> {
    if xs == [] then [] else Flat(xs[..|xs| - 1]) + xs[|xs| - 1]
  }

  lemma {:induction false} BetweenIsFlat<T>(xs: seq<seq<T>>, from: nat, n: nat)
    requires from <= n <= |xs|
    ensures Between(xs, from, n) == Flat(xs[from..n])
    decreases n
  {
    if n == from {
    } else {
      BetweenIsFlat(xs, from, n - 1);
      OneMore(xs, from, n - 1);
    }
  }

  lemma {:induction false} FlatIsAll(nals: seq<Nal>)
    ensures Flat(Cut(nals)) == PiecesOfAll(nals)
  {
    if nals == [] {
    } else {
      FlatIsAll(nals[..|nals| - 1]);
      assert Cut(nals)[..|nals| - 1] == Cut(nals[..|nals| - 1]);
    }
  }

  lemma CutLast(nals: seq<Nal>)
    requires nals != []
    ensures Cut(nals) == Cut(nals[..|nals| - 1]) + [PiecesOf(nals[|nals| - 1])]
  {
  }

  lemma {:induction false} CutOfPart(nals: seq<Nal>, from: nat, n: nat)
    requires from <= n <= |nals|
    ensures Cut(nals)[from..n] == Cut(nals[from..n])
    decreases n
  {
    if n == from {
    } else {
      CutOfPart(nals, from, n - 1);
      OneMore(nals, from, n - 1);
      OneMore(Cut(nals), from, n - 1);
      CutAt(nals, n - 1);
      CutLast(nals[from..n]);
    }
  }

  /** The pieces between are those of the NALs between. */
  lemma BetweenIsAll(nals: seq<Nal>, from: nat, n: nat)
    requires from <= n <= |nals|
    ensures Between(Cut(nals), from, n) == PiecesOfAll(nals[from..n])
  {
    BetweenIsFlat(Cut(nals), from, n);
    CutOfPart(nals, from, n);
    FlatIsAll(nals[from..n]);
  }

  lemma OneMore<T>(xs: seq<T>, from: nat, n: nat)
    requires from <= n < |xs|
    ensures var ys := xs[from..n + 1]; ys != [] && ys[..|ys| - 1] == xs[from..n] && ys[|ys| - 1] == xs[n]
  {
  }

  lemma NoStep(roc: nat, sn: nat)
    requires roc < ROC_MODULO && sn < SEQ_MODULO
    ensures Successor(Index(roc, sn), 0) == Index(roc, sn)
  {
  }

  lemma Onwards(index: nat, a: nat, b: nat)
    ensures Successor(Successor(index, a), b) == Successor(index, a + b)
  {
  }

  // ---------------------------------------------------------------- received in order

  /** Consecutive packets of a stream, as a receiver's arrivals. */
  function Consecutive(index: nat, n: nat, at: nat): seq<Tracking.Arrival> {
    seq(n, i requires 0 <= i < n => Tracking.Arrival(index + i, at))
  }

  lemma {:induction false} HighestIsLast(index: nat, n: nat, at: nat)
    requires n > 0
    ensures Tracking.Highest(Consecutive(index, n, at)) == Some(index + n - 1)
  {
    var ps := Consecutive(index, n, at);
    assert ps[..n - 1] == Consecutive(index, n - 1, at);
    if n <= 1 {
    } else {
      HighestIsLast(index, n - 1, at);
    }
  }

  lemma ConsecutiveWithinHalf(roc: nat, sn: nat, n: nat, at: nat)
    requires roc < ROC_MODULO && sn < SEQ_MODULO && Index(roc, sn) + n <= INDEX_MODULO
    ensures Tracking.WithinHalf(roc, Consecutive(Index(roc, sn), n, at))
  {
    var index := Index(roc, sn);
    var ps := Consecutive(index, n, at);
    IndexParts(roc, sn);
    forall i | 0 <= i < |ps|
      ensures ps[i].index <= INDEX_MAX
      ensures if i == 0 then Roc(ps[i].index) == roc
              else -0x8000 < ps[i].index - Tracking.Highest(ps[..i]).value < 0x8000
    {
      if i > 0 {
        assert ps[..i] == Consecutive(index, i, at);
        HighestIsLast(index, i, at);
      }
    }
  }

  /**
   * Sender and receiver together: a stream that starts anywhere in the index space, sent
   * to a helper that was handed its rollover counter, authenticates packet after packet -
   * through every wrap of the sequence number - and what is accepted of it is what lies
   * above the helper's floor.
   */
  lemma StreamIsFollowed(p: PortSpec.Port, roc: nat, sn: nat, n: nat, at: nat)
    requires roc < ROC_MODULO && sn < SEQ_MODULO && Index(roc, sn) + n <= INDEX_MODULO
    requires Tracking.HandedOut(p, roc)
    ensures var ps := Consecutive(Index(roc, sn), n, at);
            && Tracking.AllAuthenticate(roc, ps)
            && Tracking.Accepted(p, ps) == Tracking.Above(p.floor, ps)
            && Tracking.Follows(Tracking.Feed(p, ps), roc, ps)
  {
    ConsecutiveWithinHalf(roc, sn, n, at);
    Tracking.ExactWithinHalf(p, roc, Consecutive(Index(roc, sn), n, at));
  }

  /** Those arrivals are, until the index space ends, the indexes the sender goes through. */
  lemma SenderIsConsecutive(index: nat, n: nat, at: nat, i: nat)
    requires i < n && index + n <= INDEX_MODULO
    ensures Consecutive(index, n, at)[i].index == Successor(index, i)
  {
  }

  /** What an access unit's packets carry is the access unit; their indexes are consecutive. */
  lemma AccessUnitArrives(index: nat, unit: seq<Nal>)
    requires forall i :: 0 <= i < |unit| ==> IsSingleType(unit[i])
    ensures var pieces := PiecesOfAll(unit);
            var packets := PacketsOf(index, pieces, true);
            && |packets| == |pieces|
            && (forall i :: 0 <= i < |packets| ==>
                  && Index(packets[i].roc, packets[i].sn) == Successor(index, i)
                  && |packets[i].payload| <= FU_MAX + 2
                  && (packets[i].marker <==> i == |packets| - 1)
                  && packets[i].payload == pieces[i].payload)
            && ReceiveAll(Some(Assembly([], None)), pieces) == Some(Assembly(unit, None))
  {
    StreamRoundTrip(unit);
    AllPiecesFit(unit);
    var pieces := PiecesOfAll(unit);
    forall i | 0 <= i < |pieces|
      ensures |PacketsOf(index, pieces, true)| == |pieces|
      ensures PacketsOf(index, pieces, true)[i] == PacketAt(index, i, pieces[i], i == |pieces| - 1)
    {
      PacketOfPiece(index, pieces, true, i);
    }
  }

  lemma {:induction false} AllPiecesFit(unit: seq<Nal>)
    ensures forall i :: 0 <= i < |PiecesOfAll(unit)| ==> |PiecesOfAll(unit)[i].payload| <= FU_MAX + 2
  {
    if unit == [] {
    } else {
      AllPiecesFit(unit[..|unit| - 1]);
      PiecesFit(unit[|unit| - 1]);
    }
  }
}
