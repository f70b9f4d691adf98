/**
 * NAL units as RTP payloads (RFC 6184): whole, or in FU-A fragments; and the receiver that
 * sections 5.6 and 5.8 describe, which puts them together again.
 */
module RtpPayloads {
  import opened Wrappers
  import opened AnnexB

  const FU_MAX: nat := 1200

  datatype Piece = Piece(payload: seq<byte>, lastOfNal: bool)

  function Indicator(header: byte): byte {
    (header & 0xe0) | 28
  }

  function FuHeader(header: byte, first: bool, last: bool): byte {
    (if first then 0x80 else 0) | (if last then 0x40 else 0) | (header & 0x1f)
  }

  /** How much of the body the fragment at `offset` carries it up to. */
  function ChunkEnd(body: seq<byte>, offset: nat): (e: nat)
    requires offset < |body|
    ensures offset < e <= |body|
  {
    if offset + FU_MAX < |body| then offset + FU_MAX else |body|
  }

  function Fragment(header: byte, body: seq<byte>, offset: nat): Piece
    requires offset < |body|
  {
    var e := ChunkEnd(body, offset);
    Piece([Indicator(header), FuHeader(header, offset == 0, e == |body|)] + body[offset..e], e == |body|)
  }

  function Fragments(header: byte, body: seq<byte>, offset: nat): seq<Piece>
    decreases |body| - offset
  {
    if offset >= |body| then []
    else [Fragment(header, body, offset)] + Fragments(header, body, ChunkEnd(body, offset))
  }

  function PiecesOf(nal: Nal): seq<Piece> {
    if |nal| <= FU_MAX then [Piece(nal, true)] else Fragments(nal[0], nal[1..], 0)
  }

  method RtpPayloadsForNal(nal: Nal) returns (chunks: seq<Piece>)
    ensures chunks == PiecesOf(nal)
  {
    if |nal| <= FU_MAX {
      return [Piece(nal, true)];
    }
    chunks := [];
    var header, body := nal[0], nal[1..];
    var offset := 0;
    while offset < |body|
      invariant Fragments(header, body, 0) == chunks + Fragments(header, body, offset)
      decreases |body| - offset
    {
      var end := if offset + FU_MAX < |body| then offset + FU_MAX else |body|;
      var chunk, last := body[offset..end], end == |body|;
      var piece := Piece([Indicator(header), FuHeader(header, offset == 0, last)] + chunk, last);
      assert piece == Fragment(header, body, offset);
      FragmentsStep(header, body, offset, chunks);
      chunks := chunks + [piece];
      offset := offset + FU_MAX;
    }
  }

  lemma FragmentsStep(header: byte, body: seq<byte>, offset: nat, before: seq<Piece>)
    requires offset < |body|
    ensures before + Fragments(header, body, offset)
         == before + [Fragment(header, body, offset)] + Fragments(header, body, offset + FU_MAX)
  {
  }

  // ---------------------------------------------------------------- the receiver

  /** The NALs received so far, and the one whose fragments are still coming in. */
  datatype Assembly = Assembly(nals: seq<Nal>, partial: Option<Nal>)

  /** One payload; nothing for what a conforming sender does not send. */
  function Receive(a: Assembly, payload: seq<byte>): Option<Assembly> {
    if payload == [] then None
    else
      var t := payload[0] & 0x1f;
      if 1 <= t <= 23 then
        if a.partial.None? then Some(a.(nals := a.nals + [payload])) else None
      else if t != 28 || |payload| < 2 then None
      else
        var start, end := payload[1] & 0x80 != 0, payload[1] & 0x40 != 0;
        if start != a.partial.None? then None
        else
          var nal :=
            (if start then [(payload[0] & 0xe0) | (payload[1] & 0x1f)] else a.partial.value) + payload[2..];
          Some(if end then Assembly(a.nals + [nal], None) else a.(partial := Some(nal)))
  }

  function ReceiveAll(a: Option<Assembly>, pieces: seq<Piece>): Option<Assembly>
    decreases |pieces|
  {
    if pieces == [] || a.None? then a
    else ReceiveAll(Receive(a.value, pieces[0].payload), pieces[1..])
  }

  /** A NAL of a type that stands for itself: not one of the aggregation or fragmentation types. */
  predicate IsSingleType(nal: Nal) {
    nal != [] && 1 <= NalType(nal) <= 23
  }

  lemma HeaderBits(h: byte, first: bool, last: bool)
    ensures Indicator(h) & 0x1f == 28
    ensures (Indicator(h) & 0xe0) | (FuHeader(h, first, last) & 0x1f) == h
    ensures FuHeader(h, first, last) & 0x80 != 0 <==> first
    ensures FuHeader(h, first, last) & 0x40 != 0 <==> last
  {
  }

  /** The receiver part of the way through a fragmented NAL: its header and the body so far. */
  function Part(nals: seq<Nal>, header: byte, body: seq<byte>, offset: nat): Assembly
    requires offset <= |body|
  {
    Assembly(nals, if offset == 0 then None else Some([header] + body[..offset]))
  }

  lemma ReceiveFragment(nals: seq<Nal>, header: byte, body: seq<byte>, offset: nat)
    requires offset < |body|
    ensures Receive(Part(nals, header, body, offset), Fragment(header, body, offset).payload)
         == Some(if ChunkEnd(body, offset) == |body| then Assembly(nals + [[header] + body], None)
                 else Part(nals, header, body, ChunkEnd(body, offset)))
  {
    var e := ChunkEnd(body, offset);
    var p := Fragment(header, body, offset).payload;
    HeaderBits(header, offset == 0, e == |body|);
    assert p[0] == Indicator(header) && p[1] == FuHeader(header, offset == 0, e == |body|);
    assert p[2..] == body[offset..e];
    assert [header] + body[..offset] + body[offset..e] == [header] + body[..e];
    assert body[..|body|] == body && body[0..e] == body[..e];
  }

  lemma {:induction false} ReceiveFragments(nals: seq<Nal>, header: byte, body: seq<byte>, offset: nat)
    requires offset < |body|
    ensures ReceiveAll(Some(Part(nals, header, body, offset)), Fragments(header, body, offset))
         == Some(Assembly(nals + [[header] + body], None))
    decreases |body| - offset
  {
    var e := ChunkEnd(body, offset);
    ReceiveFragment(nals, header, body, offset);
    assert Fragments(header, body, offset)[1..] == Fragments(header, body, e);
    if e == |body| {
    } else {
      ReceiveFragments(nals, header, body, e);
    }
  }

  /** A NAL fragmented and received comes back byte for byte, after whatever came before it. */
  lemma NalRoundTrip(nals: seq<Nal>, nal: Nal)
    requires IsSingleType(nal)
    ensures ReceiveAll(Some(Assembly(nals, None)), PiecesOf(nal)) == Some(Assembly(nals + [nal], None))
  {
    if |nal| <= FU_MAX {
      assert PiecesOf(nal)[1..] == [];
    } else {
      ReceiveFragments(nals, nal[0], nal[1..], 0);
      assert [nal[0]] + nal[1..] == nal;
    }
  }

  /** The pieces of several NALs, one after another. */
  function PiecesOfAll(nals: seq<Nal>): seq<Piece> {
    if nals == [] then [] else PiecesOfAll(nals[..|nals| - 1]) + PiecesOf(nals[|nals| - 1])
  }

  lemma {:induction false} ReceiveAppend(a: Option<Assembly>, xs: seq<Piece>, ys: seq<Piece>)
    ensures ReceiveAll(a, xs + ys) == ReceiveAll(ReceiveAll(a, xs), ys)
    decreases |xs|
  {
    if xs == [] {
      assert xs + ys == ys;
    } else if a.Some? {
      assert (xs + ys)[1..] == xs[1..] + ys;
      ReceiveAppend(Receive(a.value, xs[0].payload), xs[1..], ys);
    }
  }

  /** A whole stream of NALs, packetized and received, is the same stream. */
  lemma {:induction false} StreamRoundTrip(nals: seq<Nal>)
    requires forall i :: 0 <= i < |nals| ==> IsSingleType(nals[i])
    ensures ReceiveAll(Some(Assembly([], None)), PiecesOfAll(nals)) == Some(Assembly(nals, None))
  {
    if nals == [] {
    } else {
      var init, nal := nals[..|nals| - 1], nals[|nals| - 1];
      StreamRoundTrip(init);
      ReceiveAppend(Some(Assembly([], None)), PiecesOfAll(init), PiecesOf(nal));
      NalRoundTrip(init, nal);
      assert init + [nal] == nals;
    }
  }

  lemma {:induction false} FragmentsFit(header: byte, body: seq<byte>, offset: nat)
    requires offset < |body|
    ensures var ps := Fragments(header, body, offset);
            && ps != []
            && (forall i :: 0 <= i < |ps| ==> |ps[i].payload| <= FU_MAX + 2 && (ps[i].lastOfNal <==> i == |ps| - 1))
    decreases |body| - offset
  {
    var e := ChunkEnd(body, offset);
    if e == |body| {
    } else {
      FragmentsFit(header, body, e);
    }
  }

  /** No payload exceeds 1202 bytes, and exactly the last of a NAL's is marked so. */
  lemma PiecesFit(nal: Nal)
    ensures var ps := PiecesOf(nal);
            && ps != []
            && (forall i :: 0 <= i < |ps| ==> |ps[i].payload| <= 1202 && (ps[i].lastOfNal <==> i == |ps| - 1))
  {
    if |nal| > FU_MAX {
      FragmentsFit(nal[0], nal[1..], 0);
    }
  }

  /** What section 5.8 of RFC 6184 forbids: one fragment that both starts and ends its NAL. */
  predicate StartsAndEnds(p: Piece) {
    && |p.payload| >= 2
    && p.payload[0] & 0x1f == 28
    && p.payload[1] & 0x80 != 0
    && p.payload[1] & 0x40 != 0
  }

  lemma {:induction false} LaterFragmentsDoNotStart(header: byte, body: seq<byte>, offset: nat)
    requires 0 < offset
    ensures forall p :: p in Fragments(header, body, offset) ==> !StartsAndEnds(p)
    decreases |body| - offset
  {
    if offset >= |body| {
    } else {
      var e := ChunkEnd(body, offset);
      HeaderBits(header, false, e == |body|);
      LaterFragmentsDoNotStart(header, body, e);
    }
  }

  /** The one length for which such a fragment is made: a byte more than fits a packet of its own. */
  lemma StartsAndEndsIffOneByteOver(nal: Nal)
    requires IsSingleType(nal)
    ensures (exists p :: p in PiecesOf(nal) && StartsAndEnds(p)) <==> |nal| == 1201
  {
    if |nal| <= FU_MAX {
      assert forall p :: p in PiecesOf(nal) ==> p.payload == nal;
    } else {
      var header, body := nal[0], nal[1..];
      var e := ChunkEnd(body, 0);
      var first := Fragment(header, body, 0);
      HeaderBits(header, true, e == |body|);
      assert first.payload[0] == Indicator(header) && first.payload[1] == FuHeader(header, true, e == |body|);
      LaterFragmentsDoNotStart(header, body, e);
      assert PiecesOf(nal) == [first] + Fragments(header, body, e);
      assert StartsAndEnds(first) <==> e == |body|;
    }
  }
}
