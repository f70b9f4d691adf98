/**
 * The 48-bit SRTP packet index: a 32-bit rollover counter beside a 16-bit sequence
 * number. Only the sequence number travels; `EstimatedIndex` rebuilds the rest from the
 * highest index authenticated so far.
 */
module PacketIndex {

  const SEQ_MIDPOINT: nat := 0x8000
  const SEQ_MODULO: nat := 0x1_0000
  const ROC_MODULO: nat := 0x1_0000_0000
  const ROC_MAX: nat := ROC_MODULO - 1
  const INDEX_MODULO: nat := 0x1_0000_0000_0000
  const INDEX_MAX: nat := INDEX_MODULO - 1

  /** What two bytes of an RTP header carry. */
  type SequenceNumber = n: nat | n < SEQ_MODULO

  /** The rollover counter of an index. */
  function Roc(index: nat): nat {
    index / SEQ_MODULO
  }

  /** The sequence number of an index: all that an RTP header carries of it. */
  function Seq(index: nat): nat {
    index % SEQ_MODULO
  }

  function Index(roc: nat, sn: nat): nat {
    roc * SEQ_MODULO + sn
  }

  /** The index libsrtp estimates for sequence number `s` when `local` is its highest. */
  function EstimatedIndex(local: nat, s: nat): nat {
    if local <= SEQ_MIDPOINT then s
    else
      var roc, sn := Roc(local), Seq(local);
      if sn < SEQ_MIDPOINT then
        if s - sn > SEQ_MIDPOINT then Index((roc - 1) % ROC_MODULO, s) else Index(roc, s)
      else if sn - SEQ_MIDPOINT > s then Index((roc + 1) % ROC_MODULO, s)
      else Index(roc, s)
  }

  /**
   * Appendix A of RFC 3711: the guess `v` for the packet's rollover counter, and the
   * index it gives.
   */
  function RfcIndexGuess(roc: nat, highestSeq: nat, s: nat): nat {
    var v :=
      if highestSeq < 32_768 then
        if s - highestSeq > 32_768 then (roc - 1) % 0x1_0000_0000 else roc
      else
        if highestSeq - 32_768 > s then (roc + 1) % 0x1_0000_0000 else roc;
    s + v * 65_536
  }

  /** How far `t` is ahead of `local` on the circle of 2^48 indexes; negative when behind. */
  function Ahead(local: nat, t: nat): int {
    (t - local + INDEX_MODULO / 2) % INDEX_MODULO - INDEX_MODULO / 2
  }

  /**
   * The indexes whose 16-bit remainder identifies them from `local`. Before the first
   * half rollover nothing is estimated, so only counter 0 can be named; after it, the
   * half-open circular window of 2^16 indexes round `local`, closed on the far side of
   * whichever half of the sequence space `local` is in.
   */
  predicate Recoverable(local: nat, t: nat) {
    if local <= SEQ_MIDPOINT then t < SEQ_MODULO
    else if Seq(local) < SEQ_MIDPOINT then -0x8000 < Ahead(local, t) <= 0x8000
    else -0x8000 <= Ahead(local, t) < 0x8000
  }

  lemma IndexParts(roc: nat, sn: nat)
    requires sn < SEQ_MODULO
    ensures Roc(Index(roc, sn)) == roc && Seq(Index(roc, sn)) == sn
    ensures roc < ROC_MODULO ==> Index(roc, sn) < INDEX_MODULO
  {
  }

  lemma AheadOnTheCircle(local: nat, t: nat)
    requires local < INDEX_MODULO && t < INDEX_MODULO
    ensures if t - local >= INDEX_MODULO / 2 then Ahead(local, t) == t - local - INDEX_MODULO
            else if local - t > INDEX_MODULO / 2 then Ahead(local, t) == t - local + INDEX_MODULO
            else Ahead(local, t) == t - local
  {
  }

  /** Exactly which true indexes survive the trip through sixteen bits. */
  lemma EstimateIsExact(local: nat, t: nat)
    requires local < INDEX_MODULO && t < INDEX_MODULO
    ensures EstimatedIndex(local, Seq(t)) == t <==> Recoverable(local, t)
  {
    var roc, sn := Roc(local), Seq(local);
    var q, s := Roc(t), Seq(t);
    assert local == Index(roc, sn) && t == Index(q, s);
    assert 0 <= roc <= ROC_MAX && 0 <= q <= ROC_MAX;
    if local > SEQ_MIDPOINT {
      AheadOnTheCircle(local, t);
      if sn < SEQ_MIDPOINT {
        assert (roc - 1) % ROC_MODULO == roc - 1;
      } else {
        assert (roc + 1) % ROC_MODULO == if roc == ROC_MAX then 0 else roc + 1;
      }
    }
  }

  /** The round trip as the tracker needs it: less than half the sequence space away. */
  lemma EstimateRoundTrip(local: nat, t: nat)
    requires local < INDEX_MODULO && t < INDEX_MODULO
    requires -0x8000 < t - local < 0x8000
    ensures EstimatedIndex(local, Seq(t)) == t
  {
    EstimateIsExact(local, t);
  }

  /** From the last counter the estimate goes on to the first: the index space has come to its end. */
  predicate GoesRound(local: nat, s: nat) {
    Roc(local) == ROC_MAX && Roc(EstimatedIndex(local, s)) == 0
  }

  /** The estimate's counter is the receiver's or a neighbour of it, short of the end. */
  lemma EstimateIsNear(local: nat, s: nat)
    requires local < INDEX_MODULO && s < SEQ_MODULO
    ensures EstimatedIndex(local, s) <= Index(Roc(local) + 1, s)
    ensures Roc(local) > 0 && !GoesRound(local, s) ==> Index(Roc(local) - 1, s) <= EstimatedIndex(local, s)
    ensures Roc(local) == 0 ==> EstimatedIndex(local, s) >= s
  {
    IndexParts(0, s);
  }

  /** Within one counter the estimate rises with the sequence number it starts from. */
  lemma EstimateRisesInCounter(roc: nat, a: nat, b: nat, s: nat)
    requires roc <= ROC_MAX && a <= b < SEQ_MODULO && s < SEQ_MODULO && !GoesRound(Index(roc, b), s)
    ensures EstimatedIndex(Index(roc, a), s) <= EstimatedIndex(Index(roc, b), s)
  {
    IndexParts(roc, a);
    IndexParts(roc, b);
    IndexParts(0, s);
  }

  /** From one counter to the next it does not fall. */
  lemma EstimateRisesAcross(roc: nat, a: nat, b: nat, s: nat)
    requires roc < ROC_MAX && a < SEQ_MODULO && b < SEQ_MODULO && s < SEQ_MODULO && !GoesRound(Index(roc + 1, b), s)
    ensures EstimatedIndex(Index(roc, a), s) <= EstimatedIndex(Index(roc + 1, b), s)
  {
    var behind, ahead := Index(roc, a), Index(roc + 1, b);
    IndexParts(roc, a);
    IndexParts(roc + 1, b);
    EstimateIsNear(behind, s);
    EstimateIsNear(ahead, s);
    if s <= SEQ_MIDPOINT {
      assert EstimatedIndex(ahead, s) >= Index(roc + 1, s);
    } else {
      assert EstimatedIndex(behind, s) <= Index(roc, s);
    }
  }

  /** Of two receivers, the one that is behind never estimates the higher index. */
  lemma EstimateIsMonotone(behind: nat, ahead: nat, s: nat)
    requires behind <= ahead < INDEX_MODULO && s < SEQ_MODULO && !GoesRound(ahead, s)
    ensures EstimatedIndex(behind, s) <= EstimatedIndex(ahead, s)
  {
    var p, q := Roc(behind), Roc(ahead);
    assert behind == Index(p, Seq(behind)) && ahead == Index(q, Seq(ahead));
    if p == q {
      EstimateRisesInCounter(p, Seq(behind), Seq(ahead), s);
    } else if q == p + 1 {
      EstimateRisesAcross(p, Seq(behind), Seq(ahead), s);
    } else {
      EstimateIsNear(behind, s);
      EstimateIsNear(ahead, s);
    }
  }

  /**
   * The estimate is RFC 3711's guess exactly when the early-session rule does not speak:
   * the two part only where a fresh session at counter 0 jumps forward by more than half
   * the sequence space, which the RFC reads as a late packet of counter 2^32 - 1.
   */
  lemma EstimateAgreesWithRfc(local: nat, s: nat)
    requires local < INDEX_MODULO && s < SEQ_MODULO
    ensures EstimatedIndex(local, s) == RfcIndexGuess(Roc(local), Seq(local), s)
       <==> !(local < SEQ_MIDPOINT && s - local > SEQ_MIDPOINT)
    ensures local < SEQ_MIDPOINT && s - local > SEQ_MIDPOINT
        ==> RfcIndexGuess(Roc(local), Seq(local), s) == Index(ROC_MAX, s)
  {
  }

  /** The estimate is always a 48-bit index, and the backward branch never wraps below 0. */
  lemma EstimateNeverWrapsBackward(local: nat, s: nat)
    requires local < INDEX_MODULO && s < SEQ_MODULO
    ensures EstimatedIndex(local, s) < INDEX_MODULO
    ensures Seq(EstimatedIndex(local, s)) == s
    ensures Roc(EstimatedIndex(local, s)) in {Roc(local) - 1, Roc(local), (Roc(local) + 1) % ROC_MODULO}
  {
  }
}
