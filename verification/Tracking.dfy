/**
 * The helper's tracker against the authenticator it mirrors. The authenticator is an
 * oracle: under a key seeded with a rollover counter it accepts a packet exactly when its
 * own estimate, from the highest index it has authenticated, is the packet's true index.
 */
module Tracking {
  import opened Wrappers
  import opened PacketIndex
  import opened PortSpec

  /** An authenticated packet: its true index, and when it arrived. */
  datatype Arrival = Arrival(index: nat, at: nat)

  /** The highest index among arrivals. */
  function Highest(ps: seq<Arrival>): (h: Option<nat>)
    ensures h.None? <==> ps == []
  {
    if ps == [] then None else Some(Max(Highest(ps[..|ps| - 1]), ps[|ps| - 1].index))
  }

  predicate Authenticates(seed: nat, highest: Option<nat>, t: nat) {
    if highest.None? then Index(seed, Seq(t)) == t else EstimatedIndex(highest.value, Seq(t)) == t
  }

  /** Arrivals that all authenticate, in this order, under one key seeded with `seed`. */
  predicate AllAuthenticate(seed: nat, ps: seq<Arrival>) {
    forall i :: 0 <= i < |ps| ==>
      ps[i].index <= INDEX_MAX && Authenticates(seed, Highest(ps[..i]), ps[i].index)
  }

  /** The helper once the authenticator asked for a key and was told to count from `seed`. */
  predicate HandedOut(p: Port, seed: nat) {
    p.tally.roc == seed && p.tally.highestSeq.None?
  }

  function Feed(p: Port, ps: seq<Arrival>): Port {
    if ps == [] then p
    else
      var a := ps[|ps| - 1];
      RecordAuthenticated(Feed(p, ps[..|ps| - 1]), Some(Seq(a.index)), a.at).0
  }

  /** The indexes accepted, in arrival order. */
  function Accepted(p: Port, ps: seq<Arrival>): seq<nat> {
    if ps == [] then []
    else
      var before, a := Feed(p, ps[..|ps| - 1]), ps[|ps| - 1];
      Accepted(p, ps[..|ps| - 1])
      + if RecordAuthenticated(before, Some(Seq(a.index)), a.at).1 then [a.index] else []
  }

  /** The indexes above a floor, in arrival order. */
  function Above(floor: Option<nat>, ps: seq<Arrival>): seq<nat> {
    if ps == [] then []
    else
      var a := ps[|ps| - 1];
      Above(floor, ps[..|ps| - 1]) + if AboveFloor(floor, a.index) then [a.index] else []
  }

  /** What the tracker holds once arrivals `ps` have been fed to it. */
  predicate Follows(p: Port, seed: nat, ps: seq<Arrival>) {
    var c := p.tally;
    if ps == [] then HandedOut(p, seed)
    else c.roc == Roc(Highest(ps).value) && c.highestSeq == Some(Seq(Highest(ps).value))
  }

  lemma AuthenticateInit(seed: nat, ps: seq<Arrival>)
    requires ps != [] && AllAuthenticate(seed, ps)
    ensures AllAuthenticate(seed, ps[..|ps| - 1])
  {
    var init := ps[..|ps| - 1];
    forall i | 0 <= i < |init|
      ensures init[i].index <= INDEX_MAX && Authenticates(seed, Highest(init[..i]), init[i].index)
    {
      assert init[..i] == ps[..i];
    }
  }

  /** One authenticated packet: its index is computed exactly, and the tracker keeps the maximum. */
  lemma TrackOne(p: Port, seed: nat, ps: seq<Arrival>, t: nat)
    requires Follows(p, seed, ps) && Authenticates(seed, Highest(ps), t)
    ensures ComputedIndex(p.tally, Seq(t)) == t
    ensures Track(p.tally, Seq(t)).roc == Roc(Max(Highest(ps), t))
    ensures Track(p.tally, Seq(t)).highestSeq == Some(Seq(Max(Highest(ps), t)))
  {
  }

  lemma RecordOne(p: Port, seed: nat, ps: seq<Arrival>, a: Arrival)
    requires Follows(p, seed, ps) && Authenticates(seed, Highest(ps), a.index)
    ensures var (q, accepted) := RecordAuthenticated(p, Some(Seq(a.index)), a.at);
            && q.tally.roc == Roc(Max(Highest(ps), a.index))
            && q.tally.highestSeq == Some(Seq(Max(Highest(ps), a.index)))
            && q.floor == p.floor
            && (accepted <==> AboveFloor(p.floor, a.index))
  {
    TrackOne(p, seed, ps, a.index);
  }

  /**
   * However long the run and however its packets are reordered, every authenticated
   * packet's index is computed exactly, and the counter and sequence number held are those
   * of the highest one: a rollover is counted once. What is accepted is what lies above
   * the session's floor, and nothing else decides.
   */
  lemma {:induction false} TrackerExact(p: Port, seed: nat, ps: seq<Arrival>)
    requires HandedOut(p, seed) && AllAuthenticate(seed, ps)
    ensures Follows(Feed(p, ps), seed, ps)
    ensures forall i :: 0 <= i < |ps| ==> ComputedIndex(Feed(p, ps[..i]).tally, Seq(ps[i].index)) == ps[i].index
    ensures Feed(p, ps).floor == p.floor
    ensures Accepted(p, ps) == Above(p.floor, ps)
  {
    if ps == [] {
    } else {
      var init, a := ps[..|ps| - 1], ps[|ps| - 1];
      AuthenticateInit(seed, ps);
      TrackerExact(p, seed, init);
      RecordOne(Feed(p, init), seed, init, a);
      TrackOne(Feed(p, init), seed, init, a.index);
      forall i | 0 <= i < |ps|
        ensures ComputedIndex(Feed(p, ps[..i]).tally, Seq(ps[i].index)) == ps[i].index
      {
        if i < |init| {
          assert init[..i] == ps[..i];
        } else {
          assert ps[..i] == init && ps[i] == a;
        }
      }
    }
  }

  /** Every packet's index is computed right. */
  predicate Exact(p: Port, ps: seq<Arrival>) {
    forall i :: 0 <= i < |ps| ==> ComputedIndex(Feed(p, ps[..i]).tally, Seq(ps[i].index)) == ps[i].index
  }

  lemma ComputedIffAuthenticates(p: Port, seed: nat, ps: seq<Arrival>, t: nat)
    requires Follows(p, seed, ps) && t <= INDEX_MAX && seed <= ROC_MAX
    requires ps != [] ==> Highest(ps).value <= INDEX_MAX
    ensures ComputedIndex(p.tally, Seq(t)) == t <==> Authenticates(seed, Highest(ps), t)
  {
    if ps == [] {
      IndexParts(seed, Seq(t));
      EstimateRoundTrip(Index(seed, Seq(t)), Index(seed, Seq(t)));
    }
  }

  /**
   * The tracker is exact on exactly the streams that an authenticator seeded with its counter
   * accepts throughout.
   */
  lemma {:induction false} ExactIffAuthenticates(p: Port, seed: nat, ps: seq<Arrival>)
    requires HandedOut(p, seed) && seed <= ROC_MAX && forall i :: 0 <= i < |ps| ==> ps[i].index <= INDEX_MAX
    ensures Exact(p, ps) <==> AllAuthenticate(seed, ps)
  {
    if AllAuthenticate(seed, ps) {
      TrackerExact(p, seed, ps);
    } else if Exact(p, ps) && ps != [] {
      var init := ps[..|ps| - 1];
      assert forall i :: 0 <= i < |init| ==> init[i] == ps[i] && init[..i] == ps[..i];
      ExactIffAuthenticates(p, seed, init);
      LastAuthenticates(p, seed, ps);
    }
  }

  lemma LastAuthenticates(p: Port, seed: nat, ps: seq<Arrival>)
    requires HandedOut(p, seed) && seed <= ROC_MAX && ps != [] && ps[|ps| - 1].index <= INDEX_MAX
    requires AllAuthenticate(seed, ps[..|ps| - 1]) && Exact(p, ps)
    ensures AllAuthenticate(seed, ps)
  {
    var init, t := ps[..|ps| - 1], ps[|ps| - 1].index;
    TrackerExact(p, seed, init);
    HighestBounded(init);
    assert ComputedIndex(Feed(p, init).tally, Seq(t)) == t;
    ComputedIffAuthenticates(Feed(p, init), seed, init, t);
    AuthenticateOneMore(seed, ps);
  }

  lemma AuthenticateOneMore(seed: nat, ps: seq<Arrival>)
    requires ps != [] && ps[|ps| - 1].index <= INDEX_MAX && AllAuthenticate(seed, ps[..|ps| - 1])
    requires Authenticates(seed, Highest(ps[..|ps| - 1]), ps[|ps| - 1].index)
    ensures AllAuthenticate(seed, ps)
  {
    var init := ps[..|ps| - 1];
    forall i | 0 <= i < |ps|
      ensures ps[i].index <= INDEX_MAX && Authenticates(seed, Highest(ps[..i]), ps[i].index)
    {
      if i < |init| {
        assert ps[..i] == init[..i] && ps[i] == init[i];
      }
    }
  }

  /**
   * The condition a network meets: the first packet has the seeded counter, and each later
   * one is less than half the sequence space from the highest before it.
   */
  predicate WithinHalf(seed: nat, ps: seq<Arrival>) {
    forall i :: 0 <= i < |ps| ==>
      && ps[i].index <= INDEX_MAX
      && if i == 0 then Roc(ps[i].index) == seed
         else -0x8000 < ps[i].index - Highest(ps[..i]).value < 0x8000
  }

  lemma {:induction false} HighestBounded(ps: seq<Arrival>)
    requires forall i :: 0 <= i < |ps| ==> ps[i].index <= INDEX_MAX
    ensures ps != [] ==> Highest(ps).value <= INDEX_MAX
  {
    if ps == [] {
    } else {
      HighestBounded(ps[..|ps| - 1]);
    }
  }

  lemma WithinHalfAuthenticates(seed: nat, ps: seq<Arrival>)
    requires WithinHalf(seed, ps)
    ensures AllAuthenticate(seed, ps)
  {
    forall i | 0 <= i < |ps|
      ensures ps[i].index <= INDEX_MAX && Authenticates(seed, Highest(ps[..i]), ps[i].index)
    {
      if i > 0 {
        HighestBounded(ps[..i]);
        EstimateRoundTrip(Highest(ps[..i]).value, ps[i].index);
      }
    }
  }

  /** Tracker exactness for any stream whose reordering and loss stay within half the sequence space. */
  lemma ExactWithinHalf(p: Port, seed: nat, ps: seq<Arrival>)
    requires HandedOut(p, seed) && WithinHalf(seed, ps)
    ensures AllAuthenticate(seed, ps)
    ensures Follows(Feed(p, ps), seed, ps)
    ensures Accepted(p, ps) == Above(p.floor, ps)
  {
    WithinHalfAuthenticates(seed, ps);
    TrackerExact(p, seed, ps);
  }

  // ---------------------------------------------------------------- arrival order

  function Indexes(ps: seq<Arrival>): multiset<nat> {
    if ps == [] then multiset{} else Indexes(ps[..|ps| - 1]) + multiset{ps[|ps| - 1].index}
  }

  lemma {:induction false} AboveCounts(floor: Option<nat>, ps: seq<Arrival>, t: nat)
    ensures multiset(Above(floor, ps))[t] == if AboveFloor(floor, t) then Indexes(ps)[t] else 0
  {
    if ps == [] {
    } else {
      AboveCounts(floor, ps[..|ps| - 1], t);
    }
  }

  /**
   * Two orders of the same packets, if the authenticator takes both, are accepted alike:
   * a reordered packet is not a rewind.
   */
  lemma ArrivalOrderIrrelevant(p: Port, seed: nat, ps: seq<Arrival>, qs: seq<Arrival>)
    requires HandedOut(p, seed) && AllAuthenticate(seed, ps) && AllAuthenticate(seed, qs)
    requires Indexes(ps) == Indexes(qs)
    ensures multiset(Accepted(p, ps)) == multiset(Accepted(p, qs))
  {
    TrackerExact(p, seed, ps);
    TrackerExact(p, seed, qs);
    forall t: nat
      ensures multiset(Accepted(p, ps))[t] == multiset(Accepted(p, qs))[t]
    {
      AboveCounts(p.floor, ps, t);
      AboveCounts(p.floor, qs, t);
    }
  }

  // ---------------------------------------------------------------- where exactness ends

  /**
   * Exactness is per key hand-out. A searching helper that loses authentication forgets its
   * place but keeps its pipeline, so no new key is asked for: the tracker goes on as if its
   * own counter had just been handed out, while the authenticator goes on from where it was.
   * From then on it is exact on exactly the streams that a newly seeded authenticator would
   * accept throughout.
   */
  lemma LossExactIffAuthenticates(p: Port, ps: seq<Arrival>)
    requires p.tally.roc <= ROC_MAX && forall i :: 0 <= i < |ps| ==> ps[i].index <= INDEX_MAX
    ensures Exact(EndSession(p), ps) <==> AllAuthenticate(p.tally.roc, ps)
  {
    ExactIffAuthenticates(EndSession(p), p.tally.roc, ps);
  }

  /**
   * For the one packet that comes first, it is computed on the counter kept: right if that is its
   * own, too low if its own is later, and too high if its own is earlier.
   */
  lemma FoundAtCounter(c: Tally, t: nat)
    requires c.highestSeq.None? && c.roc <= ROC_MAX
    ensures ComputedIndex(c, Seq(t)) == Index(c.roc, Seq(t))
    ensures Track(c, Seq(t)).roc == c.roc && Track(c, Seq(t)).highestSeq == Some(Seq(t))
    ensures ComputedIndex(c, Seq(t)) == t <==> Roc(t) == c.roc
    ensures ComputedIndex(c, Seq(t)) <= t <==> c.roc <= Roc(t)
  {
    var local := Index(c.roc, Seq(t));
    IndexParts(c.roc, Seq(t));
    EstimateRoundTrip(local, local);
    assert t == Index(Roc(t), Seq(t));
  }

  /** The authenticator, standing on `highest`, accepts these packets one after another. */
  predicate GoesOn(highest: nat, ps: seq<Arrival>) {
    forall i :: 0 <= i < |ps| ==>
      ps[i].index <= INDEX_MAX && EstimatedIndex(Max(Highest(ps[..i]), highest), Seq(ps[i].index)) == ps[i].index
  }

  lemma {:induction false} HighestAtLeastFirst(ps: seq<Arrival>)
    requires ps != []
    ensures Highest(ps).value >= ps[0].index
  {
    if |ps| == 1 {
      assert ps[..0] == [];
    } else {
      HighestAtLeastFirst(ps[..|ps| - 1]);
    }
  }

  /**
   * A loss heals by itself when the first packet after it is ahead of every one before and has
   * the counter the tracker kept: whatever the authenticator goes on to accept is tracked exactly.
   */
  lemma LossHeals(p: Port, highest: nat, ps: seq<Arrival>)
    requires p.tally.roc <= ROC_MAX && GoesOn(highest, ps)
    requires ps != [] ==> ps[0].index > highest && Roc(ps[0].index) == p.tally.roc
    ensures Exact(EndSession(p), ps)
  {
    forall i | 0 <= i < |ps|
      ensures Authenticates(p.tally.roc, Highest(ps[..i]), ps[i].index)
    {
      if i > 0 {
        HighestAtLeastFirst(ps[..i]);
      }
    }
    LossExactIffAuthenticates(p, ps);
  }

  /** A stream that wraps in the silence: the first packet after it is computed a rollover too low. */
  lemma SilentWrapIsMistracked(p: Port)
    requires p.tally.roc == 1 && p.tally.highestIndex == Some(0x1_FFFF) && p.floor.None?
    ensures var ps := [Arrival(0x2_0000, 1)];
            && GoesOn(0x1_FFFF, ps) && !Exact(EndSession(p), ps)
            && !RecordAuthenticated(GiveUp(p).0, Some(0), 1).1
  {
    var ps := [Arrival(0x2_0000, 1)];
    assert ps[..0] == [] && ComputedIndex(EndSession(p).tally, 0) == 0x1_0000;
    assert ComputedIndex(Feed(EndSession(p), ps[..0]).tally, Seq(ps[0].index)) != ps[0].index;
  }

  /**
   * Nor need it wrap: a first packet that comes a little late, on the same counter, is computed
   * right and leaves the tracker behind the authenticator, and the next is a rollover too low.
   */
  lemma LateFirstPacketIsMistracked(p: Port)
    requires p.tally.roc == 1 && p.floor.None?
    ensures var ps := [Arrival(0x1_7FF0, 1), Arrival(0x1_FFF5, 2)];
            && GoesOn(0x1_8040, ps)
            && ComputedIndex(EndSession(p).tally, 0x7FF0) == 0x1_7FF0
            && ComputedIndex(Feed(EndSession(p), ps[..1]).tally, 0xFFF5) == 0xFFF5
            && !Exact(EndSession(p), ps)
  {
    var ps := [Arrival(0x1_7FF0, 1), Arrival(0x1_FFF5, 2)];
    assert ps[..0] == [] && ps[..1] == [ps[0]] && ps[..1][..0] == [];
    assert Highest(ps[..1]) == Some(0x1_7FF0);
    assert Feed(EndSession(p), ps[..1]) == RecordAuthenticated(EndSession(p), Some(0x7FF0), 1).0;
    assert ComputedIndex(Feed(EndSession(p), ps[..1]).tally, Seq(ps[1].index)) != ps[1].index;
  }
}
