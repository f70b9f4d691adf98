/**
 * The order in which a helper offers rollover-counter candidates to the authenticator:
 * the floor's own counter, then sixteen just above it, then `floorEvery` candidates from
 * two climbs taking turns, and round again.
 */
module RolloverSearch {
  import opened Wrappers
  import opened PacketIndex
  import Cyclic

  const RESWEEP_WINDOW: nat := 16

  /** The fields of a `Search`, as a value. */
  datatype State = State(
    base: nat,
    floorEvery: nat,
    farStart: nat,
    far: nat,
    near: nat,
    sinceFloor: Option<nat>,
    farTurn: bool,
    resweep: nat
  )

  function Clamp(x: int, lo: nat, hi: nat): nat
    requires lo <= hi
  {
    if x < lo then lo else if x > hi then hi else x
  }

  /** A new search. A position that is not above the base starts the far climb there. */
  function Start(base: int, searchFrom: Option<int>, floorEvery: int): State {
    var b := Clamp(base, 0, ROC_MAX);
    var from := if searchFrom.None? then b + 1 else searchFrom.value;
    var farStart := if b < from <= ROC_MAX then from else b + 1;
    State(b, if floorEvery < 1 then 1 else floorEvery, farStart, farStart, b + 1, None, false, 0)
  }

  /** At most `turns` turns between the climbs: the near one passes once it meets the far one. */
  function Turns(s: State, turns: nat): (State, nat)
    decreases turns
  {
    if turns == 0 then (s, s.base)
    else
      var t := s.(farTurn := !s.farTurn);
      if t.farTurn then
        (t.(far := if t.far < ROC_MAX then t.far + 1 else t.base + 1), t.far)
      else if t.near < t.farStart then (t.(near := t.near + 1), t.near)
      else Turns(t, turns - 1)
  }

  /** One call of the search: its next state, and the candidate it yields. */
  function Step(s: State): (State, nat) {
    if s.base == ROC_MAX then (s, s.base)
    else if s.sinceFloor.None? || s.sinceFloor.value >= s.floorEvery then
      (s.(sinceFloor := Some(0), resweep := RESWEEP_WINDOW), s.base)
    else if s.resweep > 0 then
      (s.(resweep := s.resweep - 1), Clamp(s.base + RESWEEP_WINDOW - (s.resweep - 1), 0, ROC_MAX))
    else Turns(s.(sinceFloor := Some(s.sinceFloor.value + 1)), 2)
  }

  class Search {
    var base: nat
    var floorEvery: nat
    var farStart: nat
    var far: nat
    var near: nat
    var sinceFloor: Option<nat>
    var farTurn: bool
    var resweep: nat

    function View(): State
      reads this
    {
      State(base, floorEvery, farStart, far, near, sinceFloor, farTurn, resweep)
    }

    constructor (base: int, searchFrom: Option<int>, floorEvery: int)
      ensures View() == Start(base, searchFrom, floorEvery)
    {
      var b := Clamp(base, 0, ROC_MAX);
      this.base := b;
      this.floorEvery := if floorEvery < 1 then 1 else floorEvery;
      var from := if searchFrom.None? then b + 1 else searchFrom.value;
      var start: nat := if b < from <= ROC_MAX then from else b + 1;
      this.farStart := start;
      this.far := start;
      this.near := b + 1;
      this.sinceFloor := None;
      this.farTurn := false;
      this.resweep := 0;
    }

    method Next() returns (candidate: nat)
      modifies this
      ensures (View(), candidate) == Step(old(View()))
    {
      if base == ROC_MAX {
        return base;
      }
      if sinceFloor.None? || sinceFloor.value >= floorEvery {
        sinceFloor := Some(0);
        resweep := RESWEEP_WINDOW;
        return base;
      }
      if resweep > 0 {
        resweep := resweep - 1;
        return Clamp(base + (RESWEEP_WINDOW - resweep), 0, ROC_MAX);
      }
      sinceFloor := Some(sinceFloor.value + 1);
      ghost var before := View();
      for i := 0 to 2
        invariant Turns(before, 2) == Turns(View(), 2 - i)
      {
        farTurn := !farTurn;
        if !farTurn {
          if near < farStart {
            near := near + 1;
            return near - 1;
          }
        } else {
          candidate := far;
          far := if candidate < ROC_MAX then candidate + 1 else base + 1;
          return;
        }
      }
      return base;
    }
  }

  /** The search after `k` calls. */
  function After(s: State, k: nat): State {
    if k == 0 then s else Step(After(s, k - 1)).0
  }

  /** The candidate yielded by call number `k`, counting from 0. */
  function Yield(s: State, k: nat): nat {
    Step(After(s, k)).1
  }

  // ---------------------------------------------------------------- closed form

  /** A search no call has been made on, with somewhere to climb. */
  predicate Fresh(s: State) {
    && s.base < s.farStart <= ROC_MAX
    && s.floorEvery >= 1
    && s == State(s.base, s.floorEvery, s.farStart, s.farStart, s.base + 1, None, false, 0)
  }

  /** The calls in one round: the floor, the re-sweep, and `floorEvery` climbs. */
  function Round(s: State): nat {
    1 + RESWEEP_WINDOW + s.floorEvery
  }

  /** How many of the first `k` calls climbed. */
  function Climbs(s: State, k: nat): nat {
    var p := k % Round(s);
    k / Round(s) * s.floorEvery + if p > 1 + RESWEEP_WINDOW then p - 1 - RESWEEP_WINDOW else 0
  }

  /** The counters between the floor's and where the far climb starts: the near climb's share. */
  function NearShare(s: State): nat
    requires Fresh(s)
  {
    s.farStart - s.base - 1
  }

  /** How many of the first `m` climbs were the near one's: every other one, while it lasts. */
  function NearTurns(s: State, m: nat): nat
    requires Fresh(s)
  {
    if m / 2 < NearShare(s) then m / 2 else NearShare(s)
  }

  function FarTurns(s: State, m: nat): nat
    requires Fresh(s)
  {
    m - NearTurns(s, m)
  }

  /** The counter `n` places round the circle base+1 .. 2^32-1 from `from`. */
  function Circle(base: nat, from: nat, n: nat): nat
    requires base < from <= ROC_MAX
  {
    base + 1 + (from - base - 1 + n) % (ROC_MAX - base)
  }

  /** What climb number `m` yields. */
  function ClimbValue(s: State, m: nat): nat
    requires Fresh(s)
  {
    if m % 2 == 1 && m / 2 < NearShare(s) then s.base + 1 + m / 2
    else Circle(s.base, s.farStart, FarTurns(s, m))
  }

  /** What call number `k` yields, without running the search. */
  function ClosedYield(s: State, k: nat): nat
    requires Fresh(s)
  {
    YieldAt(s, Climbs(s, k), k % Round(s))
  }

  /** What is yielded `p` calls into a round, after `m` climbs in all. */
  function YieldAt(s: State, m: nat, p: nat): nat
    requires Fresh(s)
  {
    if p <= RESWEEP_WINDOW then Clamp(s.base + p, 0, ROC_MAX) else ClimbValue(s, m)
  }

  /** The two climbs after `m` turns in all. */
  function ClimbState(s: State, m: nat): State
    requires Fresh(s)
  {
    s.(far := Circle(s.base, s.farStart, FarTurns(s, m)),
       near := s.base + 1 + NearTurns(s, m),
       farTurn := if m <= 2 * NearShare(s) then m % 2 == 1 else true)
  }

  /** The search `p` calls into a round, after `m` climbs in all; not before its first call. */
  function StateAt(s: State, m: nat, p: nat): State
    requires Fresh(s)
  {
    var c := ClimbState(s, m);
    if p == 0 then c.(sinceFloor := Some(s.floorEvery), resweep := 0)
    else if p <= 1 + RESWEEP_WINDOW then c.(sinceFloor := Some(0), resweep := 1 + RESWEEP_WINDOW - p)
    else c.(sinceFloor := Some(p - 1 - RESWEEP_WINDOW), resweep := 0)
  }

  function ClosedState(s: State, k: nat): State
    requires Fresh(s)
  {
    if k == 0 then s else StateAt(s, Climbs(s, k), k % Round(s))
  }

  lemma CircleStep(base: nat, from: nat, n: nat)
    requires base < from <= ROC_MAX
    ensures base < Circle(base, from, n) <= ROC_MAX
    ensures Circle(base, from, 0) == from
    ensures Circle(base, from, n + 1)
         == if Circle(base, from, n) < ROC_MAX then Circle(base, from, n) + 1 else base + 1
  {
    var size, x := ROC_MAX - base, from - base - 1 + n;
    Cyclic.DivModUnique(from - base - 1, 0, from - base - 1, size);
    Cyclic.DivModStep(x, size);
    assert Circle(base, from, n + 1) == base + 1 + (x + 1) % size;
  }

  /** A climb advances the climb state by one and yields what the closed form says. */
  lemma ClimbStep(s: State, m: nat, sinceFloor: Option<nat>)
    requires Fresh(s)
    ensures var c := ClimbState(s, m).(sinceFloor := sinceFloor);
            Turns(c, 2) == (ClimbState(s, m + 1).(sinceFloor := sinceFloor), ClimbValue(s, m))
  {
    CircleStep(s.base, s.farStart, FarTurns(s, m));
    var c := ClimbState(s, m).(sinceFloor := sinceFloor);
    var t := c.(farTurn := !c.farTurn);
    if !t.farTurn && !(t.near < t.farStart) {
      assert Turns(c, 2) == Turns(t, 1);
    }
  }

  lemma ClimbsStep(s: State, k: nat)
    requires s.floorEvery >= 1
    ensures Climbs(s, k + 1) == Climbs(s, k) + if k % Round(s) > RESWEEP_WINDOW then 1 else 0
  {
    Cyclic.DivModStep(k, Round(s));
    assert (k / Round(s) + 1) * s.floorEvery == k / Round(s) * s.floorEvery + s.floorEvery;
  }

  /** Running the search and reading the closed form agree at every call. */
  lemma {:induction false} ClosedForm(s: State, k: nat)
    requires Fresh(s)
    ensures After(s, k) == ClosedState(s, k)
    ensures Yield(s, k) == ClosedYield(s, k)
  {
    if k == 0 {
    } else {
      ClosedForm(s, k - 1);
      ClosedStep(s, k - 1);
    }
    ClosedStep(s, k);
  }

  lemma StateAtStep(s: State, m: nat, p: nat)
    requires Fresh(s) && p < Round(s)
    ensures var m' := if p > RESWEEP_WINDOW then m + 1 else m;
            var p' := if p + 1 < Round(s) then p + 1 else 0;
            Step(StateAt(s, m, p)) == (StateAt(s, m', p'), YieldAt(s, m, p))
  {
    if p > RESWEEP_WINDOW {
      ClimbStep(s, m, Some(p - RESWEEP_WINDOW));
    }
  }

  lemma ClosedStep(s: State, k: nat)
    requires Fresh(s)
    ensures Step(ClosedState(s, k)) == (ClosedState(s, k + 1), ClosedYield(s, k))
  {
    var m, p := Climbs(s, k), k % Round(s);
    Cyclic.DivModStep(k, Round(s));
    ClimbsStep(s, k);
    if k == 0 {
      CircleStep(s.base, s.farStart, 0);
      Cyclic.DivModUnique(0, 0, 0, Round(s));
    } else {
      StateAtStep(s, m, p);
    }
  }
}
