/** What the candidate order guarantees: soundness, the re-sweep, and that nothing is missed. */
module RolloverCoverage {
  import opened Wrappers
  import opened PacketIndex
  import opened RolloverSearch
  import Cyclic

  /** At the top of the counter space there is nothing to search: every call is the floor. */
  lemma {:induction false} TopOfSpace(s: State, k: nat)
    requires s.base == ROC_MAX
    ensures After(s, k) == s && Yield(s, k) == ROC_MAX
  {
    if k == 0 {
    } else {
      TopOfSpace(s, k - 1);
    }
  }

  /** Nothing below the floor's counter is ever offered, and nothing that is not a uint32. */
  lemma CandidatesAboveFloor(base: int, from: Option<int>, every: int, k: nat)
    ensures var s := Start(base, from, every);
            s.base <= Yield(s, k) <= ROC_MAX
  {
    var s := Start(base, from, every);
    if s.base == ROC_MAX {
      TopOfSpace(s, k);
    } else {
      FreshYieldsAboveFloor(s, k);
    }
  }

  lemma FreshYieldsAboveFloor(s: State, k: nat)
    requires Fresh(s)
    ensures s.base <= Yield(s, k) <= ROC_MAX
  {
    ClosedForm(s, k);
    ClimbAboveFloor(s, Climbs(s, k));
  }

  lemma ClimbAboveFloor(s: State, m: nat)
    requires Fresh(s)
    ensures s.base < ClimbValue(s, m) <= ROC_MAX
  {
  }

  /**
   * Any `floorEvery` + 17 consecutive calls, wherever they begin, offer the floor's
   * counter and each of the sixteen above it.
   */
  lemma ResweptInEveryWindow(base: int, from: Option<int>, every: int, k: nat, c: nat) returns (i: nat)
    requires var b := Start(base, from, every).base; b <= c <= ROC_MAX && c <= b + 16
    ensures k <= i < k + 17 + (if every < 1 then 1 else every) && Yield(Start(base, from, every), i) == c
  {
    var s := Start(base, from, every);
    if s.base == ROC_MAX {
      TopOfSpace(s, k);
      return k;
    }
    i := Cyclic.NextWithRemainder(k, Round(s), c - s.base);
    SweepYields(s, i, c - s.base);
  }

  lemma SweepYields(s: State, k: nat, p: nat)
    requires Fresh(s) && k % Round(s) == p && p <= RESWEEP_WINDOW && s.base + p <= ROC_MAX
    ensures Yield(s, k) == s.base + p
  {
    ClosedForm(s, k);
  }

  // ---------------------------------------------------------------- one session

  /** The climb that reaches counter `c`, counting climbs from 0. */
  function ClimbFor(s: State, c: nat): nat
    requires Fresh(s) && s.base < c <= ROC_MAX
  {
    if c < s.farStart then 2 * (c - s.base - 1) + 1
    else if c - s.farStart < NearShare(s) then 2 * (c - s.farStart)
    else c - s.farStart + NearShare(s)
  }

  /** The call that makes climb number `m`. */
  function CallOf(s: State, m: nat): nat
    requires s.floorEvery >= 1
  {
    m / s.floorEvery * Round(s) + 1 + RESWEEP_WINDOW + m % s.floorEvery
  }

  /** The call that offers counter `c`. */
  function CallFor(s: State, c: nat): nat
    requires Fresh(s) && s.base <= c <= ROC_MAX
  {
    if c == s.base then 0 else CallOf(s, ClimbFor(s, c))
  }

  lemma CallMakesClimb(s: State, m: nat)
    requires Fresh(s)
    ensures CallOf(s, m) % Round(s) > RESWEEP_WINDOW
    ensures Climbs(s, CallOf(s, m)) == m
  {
    var e := s.floorEvery;
    assert m == m / e * e + m % e;
    Cyclic.DivModUnique(CallOf(s, m), m / e, 1 + RESWEEP_WINDOW + m % e, Round(s));
  }

  lemma ClimbForYields(s: State, c: nat)
    requires Fresh(s) && s.base < c <= ROC_MAX
    ensures ClimbValue(s, ClimbFor(s, c)) == c
    ensures ClimbFor(s, c) < 2 * (ROC_MAX - s.base)
  {
    if c >= s.farStart {
      assert FarTurns(s, ClimbFor(s, c)) == c - s.farStart;
      Cyclic.DivModUnique(c - s.base - 1, 0, c - s.base - 1, ROC_MAX - s.base);
    }
  }

  lemma CallForYields(s: State, c: nat)
    requires Fresh(s) && s.base < c <= ROC_MAX
    ensures Yield(s, CallFor(s, c)) == c
  {
    ClosedForm(s, CallFor(s, c));
    ClimbForYields(s, c);
    CallMakesClimb(s, ClimbFor(s, c));
  }

  lemma FirstCallYieldsFloor(s: State)
    requires Fresh(s)
    ensures Yield(s, 0) == s.base
  {
  }

  /**
   * Every counter from the floor's up is offered, at the call `CallFor` names, whatever
   * position the far climb was handed and however rarely the floor is re-offered; and
   * never later than the number of calls that fits two climbs per counter.
   */
  lemma EveryCounterOffered(base: int, from: Option<int>, every: int, c: nat)
    requires Start(base, from, every).base <= c <= ROC_MAX
    ensures var s := Start(base, from, every);
            if s.base == ROC_MAX then Yield(s, 0) == c
            else
              && Yield(s, CallFor(s, c)) == c
              && CallFor(s, c) < (2 * (ROC_MAX - s.base) / s.floorEvery + 1) * Round(s)
  {
    var s := Start(base, from, every);
    if s.base == ROC_MAX {
      TopOfSpace(s, 0);
    } else if c == s.base {
      FirstCallYieldsFloor(s);
      CallBound(s, 0);
    } else {
      CallForYields(s, c);
      ClimbForYields(s, c);
      CallBound(s, ClimbFor(s, c));
    }
  }

  lemma CallBound(s: State, m: nat)
    requires Fresh(s) && m < 2 * (ROC_MAX - s.base)
    ensures CallOf(s, m) < (2 * (ROC_MAX - s.base) / s.floorEvery + 1) * Round(s)
    ensures 0 < (2 * (ROC_MAX - s.base) / s.floorEvery + 1) * Round(s)
  {
    var e, n, top := s.floorEvery, Round(s), 2 * (ROC_MAX - s.base);
    DivMonotone(m, top, e);
    MulMonotone(m / e + 1, top / e + 1, n);
    assert (m / e + 1) * n == m / e * n + n;
  }

  lemma MulMonotone(a: nat, b: nat, n: nat)
    requires a <= b
    ensures a * n <= b * n
  {
  }

  lemma DivMonotone(a: nat, b: nat, n: nat)
    requires a <= b && n > 0
    ensures a / n <= b / n
  {
    var d := a / n - b / n;
    assert d >= 1 ==> d * n >= n;
    assert a == a / n * n + a % n && b == b / n * n + b % n;
    assert d * n == a / n * n - b / n * n;
  }

  /** Until the far climb wraps, the two climbs never offer the same counter twice. */
  lemma ClimbsDoNotRepeat(base: int, from: Option<int>, every: int, k1: nat, k2: nat)
    requires var s := Start(base, from, every);
             && s.base < ROC_MAX && k1 < k2
             && k1 % Round(s) > RESWEEP_WINDOW && k2 % Round(s) > RESWEEP_WINDOW
             && FarTurns(s, Climbs(s, k2) + 1) <= ROC_MAX - s.farStart + 1
    ensures var s := Start(base, from, every); Yield(s, k1) != Yield(s, k2)
  {
    var s := Start(base, from, every);
    ClosedForm(s, k1);
    ClosedForm(s, k2);
    ClimbsIncrease(s, k1, k2);
    var m1, m2 := Climbs(s, k1), Climbs(s, k2);
    assert FarTurns(s, m1) < ROC_MAX - s.farStart + 1;
    CircleBeforeWrap(s, FarTurns(s, m1));
    if FarTurns(s, m2) <= ROC_MAX - s.farStart {
      CircleBeforeWrap(s, FarTurns(s, m2));
    }
  }

  lemma CircleBeforeWrap(s: State, n: nat)
    requires Fresh(s) && n <= ROC_MAX - s.farStart
    ensures Circle(s.base, s.farStart, n) == s.farStart + n
  {
    Cyclic.DivModUnique(s.farStart - s.base - 1 + n, 0, s.farStart - s.base - 1 + n, ROC_MAX - s.base);
  }

  lemma {:induction false} ClimbsIncrease(s: State, k1: nat, k2: nat)
    requires Fresh(s) && k1 < k2 && k1 % Round(s) > RESWEEP_WINDOW
    ensures Climbs(s, k1) < Climbs(s, k2)
    decreases k2
  {
    ClimbsStep(s, k2 - 1);
    if k1 == k2 - 1 {
    } else {
      ClimbsIncrease(s, k1, k2 - 1);
    }
  }

  // ---------------------------------------------------------------- session after session

  /** A search that has just been made is fresh, unless the floor is the last counter of all. */
  lemma StartIsFresh(base: int, from: Option<int>, every: int)
    ensures var s := Start(base, from, every); Fresh(s) <==> s.base < ROC_MAX
  {
  }

  /**
   * The search session `i` starts with, when the first starts with `s0`, session j made
   * `calls[j]` calls and each hands its far climb's position to the next.
   */
  function SessionSearch(s0: State, calls: seq<nat>, i: nat): State
    requires i <= |calls|
  {
    if i == 0 then s0
    else
      var before := SessionSearch(s0, calls, i - 1);
      Start(s0.base, Some(After(before, calls[i - 1]).far), s0.floorEvery)
  }

  /** Searches each of which is the session after the one before are the sessions of one chain. */
  lemma {:induction false} LinksMakeAChain(starts: seq<State>, calls: seq<nat>, k: nat)
    requires k < |starts| <= |calls|
    requires forall m :: 0 < m < |starts| ==> starts[m] == SessionSearch(starts[m - 1], [calls[m - 1]], 1)
    requires starts[0].floorEvery >= 1 && 0 <= starts[0].base <= ROC_MAX
    ensures starts[k] == SessionSearch(starts[0], calls, k)
    ensures starts[k].base == starts[0].base && starts[k].floorEvery == starts[0].floorEvery
  {
    if k == 0 {
    } else {
      LinksMakeAChain(starts, calls, k - 1);
      OneLink(starts[k - 1], calls[k - 1]);
    }
  }

  lemma OneLink(s: State, calls: nat)
    ensures SessionSearch(s, [calls], 1) == Start(s.base, Some(After(s, calls).far), s.floorEvery)
  {
    assert SessionSearch(s, [calls], 0) == s;
  }

  /** How many far candidates a search yields in its first `k` calls. */
  function FarYields(s: State, k: nat): nat
    requires Fresh(s)
  {
    FarTurns(s, Climbs(s, k))
  }

  /** The far candidates yielded before session `i`. */
  function FarBefore(s0: State, calls: seq<nat>, i: nat): nat
    requires i <= |calls| && Fresh(s0)
    ensures i > 0 ==> Fresh(SessionSearch(s0, calls, i - 1))
  {
    if i == 0 then 0
    else
      FarBefore(s0, calls, i - 1)
      + FarYields(SessionSearch(s0, calls, i - 1), calls[i - 1])
  }

  lemma CircleCompose(base: nat, from: nat, a: nat, b: nat)
    requires base < from <= ROC_MAX
    ensures base < Circle(base, from, a) <= ROC_MAX
    ensures Circle(base, Circle(base, from, a), b) == Circle(base, from, a + b)
  {
    CircleStep(base, from, a);
    Cyclic.ModAdd(from - base - 1 + a, b, ROC_MAX - base);
    assert Circle(base, Circle(base, from, a), b)
        == base + 1 + ((from - base - 1 + a) % (ROC_MAX - base) + b) % (ROC_MAX - base);
  }

  /** Where the far climb stands after `k` calls, which is what the next session is handed. */
  lemma FarAfter(s: State, k: nat)
    requires Fresh(s)
    ensures After(s, k).far == Circle(s.base, s.farStart, FarYields(s, k))
    ensures s.base < After(s, k).far <= ROC_MAX
  {
    ClosedForm(s, k);
    CircleStep(s.base, s.farStart, 0);
    CircleStep(s.base, s.farStart, FarYields(s, k));
    Cyclic.DivModUnique(0, 0, 0, Round(s));
  }

  /**
   * The far climbs of successive sessions are one unbroken climb round the circle: the
   * `n`-th far candidate of session `i` is the one the first session's climb would have
   * reached after every far candidate yielded before it.
   */
  lemma {:induction false} FarClimbUnbroken(s0: State, calls: seq<nat>, i: nat)
    requires i <= |calls| && Fresh(s0)
    ensures var s := SessionSearch(s0, calls, i);
            && Fresh(s) && s.base == s0.base && s.floorEvery == s0.floorEvery
            && s.farStart == Circle(s0.base, s0.farStart, FarBefore(s0, calls, i))
  {
    if i == 0 {
      CircleStep(s0.base, s0.farStart, 0);
    } else {
      FarClimbUnbroken(s0, calls, i - 1);
      var s := SessionSearch(s0, calls, i - 1);
      NextFarStart(s, s0, FarBefore(s0, calls, i - 1), calls[i - 1]);
      NextSession(s0, After(s, calls[i - 1]).far);
    }
  }

  /** A session that starts `n` places on leaves the next where its own candidates take it. */
  lemma NextFarStart(s: State, s0: State, n: nat, k: nat)
    requires Fresh(s) && Fresh(s0) && s.base == s0.base && s.farStart == Circle(s0.base, s0.farStart, n)
    ensures s0.base < After(s, k).far <= ROC_MAX
    ensures After(s, k).far == Circle(s0.base, s0.farStart, n + FarYields(s, k))
  {
    FarAfter(s, k);
    CircleCompose(s0.base, s0.farStart, n, FarYields(s, k));
  }

  /** A position above the floor's counter is where the next session's far climb starts. */
  lemma NextSession(s0: State, far: nat)
    requires Fresh(s0) && s0.base < far <= ROC_MAX
    ensures var s := Start(s0.base, Some(far), s0.floorEvery);
            Fresh(s) && s.base == s0.base && s.floorEvery == s0.floorEvery && s.farStart == far
  {
  }

  /** A far candidate's place in its session: the call that yields far candidate number `n`. */
  function FarCall(s: State, n: nat): nat
    requires Fresh(s)
  {
    CallOf(s, if n < NearShare(s) then 2 * n else n + NearShare(s))
  }

  lemma FarCallYields(s: State, n: nat)
    requires Fresh(s)
    ensures Yield(s, FarCall(s, n)) == Circle(s.base, s.farStart, n)
  {
    var m := if n < NearShare(s) then 2 * n else n + NearShare(s);
    assert FarTurns(s, m) == n;
    CallMakesClimb(s, m);
    ClosedForm(s, CallOf(s, m));
  }

  /** A far candidate counted among the first `k` calls was yielded by one of them. */
  lemma FarCallInSession(s: State, k: nat, n: nat)
    requires Fresh(s) && n < FarYields(s, k)
    ensures FarCall(s, n) < k
  {
    var m := if n < NearShare(s) then 2 * n else n + NearShare(s);
    assert m < Climbs(s, k);
    CallMakesClimb(s, m);
    if k <= FarCall(s, n) {
      if k < FarCall(s, n) {
        ClimbsMonotone(s, k, FarCall(s, n));
      }
    }
  }

  lemma {:induction false} ClimbsMonotone(s: State, k1: nat, k2: nat)
    requires Fresh(s) && k1 <= k2
    ensures Climbs(s, k1) <= Climbs(s, k2)
    decreases k2
  {
    if k1 == k2 {
    } else {
      ClimbsStep(s, k2 - 1);
      ClimbsMonotone(s, k1, k2 - 1);
    }
  }

  /** Eighteen calls - the floor, the re-sweep and one more - always include a far candidate. */
  lemma EighteenCallsClimb(s: State, k: nat)
    requires Fresh(s) && k >= 2 + RESWEEP_WINDOW
    ensures FarYields(s, k) >= 1
  {
  }

  lemma {:induction false} FarBeforeGrows(s0: State, calls: seq<nat>, i: nat)
    requires i <= |calls| && Fresh(s0)
    requires forall j :: 0 <= j < |calls| ==> calls[j] >= 2 + RESWEEP_WINDOW
    ensures FarBefore(s0, calls, i) >= i
  {
    if i == 0 {
    } else {
      FarBeforeGrows(s0, calls, i - 1);
      EighteenCallsClimb(SessionSearch(s0, calls, i - 1), calls[i - 1]);
    }
  }

  /** The session in which the far climb, counted across sessions, makes its step number `n`. */
  lemma {:induction false} SessionOf(s0: State, calls: seq<nat>, n: nat, upTo: nat)
    returns (i: nat)
    requires upTo <= |calls| && Fresh(s0)
    requires n < FarBefore(s0, calls, upTo)
    ensures i < upTo
    ensures FarBefore(s0, calls, i) <= n < FarBefore(s0, calls, i + 1)
    decreases upTo
  {
    if n < FarBefore(s0, calls, upTo - 1) {
      i := SessionOf(s0, calls, n, upTo - 1);
    } else {
      i := upTo - 1;
    }
  }

  /** How far round the circle `c` lies from where the far climb starts. */
  lemma StepsTo(s: State, c: nat) returns (n: nat)
    requires Fresh(s) && s.base < c <= ROC_MAX
    ensures n < ROC_MAX - s.base && Circle(s.base, s.farStart, n) == c
  {
    var size := ROC_MAX - s.base;
    n := if c >= s.farStart then c - s.farStart else c - s.farStart + size;
    Cyclic.DivModUnique(s.farStart - s.base - 1 + n, if c >= s.farStart then 0 else 1, c - s.base - 1, size);
  }

  /**
   * Sessions too short to get anywhere alone still get everywhere together: with the far
   * climb carried over, as many sessions as there are counters above the floor - each of
   * at least eighteen calls - offer every one of them.
   */
  lemma ShortSessionsReachEveryCounter(s0: State, calls: seq<nat>, c: nat)
    returns (i: nat, k: nat)
    requires Fresh(s0) && s0.base <= c <= ROC_MAX && |calls| >= ROC_MAX - s0.base
    requires forall j :: 0 <= j < |calls| ==> calls[j] >= 2 + RESWEEP_WINDOW
    ensures i < |calls| && k < calls[i]
    ensures Yield(SessionSearch(s0, calls, i), k) == c
  {
    if c == s0.base {
      FirstCallYieldsFloor(s0);
      return 0, 0;
    }
    var n := StepsTo(s0, c);
    FarBeforeGrows(s0, calls, |calls|);
    i := SessionOf(s0, calls, n, |calls|);
    var s := SessionSearch(s0, calls, i);
    FarClimbUnbroken(s0, calls, i);
    var before := FarBefore(s0, calls, i);
    k := FarCall(s, n - before);
    FarCallYields(s, n - before);
    FarCallInSession(s, calls[i], n - before);
    CircleCompose(s0.base, s0.farStart, before, n - before);
  }
}
