/**
 * The lease on a port's Kinesis stream: any number of instances, one row, a common clock.
 * Each write carries the time at which it was requested and may take effect later, may
 * never arrive, or may arrive without its answer coming back.
 */
module Lease {
  import opened Wrappers
  import opened StreamRow
  import opened StreamMetadata
  import opened Runs
  import RowLaws

  /**
   * One instance: whether it believes it holds the lock, the stamp of the last lease write
   * of its that reached the row, and its refresh throttle.
   */
  datatype Holder = Holder(believes: bool, wrote: Option<int>, lastUpdate: Option<int>)

  const OUTSIDER := Holder(false, None, None)

  datatype World = World(row: Row, now: int, holders: map<InstanceId, Holder>)

  datatype Move =
    | Elapses(ms: nat)
    | Acquires(id: InstanceId, stamp: int, d: Delivery)
    | Refreshes(id: InstanceId, stamp: int, d: Delivery)
    | Releases(id: InstanceId, d: Delivery)
    | Yields(id: InstanceId)  // stops believing, and leaves the row to its new owner
    | Sweeps(threshold: int)
    | MovesFloor(w: Write)

  function HolderOf(world: World, id: InstanceId): Holder {
    if id in world.holders then world.holders[id] else OUTSIDER
  }

  /** An instance's requests are made one at a time, and none before now. */
  predicate Timely(world: World, id: InstanceId, stamp: int) {
    var wrote := HolderOf(world, id).wrote;
    stamp <= world.now && (wrote.Some? ==> wrote.value <= stamp)
  }

  predicate IsThrottled(h: Holder, stamp: int) {
    stamp - (if h.lastUpdate.Some? then h.lastUpdate.value else 0) < UPDATE_THROTTLE_MS
  }

  function Sent(row: Row, w: Write, d: Delivery): Row {
    if d.Undelivered? then row else Written(row, w)
  }

  predicate Lands(row: Row, w: Write, d: Delivery) {
    !d.Undelivered? && Apply(row, w).1
  }

  function AcquireAnswer(world: World, id: InstanceId, stamp: int, d: Delivery): Acquisition {
    if !Timely(world, id, stamp) || !d.Answered? then AcquireThrew
    else if Acquire(world.row, id, stamp).1 then Acquired
    else HeldElsewhere
  }

  function RefreshAnswer(world: World, id: InstanceId, stamp: int, d: Delivery): LeaseOutcome {
    if !Timely(world, id, stamp) then WriteError
    else if IsThrottled(HolderOf(world, id), stamp) then LeaseOk
    else if !d.Answered? then WriteError
    else if Refresh(world.row, id, stamp).1 then LeaseOk
    else LostLock
  }

  function After(world: World, m: Move): World {
    match m
    case Elapses(ms) => world.(now := world.now + ms)
    case Acquires(id, stamp, d) =>
      if !Timely(world, id, stamp) then world
      else
        var h, w := HolderOf(world, id), Acquiring(id, stamp);
        world.(
          row := Sent(world.row, w, d),
          holders := world.holders[id := h.(
            believes := h.believes || AcquireAnswer(world, id, stamp, d).Acquired?,
            wrote := if Lands(world.row, w, d) then Some(stamp) else h.wrote)])
    case Refreshes(id, stamp, d) =>
      var h, w := HolderOf(world, id), Refreshing(id, stamp);
      if !Timely(world, id, stamp) || IsThrottled(h, stamp) then world
      else
        world.(
          row := Sent(world.row, w, d),
          holders := world.holders[id := h.(
            wrote := if Lands(world.row, w, d) then Some(stamp) else h.wrote,
            lastUpdate := if RefreshAnswer(world, id, stamp, d).LeaseOk? then Some(stamp) else None)])
    case Releases(id, d) =>
      world.(
        row := Sent(world.row, Releasing(id), d),
        holders := world.holders[id := HolderOf(world, id).(believes := false)])
    case Yields(id) =>
      world.(holders := world.holders[id := HolderOf(world, id).(believes := false)])
    case Sweeps(threshold) =>
      if threshold > world.now - KINESIS_LOCK_STALE_MS then world
      else world.(row := Written(world.row, Cleaning(threshold)))
    case MovesFloor(w) =>
      if w.Raising? || w.Resetting? then world.(row := Written(world.row, w)) else world
  }

  /** Nobody believes anything yet. */
  predicate Opening(world: World) {
    world.holders == map[]
  }

  /** The instance's last lease write is recent enough that nobody may take the lock. */
  predicate IsFresh(world: World, id: InstanceId) {
    var wrote := HolderOf(world, id).wrote;
    wrote.Some? && world.now - wrote.value <= KINESIS_LOCK_STALE_MS
  }

  predicate Owns(row: Row, id: InstanceId, wrote: Option<int>) {
    row.owner == Some(id) && row.lastPacketTime == wrote
  }

  /** A believer wrote its lease, and if that was not too long ago the row still carries it. */
  predicate Grounded(world: World, id: InstanceId) {
    var h := HolderOf(world, id);
    && (h.believes ==> h.wrote.Some?)
    && (h.wrote.Some? ==> h.wrote.value <= world.now)
    && (h.believes && IsFresh(world, id) ==> Owns(world.row, id, h.wrote))
    && (h.lastUpdate.Some? ==> h.wrote.Some? && h.lastUpdate.value <= h.wrote.value)
  }

  ghost predicate AllGrounded(world: World) {
    forall id :: Grounded(world, id)
  }

  lemma GroundedStep(world: World, m: Move, id: InstanceId)
    requires Grounded(world, id)
    ensures Grounded(After(world, m), id)
  {
  }

  lemma AlwaysGrounded(world: World, ms: seq<Move>)
    requires Opening(world)
    ensures AllGrounded(Run(After, world, ms))
  {
    forall t, m | AllGrounded(t)
      ensures AllGrounded(After(t, m))
    {
      forall id ensures Grounded(After(t, m), id) {
        GroundedStep(t, m, id);
      }
    }
    Always(After, AllGrounded, world, ms);
  }

  lemma FreshBelieverExcludes(world: World, id: InstanceId, other: InstanceId, stamp: int, threshold: int)
    requires Grounded(world, id) && HolderOf(world, id).believes && IsFresh(world, id)
    ensures world.row.owner == Some(id)
    ensures other != id && stamp <= world.now ==> !Acquire(world.row, other, stamp).1
    ensures threshold <= world.now - KINESIS_LOCK_STALE_MS ==> !Clean(world.row, threshold).1
  {
  }

  /**
   * In every run, an instance that believes it holds the lock and whose last lease write
   * is within the stale threshold is the row's owner, and neither an acquisition by
   * anybody else nor the cleanup can succeed.
   */
  lemma LeaseExcludes(world: World, ms: seq<Move>, id: InstanceId, other: InstanceId, stamp: int, threshold: int)
    requires Opening(world) && other != id
    requires var last := Run(After, world, ms);
             && HolderOf(last, id).believes && IsFresh(last, id)
             && stamp <= last.now && threshold <= last.now - KINESIS_LOCK_STALE_MS
    ensures var last := Run(After, world, ms);
            && last.row.owner == Some(id)
            && !Acquire(last.row, other, stamp).1
            && !Clean(last.row, threshold).1
            && !(HolderOf(last, other).believes && IsFresh(last, other))
  {
    AlwaysGrounded(world, ms);
    assert Grounded(Run(After, world, ms), id) && Grounded(Run(After, world, ms), other);
    FreshBelieverExcludes(Run(After, world, ms), id, other, stamp, threshold);
  }

  /**
   * The throttle never hides a lost lock: whenever a believer's refresh is skipped and
   * answered `ok` unsent, the row is in fact still its own.
   */
  lemma ThrottledRefreshIsTrue(world: World, ms: seq<Move>, id: InstanceId, d: Delivery)
    requires Opening(world)
    requires var last := Run(After, world, ms);
             && last.now >= UPDATE_THROTTLE_MS && HolderOf(last, id).believes
             && IsThrottled(HolderOf(last, id), last.now)
    ensures var last := Run(After, world, ms);
            RefreshAnswer(last, id, last.now, d).LeaseOk? && last.row.owner == Some(id)
  {
    AlwaysGrounded(world, ms);
    assert Grounded(Run(After, world, ms), id);
  }

  /**
   * Why the stale threshold matters: a believer that has not written its lease for longer
   * loses the row to the first instance that asks, and goes on believing.
   */
  lemma StaleBelieverLoses(world: World, id: InstanceId, other: InstanceId)
    requires Grounded(world, id) && HolderOf(world, id).believes && other != id
    requires Owns(world.row, id, HolderOf(world, id).wrote)
    requires Timely(world, other, world.now)
    ensures AcquireAnswer(world, other, world.now, Answered).Acquired? <==> !IsFresh(world, id)
    ensures !IsFresh(world, id) ==>
              var next := After(world, Acquires(other, world.now, Answered));
              HolderOf(next, id).believes && HolderOf(next, other).believes && next.row.owner == Some(other)
  {
  }

  // ---------------------------------------------------------------- when the lock is to be had

  /** An acquisition made in time and answered is granted exactly when no other's lease stands. */
  lemma GrantedIffNoneStands(world: World, id: InstanceId, stamp: int)
    requires Timely(world, id, stamp)
    ensures AcquireAnswer(world, id, stamp, Answered).Acquired? <==> !RowLaws.StandsAgainst(world.row, id, stamp)
    ensures AcquireAnswer(world, id, stamp, Answered).Acquired? ==>
              var next := After(world, Acquires(id, stamp, Answered));
              && Owns(next.row, id, Some(stamp)) && HolderOf(next, id).believes
              && HolderOf(next, id).wrote == Some(stamp)
  {
    RowLaws.GrantedUnlessHeld(world.row, id, stamp);
  }

  predicate IsFree(world: World) {
    world.row.owner.None?
  }

  predicate AcquiresNothing(world: World, m: Move) {
    !m.Acquires?
  }

  lemma FreeStep(world: World, m: Move)
    requires IsFree(world) && AcquiresNothing(world, m)
    ensures IsFree(After(world, m))
  {
  }

  /** A row without an owner stays so until somebody asks, and whoever asks first and is answered has the lock. */
  lemma FreeRowIsGranted(world: World, ms: seq<Move>, i: nat, n: nat, id: InstanceId, stamp: int)
    requires i <= n <= |ms| && IsFree(Run(After, world, ms[..i]))
    requires forall m :: i <= m < n ==> AcquiresNothing(Run(After, world, ms[..m]), ms[m])
    requires Timely(Run(After, world, ms[..n]), id, stamp)
    ensures var last := Run(After, world, ms[..n]);
            && AcquireAnswer(last, id, stamp, Answered).Acquired?
            && Owns(After(last, Acquires(id, stamp, Answered)).row, id, Some(stamp))
  {
    forall t, m | IsFree(t) && AcquiresNothing(t, m)
      ensures IsFree(After(t, m))
    {
      FreeStep(t, m);
    }
    Keeps(After, IsFree, AcquiresNothing, world, ms, i, n);
    GrantedIffNoneStands(Run(After, world, ms[..n]), id, stamp);
  }

  /** The owner's release frees the row if it arrives, and nobody else's does; so does the cleanup of a stale lease. */
  lemma ReleaseFrees(world: World, id: InstanceId, d: Delivery)
    ensures IsFree(After(world, Releases(id, d))) <==>
              IsFree(world) || (world.row.owner == Some(id) && !d.Undelivered?)
    ensures !HolderOf(After(world, Releases(id, d)), id).believes
  {
  }

  lemma SweepFrees(world: World, threshold: int)
    requires threshold <= world.now - KINESIS_LOCK_STALE_MS && world.row.owner.Some?
    ensures IsFree(After(world, Sweeps(threshold))) <==>
              world.row.status == Some(Active) && IsStale(world.row, threshold)
  {
  }

  /** From a release that arrives: the next to ask has the lock. */
  lemma ReleasedIsGranted(world: World, ms: seq<Move>, r: nat, n: nat, id: InstanceId, d: Delivery,
                          other: InstanceId, stamp: int)
    requires r < n <= |ms| && ms[r] == Releases(id, d) && !d.Undelivered?
    requires Run(After, world, ms[..r]).row.owner == Some(id)
    requires forall m :: r < m < n ==> AcquiresNothing(Run(After, world, ms[..m]), ms[m])
    requires Timely(Run(After, world, ms[..n]), other, stamp)
    ensures var last := Run(After, world, ms[..n]);
            && AcquireAnswer(last, other, stamp, Answered).Acquired?
            && Owns(After(last, Acquires(other, stamp, Answered)).row, other, Some(stamp))
  {
    ReleaseFrees(Run(After, world, ms[..r]), id, d);
    RunStep(After, world, ms, r);
    FreeRowIsGranted(world, ms, r + 1, n, other, stamp);
  }

  /** A refresh that came back good is not sent again within the interval, and one that did not is. */
  lemma RefreshesAreSpaced(world: World, id: InstanceId, stamp: int, d: Delivery, later: int, e: Delivery)
    requires Timely(world, id, stamp) && !IsThrottled(HolderOf(world, id), stamp)
    ensures var next := After(world, Refreshes(id, stamp, d));
            if RefreshAnswer(world, id, stamp, d).LeaseOk?
            then later - stamp < 15_000 ==> After(next, Refreshes(id, later, e)) == next
            else later >= 15_000 ==> !IsThrottled(HolderOf(next, id), later)
  {
  }

  /** The answer to a refresh that was sent and answered tells whether the row is still the instance's. */
  lemma RefreshTellsTheTruth(world: World, id: InstanceId, stamp: int)
    requires Timely(world, id, stamp) && !IsThrottled(HolderOf(world, id), stamp)
    ensures RefreshAnswer(world, id, stamp, Answered)
         == if world.row.owner == Some(id) then LeaseOk else LostLock
    ensures world.row.owner == Some(id) ==>
              Owns(After(world, Refreshes(id, stamp, Answered)).row, id, Some(stamp))
  {
  }
}
