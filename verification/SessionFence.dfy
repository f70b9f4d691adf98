/**
 * Helper sessions against the row, while resets land in between. A session reads the
 * epoch, then the floor, then runs; every report it makes carries the epoch it read.
 */
module SessionFence {
  import opened Wrappers
  import opened StreamRow
  import opened FloorHistory
  import opened Runs

  /** `seen` is the row as it was when the floor was read. */
  datatype Session =
    | Reading(epoch: Option<int>)
    | Running(epoch: Option<int>, ssrc: nat, fingerprint: string, seen: Row)
  {
    function Floor(): Option<nat>
      requires Running?
    {
      ReadFloor(seen, ssrc, fingerprint)
    }
  }

  datatype World = World(row: Row, sessions: map<nat, Session>)

  datatype Move =
    | ReadsEpoch(id: nat)
    | ReadsFloor(id: nat, ssrc: nat, fingerprint: string)
    | Reports(id: nat, index: PacketIndex48, key: Key)
    | Writes(w: Write)  // anything that is not a report

  function After(world: World, m: Move): World {
    match m
    case ReadsEpoch(id) =>
      if id in world.sessions then world
      else world.(sessions := world.sessions[id := Reading(ReadEpoch(world.row))])
    case ReadsFloor(id, ssrc, fingerprint) =>
      if id !in world.sessions || !world.sessions[id].Reading? then world
      else world.(sessions := world.sessions[id := Running(world.sessions[id].epoch, ssrc, fingerprint, world.row)])
    case Reports(id, index, key) =>
      if id !in world.sessions || !world.sessions[id].Running? then world
      else world.(row := Raise(world.row, index, key, world.sessions[id].epoch).0)
    case Writes(w) =>
      if w.Raising? then world else world.(row := Written(world.row, w))
  }

  predicate Fenced(world: World) {
    && WellFormed(world.row)
    && forall id :: id in world.sessions ==>
         var s := world.sessions[id];
         && AtMost(s.epoch, world.row.epoch)
         && (s.Running? ==> AtMost(s.epoch, s.seen.epoch) && Risen(s.seen, world.row))
  }

  predicate Opening(world: World) {
    WellFormed(world.row) && world.sessions == map[]
  }

  lemma RowRises(world: World, m: Move)
    requires WellFormed(world.row)
    ensures WellFormed(After(world, m).row) && Risen(world.row, After(world, m).row)
  {
    match m
    case Reports(id, index, key) =>
      if id in world.sessions && world.sessions[id].Running? {
        var w := Raising(index, key, world.sessions[id].epoch);
        EveryFloorWriteRaises(world.row, w);
        assert Written(world.row, w) == Raise(world.row, index, key, world.sessions[id].epoch).0;
      }
    case Writes(w) => EveryFloorWriteRaises(world.row, w);
    case _ =>
  }

  lemma FenceStep(world: World, m: Move)
    requires Fenced(world)
    ensures Fenced(After(world, m))
  {
    RowRises(world, m);
    var next := After(world, m);
    forall id | id in next.sessions
      ensures var s := next.sessions[id];
              && AtMost(s.epoch, next.row.epoch)
              && (s.Running? ==> AtMost(s.epoch, s.seen.epoch) && Risen(s.seen, next.row))
    {
      var s := next.sessions[id];
      if s.Running? && id in world.sessions && world.sessions[id] == s {
        RisenTransitive(s.seen, world.row, next.row);
      }
    }
  }

  lemma AlwaysFenced(world: World, ms: seq<Move>)
    requires Opening(world)
    ensures Fenced(Run(After, world, ms))
  {
    forall t, m | Fenced(t)
      ensures Fenced(After(t, m))
    {
      FenceStep(t, m);
    }
    Always(After, Fenced, world, ms);
  }

  /**
   * In every run, a running session whose epoch is the row's holds a floor that was read
   * under that very epoch; and that floor is the row's own, or the row has risen since.
   */
  lemma CurrentEpochMeansCurrentFloor(world: World, ms: seq<Move>, id: nat)
    requires Opening(world)
    requires var last := Run(After, world, ms);
             id in last.sessions && last.sessions[id].Running? && last.sessions[id].epoch == last.row.epoch
    ensures var last := Run(After, world, ms);
            var s := last.sessions[id];
            && s.seen.epoch == last.row.epoch
            && (s.Floor().Some? && last.row.generation == s.seen.generation ==>
                  last.row.srtpIndex.Some? && s.Floor().value <= last.row.srtpIndex.value)
  {
    AlwaysFenced(world, ms);
  }

  predicate Outdated(world: World, id: nat) {
    && Fenced(world)
    && id in world.sessions
    && world.sessions[id].epoch != world.row.epoch
  }

  lemma OutdatedStep(world: World, m: Move, id: nat)
    requires Outdated(world, id)
    ensures Outdated(After(world, m), id)
    ensures m.Reports? && m.id == id ==> After(world, m) == world
  {
    FenceStep(world, m);
    RowRises(world, m);
  }

  /** A session once overtaken by a reset never changes the row again, whatever it reports. */
  lemma OutdatedSessionIsMute(world: World, ms: seq<Move>, i: nat, j: nat, id: nat)
    requires Opening(world) && i <= j < |ms|
    requires var w := Run(After, world, ms[..i]); id in w.sessions && w.sessions[id].epoch != w.row.epoch
    requires ms[j].Reports? && ms[j].id == id
    ensures Run(After, world, ms[..j + 1]) == Run(After, world, ms[..j])
  {
    AlwaysFenced(world, ms[..i]);
    var inv := t => Outdated(t, id);
    var any := (t: World, m: Move) => true;
    forall t, m | inv(t) && any(t, m)
      ensures inv(After(t, m))
    {
      OutdatedStep(t, m, id);
    }
    Keeps(After, inv, any, world, ms, i, j);
    RunStep(After, world, ms, j);
    OutdatedStep(Run(After, world, ms[..j]), ms[j], id);
  }

  // ---------------------------------------------------------------- what a report leaves behind

  /** What a move writes to the row, if anything. */
  function WriteOf(world: World, m: Move): seq<Write> {
    match m
    case Reports(id, index, key) =>
      if id in world.sessions && world.sessions[id].Running?
      then [Raising(index, key, world.sessions[id].epoch)] else []
    case Writes(w) => if w.Raising? then [] else [w]
    case _ => []
  }

  function WritesOf(world: World, ms: seq<Move>): seq<Write> {
    if ms == [] then []
    else
      var init := ms[..|ms| - 1];
      WritesOf(world, init) + WriteOf(Run(After, world, init), ms[|ms| - 1])
  }

  lemma MoveIsItsWrite(world: World, m: Move)
    ensures After(world, m).row == Run(Written, world.row, WriteOf(world, m))
  {
    var ws := WriteOf(world, m);
    if ws != [] {
      assert ws == [ws[0]] && ws[..0] == [];
      RunStep(Written, world.row, ws, 0);
      assert ws[..1] == ws;
    }
  }

  /** The row after a run of sessions is the row after what they wrote. */
  lemma {:induction false} RowIsWritten(world: World, ms: seq<Move>)
    ensures Run(After, world, ms).row == Run(Written, world.row, WritesOf(world, ms))
  {
    if ms == [] {
    } else {
      var init := ms[..|ms| - 1];
      RowIsWritten(world, init);
      MoveIsItsWrite(Run(After, world, init), ms[|ms| - 1]);
      RunAppend(Written, world.row, WritesOf(world, init), WriteOf(Run(After, world, init), ms[|ms| - 1]));
    }
  }

  /** Move `r` is a report of this index for this key, by a session that runs under `epoch`. */
  predicate ReportsAt(world: World, ms: seq<Move>, r: nat, index: PacketIndex48, key: Key, epoch: Option<int>) {
    && r < |ms| && ms[r].Reports? && ms[r].index == index && ms[r].key == key
    && var sessions := Run(After, world, ms[..r]).sessions;
       ms[r].id in sessions && sessions[ms[r].id].Running? && sessions[ms[r].id].epoch == epoch
  }

  /** The row at move `k` is the one the report made, with what was written since. */
  lemma SinceTheReport(world: World, ms: seq<Move>, r: nat, k: nat, index: PacketIndex48, key: Key, epoch: Option<int>)
    returns (ws: seq<Write>)
    requires Opening(world) && r < k <= |ms| && ReportsAt(world, ms, r, index, key, epoch)
    ensures var row := Run(After, world, ms[..r]).row;
            && WellFormed(row) && AtMost(epoch, row.epoch)
            && Run(After, world, ms[..k]).row == Run(Written, Raise(row, index, key, epoch).0, ws)
  {
    AlwaysFenced(world, ms[..r]);
    RunStep(After, world, ms, r);
    var reported := Run(After, world, ms[..r + 1]);
    RowIsWritten(reported, ms[r + 1..k]);
    assert ms[..r + 1] + ms[r + 1..k] == ms[..k];
    RunAppend(After, world, ms[..r + 1], ms[r + 1..k]);
    ws := WritesOf(reported, ms[r + 1..k]);
  }
}
