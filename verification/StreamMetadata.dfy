/** The service each instance uses on the shared table, and the cleanup that sweeps it. */
module StreamMetadata {
  import opened Wrappers
  import opened StreamRow

  const UPDATE_THROTTLE_MS: int := 15_000

  /**
   * What becomes of a write that is sent: it reaches the table and is answered, it never
   * gets there, or it gets there and the answer is lost.
   */
  datatype Delivery = Answered | Undelivered | Unanswered

  datatype Acquisition = Acquired | HeldElsewhere | AcquireThrew
  datatype Release = Released | ReleaseThrew
  datatype LeaseOutcome = LeaseOk | LostLock | WriteError
  datatype ResetOutcome = FloorReset | Stale | ResetThrew

  function RowAt(rows: map<nat, Row>, port: nat): Row {
    if port in rows then rows[port] else NO_ROW
  }

  /** The table after one conditional write on a port's row. */
  function After(rows: map<nat, Row>, port: nat, w: Write, d: Delivery): map<nat, Row> {
    var (row, ok) := Apply(RowAt(rows, port), w);
    if ok && !d.Undelivered? then rows[port := row] else rows
  }

  /** Whether the write's condition would let it through. */
  predicate Passes(rows: map<nat, Row>, port: nat, w: Write) {
    Apply(RowAt(rows, port), w).1
  }

  predicate Throttled(last: map<nat, int>, port: nat, now: int) {
    now - (if port in last then last[port] else 0) < UPDATE_THROTTLE_MS
  }

  class Table {
    var rows: map<nat, Row>

    constructor ()
      ensures rows == map[]
    {
      rows := map[];
    }

    /** Sends one conditional write. */
    method Send(port: nat, w: Write, d: Delivery) returns (answer: Option<bool>)
      modifies this
      ensures rows == After(old(rows), port, w, d)
      ensures answer == if d.Answered? then Some(Passes(old(rows), port, w)) else None
    {
      if d.Undelivered? {
        return None;
      }
      var (row, ok) := Apply(RowAt(rows, port), w);
      if ok {
        rows := rows[port := row];
      }
      answer := if d.Answered? then Some(ok) else None;
    }
  }

  class StreamMetadataService {
    const table: Table
    var lastUpdateTimes: map<nat, int>

    constructor (table: Table)
      ensures this.table == table && lastUpdateTimes == map[]
    {
      this.table := table;
      lastUpdateTimes := map[];
    }

    method TryAcquireKinesisLock(port: nat, id: InstanceId, now: int, d: Delivery) returns (r: Acquisition)
      modifies table
      ensures table.rows == After(old(table.rows), port, Acquiring(id, now), d)
      ensures r == if !d.Answered? then AcquireThrew
                   else if Passes(old(table.rows), port, Acquiring(id, now)) then Acquired else HeldElsewhere
    {
      var answer := table.Send(port, Acquiring(id, now), d);
      r := match answer
        case None => AcquireThrew
        case Some(ok) => if ok then Acquired else HeldElsewhere;
    }

    method ReleaseKinesisLock(port: nat, id: InstanceId, d: Delivery) returns (r: Release)
      modifies table
      ensures table.rows == After(old(table.rows), port, Releasing(id), d)
      ensures r == if d.Answered? then Released else ReleaseThrew
    {
      var answer := table.Send(port, Releasing(id), d);
      r := if answer.None? then ReleaseThrew else Released;
    }

    /**
     * Refreshes the lease, at most once per throttle interval; a refresh that does not
     * come back good clears the throttle so that the next one is sent at once.
     */
    method UpdateLastPacketTime(port: nat, id: InstanceId, now: int, d: Delivery) returns (r: LeaseOutcome)
      modifies this, table
      ensures Throttled(old(lastUpdateTimes), port, now) ==>
                r == LeaseOk && table.rows == old(table.rows) && lastUpdateTimes == old(lastUpdateTimes)
      ensures !Throttled(old(lastUpdateTimes), port, now) ==>
                && table.rows == After(old(table.rows), port, Refreshing(id, now), d)
                && r == (if !d.Answered? then WriteError
                         else if RowAt(old(table.rows), port).owner == Some(id) then LeaseOk else LostLock)
                && lastUpdateTimes == (if r.LeaseOk? then old(lastUpdateTimes)[port := now]
                                       else old(lastUpdateTimes) - {port})
    {
      var lastUpdate := if port in lastUpdateTimes then lastUpdateTimes[port] else 0;
      if now - lastUpdate < UPDATE_THROTTLE_MS {
        return LeaseOk;
      }
      lastUpdateTimes := lastUpdateTimes[port := now];
      var answer := table.Send(port, Refreshing(id, now), d);
      if answer == Some(true) {
        return LeaseOk;
      }
      lastUpdateTimes := lastUpdateTimes - {port};
      r := if answer.None? then WriteError else LostLock;
    }

    /** Absent stands for a floor never reached under this key; a failed read is its own answer. */
    method GetSrtpIndexFloor(port: nat, ssrc: nat, fingerprint: string, d: Delivery) returns (r: Option<Option<nat>>)
      ensures r == if d.Answered? then Some(ReadFloor(RowAt(table.rows, port), ssrc, fingerprint)) else None
    {
      if !d.Answered? {
        return None;
      }
      if port !in table.rows {
        return Some(None);
      }
      var item := table.rows[port];
      if item.srtpIndex.None? || item.srtpIndex.value > MAX_SAFE_INTEGER {
        return Some(None);
      }
      if item.srtpIndex.value < 0 {
        return Some(None);
      }
      if item.ssrc != Some(ssrc) {
        return Some(None);
      }
      if item.fingerprint != Some(fingerprint) {
        return Some(None);
      }
      return Some(Some(item.srtpIndex.value));
    }

    method GetSrtpFloorEpoch(port: nat, d: Delivery) returns (r: Option<Option<int>>)
      ensures r == if d.Answered? then Some(ReadEpoch(RowAt(table.rows, port))) else None
    {
      if !d.Answered? {
        return None;
      }
      var epoch := RowAt(table.rows, port).epoch;
      return Some(if epoch.Some? && -MAX_SAFE_INTEGER <= epoch.value <= MAX_SAFE_INTEGER then epoch else None);
    }

    method ResetSrtpIndexFloor(port: nat, at: int, index: PacketIndex48, key: Key, d: Delivery) returns (r: ResetOutcome)
      modifies table
      ensures table.rows == After(old(table.rows), port, Resetting(at, index, key), d)
      ensures r == if !d.Answered? then ResetThrew
                   else if Passes(old(table.rows), port, Resetting(at, index, key)) then FloorReset else Stale
    {
      var answer := table.Send(port, Resetting(at, index, key), d);
      r := match answer
        case None => ResetThrew
        case Some(ok) => if ok then FloorReset else Stale;
    }

    /** Best effort: neither a refused condition nor a failed write is reported. */
    method RaiseSrtpIndexFloor(port: nat, index: PacketIndex48, key: Key, epoch: Option<int>, d: Delivery)
      modifies table
      ensures table.rows == After(old(table.rows), port, Raising(index, key, epoch), d)
    {
      var _ := table.Send(port, Raising(index, key, epoch), d);
    }
  }

  // ---------------------------------------------------------------- cleanup

  /** A row as the cleanup's scan saw it, at some earlier moment. */
  datatype Scanned = Scanned(port: nat, row: Row)

  /** The table after the cleanup has gone through `items`, and how many rows it cleaned. */
  function Cleaned(rows: map<nat, Row>, items: seq<Scanned>, threshold: int): (map<nat, Row>, nat) {
    if items == [] then (rows, 0)
    else
      var (before, n) := Cleaned(rows, items[..|items| - 1], threshold);
      var item := items[|items| - 1];
      if IsStale(item.row, threshold) && Passes(before, item.port, Cleaning(threshold)) then
        (After(before, item.port, Cleaning(threshold), Answered), n + 1)
      else (before, n)
  }

  /** Removes the owner of every scanned row whose lease is stale and still is when written. */
  method CleanInactive(table: Table, items: seq<Scanned>, now: int) returns (cleaned: nat, total: nat)
    modifies table
    ensures (table.rows, cleaned) == Cleaned(old(table.rows), items, now - KINESIS_LOCK_STALE_MS)
    ensures total == |items|
  {
    var threshold := now - KINESIS_LOCK_STALE_MS;
    cleaned := 0;
    for i := 0 to |items|
      invariant (table.rows, cleaned) == Cleaned(old(table.rows), items[..i], threshold)
    {
      assert items[..i + 1][..i] == items[..i];
      var item := items[i];
      if item.row.lastPacketTime.None? {
        continue;
      }
      if item.row.lastPacketTime.value >= threshold {
        continue;
      }
      var answer := table.Send(item.port, Cleaning(threshold), Answered);
      if answer == Some(false) {
        continue;
      }
      cleaned := cleaned + 1;
    }
    assert items[..|items|] == items;
    total := |items|;
  }

  /** What a sweep leaves alone: every lease that was not stale when the sweep began. */
  lemma {:induction false} SweepSparesFreshLeases(rows: map<nat, Row>, items: seq<Scanned>, threshold: int, port: nat)
    ensures !IsStale(RowAt(rows, port), threshold)
        ==> RowAt(Cleaned(rows, items, threshold).0, port) == RowAt(rows, port)
    ensures RowAt(Cleaned(rows, items, threshold).0, port).owner in {None, RowAt(rows, port).owner}
    ensures Cleaned(rows, items, threshold).1 <= |items|
  {
    if items == [] {
    } else {
      SweepSparesFreshLeases(rows, items[..|items| - 1], threshold, port);
    }
  }

  /** Some item of the scan says that this port's lease was stale. */
  predicate IsListed(items: seq<Scanned>, threshold: int, port: nat) {
    exists i :: 0 <= i < |items| && items[i].port == port && IsStale(items[i].row, threshold)
  }

  /** And what it does not: every port listed is freed, if its lease is stale still. */
  lemma {:induction false} SweepFreesListed(rows: map<nat, Row>, items: seq<Scanned>, threshold: int, port: nat)
    requires IsListed(items, threshold, port)
    ensures var (swept, _) := Cleaned(rows, items, threshold);
            RowAt(swept, port) == Apply(RowAt(rows, port), Cleaning(threshold)).0
  {
    var init, item := items[..|items| - 1], items[|items| - 1];
    if IsListed(init, threshold, port) {
      SweepFreesListed(rows, init, threshold, port);
    } else {
      UnlistedIsLeft(rows, init, threshold, port);
    }
  }

  lemma {:induction false} UnlistedIsLeft(rows: map<nat, Row>, items: seq<Scanned>, threshold: int, port: nat)
    requires !IsListed(items, threshold, port)
    ensures RowAt(Cleaned(rows, items, threshold).0, port) == RowAt(rows, port)
  {
    if items == [] {
    } else {
      var init := items[..|items| - 1];
      assert forall i :: 0 <= i < |init| ==> init[i] == items[i];
      UnlistedIsLeft(rows, init, threshold, port);
      assert items[|items| - 1].port == port ==> !IsStale(items[|items| - 1].row, threshold);
    }
  }

  /** The ports among these whose rows the cleanup's condition lets it free. */
  function Freed(rows: map<nat, Row>, items: seq<Scanned>, threshold: int): nat {
    if items == [] then 0
    else
      var item := items[|items| - 1];
      Freed(rows, items[..|items| - 1], threshold)
      + if IsStale(item.row, threshold) && Passes(rows, item.port, Cleaning(threshold)) then 1 else 0
  }

  /** The count returned is of the rows freed, each port being scanned once. */
  lemma {:induction false} SweepCountsFreed(rows: map<nat, Row>, items: seq<Scanned>, threshold: int)
    requires forall i, j :: 0 <= i < j < |items| ==> items[i].port != items[j].port
    ensures Cleaned(rows, items, threshold).1 == Freed(rows, items, threshold)
  {
    if items == [] {
    } else {
      var init, item := items[..|items| - 1], items[|items| - 1];
      assert forall i :: 0 <= i < |init| ==> init[i] == items[i];
      SweepCountsFreed(rows, init, threshold);
      UnlistedIsLeft(rows, init, threshold, item.port);
    }
  }
}
