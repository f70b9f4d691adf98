/**
 * One port's row in the shared table, and the conditional writes made on it: the lease on
 * the Kinesis stream, and the replay floor with the fences that guard it. Each function is
 * one atomic write: the row after it, and whether its condition let it through.
 */
module StreamRow {
  import opened Wrappers
  import opened PacketIndex

  /** Five minutes without a lease refresh and another instance may take the lock. */
  const KINESIS_LOCK_STALE_MS: int := 300_000
  /** The largest integer a JavaScript number holds exactly with all its neighbours. */
  const MAX_SAFE_INTEGER: int := 0x1F_FFFF_FFFF_FFFF

  type InstanceId = string
  type PacketIndex48 = n: nat | n <= INDEX_MAX

  datatype Status = Active | Inactive

  /** A row; a port without one is a row without attributes. */
  datatype Row = Row(
    status: Option<Status>,
    lastPacketTime: Option<int>,
    owner: Option<InstanceId>,
    srtpIndex: Option<int>,
    ssrc: Option<nat>,
    fingerprint: Option<string>,
    generation: Option<int>,
    epoch: Option<int>
  )

  const NO_ROW := Row(None, None, None, None, None, None, None, None)

  /** A key's identity, as the floor is kept under it. */
  datatype Key = Key(ssrc: nat, fingerprint: string, generation: int)

  // ---------------------------------------------------------------- the lease

  predicate IsStale(row: Row, threshold: int) {
    row.lastPacketTime.Some? && row.lastPacketTime.value < threshold
  }

  /** `stamp` is the clock when the write was requested, and what it writes as the lease. */
  function Acquire(row: Row, id: InstanceId, stamp: int): (Row, bool) {
    if row.owner.None? || row.owner == Some(id) || IsStale(row, stamp - KINESIS_LOCK_STALE_MS) then
      (row.(owner := Some(id), lastPacketTime := Some(stamp), status := Some(Active)), true)
    else (row, false)
  }

  function Refresh(row: Row, id: InstanceId, stamp: int): (Row, bool) {
    if row.owner == Some(id) then (row.(status := Some(Active), lastPacketTime := Some(stamp)), true)
    else (row, false)
  }

  function Release(row: Row, id: InstanceId): (Row, bool) {
    if row.owner == Some(id) then (row.(owner := None, status := Some(Inactive)), true) else (row, false)
  }

  /** The cleanup's removal of an owner whose lease is older than `threshold`. */
  function Clean(row: Row, threshold: int): (Row, bool) {
    if row.status == Some(Active) && IsStale(row, threshold) then
      (row.(owner := None, status := Some(Inactive)), true)
    else (row, false)
  }

  // ---------------------------------------------------------------- the floor

  function WithFloor(row: Row, index: nat, key: Key): Row {
    row.(srtpIndex := Some(index), ssrc := Some(key.ssrc), fingerprint := Some(key.fingerprint),
         generation := Some(key.generation))
  }

  /** A raise by a session started under `epoch`. */
  function Raise(row: Row, index: nat, key: Key, epoch: Option<int>): (Row, bool) {
    if && row.epoch == epoch
       && (|| row.srtpIndex.None?
           || row.generation.None?
           || row.generation.value < key.generation
           || (&& row.generation.value == key.generation
               && row.ssrc == Some(key.ssrc)
               && row.fingerprint == Some(key.fingerprint)
               && row.srtpIndex.value < index))
    then (WithFloor(row, index, key), true)
    else (row, false)
  }

  /** A reset requested at `at`, which becomes the row's epoch. */
  function Reset(row: Row, at: int, index: nat, key: Key): (Row, bool) {
    if && (row.epoch.None? || row.epoch.value < at)
       && (row.generation.None? || row.generation.value <= key.generation)
    then (WithFloor(row, index, key).(epoch := Some(at)), true)
    else (row, false)
  }

  /** The floor a helper for this key starts from; nothing when the row describes another key. */
  function ReadFloor(row: Row, ssrc: nat, fingerprint: string): Option<nat> {
    if row.srtpIndex.None? || row.srtpIndex.value > MAX_SAFE_INTEGER || row.srtpIndex.value < 0 then None
    else if row.ssrc != Some(ssrc) || row.fingerprint != Some(fingerprint) then None
    else Some(row.srtpIndex.value)
  }

  function ReadEpoch(row: Row): Option<int> {
    if row.epoch.Some? && -MAX_SAFE_INTEGER <= row.epoch.value <= MAX_SAFE_INTEGER then row.epoch else None
  }

  // ---------------------------------------------------------------- any write

  datatype Write =
    | Acquiring(id: InstanceId, stamp: int)
    | Refreshing(id: InstanceId, stamp: int)
    | Releasing(id: InstanceId)
    | Cleaning(threshold: int)
    | Raising(index: PacketIndex48, key: Key, epoch: Option<int>)
    | Resetting(at: int, index: PacketIndex48, key: Key)

  function Apply(row: Row, w: Write): (Row, bool) {
    match w
    case Acquiring(id, stamp) => Acquire(row, id, stamp)
    case Refreshing(id, stamp) => Refresh(row, id, stamp)
    case Releasing(id) => Release(row, id)
    case Cleaning(threshold) => Clean(row, threshold)
    case Raising(index, key, epoch) => Raise(row, index, key, epoch)
    case Resetting(at, index, key) => Reset(row, at, index, key)
  }

  function Written(row: Row, w: Write): Row {
    Apply(row, w).0
  }
}
