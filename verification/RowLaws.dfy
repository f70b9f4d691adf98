/** Exactly when each conditional write on a row goes through, and what it leaves behind. */
module RowLaws {
  import opened Wrappers
  import opened PacketIndex
  import opened StreamRow
  import opened FloorHistory

  // ---------------------------------------------------------------- the lease

  /** Somebody else owns the row, and his lease has not gone stale. */
  predicate StandsAgainst(row: Row, id: InstanceId, now: int) {
    && row.owner.Some? && row.owner.value != id
    && (row.lastPacketTime.None? || now - row.lastPacketTime.value <= 5 * 60 * 1000)
  }

  /** A lock is granted to whoever asks, but against another's standing lease. */
  lemma GrantedUnlessHeld(row: Row, id: InstanceId, now: int)
    ensures Acquire(row, id, now).1 <==> !StandsAgainst(row, id, now)
    ensures Acquire(row, id, now).1 ==>
              var after := Acquire(row, id, now).0;
              && after.owner == Some(id) && after.lastPacketTime == Some(now) && after.status == Some(Active)
              && SameFloor(row, after)
    ensures !Acquire(row, id, now).1 ==> Acquire(row, id, now).0 == row
  {
  }

  /** For as long as a lease stands, counted from the moment it was written, no one else is granted the lock. */
  lemma GrantStands(row: Row, id: InstanceId, now: int, other: InstanceId, later: int)
    requires Acquire(row, id, now).1 && other != id
    ensures Acquire(Acquire(row, id, now).0, other, later).1 <==> later - now > 5 * 60 * 1000
    ensures Acquire(Acquire(row, id, now).0, id, later).1
  {
    GrantedUnlessHeld(Acquire(row, id, now).0, other, later);
  }

  /** What the owner renews stands again from then on, and nobody else can renew it. */
  lemma RenewedByOwnerOnly(row: Row, id: InstanceId, now: int, other: InstanceId, later: int)
    ensures Refresh(row, id, now).1 <==> row.owner == Some(id)
    ensures !Refresh(row, id, now).1 ==> Refresh(row, id, now).0 == row
    ensures Refresh(row, id, now).1 ==>
              var after := Refresh(row, id, now).0;
              && after.owner == Some(id) && after.status == Some(Active) && SameFloor(row, after)
              && (other != id ==> (Acquire(after, other, later).1 <==> later - now > 5 * 60 * 1000))
  {
  }

  /** Only the owner's release frees the row, and then anybody may have the lock, whatever the lease. */
  lemma ReleasedByOwnerOnly(row: Row, id: InstanceId, other: InstanceId, later: int)
    ensures Release(row, id).1 <==> row.owner == Some(id)
    ensures !Release(row, id).1 ==> Release(row, id).0 == row
    ensures Release(row, id).1 ==>
              var after := Release(row, id).0;
              && after.owner.None? && after.status == Some(Inactive) && after.lastPacketTime == row.lastPacketTime
              && SameFloor(row, after) && Acquire(after, other, later).1
  {
    GrantedUnlessHeld(Release(row, id).0, other, later);
  }

  /** The cleanup frees the active rows whose lease is older than the threshold, and no others. */
  lemma CleanedIfStale(row: Row, threshold: int, other: InstanceId, later: int)
    ensures Clean(row, threshold).1 <==>
              row.status == Some(Active) && row.lastPacketTime.Some? && row.lastPacketTime.value < threshold
    ensures !Clean(row, threshold).1 ==> Clean(row, threshold).0 == row
    ensures Clean(row, threshold).1 ==>
              var after := Clean(row, threshold).0;
              && after.owner.None? && after.status == Some(Inactive) && after.lastPacketTime == row.lastPacketTime
              && SameFloor(row, after) && Acquire(after, other, later).1 && !Clean(after, threshold).1
  {
  }

  /** Writes on the lease leave the floor, and writes on the floor the lease. */
  lemma LeaseAndFloorApart(row: Row, w: Write)
    ensures TouchesFloor(w) ==>
              var after := Written(row, w);
              after.owner == row.owner && after.lastPacketTime == row.lastPacketTime && after.status == row.status
    ensures !TouchesFloor(w) ==> SameFloor(row, Written(row, w))
  {
  }

  // ---------------------------------------------------------------- the floor

  /** The floor this write would make comes after the row's: a newer key, or a higher index of the same. */
  predicate IsAhead(row: Row, index: nat, key: Key) {
    || Less(row.generation, Some(key.generation))
    || (IsFor(row, key) && Less(row.srtpIndex, Some(index)))
  }

  /** A raise goes through when it is made under the row's epoch and is ahead of the row, or the row has no floor. */
  lemma RaisedIffAhead(row: Row, index: nat, key: Key, epoch: Option<int>)
    requires WellFormed(row)
    ensures Raise(row, index, key, epoch).1 <==> epoch == row.epoch && (row.srtpIndex.None? || IsAhead(row, index, key))
    ensures !Raise(row, index, key, epoch).1 ==> Raise(row, index, key, epoch).0 == row
    ensures Raise(row, index, key, epoch).1 ==>
              var after := Raise(row, index, key, epoch).0;
              IsFor(after, key) && after.srtpIndex == Some(index) && after.epoch == row.epoch
  {
  }

  /** A reset goes through when it is newer than the last, and its key no older than the row's. */
  lemma ResetIffNewer(row: Row, at: int, index: nat, key: Key)
    ensures Reset(row, at, index, key).1 <==>
              && Less(row.epoch, Some(at))
              && (row.generation == Some(key.generation) || Less(row.generation, Some(key.generation)))
    ensures !Reset(row, at, index, key).1 ==> Reset(row, at, index, key).0 == row
    ensures Reset(row, at, index, key).1 ==>
              var after := Reset(row, at, index, key).0;
              IsFor(after, key) && after.srtpIndex == Some(index) && after.epoch == Some(at)
  {
  }

  /** A floor is read back as it was written, by its own key and by no other. */
  lemma ReadAsWritten(row: Row, index: PacketIndex48, key: Key, ssrc: nat, fingerprint: string)
    requires IsFor(row, key) && row.srtpIndex == Some(index)
    ensures ReadFloor(row, ssrc, fingerprint)
         == if ssrc == key.ssrc && fingerprint == key.fingerprint then Some(index) else None
  {
  }

  /** And an epoch as it was set, if it is an integer the client can hold; none is read where none was set. */
  lemma EpochAsSet(row: Row)
    ensures row.epoch.None? ==> ReadEpoch(row).None?
    ensures row.epoch.Some? ==>
              ReadEpoch(row) == if -MAX_SAFE_INTEGER <= row.epoch.value <= MAX_SAFE_INTEGER then row.epoch else None
    ensures row.srtpIndex.None? ==> forall ssrc, fingerprint :: ReadFloor(row, ssrc, fingerprint).None?
  {
  }

  /** A report on a row that has no floor yet, or none of this key, is the floor from then on. */
  lemma FirstReportIsTheFloor(row: Row, index: PacketIndex48, key: Key, epoch: Option<int>)
    requires WellFormed(row) && row.epoch == epoch && Less(row.generation, Some(key.generation))
    ensures ReadFloor(Raise(row, index, key, epoch).0, key.ssrc, key.fingerprint) == Some(index)
  {
    RaisedIffAhead(row, index, key, epoch);
    ReadAsWritten(Raise(row, index, key, epoch).0, index, key, key.ssrc, key.fingerprint);
  }
}
