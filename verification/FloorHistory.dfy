/** The replay floor over every run of writes on a row, by whatever instances and keys. */
module FloorHistory {
  import opened Wrappers
  import opened PacketIndex
  import opened StreamRow
  import opened Runs

  /** A row the service wrote: one with a key generation has a floor, and it is an index. */
  predicate WellFormed(row: Row) {
    && (row.generation.Some? ==> row.srtpIndex.Some?)
    && (row.srtpIndex.Some? ==> 0 <= row.srtpIndex.value <= INDEX_MAX)
  }

  /** Absent is lowest. */
  predicate Less(a: Option<int>, b: Option<int>) {
    b.Some? && (a.None? || a.value < b.value)
  }

  predicate AtMost(a: Option<int>, b: Option<int>) {
    a == b || Less(a, b)
  }

  /** The order floors rise in: by epoch, then by key generation, then by index. */
  predicate Below(a: Row, b: Row) {
    || Less(a.epoch, b.epoch)
    || (a.epoch == b.epoch && Less(a.generation, b.generation))
    || (a.epoch == b.epoch && a.generation == b.generation && Less(a.srtpIndex, b.srtpIndex))
  }

  predicate SameFloor(a: Row, b: Row) {
    && a.srtpIndex == b.srtpIndex && a.ssrc == b.ssrc && a.fingerprint == b.fingerprint
    && a.generation == b.generation && a.epoch == b.epoch
  }

  /** The floor is unchanged or strictly higher, and the key generation never falls. */
  predicate Risen(a: Row, b: Row) {
    (SameFloor(a, b) || Below(a, b)) && AtMost(a.generation, b.generation) && AtMost(a.epoch, b.epoch)
  }

  predicate TouchesFloor(w: Write) {
    w.Raising? || w.Resetting?
  }

  /** Every write let through to the floor raises it; every other write leaves it alone. */
  lemma EveryFloorWriteRaises(row: Row, w: Write)
    requires WellFormed(row)
    ensures WellFormed(Written(row, w))
    ensures if TouchesFloor(w) && Apply(row, w).1 then Below(row, Written(row, w)) else SameFloor(row, Written(row, w))
    ensures AtMost(row.generation, Written(row, w).generation)
    ensures AtMost(row.epoch, Written(row, w).epoch)
  {
  }

  lemma RisenTransitive(a: Row, b: Row, c: Row)
    requires Risen(a, b) && Risen(b, c)
    ensures Risen(a, c)
  {
  }

  function Before(row: Row, ws: seq<Write>, i: nat): Row
    requires i <= |ws|
  {
    Run(Written, row, ws[..i])
  }

  predicate LetThrough(row: Row, ws: seq<Write>, i: nat)
    requires i < |ws|
  {
    Apply(Before(row, ws, i), ws[i]).1
  }

  /** In every run the floor only rises. */
  lemma {:induction false} FloorsOnlyRise(row: Row, ws: seq<Write>, i: nat, n: nat)
    requires WellFormed(row) && i <= n <= |ws|
    ensures WellFormed(Before(row, ws, n))
    ensures Risen(Before(row, ws, i), Before(row, ws, n))
    decreases n
  {
    if n == 0 {
    } else {
      RunStep(Written, row, ws, n - 1);
      FloorsOnlyRise(row, ws, if i < n then i else n - 1, n - 1);
      EveryFloorWriteRaises(Before(row, ws, n - 1), ws[n - 1]);
      if i < n {
        RisenTransitive(Before(row, ws, i), Before(row, ws, n - 1), Before(row, ws, n));
      }
    }
  }

  /** Of two resets that both land, the later one carries the larger timestamp: none lands twice. */
  lemma ResetLandsOnce(row: Row, ws: seq<Write>, i: nat, j: nat)
    requires WellFormed(row) && i < j < |ws|
    requires ws[i].Resetting? && LetThrough(row, ws, i)
    requires ws[j].Resetting? && LetThrough(row, ws, j)
    ensures ws[i].at < ws[j].at
  {
    FloorsOnlyRise(row, ws, 0, i);
    RunStep(Written, row, ws, i);
    FloorsOnlyRise(row, ws, i + 1, j);
  }

  /** A write from a superseded key, or one that arrives late, lowers nothing. */
  lemma StaleRaiseChangesNothing(row: Row, ws: seq<Write>, i: nat, j: nat)
    requires WellFormed(row) && i < j < |ws|
    requires ws[i].Raising? && LetThrough(row, ws, i) && ws[j].Raising?
    requires ws[j].epoch == ws[i].epoch
    requires ws[j].key.generation < ws[i].key.generation
          || (ws[j].key.generation == ws[i].key.generation && ws[j].index <= ws[i].index)
    ensures Before(row, ws, j + 1) == Before(row, ws, j)
  {
    FloorsOnlyRise(row, ws, 0, i);
    RunStep(Written, row, ws, i);
    FloorsOnlyRise(row, ws, i + 1, j);
    RunStep(Written, row, ws, j);
  }

  // ---------------------------------------------------------------- one generation under one epoch

  /** The row's floor is kept for this key. */
  predicate IsFor(row: Row, key: Key) {
    row.ssrc == Some(key.ssrc) && row.fingerprint == Some(key.fingerprint) && row.generation == Some(key.generation)
  }

  /** Neither a reset nor a newer key's raise: a stretch of one epoch and one generation. */
  predicate KeepsKey(w: Write, key: Key, epoch: Option<int>) {
    && !w.Resetting?
    && (w.Raising? && w.epoch == epoch ==> w.key.generation <= key.generation)
  }

  /** The largest of `start` and the raises made for this key under this epoch. */
  function HighestRaise(start: int, ws: seq<Write>, key: Key, epoch: Option<int>): int {
    if ws == [] then start
    else
      var w, h := ws[|ws| - 1], HighestRaise(start, ws[..|ws| - 1], key, epoch);
      if w.Raising? && w.key == key && w.epoch == epoch && w.index > h then w.index else h
  }

  /**
   * Within one generation and epoch the floor is the maximum of where it began - a reset's
   * value, say - and of the raises made under that epoch for that key; raises from before
   * the reset, whose sessions hold another epoch, count for nothing.
   */
  lemma {:induction false} FloorIsTheMaximum(row: Row, ws: seq<Write>, key: Key, epoch: Option<int>)
    requires row.srtpIndex.Some? && IsFor(row, key) && row.epoch == epoch
    requires forall i :: 0 <= i < |ws| ==> KeepsKey(ws[i], key, epoch)
    ensures var last := Run(Written, row, ws);
            && IsFor(last, key) && last.epoch == epoch
            && last.srtpIndex == Some(HighestRaise(row.srtpIndex.value, ws, key, epoch))
  {
    if ws == [] {
    } else {
      FloorIsTheMaximum(row, ws[..|ws| - 1], key, epoch);
      assert KeepsKey(ws[|ws| - 1], key, epoch);
    }
  }

  /**
   * From a reset that lands until the next one, or until a newer key reports: the floor is the
   * maximum of the reset's value and the raises made under its epoch for its key.
   */
  lemma ResetStartsStretch(row: Row, at: int, index: PacketIndex48, key: Key, ws: seq<Write>)
    requires Reset(row, at, index, key).1
    requires forall i :: 0 <= i < |ws| ==> KeepsKey(ws[i], key, Some(at))
    ensures var last := Run(Written, Reset(row, at, index, key).0, ws);
            && IsFor(last, key) && last.epoch == Some(at)
            && last.srtpIndex == Some(HighestRaise(index, ws, key, Some(at)))
            && index <= HighestRaise(index, ws, key, Some(at))
  {
    FloorIsTheMaximum(Reset(row, at, index, key).0, ws, key, Some(at));
    HighestRaiseGrows(index, ws, key, Some(at));
  }

  lemma {:induction false} HighestRaiseGrows(start: int, ws: seq<Write>, key: Key, epoch: Option<int>)
    ensures start <= HighestRaise(start, ws, key, epoch)
  {
    if ws == [] {
    } else {
      HighestRaiseGrows(start, ws[..|ws| - 1], key, epoch);
    }
  }

  // ---------------------------------------------------------------- restarts

  /**
   * Once a report of an index for a key has been answered - let through or refused - any
   * later start under the same key, while the row is still that key's generation and the
   * reporting session's epoch, reads a floor at least as high.
   */
  lemma CompletedReportHolds(row: Row, index: PacketIndex48, key: Key, epoch: Option<int>, ws: seq<Write>)
    requires WellFormed(row) && AtMost(epoch, row.epoch)
    requires var last := Run(Written, Raise(row, index, key, epoch).0, ws); IsFor(last, key) && last.epoch == epoch
    ensures var last := Run(Written, Raise(row, index, key, epoch).0, ws);
            && ReadFloor(last, key.ssrc, key.fingerprint).Some?
            && index <= ReadFloor(last, key.ssrc, key.fingerprint).value <= INDEX_MAX
  {
    var reported := Raise(row, index, key, epoch).0;
    assert reported == Written(row, Raising(index, key, epoch));
    EveryFloorWriteRaises(row, Raising(index, key, epoch));
    FloorsOnlyRise(reported, ws, 0, |ws|);
    assert ws[..|ws|] == ws && ws[..0] == [];
    IdentityIsFixed(reported, ws);
  }

  /** Who a floor belongs to changes only with its epoch or its generation. */
  lemma {:induction false} IdentityIsFixed(row: Row, ws: seq<Write>)
    requires WellFormed(row) && row.generation.Some?
    ensures var last := Run(Written, row, ws);
            last.epoch == row.epoch && last.generation == row.generation
            ==> last.ssrc == row.ssrc && last.fingerprint == row.fingerprint
  {
    if ws == [] {
    } else {
      var init := ws[..|ws| - 1];
      IdentityIsFixed(row, init);
      FloorsOnlyRise(row, ws, 0, |init|);
      EveryFloorWriteRaises(Run(Written, row, init), ws[|ws| - 1]);
    }
  }

  /**
   * Why the generation must still be the key's: a newer key's first report takes the row
   * over, and a helper of the old key started after that reads no floor at all - exactly
   * unless the two keys are the same sender's under the same fingerprint.
   */
  lemma NewerKeyHidesTheFloor(row: Row, index: PacketIndex48, older: Key, newer: Key, epoch: Option<int>)
    requires IsFor(row, older) && row.epoch == epoch && newer.generation > older.generation
    ensures var after := Raise(row, index, newer, epoch).0;
            && ReadFloor(after, newer.ssrc, newer.fingerprint) == Some(index)
            && (ReadFloor(after, older.ssrc, older.fingerprint).None?
                <==> newer.ssrc != older.ssrc || newer.fingerprint != older.fingerprint)
  {
  }
}
