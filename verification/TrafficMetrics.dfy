/**
 * Received bytes per transport: counted, snapshotted into a request, and put back when the
 * request fails.
 */
module TrafficMetrics {
  import opened Wrappers

  /** A transport's name: `unencrypted`, `srtp`, or any other string. */
  datatype Transport = Unencrypted | Srtp | Other(name: string)

  const UNENCRYPTED_TRANSPORT := Unencrypted
  const SRTP_TRANSPORT := Srtp

  datatype Sample = Sample(transport: Transport, bytes: nat, serving: nat)

  /**
   * The publisher's maps, in insertion order; how many publishes wait their turn; the samples
   * of the request whose answer is awaited; and how many requests got through.
   */
  datatype Ledger = Ledger(
    order: seq<Transport>,
    received: map<Transport, nat>,
    serving: map<Transport, bool>,
    waiting: nat,
    inFlight: Option<seq<Sample>>,
    publishCount: nat
  )

  predicate Distinct<T(==)>(xs: seq<T>) {
    forall i, j :: 0 <= i < j < |xs| ==> xs[i] != xs[j]
  }

  /** The map's keys, in order, led by the two transports. */
  ghost predicate Ordered(order: seq<Transport>, received: map<Transport, nat>) {
    && Distinct(order)
    && (forall t :: t in order <==> t in received)
    && [UNENCRYPTED_TRANSPORT, SRTP_TRANSPORT] <= order
  }

  ghost predicate WellFormed(l: Ledger) {
    Ordered(l.order, l.received) && (l.inFlight.Some? ==> CoversTransports(l.inFlight.value))
  }

  /** A request that reports on both transports. */
  predicate CoversTransports(samples: seq<Sample>) {
    && |samples| >= 2
    && samples[0].transport == UNENCRYPTED_TRANSPORT
    && samples[1].transport == SRTP_TRANSPORT
  }

  function Fresh(): Ledger {
    Ledger([UNENCRYPTED_TRANSPORT, SRTP_TRANSPORT],
           map[UNENCRYPTED_TRANSPORT := 0, SRTP_TRANSPORT := 0],
           map[UNENCRYPTED_TRANSPORT := false, SRTP_TRANSPORT := false], 0, None, 0)
  }

  lemma FreshIsWellFormed()
    ensures WellFormed(Fresh())
  {
  }

  function Pending(l: Ledger, transport: Transport): nat {
    if transport in l.received then l.received[transport] else 0
  }

  function Record(l: Ledger, transport: Transport, bytes: nat): Ledger {
    l.(received := l.received[transport := Pending(l, transport) + bytes],
       order := if transport in l.received then l.order else l.order + [transport])
  }

  function SampleFor(l: Ledger, transport: Transport): Sample {
    Sample(transport, Pending(l, transport),
           if transport in l.serving && l.serving[transport] then 1 else 0)
  }

  function Samples(l: Ledger, n: nat): seq<Sample>
    requires n <= |l.order|
  {
    seq(n, i requires 0 <= i < n => SampleFor(l, l.order[i]))
  }

  /** The snapshot is taken and the counters cleared before the request is awaited. */
  function Begin(l: Ledger, hasClient: bool): Ledger {
    if l.waiting == 0 || l.inFlight.Some? then l
    else if !hasClient then l.(waiting := l.waiting - 1)
    else l.(waiting := l.waiting - 1,
            received := map t | t in l.received :: 0,
            inFlight := Some(Samples(l, |l.order|)))
  }

  function Restore(l: Ledger, samples: seq<Sample>): Ledger
    decreases |samples|
  {
    if samples == [] then l
    else
      var rest, s := Restore(l, samples[..|samples| - 1]), samples[|samples| - 1];
      if s.bytes > 0 then Record(rest, s.transport, s.bytes) else rest
  }

  function Complete(l: Ledger, ok: bool): Ledger {
    if l.inFlight.None? then l
    else if ok then l.(inFlight := None, publishCount := l.publishCount + 1)
    else Restore(l.(inFlight := None), l.inFlight.value)
  }

  class TrafficMetrics {
    const hasClient: bool
    var order: seq<Transport>
    var received: map<Transport, nat>
    var serving: map<Transport, bool>
    var waiting: nat
    var inFlight: Option<seq<Sample>>
    var publishCount: nat

    function View(): Ledger
      reads this
    {
      Ledger(order, received, serving, waiting, inFlight, publishCount)
    }

    ghost predicate Valid()
      reads this
    {
      WellFormed(View())
    }

    constructor (hasClient: bool)
      ensures Valid() && View() == Fresh() && this.hasClient == hasClient
    {
      FreshIsWellFormed();
      this.hasClient := hasClient;
      order := [UNENCRYPTED_TRANSPORT, SRTP_TRANSPORT];
      received := map[UNENCRYPTED_TRANSPORT := 0, SRTP_TRANSPORT := 0];
      serving := map[UNENCRYPTED_TRANSPORT := false, SRTP_TRANSPORT := false];
      waiting, inFlight, publishCount := 0, None, 0;
    }

    method RecordReceived(transport: Transport, bytes: nat)
      requires Valid()
      modifies this
      ensures Valid() && View() == Record(old(View()), transport, bytes)
    {
      RecordKeepsOrder(View(), transport, bytes);
      if transport in received {
        received := received[transport := received[transport] + bytes];
      } else {
        received := received[transport := bytes];
        order := order + [transport];
      }
    }

    method SetServing(transport: Transport, value: bool)
      requires Valid()
      modifies this
      ensures Valid() && View() == old(View()).(serving := old(serving)[transport := value])
    {
      serving := serving[transport := value];
    }

    /** Queues a publish behind those already asked for. */
    method Publish()
      requires Valid()
      modifies this
      ensures Valid() && View() == old(View()).(waiting := old(waiting) + 1)
    {
      waiting := waiting + 1;
    }

    /** What is about to be published, in insertion order. */
    method Snapshot() returns (samples: seq<Sample>)
      requires Valid()
      ensures samples == Samples(View(), |order|)
    {
      samples := [];
      for i := 0 to |order|
        invariant samples == Samples(View(), i)
      {
        var t := order[i];
        samples := samples + [Sample(t, received[t], if t in serving && serving[t] then 1 else 0)];
      }
    }

    method ClearReceived()
      requires Valid()
      modifies this`received
      ensures Valid() && received == map t | t in old(received) :: 0
    {
      ghost var was := received;
      for i := 0 to |order|
        invariant received.Keys == was.Keys
        invariant forall t :: t in order[..i] ==> received[t] == 0
      {
        received := received[order[i] := 0];
      }
      assert order[..|order|] == order;
    }

    /** The next queued publish, up to the request it awaits. */
    method BeginPublish()
      requires Valid()
      modifies this
      ensures Valid() && View() == Begin(old(View()), hasClient)
    {
      if waiting == 0 || inFlight.Some? {
        return;
      }
      BeginKeepsOrder(View(), hasClient);
      if hasClient {
        var samples := Snapshot();
        ClearReceived();
        inFlight := Some(samples);
      }
      waiting := waiting - 1;
    }

    /** The answer to the awaited request. */
    method CompletePublish(ok: bool)
      requires Valid()
      modifies this
      ensures Valid() && View() == Complete(old(View()), ok)
    {
      if inFlight.None? {
        return;
      }
      var samples := inFlight.value;
      inFlight := None;
      if ok {
        publishCount := publishCount + 1;
        return;
      }
      ghost var was := View();
      assert samples[..0] == [];
      for i := 0 to |samples|
        invariant Valid() && View() == Restore(was, samples[..i])
      {
        assert samples[..i + 1][..i] == samples[..i];
        if samples[i].bytes > 0 {
          RecordReceived(samples[i].transport, samples[i].bytes);
        }
      }
      assert samples[..|samples|] == samples;
    }
  }

  // ---------------------------------------------------------------- what the steps keep

  lemma RecordKeepsOrder(l: Ledger, transport: Transport, bytes: nat)
    requires WellFormed(l)
    ensures WellFormed(Record(l, transport, bytes))
  {
  }

  lemma {:induction false} RestoreKeepsOrder(l: Ledger, samples: seq<Sample>)
    requires WellFormed(l)
    ensures WellFormed(Restore(l, samples))
  {
    if samples == [] {
    } else {
      RestoreKeepsOrder(l, samples[..|samples| - 1]);
    }
  }

  lemma BeginKeepsOrder(l: Ledger, hasClient: bool)
    requires WellFormed(l)
    ensures WellFormed(Begin(l, hasClient))
  {
  }

  // ---------------------------------------------------------------- where the bytes are

  /** What these samples say of a transport. */
  function Bytes(samples: seq<Sample>, transport: Transport): nat {
    if samples == [] then 0
    else
      var last := samples[|samples| - 1];
      Bytes(samples[..|samples| - 1], transport) + (if last.transport == transport then last.bytes else 0)
  }

  function InFlight(l: Ledger, transport: Transport): nat {
    if l.inFlight.None? then 0 else Bytes(l.inFlight.value, transport)
  }

  /** What has been counted and not yet answered for. */
  function Held(l: Ledger, transport: Transport): nat {
    Pending(l, transport) + InFlight(l, transport)
  }

  lemma {:induction false} SnapshotOf(l: Ledger, n: nat, transport: Transport)
    requires Distinct(l.order) && n <= |l.order|
    ensures Bytes(Samples(l, n), transport) == if transport in l.order[..n] then Pending(l, transport) else 0
  {
    if n == 0 {
    } else {
      var samples := Samples(l, n);
      assert samples[..n - 1] == Samples(l, n - 1);
      SnapshotOf(l, n - 1, transport);
      assert l.order[..n] == l.order[..n - 1] + [l.order[n - 1]];
    }
  }

  lemma {:induction false} RestoredBytes(l: Ledger, samples: seq<Sample>, transport: Transport)
    ensures Pending(Restore(l, samples), transport) == Pending(l, transport) + Bytes(samples, transport)
    ensures Restore(l, samples).inFlight == l.inFlight
  {
    if samples == [] {
    } else {
      RestoredBytes(l, samples[..|samples| - 1], transport);
    }
  }

  lemma RecordAddsBytes(l: Ledger, to: Transport, bytes: nat, transport: Transport)
    ensures Held(Record(l, to, bytes), transport) == Held(l, transport) + if to == transport then bytes else 0
  {
  }

  /** Taking the snapshot moves every byte from the counters into the request. */
  lemma BeginMovesBytes(l: Ledger, hasClient: bool, transport: Transport)
    requires WellFormed(l)
    ensures Held(Begin(l, hasClient), transport) == Held(l, transport)
  {
    SnapshotOf(l, |l.order|, transport);
    assert l.order[..|l.order|] == l.order;
  }

  /** A request that fails gives every byte back; one that gets through carries them off. */
  lemma CompleteMovesBytes(l: Ledger, ok: bool, transport: Transport)
    ensures Held(Complete(l, ok), transport)
         == Held(l, transport) - (if ok then InFlight(l, transport) else 0)
  {
    if l.inFlight.Some? && !ok {
      RestoredBytes(l.(inFlight := None), l.inFlight.value, transport);
    }
  }
}
