/** From the request threads through the queue, the consumers and the wire to a collector: the queue of
    src/core.cc composed with the UDP exporter of src/otel_exporter.cc. */
module Pipeline {
  import opened Prelude
  import opened MessageQueues
  import Hex
  import Udp
  import OtelExporters

  /** Messages below this size are never cut short by the float computation of the shard count. */
  const EXACT_LIMIT: nat := 0x0100_0000

  const LIMIT: nat := OtelExporters.SIZE_LIMIT

  /** A serialised request with at least one resource starts with its field tag, byte 10. */
  predicate Serialised(message: string) {
    message != "" && message[0] == '\n'
  }

  /** What may have arrived: any sequence of datagrams that some export has sent, in any order, with any
      losses and repetitions. */
  ghost predicate Emitted(exported: seq<Delivery>, uuids: seq<seq<byte>>, d: string)
    requires |uuids| == |exported|
  {
    exists j :: 0 <= j < |exported| && |exported[j].data| < LIMIT &&
      d in OtelExporters.Datagrams(exported[j].data, Hex.Encoded(uuids[j]))
  }

  /** One fresh identifier of 16 bytes for each export. */
  ghost predicate FreshIds(uuids: seq<seq<byte>>) {
    Distinct(uuids) && forall u :: u in uuids ==> |u| == Udp.ID_BYTES
  }

  lemma DatagramsConcern(data: string, uuid: seq<byte>, d: string)
    requires |data| < LIMIT && |uuid| == Udp.ID_BYTES && Serialised(data)
    requires d in OtelExporters.Datagrams(data, Hex.Encoded(uuid))
    ensures Udp.Unwrap(d).None? ==> d == data
    ensures Udp.Unwrap(d).Some? ==> Udp.Unwrap(d).value.id == Hex.Encoded(uuid)
    ensures Udp.Unwrap(d).Some? <==> |data| > Udp.BLOCK
  {
    if |data| <= Udp.BLOCK {
      OtelExporters.RawIsNotShard(data);
    } else {
      OtelExporters.CountFits(data);
      var id, count := Hex.Encoded(uuid), OtelExporters.Conversions.ShardCount(|data|);
      hide OtelExporters.Conversions.ShardCount, Udp.Unwrap, Udp.IsShard, Udp.ShardText;
      OtelExporters.TwiceEachIsShards(data, id, count, count, d);
      var i: nat :| i < count && Udp.IsShard(d, data, id, count, i);
      Udp.UnwrapShard(d, data, id, count, i);
    }
  }

  /** Datagrams with one export's identifier come from that export. */
  lemma OwnDatagrams(exported: seq<Delivery>, uuids: seq<seq<byte>>, received: seq<string>, j: nat)
    requires |uuids| == |exported| && j < |uuids| && FreshIds(uuids)
    requires forall e :: e in exported ==> |e.data| < LIMIT && Serialised(e.data)
    requires forall d :: d in received ==> Emitted(exported, uuids, d)
    ensures forall d :: d in received && Udp.Concerns(d, Hex.Encoded(uuids[j])) ==>
              d in OtelExporters.Datagrams(exported[j].data, Hex.Encoded(uuids[j]))
  {
    hide OtelExporters.Datagrams, Udp.Unwrap;
    forall d | d in received && Udp.Concerns(d, Hex.Encoded(uuids[j]))
      ensures d in OtelExporters.Datagrams(exported[j].data, Hex.Encoded(uuids[j]))
    {
      assert Emitted(exported, uuids, d);
      var k :| 0 <= k < |exported| && d in OtelExporters.Datagrams(exported[k].data, Hex.Encoded(uuids[k]));
      assert exported[k] in exported && uuids[k] in uuids && uuids[j] in uuids;
      DatagramsConcern(exported[k].data, uuids[k], d);
      Hex.EncodeInjective(uuids[k], uuids[j]);
      assert uuids[k] == uuids[j];
      assert k == j;
    }
  }

  lemma {:induction false} Unconcerned(received: seq<string>, id: string)
    requires forall d :: d in received ==> !Udp.Concerns(d, id)
    ensures Udp.Reassemble(received, id) == None
  {
    hide Udp.Unwrap, Udp.Concerns;
    if received != [] {
      Unconcerned(received[..|received| - 1], id);
      assert Udp.Announced(received, id) == Udp.Announced(received[..|received| - 1], id);
    }
  }

  /** A payload the collector ends up with: a datagram that is no shard, or a complete set of shards. */
  ghost predicate Obtained(received: seq<string>, payload: string) {
    || (payload in received && Udp.Unwrap(payload).None?)
    || (exists id :: Udp.Reassemble(received, id) == Some(payload))
  }

  lemma {:induction false} InLog(log: seq<Delivery>, j: nat)
    requires j < |log|
    ensures log[j].data in Payloads(log)
  {
    var n := |log| - 1;
    if j < n {
      InLog(log[..n], j);
      assert log[..n][j] == log[j];
    }
  }

  /** Exported messages were accepted, so they are within the size of the queue. */
  lemma ExportedWasAccepted(config: Config, s: State, j: nat)
    requires Inv(config, s) && j < |s.exported|
    ensures s.exported[j].data in s.accepted && s.exported[j].data in s.offered
    ensures |s.exported[j].data| <= config.maxSize
  {
    var m := s.exported[j].data;
    InLog(s.exported, j);
    assert m in multiset(Payloads(s.exported));
    assert m in multiset(Payloads(s.received));
    assert m in Payloads(s.received);
    assert m in s.accepted;
    assert m in multiset(s.accepted);
    assert m in multiset(s.offered);
  }

  /** The state after a run of the queue, with the identifiers that its exports drew and what arrived. */
  ghost predicate Observed(config: Config, s: State, uuids: seq<seq<byte>>, received: seq<string>) {
    && Inv(config, s) && config.maxSize < LIMIT
    && (forall m :: m in s.offered ==> Serialised(m))
    && |uuids| == |s.exported| && FreshIds(uuids)
    && (forall e :: e in s.exported ==> |e.data| < LIMIT && Serialised(e.data))
    && (forall d :: d in received ==> Emitted(s.exported, uuids, d))
  }

  lemma RunObserved(config: Config, consumers: nat, run: seq<Step>) returns (s: State)
    requires CanRun(config, Initial(consumers), run) && config.maxSize < LIMIT
    requires forall m :: m in After(config, Initial(consumers), run).offered ==> Serialised(m)
    ensures s == After(config, Initial(consumers), run) && Inv(config, s)
    ensures forall e :: e in s.exported ==> |e.data| < LIMIT && Serialised(e.data)
  {
    NothingHeld(consumers);
    RunInv(config, Initial(consumers), run);
    s := After(config, Initial(consumers), run);
    hide CanRun, After, Inv;
    forall e | e in s.exported ensures |e.data| < LIMIT && Serialised(e.data) {
      var j :| 0 <= j < |s.exported| && s.exported[j] == e;
      ExportedWasAccepted(config, s, j);
    }
  }

  /** An accepted message, as far as its shards cover it. */
  ghost predicate ComesFrom(accepted: seq<string>, payload: string) {
    exists m :: m in accepted && OtelExporters.Delivered(m) == payload
  }

  /** Complete: a message whose datagrams all arrived, in whatever company, is obtained as far as its shards
      cover it. */
  lemma ArrivedIsObtained(config: Config, s: State, uuids: seq<seq<byte>>, received: seq<string>, j: nat)
    requires Observed(config, s, uuids, received) && j < |s.exported|
    requires forall d :: d in OtelExporters.Datagrams(s.exported[j].data, Hex.Encoded(uuids[j])) ==> d in received
    ensures Obtained(received, OtelExporters.Delivered(s.exported[j].data))
  {
    var data := s.exported[j].data;
    OwnDatagrams(s.exported, uuids, received, j);
    if |data| <= Udp.BLOCK {
      OtelExporters.RawIsNotShard(data);
      assert data in OtelExporters.Datagrams(data, Hex.Encoded(uuids[j]));
    } else {
      hide OtelExporters.Datagrams, OtelExporters.Delivered, Udp.Reassemble, Udp.Concerns, Udp.Unwrap, Emitted, Inv;
      assert uuids[j] in uuids;
      OtelExporters.EmittedReassembles(data, uuids[j], received);
    }
  }

  /** Sound: whatever is obtained is what the shards cover of a message that was offered and accepted. */
  lemma ObtainedWasAccepted(config: Config, s: State, uuids: seq<seq<byte>>, received: seq<string>, payload: string)
    requires Observed(config, s, uuids, received) && Obtained(received, payload)
    ensures ComesFrom(s.accepted, payload)
  {
    hide OtelExporters.Datagrams, Udp.Reassemble, Udp.Unwrap, Inv;
    if payload in received && Udp.Unwrap(payload).None? {
      assert Emitted(s.exported, uuids, payload);
      var j :| 0 <= j < |s.exported| &&
               payload in OtelExporters.Datagrams(s.exported[j].data, Hex.Encoded(uuids[j]));
      assert s.exported[j] in s.exported && uuids[j] in uuids;
      DatagramsConcern(s.exported[j].data, uuids[j], payload);
      ExportedWasAccepted(config, s, j);
      assert OtelExporters.Delivered(payload) == payload;
    } else {
      var id :| Udp.Reassemble(received, id) == Some(payload);
      ReassembledWasAccepted(config, s, uuids, received, payload, id);
    }
  }

  lemma ReassembledWasAccepted(config: Config, s: State, uuids: seq<seq<byte>>, received: seq<string>,
                               payload: string, id: string)
    requires Observed(config, s, uuids, received) && Udp.Reassemble(received, id) == Some(payload)
    ensures ComesFrom(s.accepted, payload)
  {
    hide OtelExporters.Datagrams, OtelExporters.Delivered, Udp.Reassemble, Udp.Unwrap, Inv;
    if forall d :: d in received ==> !Udp.Concerns(d, id) {
      Unconcerned(received, id);
      assert false;
    } else {
      var d :| d in received && Udp.Concerns(d, id);
      assert Emitted(s.exported, uuids, d);
      var j :| 0 <= j < |s.exported| && d in OtelExporters.Datagrams(s.exported[j].data, Hex.Encoded(uuids[j]));
      var data := s.exported[j].data;
      assert s.exported[j] in s.exported && uuids[j] in uuids;
      DatagramsConcern(data, uuids[j], d);
      OwnDatagrams(s.exported, uuids, received, j);
      ExportedWasAccepted(config, s, j);
      hide Udp.Concerns, Emitted;
      OtelExporters.EmittedReassembles(data, uuids[j], received);
    }
  }

  /** The datagrams of an export have all arrived. */
  ghost predicate AllArrived(s: State, uuids: seq<seq<byte>>, received: seq<string>, j: nat)
    requires |uuids| == |s.exported| && j < |uuids| && |s.exported[j].data| < LIMIT
  {
    forall d :: d in OtelExporters.Datagrams(s.exported[j].data, Hex.Encoded(uuids[j])) ==> d in received
  }

  /** End to end, for every interleaving of producers and consumers and everything the network may do to the
      datagrams: the collector obtains an exported message, as far as its shards cover it, when all its datagrams
      arrive, and it never obtains anything that does not come from a message that was offered and accepted. */
  lemma EndToEnd(config: Config, consumers: nat, run: seq<Step>, uuids: seq<seq<byte>>, received: seq<string>)
    requires CanRun(config, Initial(consumers), run) && config.maxSize < LIMIT
    requires forall m :: m in After(config, Initial(consumers), run).offered ==> Serialised(m)
    requires |uuids| == |After(config, Initial(consumers), run).exported| && FreshIds(uuids)
    requires forall d :: d in received ==> Emitted(After(config, Initial(consumers), run).exported, uuids, d)
    ensures var s := After(config, Initial(consumers), run);
      && (forall e :: e in s.exported ==> |e.data| < LIMIT)
      && (forall p :: Obtained(received, p) ==> ComesFrom(s.accepted, p))
      && (forall j :: 0 <= j < |s.exported| && AllArrived(s, uuids, received, j) ==>
            Obtained(received, OtelExporters.Delivered(s.exported[j].data)))
  {
    hide OtelExporters.Datagrams, OtelExporters.Delivered, Obtained, Emitted, ComesFrom;
    var s := RunObserved(config, consumers, run);
    hide CanRun, After, Inv;
    assert Observed(config, s, uuids, received);
    hide Observed;
    forall p | Obtained(received, p) ensures ComesFrom(s.accepted, p) {
      ObtainedWasAccepted(config, s, uuids, received, p);
    }
    forall j | 0 <= j < |s.exported| && AllArrived(s, uuids, received, j)
      ensures Obtained(received, OtelExporters.Delivered(s.exported[j].data))
    {
      ArrivedIsObtained(config, s, uuids, received, j);
    }
  }

  /** With a queue for messages below 2^24 bytes, that is: every fully arrived message is obtained unchanged, and
      nothing is obtained that was not accepted. */
  lemma EndToEndExactly(config: Config, consumers: nat, run: seq<Step>, uuids: seq<seq<byte>>, received: seq<string>)
    requires CanRun(config, Initial(consumers), run) && config.maxSize < EXACT_LIMIT
    requires forall m :: m in After(config, Initial(consumers), run).offered ==> Serialised(m)
    requires |uuids| == |After(config, Initial(consumers), run).exported| && FreshIds(uuids)
    requires forall d :: d in received ==> Emitted(After(config, Initial(consumers), run).exported, uuids, d)
    ensures var s := After(config, Initial(consumers), run);
      && (forall e :: e in s.exported ==> |e.data| < LIMIT)
      && (forall p :: Obtained(received, p) ==> p in s.accepted)
      && (forall j :: 0 <= j < |s.exported| && AllArrived(s, uuids, received, j) ==>
            Obtained(received, s.exported[j].data))
  {
    EndToEnd(config, consumers, run, uuids, received);
    var s := RunObserved(config, consumers, run);
    hide CanRun, After, Obtained, Emitted, AllArrived, OtelExporters.Delivered, OtelExporters.Whole;
    forall p | Obtained(received, p) ensures p in s.accepted {
      var m :| m in s.accepted && OtelExporters.Delivered(m) == p;
      assert |m| <= config.maxSize;
      OtelExporters.DeliveredWhole(m);
    }
    forall j | 0 <= j < |s.exported| && AllArrived(s, uuids, received, j)
      ensures Obtained(received, s.exported[j].data)
    {
      ExportedWasAccepted(config, s, j);
      OtelExporters.DeliveredWhole(s.exported[j].data);
    }
  }
}
