/** The sending side of src/otel_exporter.cc. A `sendto` is an entry of the list of datagrams handed to the socket. */
module OtelExporters {
  import opened Prelude
  import Hex
  import Conversions
  import Udp

  /** Payload sizes for which the float computation is analysed; a message of the queue is far smaller. */
  const SIZE_LIMIT: nat := 0x2000_0000

  /** The shards of a payload cover all of it: it fits one datagram, or rounding does not swallow its tail. */
  predicate Whole(data: string) {
    || |data| <= Conversions.MAX_UDP_SIZE
    || !(0 < |data| % Conversions.MAX_UDP_SIZE <= Conversions.LostTail(|data|))
  }

  /** What a receiver can get of a payload. */
  function Delivered(data: string): string {
    if Whole(data) then data else data[..|data| / Conversions.MAX_UDP_SIZE * Conversions.MAX_UDP_SIZE]
  }

  lemma DeliveredWhole(data: string)
    ensures Delivered(data) == data <==> Whole(data)
    ensures |data| < 0x0100_0000 ==> Whole(data)
  {
    if !Whole(data) {
      var k, r := |data| / Conversions.MAX_UDP_SIZE, |data| % Conversions.MAX_UDP_SIZE;
      assert |data| == k * Conversions.MAX_UDP_SIZE + r && r > 0;
    }
  }

  /** The computed shard count never points past the end of a payload that needs splitting, and it falls short
      only when rounding swallows the last block. */
  lemma CountFits(data: string)
    requires Conversions.MAX_UDP_SIZE < |data| < SIZE_LIMIT
    ensures 1 <= Conversions.ShardCount(|data|) < 100_000 && Udp.Fits(data, Conversions.ShardCount(|data|))
    ensures Udp.Covered(data, Conversions.ShardCount(|data|)) == Delivered(data)
  {
    hide Conversions.ShardCount;
    Conversions.ShardCountLarge(|data|);
    hide Conversions.LostTail;
    var k, r := |data| / Conversions.MAX_UDP_SIZE, |data| % Conversions.MAX_UDP_SIZE;
    assert |data| == k * Conversions.MAX_UDP_SIZE + r && 0 <= r < Conversions.MAX_UDP_SIZE;
    assert Conversions.BlocksNeeded(|data|) == if r == 0 then k else k + 1;
  }

  /** Both copies of the first n of `count` shards, in sending order. */
  ghost function TwiceEach(data: string, id: string, count: nat, n: nat): seq<string>
    requires Udp.Fits(data, count) && n <= count
  {
    if n == 0 then []
    else
      var datagram := Udp.ShardText(data, id, count, n - 1);
      TwiceEach(data, id, count, n - 1) + [datagram, datagram]
  }

  /** What one message puts on the wire: itself when it fits, otherwise every shard twice. */
  ghost function Datagrams(data: string, id: string): seq<string>
    requires |data| < SIZE_LIMIT
  {
    if |data| <= Conversions.MAX_UDP_SIZE then [data]
    else
      CountFits(data);
      var count := Conversions.ShardCount(|data|);
      TwiceEach(data, id, count, count)
  }

  /** The same destination for every datagram. */
  function To<A>(address: A, datagrams: seq<string>): seq<(A, string)> {
    seq(|datagrams|, i requires 0 <= i < |datagrams| => (address, datagrams[i]))
  }

  /** The position after `current` in a circular list. */
  function Advance(current: nat, length: nat): nat
    requires current < length
  {
    if current + 1 < length then current + 1 else 0
  }

  class OtelExporter<A> {
    var sockFd: int
    var addrIn: Option<A>
    var addrInfo: seq<A>
    var currentAddrInfo: Option<nat>
    var sent: seq<(A, string)>

    /** A resolved list is being walked, and the next destination is its current entry. */
    ghost predicate Valid()
      reads this
    {
      currentAddrInfo.Some? ==>
        currentAddrInfo.value < |addrInfo| && addrIn == Some(addrInfo[currentAddrInfo.value])
    }

    /** A successful name lookup restarts the walk at the head of the new list. */
    method ResolveUdpAddr(found: seq<A>)
      requires found != []
      modifies this
      ensures Valid() && addrInfo == found && currentAddrInfo == Some(0)
      ensures sockFd == old(sockFd) && sent == old(sent)
    {
      addrInfo := found;
      currentAddrInfo := Some(0);
      addrIn := Some(addrInfo[0]);
    }

    method SendTracerByUdp(data: string, uuid: seq<byte>)
      requires Valid() && |uuid| == Udp.ID_BYTES && |data| < SIZE_LIMIT
      modifies this
      ensures Valid() && sockFd == old(sockFd) && addrInfo == old(addrInfo)
      ensures sockFd <= 0 || old(addrIn).None? || data == "" ==>
                sent == old(sent) && addrIn == old(addrIn) && currentAddrInfo == old(currentAddrInfo)
      ensures sockFd > 0 && old(addrIn).Some? && data != "" ==>
                && sent == old(sent) + To(old(addrIn).value, Datagrams(data, Hex.Encoded(uuid)))
                && (old(currentAddrInfo).None? ==> currentAddrInfo.None? && addrIn == old(addrIn))
                && (old(currentAddrInfo).Some? ==>
                      currentAddrInfo == Some(Advance(old(currentAddrInfo).value, |addrInfo|)))
    {
      if sockFd > 0 && addrIn.Some? && data != "" {
        var dataSize := |data|;
        var maxUdpSize := Conversions.MAX_UDP_SIZE;
        if dataSize <= maxUdpSize {
          sent := sent + [(addrIn.value, data)];
          assert To(addrIn.value, [data]) == [(addrIn.value, data)];
        } else {
          CountFits(data);
          var shards := Conversions.ShardCount(dataSize);
          var id := Hex.Encode(uuid);
          assert Datagrams(data, id) == TwiceEach(data, id, shards, shards);
          NothingSent(data, id, shards, addrIn.value);
          hide Conversions.ShardCount, Udp.Fits, Udp.ShardText, TwiceEach, Datagrams, To;
          var i := 0;
          while i < shards
            invariant 0 <= i <= shards
            invariant addrIn == old(addrIn) && addrInfo == old(addrInfo) && sockFd == old(sockFd)
            invariant currentAddrInfo == old(currentAddrInfo)
            invariant sent == old(sent) + To(addrIn.value, TwiceEach(data, id, shards, i))
          {
            ChunkStarts(data, shards, i);
            var warp := id + ":" + Udp.Decimal(shards) + "," + Udp.Decimal(i) + ":end:" + Udp.Chunk(data, i);
            WarpIsShard(data, id, shards, i);
            SendTwice(data, id, shards, i, addrIn.value, old(sent));
            sent := sent + [(addrIn.value, warp)];
            sent := sent + [(addrIn.value, warp)];
            i := i + 1;
          }
        }
        if currentAddrInfo.Some? {
          if currentAddrInfo.value + 1 < |addrInfo| {
            currentAddrInfo := Some(currentAddrInfo.value + 1);
          } else {
            currentAddrInfo := Some(0);
          }
          addrIn := Some(addrInfo[currentAddrInfo.value]);
        }
      }
    }
  }

  lemma ChunkStarts(data: string, count: nat, i: nat)
    requires Udp.Fits(data, count) && i < count
    ensures i * Udp.BLOCK <= |data|
  {
  }

  /** The text that the loop puts together is that of the shard. */
  lemma WarpIsShard(data: string, id: string, count: nat, i: nat)
    requires Udp.Fits(data, count) && i < count && i * Udp.BLOCK <= |data|
    ensures id + ":" + Udp.Decimal(count) + "," + Udp.Decimal(i) + ":end:" + Udp.Chunk(data, i) ==
            Udp.ShardText(data, id, count, i)
  {
    hide Udp.Decimal, Udp.Chunk;
  }

  lemma NothingSent<A>(data: string, id: string, count: nat, address: A)
    requires Udp.Fits(data, count)
    ensures To(address, TwiceEach(data, id, count, 0)) == []
  {
  }

  /** Every datagram goes out, in order and to the same address. */
  lemma EachIsSent<A>(address: A, datagrams: seq<string>)
    ensures |To(address, datagrams)| == |datagrams|
    ensures forall i :: 0 <= i < |datagrams| ==> To(address, datagrams)[i] == (address, datagrams[i])
  {
  }

  lemma SendTwice<A>(data: string, id: string, count: nat, i: nat, address: A, before: seq<(A, string)>)
    requires Udp.Fits(data, count) && i < count
    ensures before + To(address, TwiceEach(data, id, count, i + 1)) ==
            before + To(address, TwiceEach(data, id, count, i))
            + [(address, Udp.ShardText(data, id, count, i))] + [(address, Udp.ShardText(data, id, count, i))]
  {
    hide Udp.ShardText;
    var d := Udp.ShardText(data, id, count, i);
    assert To(address, TwiceEach(data, id, count, i) + [d, d]) ==
           To(address, TwiceEach(data, id, count, i)) + [(address, d), (address, d)];
  }

  /** The list position after k messages. */
  ghost function Position(k: nat, length: nat): (p: nat)
    requires length > 0
    ensures p < length
  {
    if k == 0 then 0 else Advance(Position(k - 1, length), length)
  }

  /** After a lookup the messages go round-robin over the resolved addresses. */
  lemma RoundRobin(k: nat, length: nat)
    requires length > 0
    ensures Position(k, length) == k % length
  {
    var laps := Laps(k, length);
    ModOf(k, laps, length, Position(k, length));
  }

  lemma {:induction false} Laps(k: nat, length: nat) returns (laps: nat)
    requires length > 0
    ensures k == laps * length + Position(k, length)
  {
    if k == 0 {
      laps := 0;
    } else {
      laps := Laps(k - 1, length);
      if Position(k, length) == 0 {
        OneMore(laps, length);
        laps := laps + 1;
      }
    }
  }

  lemma OneMore(a: int, c: int)
    ensures (a + 1) * c == a * c + c
  {
  }

  lemma ModOf(k: nat, q: nat, length: nat, r: nat)
    requires r < length && k == q * length + r
    ensures k % length == r
  {
    var p := k / length;
    assert k == p * length + k % length;
    Difference(q, p, length);
    SmallMultiple(q - p, length, k % length - r);
  }

  lemma Difference(a: int, b: int, c: int)
    ensures (a - b) * c == a * c - b * c
  {
  }

  lemma SmallMultiple(a: int, c: nat, b: int)
    requires a * c == b && -1 * c < b < c
    ensures a == 0
  {
    assert a >= 1 ==> a * c >= c;
    assert a <= -1 ==> a * c <= -1 * c;
  }

  /** A shard with an index below n. */
  ghost predicate IsEarlyShard(d: string, data: string, id: string, count: nat, n: nat) {
    exists i: nat :: i < n && Udp.IsShard(d, data, id, count, i)
  }

  /** The emitted datagrams are exactly the shards, each with two copies. */
  lemma {:induction false} TwiceEachIsShards(data: string, id: string, count: nat, n: nat, d: string)
    requires Udp.Fits(data, count) && n <= count
    ensures d in TwiceEach(data, id, count, n) <==> IsEarlyShard(d, data, id, count, n)
    ensures d in TwiceEach(data, id, count, n) ==> multiset(TwiceEach(data, id, count, n))[d] >= 2
    ensures |TwiceEach(data, id, count, n)| == 2 * n
  {
    hide Udp.ShardText;
    if n > 0 {
      TwiceEachIsShards(data, id, count, n - 1, d);
      var front, last := TwiceEach(data, id, count, n - 1), Udp.ShardText(data, id, count, n - 1);
      TwoMore(front, last, d);
      assert d == last <==> Udp.IsShard(d, data, id, count, n - 1);
      EarlyStep(d, data, id, count, n);
    }
  }

  lemma EarlyStep(d: string, data: string, id: string, count: nat, n: nat)
    requires n > 0
    ensures IsEarlyShard(d, data, id, count, n) <==>
            IsEarlyShard(d, data, id, count, n - 1) || Udp.IsShard(d, data, id, count, n - 1)
  {
    hide Udp.IsShard;
    if i: nat :| i < n && Udp.IsShard(d, data, id, count, i) {
      assert i < n - 1 || i == n - 1;
    }
  }

  lemma TwoMore(front: seq<string>, last: string, d: string)
    ensures d in front + [last, last] <==> d in front || d == last
    ensures multiset(front + [last, last])[d] == multiset(front)[d] + if d == last then 2 else 0
  {
    assert multiset(front + [last, last]) == multiset(front) + multiset{last, last};
  }

  /** Every emitted datagram has arrived exactly when every index has. */
  lemma EmittedArrived(data: string, id: string, count: nat, received: seq<string>)
    requires Udp.Fits(data, count)
    ensures (forall d :: d in TwiceEach(data, id, count, count) ==> d in received) <==>
            Udp.AllArrived(received, data, id, count)
  {
    hide Udp.ShardText, TwiceEach;
    forall i: nat | i < count
      ensures Udp.Arrived(received, data, id, count, i) <==> Udp.ShardText(data, id, count, i) in received
      ensures Udp.ShardText(data, id, count, i) in TwiceEach(data, id, count, count)
    {
      var text := Udp.ShardText(data, id, count, i);
      assert Udp.IsShard(text, data, id, count, i);
      TwiceEachIsShards(data, id, count, count, text);
    }
    forall d | d in TwiceEach(data, id, count, count) && Udp.AllArrived(received, data, id, count)
      ensures d in received
    {
      TwiceEachIsShards(data, id, count, count, d);
      var i: nat :| i < count && Udp.IsShard(d, data, id, count, i);
      assert Udp.Arrived(received, data, id, count, i);
    }
  }

  /** End to end over the wire: from any received sequence whose datagrams for this identifier are among the
      emitted ones, in any order and number, the receiver delivers exactly when no shard is missing entirely,
      and what it delivers is what the shards cover: the whole payload unless rounding swallowed its tail. */
  lemma EmittedReassembles(data: string, uuid: seq<byte>, received: seq<string>)
    requires Conversions.MAX_UDP_SIZE < |data| < SIZE_LIMIT && |uuid| == Udp.ID_BYTES
    requires forall d :: d in received && Udp.Concerns(d, Hex.Encoded(uuid)) ==> d in Datagrams(data, Hex.Encoded(uuid))
    ensures Udp.Reassemble(received, Hex.Encoded(uuid)).Some? <==>
            forall d :: d in Datagrams(data, Hex.Encoded(uuid)) ==> d in received
    ensures Udp.Reassemble(received, Hex.Encoded(uuid)).Some? ==>
              Udp.Reassemble(received, Hex.Encoded(uuid)).value == Delivered(data)
  {
    hide Conversions.ShardCount;
    CountFits(data);
    var id, count := Hex.Encoded(uuid), Conversions.ShardCount(|data|);
    hide Udp.Fits, Udp.ShardText, Udp.Reassemble, Udp.Covered, Udp.Concerns, Udp.AllArrived, Udp.IsShard, TwiceEach;
    hide Delivered;
    forall d: string | d in received && Udp.Concerns(d, id) ensures Udp.IsShardOf(d, data, id, count) {
      TwiceEachIsShards(data, id, count, count, d);
    }
    EmittedArrived(data, id, count, received);
    Udp.Reassembly(received, data, id, count);
  }

  /** Below 2^24 bytes nothing is ever lost. */
  lemma EmittedReassemblesExactly(data: string, uuid: seq<byte>, received: seq<string>)
    requires Conversions.MAX_UDP_SIZE < |data| < 0x0100_0000 && |uuid| == Udp.ID_BYTES
    requires forall d :: d in received && Udp.Concerns(d, Hex.Encoded(uuid)) ==> d in Datagrams(data, Hex.Encoded(uuid))
    requires forall d :: d in Datagrams(data, Hex.Encoded(uuid)) ==> d in received
    ensures Udp.Reassemble(received, Hex.Encoded(uuid)) == Some(data)
  {
    hide Datagrams, Udp.Reassemble, Udp.Concerns, Whole;
    EmittedReassembles(data, uuid, received);
    DeliveredWhole(data);
  }

  /** A payload that fits one datagram is not mistaken for a shard: a serialised request starts with its
      field tag, byte 10, which is neither a hex digit nor the separator. */
  lemma RawIsNotShard(data: string)
    requires data != "" && data[0] == '\n'
    ensures Udp.Unwrap(data) == None
  {
  }
}
