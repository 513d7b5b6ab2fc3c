/** The UDP exporter of src/otel_exporter.cc: sharding, wire format, double sends and address rotation, checked
    against a reference receiver written from the format `id:count,index:end:data`. */
module Udp {
  import opened Prelude
  import Hex
  import Conversions

  const MARKER: string := ":end:"
  const ID_BYTES: nat := 16

  /** RFC 768 and section 3.1 of RFC 791: 65535 bytes less an IPv4 header of 20 and a UDP header of 8. */
  const MAX_PAYLOAD: nat := 65507

  /** One shard of a payload. */
  datatype Shard = Shard(id: string, count: nat, index: nat, chunk: string)

  // ----- decimal numbers (std::to_string on non-negative numbers) -----

  predicate IsDigit(c: char) {
    '0' <= c <= '9'
  }

  predicate AllDigits(s: string) {
    forall i :: 0 <= i < |s| ==> IsDigit(s[i])
  }

  function Decimal(n: nat): (s: string)
    ensures s != "" && AllDigits(s)
  {
    (if n < 10 then "" else Decimal(n / 10)) + [(n % 10 + '0' as int) as char]
  }

  function DecimalValue(s: string): nat
    requires AllDigits(s)
  {
    if s == "" then 0
    else
      10 * DecimalValue(s[..|s| - 1]) + (s[|s| - 1] as int - '0' as int)
  }

  lemma {:induction false} DecimalRoundTrip(n: nat)
    ensures DecimalValue(Decimal(n)) == n
  {
    var front := if n < 10 then "" else Decimal(n / 10);
    if n >= 10 {
      DecimalRoundTrip(n / 10);
    }
    LastDigit(front, n % 10);
  }

  lemma LastDigit(front: string, d: nat)
    requires AllDigits(front) && d < 10
    ensures AllDigits(front + [(d + '0' as int) as char])
    ensures DecimalValue(front + [(d + '0' as int) as char]) == 10 * DecimalValue(front) + d
  {
    var s := front + [(d + '0' as int) as char];
    assert s[..|s| - 1] == front;
  }

  lemma DecimalLength(n: nat)
    requires n < 100_000
    ensures |Decimal(n)| <= 5
  {
    assert n / 10 < 10_000 && n / 10 / 10 < 1000 && n / 10 / 10 / 10 < 100 && n / 10 / 10 / 10 / 10 < 10;
    assert |Decimal(n / 10 / 10 / 10 / 10)| == 1;
    assert |Decimal(n / 10 / 10 / 10)| <= 2;
    assert |Decimal(n / 10 / 10)| <= 3;
    assert |Decimal(n / 10)| <= 4;
  }

  // ----- wire format -----

  function Header(shard: Shard): string {
    shard.id + ":" + Decimal(shard.count) + "," + Decimal(shard.index) + MARKER
  }

  function Wrap(shard: Shard): string {
    Header(shard) + shard.chunk
  }

  /** The position after the longest run of hex digits from i on. */
  function HexRun(s: string, i: nat): (j: nat)
    requires i <= |s|
    ensures i <= j <= |s|
    decreases |s| - i
  {
    if i < |s| && Hex.IsHexDigit(s[i]) then HexRun(s, i + 1) else i
  }

  function DigitRun(s: string, i: nat): (j: nat)
    requires i <= |s|
    ensures i <= j <= |s| && AllDigits(s[i..j])
    decreases |s| - i
  {
    if i < |s| && IsDigit(s[i]) then DigitRun(s, i + 1) else i
  }

  /** The reference receiver's reading of a datagram; None when it is not a shard. */
  function Unwrap(s: string): Option<Shard> {
    var a := HexRun(s, 0);
    if a == |s| || s[a] != ':' then None
    else
      var b := DigitRun(s, a + 1);
      if b == a + 1 || b == |s| || s[b] != ',' then None
      else
        var c := DigitRun(s, b + 1);
        if c == b + 1 || c + 5 > |s| || s[c..c + 5] != MARKER then None
        else Some(Shard(s[..a], DecimalValue(s[a + 1..b]), DecimalValue(s[b + 1..c]), s[c + 5..]))
  }

  lemma {:induction false} HexRunEnds(s: string, i: nat, j: nat)
    requires i <= j < |s| && !Hex.IsHexDigit(s[j])
    requires forall k :: i <= k < j ==> Hex.IsHexDigit(s[k])
    ensures HexRun(s, i) == j
    decreases j - i
  {
    if i < j {
      HexRunEnds(s, i + 1, j);
    }
  }

  lemma {:induction false} DigitRunEnds(s: string, i: nat, j: nat)
    requires i <= j < |s| && !IsDigit(s[j])
    requires forall k :: i <= k < j ==> IsDigit(s[k])
    ensures DigitRun(s, i) == j
    decreases j - i
  {
    if i < j {
      DigitRunEnds(s, i + 1, j);
    }
  }

  lemma HexPrefix(s: string, j: nat)
    requires j < |s| && !Hex.IsHexDigit(s[j]) && Hex.IsHex(s[..j])
    ensures HexRun(s, 0) == j
  {
    assert forall k :: 0 <= k < j ==> s[k] == s[..j][k];
    HexRunEnds(s, 0, j);
  }

  lemma DigitSlice(s: string, i: nat, j: nat)
    requires i <= j < |s| && !IsDigit(s[j]) && AllDigits(s[i..j])
    ensures DigitRun(s, i) == j
  {
    assert forall k :: i <= k < j ==> s[k] == s[i..j][k - i];
    DigitRunEnds(s, i, j);
  }

  /** Every shard decodes to itself, whatever its data: the marker cannot occur before the data because the
      identifier is hex and the two numbers are decimal. */
  lemma UnwrapWrap(shard: Shard)
    requires Hex.IsHex(shard.id)
    ensures Unwrap(Wrap(shard)) == Some(shard)
  {
    var s := Wrap(shard);
    var n, i := Decimal(shard.count), Decimal(shard.index);
    var a := |shard.id|;
    var b := a + 1 + |n|;
    var c := b + 1 + |i|;
    hide Decimal, DecimalValue, HexRun, DigitRun;
    Layout(s, shard.id, n, i, shard.chunk);
    hide Wrap, Header;
    HexPrefix(s, a);
    DigitSlice(s, a + 1, b);
    DigitSlice(s, b + 1, c);
    DecimalRoundTrip(shard.count);
    DecimalRoundTrip(shard.index);
  }

  /** Where the parts of a datagram lie. */
  lemma Layout(s: string, id: string, n: string, i: string, chunk: string)
    requires s == id + ":" + n + "," + i + MARKER + chunk
    ensures var a := |id|; var b := a + 1 + |n|; var c := b + 1 + |i|;
      && |s| == c + 5 + |chunk|
      && s[..a] == id && s[a] == ':' && s[a + 1..b] == n && s[b] == ','
      && s[b + 1..c] == i && s[c..c + 5] == MARKER && s[c] == ':' && s[c + 5..] == chunk
  {
    var a := |id|;
    var b := a + 1 + |n|;
    var c := b + 1 + |i|;
    assert |id + ":"| == a + 1 && |id + ":" + n| == b && |id + ":" + n + ","| == b + 1;
    assert |id + ":" + n + "," + i| == c && |MARKER| == 5;
  }

  /** Two shards with the same bytes on the wire are the same shard. */
  lemma WrapInjective(a: Shard, b: Shard)
    requires Hex.IsHex(a.id) && Hex.IsHex(b.id) && Wrap(a) == Wrap(b)
    ensures a == b
  {
    UnwrapWrap(a);
    UnwrapWrap(b);
  }

  // ----- sharding -----

  const BLOCK: nat := Conversions.MAX_UDP_SIZE

  /** `data.substr(i * 60000, 60000)`. */
  function Chunk(data: string, i: nat): string
    requires i * BLOCK <= |data|
  {
    data[i * BLOCK..if (i + 1) * BLOCK <= |data| then (i + 1) * BLOCK else |data|]
  }

  /** With this many shards, each one starts inside the payload. */
  predicate Fits(data: string, count: nat) {
    count >= 1 && (count - 1) * BLOCK < |data|
  }

  function ShardAt(data: string, id: string, count: nat, i: nat): Shard
    requires Fits(data, count) && i < count
  {
    Shard(id, count, i, Chunk(data, i))
  }

  function ShardText(data: string, id: string, count: nat, i: nat): string
    requires Fits(data, count) && i < count
  {
    Wrap(ShardAt(data, id, count, i))
  }

  /** Every shard is non-empty and fits an IPv4 datagram together with its header. */
  lemma ShardsFit(data: string, id: string, count: nat, i: nat)
    requires Fits(data, count) && i < count < 100_000 && |id| == 2 * ID_BYTES
    ensures 0 < |Chunk(data, i)| <= BLOCK
    ensures |ShardText(data, id, count, i)| <= 65507
  {
    DecimalLength(count);
    DecimalLength(i);
  }

  /** The part of a payload that its first n blocks cover. */
  function Covered(data: string, n: nat): string {
    data[..if n * BLOCK <= |data| then n * BLOCK else |data|]
  }

  /** The pieces with indices below n, put together in order. */
  function Concat(pieces: map<nat, string>, n: nat): string
    requires forall i :: 0 <= i < n ==> i in pieces
  {
    if n == 0 then "" else Concat(pieces, n - 1) + pieces[n - 1]
  }

  lemma CoveredStep(data: string, n: nat)
    requires n > 0 && (n - 1) * BLOCK < |data|
    ensures Covered(data, n - 1) + Chunk(data, n - 1) == Covered(data, n)
  {
    assert Covered(data, n - 1) == data[..(n - 1) * BLOCK];
  }

  /** The chunks lie side by side: put together they are the payload, as far as they go. */
  lemma {:induction false} ConcatChunks(data: string, pieces: map<nat, string>, n: nat)
    requires n > 0 ==> (n - 1) * BLOCK < |data|
    requires forall i :: 0 <= i < n ==> i in pieces && i * BLOCK <= |data| && pieces[i] == Chunk(data, i)
    ensures Concat(pieces, n) == Covered(data, n)
  {
    if n > 0 {
      ConcatChunks(data, pieces, n - 1);
      CoveredStep(data, n);
      hide Covered, Chunk;
    }
  }

  // ----- the reference receiver -----

  predicate Concerns(datagram: string, id: string) {
    Unwrap(datagram).Some? && Unwrap(datagram).value.id == id
  }

  /** The chunks received for an identifier, by index. */
  function Collected(received: seq<string>, id: string): map<nat, string> {
    if received == [] then map[]
    else
      var last := received[|received| - 1];
      var before := Collected(received[..|received| - 1], id);
      if Concerns(last, id) then before[Unwrap(last).value.index := Unwrap(last).value.chunk] else before
  }

  /** The announced number of shards of an identifier, once one of them has arrived. */
  function Announced(received: seq<string>, id: string): Option<nat> {
    if received == [] then None
    else
      var last := received[|received| - 1];
      if Concerns(last, id) then Some(Unwrap(last).value.count) else Announced(received[..|received| - 1], id)
  }

  /** The payload, once every announced index has arrived. */
  function Reassemble(received: seq<string>, id: string): Option<string> {
    Deliver(Collected(received, id), Announced(received, id))
  }

  function Deliver(pieces: map<nat, string>, announced: Option<nat>): Option<string> {
    match announced
    case None => None
    case Some(n) => if forall i :: 0 <= i < n ==> i in pieces then Some(Concat(pieces, n)) else None
  }

  ghost predicate IsShard(d: string, data: string, id: string, count: nat, i: nat) {
    Fits(data, count) && i < count && d == ShardText(data, id, count, i)
  }

  ghost predicate IsShardOf(d: string, data: string, id: string, count: nat) {
    exists i :: IsShard(d, data, id, count, i)
  }

  /** A received sequence in which whatever carries the identifier is a shard of the payload. Shards may be
      missing, repeated and in any order, and datagrams of other payloads may come in between. */
  ghost predicate Traffic(received: seq<string>, data: string, id: string, count: nat) {
    forall d :: d in received && Concerns(d, id) ==> IsShardOf(d, data, id, count)
  }

  ghost predicate Arrived(received: seq<string>, data: string, id: string, count: nat, i: nat) {
    exists d :: d in received && IsShard(d, data, id, count, i)
  }

  ghost predicate AllArrived(received: seq<string>, data: string, id: string, count: nat) {
    forall i :: 0 <= i < count ==> Arrived(received, data, id, count, i)
  }

  lemma UnwrapShard(d: string, data: string, id: string, count: nat, i: nat)
    requires Hex.IsHex(id) && IsShard(d, data, id, count, i)
    ensures Unwrap(d) == Some(Shard(id, count, i, Chunk(data, i)))
  {
    UnwrapWrap(ShardAt(data, id, count, i));
  }

  lemma ArrivedStep(before: seq<string>, last: string, data: string, id: string, count: nat, i: nat)
    ensures Arrived(before + [last], data, id, count, i) <==>
            Arrived(before, data, id, count, i) || IsShard(last, data, id, count, i)
  {
    hide IsShard;
    if d :| d in before && IsShard(d, data, id, count, i) {
      assert d in before + [last];
    }
    assert last in before + [last];
  }

  /** What the receiver holds: the sender's chunk for exactly the indices that have arrived. */
  ghost predicate HoldsArrived(pieces: map<nat, string>, received: seq<string>, data: string, id: string, count: nat) {
    && (forall i :: i in pieces ==> i * BLOCK <= |data| && pieces[i] == Chunk(data, i))
    && (forall i :: i in pieces <==> Arrived(received, data, id, count, i))
  }

  lemma {:induction false} CollectedIsRight(received: seq<string>, data: string, id: string, count: nat)
    requires Fits(data, count) && Hex.IsHex(id) && Traffic(received, data, id, count)
    ensures HoldsArrived(Collected(received, id), received, data, id, count)
    ensures Announced(received, id).Some? ==> Announced(received, id).value == count
    ensures Announced(received, id).None? ==> Collected(received, id) == map[]
  {
    if received != [] {
      var last, before := received[|received| - 1], received[..|received| - 1];
      assert received == before + [last];
      assert forall d :: d in before ==> d in received;
      CollectedIsRight(before, data, id, count);
      hide Unwrap, Chunk, IsShard, Fits, Arrived, HoldsArrived, Announced, Collected;
      if Concerns(last, id) {
        assert last in received;
        var k :| IsShard(last, data, id, count, k);
        UnwrapShard(last, data, id, count, k);
        HoldsShard(Collected(before, id), before, last, data, id, count, k);
        TakesLast(received, id, Shard(id, count, k, Chunk(data, k)));
      } else {
        HoldsOther(Collected(before, id), before, last, data, id, count);
        SkipsLast(received, id);
      }
    }
  }

  lemma TakesLast(received: seq<string>, id: string, shard: Shard)
    requires received != [] && Concerns(received[|received| - 1], id)
    requires Unwrap(received[|received| - 1]) == Some(shard)
    ensures Announced(received, id) == Some(shard.count)
    ensures Collected(received, id) == Collected(received[..|received| - 1], id)[shard.index := shard.chunk]
  {
    hide Unwrap;
  }

  lemma SkipsLast(received: seq<string>, id: string)
    requires received != [] && !Concerns(received[|received| - 1], id)
    ensures Announced(received, id) == Announced(received[..|received| - 1], id)
    ensures Collected(received, id) == Collected(received[..|received| - 1], id)
  {
    hide Unwrap;
  }

  lemma HoldsShard(pieces: map<nat, string>, before: seq<string>, last: string, data: string, id: string, count: nat,
                   k: nat)
    requires HoldsArrived(pieces, before, data, id, count)
    requires Hex.IsHex(id) && IsShard(last, data, id, count, k)
    ensures HoldsArrived(pieces[k := Chunk(data, k)], before + [last], data, id, count)
  {
    UnwrapShard(last, data, id, count, k);
    forall i: nat
      ensures Arrived(before + [last], data, id, count, i) <==> Arrived(before, data, id, count, i) || i == k
    {
      ArrivedStep(before, last, data, id, count, i);
      if IsShard(last, data, id, count, i) {
        UnwrapShard(last, data, id, count, i);
      }
    }
    hide Unwrap, Chunk, Arrived, IsShard;
  }

  lemma HoldsOther(pieces: map<nat, string>, before: seq<string>, last: string, data: string, id: string, count: nat)
    requires HoldsArrived(pieces, before, data, id, count)
    requires Hex.IsHex(id) && !Concerns(last, id)
    ensures HoldsArrived(pieces, before + [last], data, id, count)
  {
    forall i: nat
      ensures Arrived(before + [last], data, id, count, i) <==> Arrived(before, data, id, count, i)
    {
      ArrivedStep(before, last, data, id, count, i);
      if IsShard(last, data, id, count, i) {
        UnwrapShard(last, data, id, count, i);
      }
    }
    hide Unwrap, Chunk, Arrived, IsShard;
  }

  /** The receiver delivers exactly when at least one copy of every shard has arrived, and then it delivers
      the payload up to the end of the last shard. */
  lemma Reassembly(received: seq<string>, data: string, id: string, count: nat)
    requires Fits(data, count) && Hex.IsHex(id) && Traffic(received, data, id, count)
    ensures Reassemble(received, id).Some? <==> AllArrived(received, data, id, count)
    ensures Reassemble(received, id).Some? ==> Reassemble(received, id).value == Covered(data, count)
  {
    CollectedIsRight(received, data, id, count);
    hide Concat, Announced, Collected, Chunk, Traffic, Arrived, Unwrap, Covered;
    var pieces := Collected(received, id);
    if AllArrived(received, data, id, count) {
      assert Arrived(received, data, id, count, 0);
    }
    if Reassemble(received, id).Some? {
      ConcatChunks(data, pieces, count);
    }
  }
}
