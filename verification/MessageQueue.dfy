/** The bounded queue between the request threads and the exporters of src/core.cc. The queue itself is an
    abstract FIFO with the rejection rules of the interprocess library: a send throws when the message is longer
    than the size fixed at creation, and fails when the queue is full; a receive throws when the buffer is
    smaller than that size, and waits while the queue is empty. Every message has priority 0. */
module MessageQueues {
  import opened Prelude
  import OtelExporters

  datatype Config = Config(maxLength: nat, maxSize: nat)

  datatype Outcome = Accepted | Full | TooLong

  /** What `try_send` does with a message. */
  function Admit(config: Config, queue: seq<string>, message: string): Outcome {
    if |message| > config.maxSize then TooLong
    else if |queue| >= config.maxLength then Full
    else Accepted
  }

  class MessageQueue {
    const config: Config
    var messages: seq<string>

    ghost predicate Valid()
      reads this
    {
      |messages| <= config.maxLength && forall m :: m in messages ==> |m| <= config.maxSize
    }

    constructor (maxLength: nat, maxSize: nat)
      ensures Valid() && config == Config(maxLength, maxSize) && messages == []
    {
      config := Config(maxLength, maxSize);
      messages := [];
    }

    method TrySend(message: string) returns (outcome: Outcome)
      requires Valid()
      modifies this
      ensures Valid()
      ensures outcome == Admit(config, old(messages), message)
      ensures messages == if outcome == Accepted then old(messages) + [message] else old(messages)
    {
      if |message| > config.maxSize {
        return TooLong;
      }
      if |messages| == config.maxLength {
        return Full;
      }
      messages := messages + [message];
      return Accepted;
    }

    /** Takes the oldest message into the buffer. Without a result the buffer was refused as too small. */
    method Receive(buffer: array<char>) returns (size: Option<nat>)
      requires Valid() && messages != []
      modifies this, buffer
      ensures Valid()
      ensures size.None? <==> buffer.Length < config.maxSize
      ensures size.None? ==> messages == old(messages) && buffer[..] == old(buffer[..])
      ensures size.Some? ==>
                && messages == old(messages[1..])
                && size.value <= buffer.Length && buffer[..size.value] == old(messages[0])
                && buffer[size.value..] == old(buffer[..])[size.value..]
    {
      if buffer.Length < config.maxSize {
        return None;
      }
      var message := messages[0];
      forall i | 0 <= i < |message| {
        buffer[i] := message[i];
      }
      messages := messages[1..];
      return Some(|message|);
    }
  }

  /** One turn of the consumer loop: the buffer has the very size the queue was created with, so the receive is
      never refused, and an exporter that reaches its receiver over UDP gets the message unchanged. */
  method ConsumeOne<A>(queue: MessageQueue, exporter: OtelExporters.OtelExporter<A>, isReceiverUdp: bool,
                       uuid: seq<byte>)
    requires queue.Valid() && queue.messages != [] && queue.config.maxSize < OtelExporters.SIZE_LIMIT
    requires exporter.Valid() && |uuid| == OtelExporters.Udp.ID_BYTES
    modifies queue, exporter
    ensures queue.Valid() && exporter.Valid()
    ensures queue.messages == old(queue.messages[1..])
    ensures exporter.sent ==
            if isReceiverUdp && old(exporter.sockFd) > 0 && old(exporter.addrIn).Some? && old(queue.messages[0]) != ""
            then old(exporter.sent) + OtelExporters.To(old(exporter.addrIn).value,
                   OtelExporters.Datagrams(old(queue.messages[0]), OtelExporters.Hex.Encoded(uuid)))
            else old(exporter.sent)
  {
    var data := new char[queue.config.maxSize];
    var size := queue.Receive(data);
    assert size.Some?;
    if data.Length != 0 {
      if isReceiverUdp {
        exporter.SendTracerByUdp(data[..size.value], uuid);
      }
    }
  }

  // ----- every interleaving of producers and consumers -----

  /** A consumer thread waits in `receive` or holds the message it is exporting. */
  datatype Consumer = Waiting | Holding(data: string)

  datatype Delivery = Delivery(consumer: nat, data: string)

  /** The queue and the consumers, together with what has happened so far. */
  datatype State = State(
    queue: seq<string>, consumers: seq<Consumer>,
    offered: seq<string>, rejected: seq<string>, accepted: seq<string>,
    received: seq<Delivery>, exported: seq<Delivery>)

  datatype Step = TrySend(message: string) | Receive(consumer: nat) | Export(consumer: nat)

  function Initial(consumers: nat): State {
    State([], seq(consumers, _ => Waiting), [], [], [], [], [])
  }

  predicate Enabled(s: State, step: Step) {
    match step
    case TrySend(_) => true
    case Receive(i) => i < |s.consumers| && s.consumers[i].Waiting? && s.queue != []
    case Export(i) => i < |s.consumers| && s.consumers[i].Holding?
  }

  function Apply(config: Config, s: State, step: Step): State
    requires Enabled(s, step)
  {
    match step
    case TrySend(m) =>
      if Admit(config, s.queue, m) == Accepted
      then s.(offered := s.offered + [m], accepted := s.accepted + [m], queue := s.queue + [m])
      else s.(offered := s.offered + [m], rejected := s.rejected + [m])
    case Receive(i) =>
      s.(queue := s.queue[1..], consumers := s.consumers[i := Holding(s.queue[0])],
         received := s.received + [Delivery(i, s.queue[0])])
    case Export(i) =>
      s.(consumers := s.consumers[i := Waiting], exported := s.exported + [Delivery(i, s.consumers[i].data)])
  }

  /** The steps can be taken one after the other. */
  predicate CanRun(config: Config, s: State, run: seq<Step>)
    decreases |run|
  {
    run == [] || (Enabled(s, run[0]) && CanRun(config, Apply(config, s, run[0]), run[1..]))
  }

  function After(config: Config, s: State, run: seq<Step>): State
    requires CanRun(config, s, run)
    decreases |run|
  {
    if run == [] then s else After(config, Apply(config, s, run[0]), run[1..])
  }

  function Payloads(log: seq<Delivery>): seq<string> {
    if log == [] then [] else Payloads(log[..|log| - 1]) + [log[|log| - 1].data]
  }

  /** The messages of one consumer, in order. */
  function By(log: seq<Delivery>, consumer: nat): seq<string> {
    if log == [] then []
    else
      var last := log[|log| - 1];
      By(log[..|log| - 1], consumer) + if last.consumer == consumer then [last.data] else []
  }

  function InHand(consumer: Consumer): seq<string> {
    if consumer.Holding? then [consumer.data] else []
  }

  /** All messages that consumers hold. */
  function Held(consumers: seq<Consumer>): multiset<string> {
    if consumers == [] then multiset{}
    else Held(consumers[..|consumers| - 1]) + multiset(InHand(consumers[|consumers| - 1]))
  }

  /** What holds at every moment. The third line is first-in first-out and exactly-once delivery: the received
      messages followed by the waiting ones are the accepted ones. */
  ghost predicate Inv(config: Config, s: State) {
    && |s.queue| <= config.maxLength
    && multiset(s.offered) == multiset(s.rejected) + multiset(s.accepted)
    && s.accepted == Payloads(s.received) + s.queue
    && multiset(Payloads(s.received)) == multiset(Payloads(s.exported)) + Held(s.consumers)
    && (forall i :: 0 <= i < |s.consumers| ==> By(s.received, i) == By(s.exported, i) + InHand(s.consumers[i]))
    && (forall m :: m in s.accepted ==> |m| <= config.maxSize)
  }

  lemma LogStep(log: seq<Delivery>, d: Delivery, i: nat)
    ensures Payloads(log + [d]) == Payloads(log) + [d.data]
    ensures By(log + [d], i) == By(log, i) + if d.consumer == i then [d.data] else []
  {
    assert (log + [d])[..|log|] == log;
  }

  lemma {:induction false} HeldUpdate(consumers: seq<Consumer>, i: nat, c: Consumer)
    requires i < |consumers|
    ensures Held(consumers[i := c]) + multiset(InHand(consumers[i])) == Held(consumers) + multiset(InHand(c))
  {
    hide InHand;
    var n := |consumers| - 1;
    var last, before := multiset(InHand(consumers[n])), Held(consumers[..n]);
    if i == n {
      assert consumers[i := c][..n] == consumers[..n];
      SwapLast(before, last, multiset(InHand(c)));
    } else {
      HeldUpdate(consumers[..n], i, c);
      assert consumers[i := c][..n] == consumers[..n][i := c];
      var after := Held(consumers[..n][i := c]);
      SwapLast(after, last, multiset(InHand(consumers[i])));
      SwapLast(before, multiset(InHand(c)), last);
    }
  }

  lemma SwapLast(a: multiset<string>, b: multiset<string>, c: multiset<string>)
    ensures a + b + c == a + c + b
  {
  }

  lemma {:induction false} NothingHeld(n: nat)
    ensures Held(seq(n, _ => Waiting)) == multiset{}
  {
    if n > 0 {
      NothingHeld(n - 1);
      assert seq(n, _ => Waiting)[..n - 1] == seq(n - 1, _ => Waiting);
    }
  }

  lemma SendInv(config: Config, s: State, m: string)
    requires Inv(config, s)
    ensures Inv(config, Apply(config, s, TrySend(m)))
  {
    hide Payloads, By, Held;
    var t := Apply(config, s, TrySend(m));
    if Admit(config, s.queue, m) == Accepted {
      assert t.accepted == Payloads(s.received) + (s.queue + [m]);
    }
  }

  lemma MoveHead(taken: seq<string>, queue: seq<string>)
    requires queue != []
    ensures taken + queue == taken + [queue[0]] + queue[1..]
  {
  }

  lemma ReceiveInv(config: Config, s: State, i: nat)
    requires Inv(config, s) && Enabled(s, Receive(i))
    ensures Inv(config, Apply(config, s, Receive(i)))
  {
    hide Payloads, By, Held;
    var m := s.queue[0];
    LogStep(s.received, Delivery(i, m), i);
    HeldUpdate(s.consumers, i, Holding(m));
    MoveHead(Payloads(s.received), s.queue);
    var t := Apply(config, s, Receive(i));
    assert Held(t.consumers) == Held(s.consumers) + multiset{m};
    assert Payloads(t.received) == Payloads(s.received) + [m];
    forall j | 0 <= j < |s.consumers| ensures By(t.received, j) == By(t.exported, j) + InHand(t.consumers[j]) {
      LogStep(s.received, Delivery(i, m), j);
    }
  }

  lemma ExportInv(config: Config, s: State, i: nat)
    requires Inv(config, s) && Enabled(s, Export(i))
    ensures Inv(config, Apply(config, s, Export(i)))
  {
    hide Payloads, By, Held;
    var m := s.consumers[i].data;
    LogStep(s.exported, Delivery(i, m), i);
    HeldUpdate(s.consumers, i, Waiting);
    var t := Apply(config, s, Export(i));
    assert Held(s.consumers) == Held(t.consumers) + multiset{m};
    assert Payloads(t.exported) == Payloads(s.exported) + [m];
    forall j | 0 <= j < |s.consumers| ensures By(t.received, j) == By(t.exported, j) + InHand(t.consumers[j]) {
      LogStep(s.exported, Delivery(i, m), j);
    }
  }

  lemma StepInv(config: Config, s: State, step: Step)
    requires Inv(config, s) && Enabled(s, step)
    ensures Inv(config, Apply(config, s, step))
  {
    hide Inv, Apply;
    match step
    case TrySend(m) => SendInv(config, s, m);
    case Receive(i) => ReceiveInv(config, s, i);
    case Export(i) => ExportInv(config, s, i);
  }

  lemma {:induction false} RunInv(config: Config, s: State, run: seq<Step>)
    requires Inv(config, s) && CanRun(config, s, run)
    ensures Inv(config, After(config, s, run))
    decreases |run|
  {
    hide Inv, Apply;
    if run != [] {
      StepInv(config, s, run[0]);
      RunInv(config, Apply(config, s, run[0]), run[1..]);
    }
  }

  /** Conservation in every interleaving: no message is lost, duplicated or reordered between producers and
      consumers, the bound is kept, and every consumer exports what it received in the order it received it. */
  lemma Conservation(config: Config, consumers: nat, run: seq<Step>)
    requires CanRun(config, Initial(consumers), run)
    ensures var s := After(config, Initial(consumers), run);
      && |s.queue| <= config.maxLength
      && s.accepted == Payloads(s.received) + s.queue
      && multiset(s.offered) ==
         multiset(s.rejected) + multiset(s.queue) + Held(s.consumers) + multiset(Payloads(s.exported))
      && (forall i :: 0 <= i < |s.consumers| ==> By(s.exported, i) <= By(s.received, i))
      && (forall m :: m in s.accepted ==> |m| <= config.maxSize)
  {
    NothingHeld(consumers);
    RunInv(config, Initial(consumers), run);
  }

  // ----- which runs lose nothing -----

  function Sends(run: seq<Step>): nat {
    if run == [] then 0 else Sends(run[..|run| - 1]) + if run[|run| - 1].TrySend? then 1 else 0
  }

  function Receives(run: seq<Step>): nat {
    if run == [] then 0 else Receives(run[..|run| - 1]) + if run[|run| - 1].Receive? then 1 else 0
  }

  /** At its k-th step the run offers nothing that is too long or comes while maxLength offers are unreceived. */
  predicate Roomy(config: Config, run: seq<Step>, k: nat)
    requires k < |run|
  {
    run[k].TrySend? ==>
      |run[k].message| <= config.maxSize && Sends(run[..k]) - Receives(run[..k]) < config.maxLength
  }

  lemma {:induction false} SplitRun(config: Config, s: State, run: seq<Step>, k: nat)
    requires k <= |run|
    ensures CanRun(config, s, run) <==>
            CanRun(config, s, run[..k]) && CanRun(config, After(config, s, run[..k]), run[k..])
    ensures CanRun(config, s, run) ==>
            After(config, s, run) == After(config, After(config, s, run[..k]), run[k..])
    decreases k
  {
    hide Apply, Enabled;
    if k == 0 {
      assert run[..0] == [] && run[0..] == run;
    } else {
      assert run[..k][0] == run[0] && run[..k][1..] == run[1..][..k - 1];
      assert run[k..] == run[1..][k - 1..];
      if Enabled(s, run[0]) {
        SplitRun(config, Apply(config, s, run[0]), run[1..], k - 1);
      }
    }
  }

  lemma LastStep(config: Config, s: State, run: seq<Step>)
    requires run != [] && CanRun(config, s, run)
    ensures var n := |run| - 1;
      && CanRun(config, s, run[..n]) && Enabled(After(config, s, run[..n]), run[n])
      && After(config, s, run) == Apply(config, After(config, s, run[..n]), run[n])
  {
    hide Apply, Enabled;
    var n := |run| - 1;
    SplitRun(config, s, run, n);
    var mid := After(config, s, run[..n]);
    assert run[n..] == [run[n]];
    assert [run[n]][1..] == [];
    assert Enabled(mid, run[n]);
    assert After(config, mid, [run[n]]) == After(config, Apply(config, mid, run[n]), []);
  }

  /** A run rejects nothing exactly when it never offers a message that is too long, or one more than
      maxLength messages ahead of the consumers. */
  lemma {:induction false} Lossless(config: Config, consumers: nat, run: seq<Step>)
    requires CanRun(config, Initial(consumers), run)
    ensures After(config, Initial(consumers), run).rejected == [] <==>
            forall k :: 0 <= k < |run| ==> Roomy(config, run, k)
    ensures After(config, Initial(consumers), run).rejected == [] ==>
            |After(config, Initial(consumers), run).queue| == Sends(run) - Receives(run)
    decreases |run|
  {
    if run != [] {
      var n := |run| - 1;
      LastStep(config, Initial(consumers), run);
      Lossless(config, consumers, run[..n]);
      var s, t := After(config, Initial(consumers), run[..n]), After(config, Initial(consumers), run);
      hide CanRun, After, Sends, Receives;
      forall k | 0 <= k < n ensures Roomy(config, run, k) <==> Roomy(config, run[..n], k) {
        assert run[..n][..k] == run[..k];
      }
      assert (forall k :: 0 <= k < |run| ==> Roomy(config, run, k)) <==>
             (forall k :: 0 <= k < n ==> Roomy(config, run[..n], k)) && Roomy(config, run, n);
      assert s.rejected == [] ==> (t.rejected == [] <==> Roomy(config, run, n));
      assert t.rejected == [] ==> s.rejected == [];
      Counts(run);
    }
  }

  lemma Counts(run: seq<Step>)
    requires run != []
    ensures Sends(run) == Sends(run[..|run| - 1]) + if run[|run| - 1].TrySend? then 1 else 0
    ensures Receives(run) == Receives(run[..|run| - 1]) + if run[|run| - 1].Receive? then 1 else 0
  {
  }

  // ----- the consumers keep up -----

  function Busy(consumers: seq<Consumer>): nat {
    if consumers == [] then 0
    else Busy(consumers[..|consumers| - 1]) + |InHand(consumers[|consumers| - 1])|
  }

  /** The steps the consumers still have to take. */
  function Work(s: State): nat {
    2 * |s.queue| + Busy(s.consumers)
  }

  predicate Quiet(run: seq<Step>) {
    forall k :: 0 <= k < |run| ==> !run[k].TrySend?
  }

  lemma {:induction false} BusyUpdate(consumers: seq<Consumer>, i: nat, c: Consumer)
    requires i < |consumers|
    ensures Busy(consumers[i := c]) + |InHand(consumers[i])| == Busy(consumers) + |InHand(c)|
  {
    var n := |consumers| - 1;
    if i == n {
      assert consumers[i := c][..n] == consumers[..n];
    } else {
      BusyUpdate(consumers[..n], i, c);
      assert consumers[i := c][..n] == consumers[..n][i := c];
    }
  }

  lemma {:induction false} SomeoneHolds(consumers: seq<Consumer>)
    ensures Busy(consumers) > 0 <==> exists i :: 0 <= i < |consumers| && consumers[i].Holding?
  {
    if consumers != [] {
      var n := |consumers| - 1;
      SomeoneHolds(consumers[..n]);
      if i :| 0 <= i < |consumers| && consumers[i].Holding? {
        assert i < n ==> consumers[..n][i].Holding?;
      }
      if i :| 0 <= i < n && consumers[..n][i].Holding? {
        assert consumers[i].Holding?;
      }
    }
  }

  /** While work is left some consumer can take a step. */
  lemma NoDeadlock(s: State)
    requires |s.consumers| > 0 && Work(s) > 0
    ensures exists step: Step :: !step.TrySend? && Enabled(s, step)
  {
    SomeoneHolds(s.consumers);
    if Busy(s.consumers) > 0 {
      var i :| 0 <= i < |s.consumers| && s.consumers[i].Holding?;
      assert Enabled(s, Export(i));
    } else {
      assert Enabled(s, Receive(0));
    }
  }

  /** Once the producers are quiet every schedule of the consumers ends after exactly the remaining work:
      each step does one unit of it, and when none is left every accepted message has been exported. */
  lemma {:induction false} QuietRunsDrain(config: Config, s: State, run: seq<Step>)
    requires Inv(config, s) && CanRun(config, s, run) && Quiet(run)
    ensures |run| <= Work(s) && Work(After(config, s, run)) == Work(s) - |run|
    ensures After(config, s, run).accepted == s.accepted
    ensures |run| == Work(s) ==> multiset(Payloads(After(config, s, run).exported)) == multiset(s.accepted)
    decreases |run|
  {
    if run == [] {
      if Work(s) == 0 {
        AllExported(config, s);
      }
    } else {
      var t := Apply(config, s, run[0]);
      assert !run[0].TrySend?;
      StepInv(config, s, run[0]);
      var i := run[0].consumer;
      BusyUpdate(s.consumers, i, t.consumers[i]);
      assert Quiet(run[1..]);
      hide Inv, Payloads;
      QuietRunsDrain(config, t, run[1..]);
    }
  }

  lemma AllExported(config: Config, s: State)
    requires Inv(config, s) && Work(s) == 0
    ensures multiset(Payloads(s.exported)) == multiset(s.accepted)
  {
    SomeoneHolds(s.consumers);
    NoneHeld(s.consumers);
    assert s.accepted == Payloads(s.received);
  }

  lemma {:induction false} NoneHeld(consumers: seq<Consumer>)
    requires forall i :: 0 <= i < |consumers| ==> consumers[i].Waiting?
    ensures Held(consumers) == multiset{}
  {
    if consumers != [] {
      NoneHeld(consumers[..|consumers| - 1]);
    }
  }
}
