# Verification of the PHP OpenTelemetry extension

A Dafny model of the parts of the extension that hold state, run concurrently or compute: the life of a trace from
`start_tracer` to `shutdown_tracer` over many processes, the timer, the message queue with its consumers, the sharding
of large messages over UDP, the text formats, and the hooks that keep tables of handlers and headers. `dafny verify
dfyconfig.toml` checks all of it.

## Structure

- `Hex.dfy`, `Explode.dfy`, `TraceContext.dfy`: the codecs. Loops are methods proved against functions; the laws are
  lemmas about the functions.
- `Rounding.dfy`, `Conversions.dfy`: round-to-nearest-even with a p-bit significand (section 4.3.1 of IEEE 754-2008)
  over the reals, and the two floating-point computations of the program.
- `Udp.dfy`, `OtelExporter.dfy`: the wire format with a reference receiver, and the sending class.
- `MessageQueue.dfy`, `Pipeline.dfy`: the bounded queue as a class, every interleaving of producers and consumers as a
  state machine, and the whole path from a producer to a collector.
- `Timer.dfy`, `TimerRuns.dfy`: the controller and the worker thread, one step for each read or write of an atomic; what
  may go wrong, and what the calls are for.
- `SampleCounter.dfy`: the wrapping request counter.
- `Slots.dfy`, `Provider.dfy`: what a `Provider` holds for one process as a value with its operations, and the class in
  both storage forms, proved against those operations.
- `Core.dfy`: start and end of a request, and the PHP functions in between, over the module globals.
- `CurlHook.dfy`, `RedisHook.dfy`: the header cache and the handler tables.
- `Lifecycle.dfy`, `TraceTree.dfy`, `Orphans.dfy`: any number of processes that call one another, with the history of
  their spans; the steps apply the same functions that the methods of `Core`, `Providers` and `CurlHooks` are proved
  against. The last file says when a run is exported for certain, and what is lost otherwise.
- `Ledger.dfy`: an account of every run kept from the steps alone, with which slots, batches and decisions agree.
- `Export.dfy`: the processes, the queue they share and its consumers together, up to a collector.
- `Simulation.dfy`: the methods of `Core` do the steps of `Lifecycle`, on the same state, and on the same queue.
- `CommandLine.dfy`: the runs of one command-line program whose parent process may change.

Clock readings, random identifiers, process ids, the iteration order of hash maps, configuration and server variables
are parameters. The clock is assumed monotone and below 2^64 nanoseconds, and drawn identifiers fresh, where a lemma
says so. The lifecycle, with all that is said about traces and exports, assumes that the parent process id by which a
command-line program finds its batch stays the same from the start of a run to its end; `CommandLine.dfy` says what
happens otherwise.

## Findings

- A `Cancel` of the timer whose store comes after its worker has finished leaves the timer unable to start again, for
  ever (`Timer.CancelOutcome`, `Timer.StuckForever`, `Timer.CancelRace`).
- From 2^24 bytes on, the single-precision shard count can lose the last shard. Below 2^29 bytes this happens exactly
  when the size exceeds a multiple of 60000 by no more than half a float spacing, where an excess of exactly half a
  spacing goes to the even significand (`Conversions.ShardCountLarge`); the smallest case is 16800001 bytes
  (`Conversions.ShardCountFails`). A collector then obtains the message without its tail (`Pipeline.EndToEnd`).
- A curl handle that is used for several requests sends the header lines of the earlier ones as well: two lines for each
  earlier request since the headers were set, and two new lines (`CurlHooks.LinesPileUp`). A later request that is not
  recorded still carries the lines of the last recorded one (`CurlHooks.LinesStay`).
- On the command line, headers that the program sets before it starts the tracer are lost at the first recorded request,
  which replaces them by its own two lines (`CurlHooks.HeadersBeforeStart`). The program's headers are sent if and only
  if they were copied by the hook and the copy is still there, or there are none (`CurlHooks.ProgramHeadersSent`).
- A function that the list of redis commands names twice is neither restored nor reachable while hooked; the shipped
  list has no such name (`RedisHooks.Restored`, `RedisHooks.Transparent`).
- "No exported span is orphaned" fails for runs that become sampled late. A run is exported for certain, whatever
  happens next short of its program setting the ratio to 0, if and only if it is flagged or slow already
  (`Orphans.ExportIsCertain`); so a caller may lose the parent of a callee's exported span if and only if it is neither
  when it calls (`Orphans.OrphanCondition`). Two web servers that sample every second request reach such a loss on their
  first requests (`Orphans.OrphanIsReachable`). With the decision at the root it cannot happen (`TraceTree.NoOrphans`).
- Durations and thresholds are compared unsigned. So, for thresholds up to 104 days, a request counts as slow if and only
  if it has reached the threshold or the clock has been set back to before its start (`Slots.ClockSetBack`), and a
  negative threshold is never reached (`Slots.SlowMeaning`).
- On the command line, while the parent process stays the same, the request counter is 1 in every run, so a configured
  ratio samples every run without a caller if it is 1 or -1, and otherwise none (`TraceTree.CommandLineRatio`). Every run
  finds the counter at 0 if and only if every run ends under the parent it began under (`CommandLine.FreshCounter`). A
  run that ends under another parent, after a fork or because the parent has exited, offers nothing, even if it was
  sampled, and leaves the provider behind; the next run counts on, and with ratio 2 is sampled
  (`CommandLine.ParentChanges`, `Core.Globals.ShutdownTracer`).

## Model

| member | source | states |
|---|---|---|
| Hex.Encode | src/hex.cc:16-29 | the loop writes two lower-case digits a byte, high half first |
| Hex.DigitTable | src/hex.cc:16-29 | the table and the digit values are those of the sixteen hexadecimal digits, in either case |
| Hex.Atoul | src/hex.cc:31-43 | on digit strings it succeeds exactly for a non-empty string whose base-16 value is not mistaken for an overflow, and then returns that value |
| Hex.ReadOctet | src/hex.cc:69-76 | one call of `atoul` yields the octet that its one or two digits stand for, whatever `errno` held |
| Hex.Decode | src/hex.cc:45-79 | the loop yields one byte for each pair of digits of the zero-padded string, and never gives up on hex digits |
| Hex.DecodeEncode | src/hex.cc:16-29 | decoding an encoded byte string gives it back |
| Hex.EncodeInjective | src/hex.cc:16-29 | two byte strings with the same encoding are equal |
| Hex.EncodeDecode | src/hex.cc:45-79 | encoding a decoded digit string gives its lower-case form, zero-padded to even length |
| Hex.EncodeDecodeLower | src/hex.cc:45-79 | lower-case strings of even length survive decoding and encoding unchanged |
| Hex.DecodedNumber | src/hex.cc:45-79 | the decoded bytes, read big-endian, are the base-16 value of the string |
| Explode.Explode | src/utils.cc:348-372 | for a non-empty delimiter both loops end with the leftmost split of the string; for an empty one the list is empty |
| Explode.PiecesAreFree | src/utils.cc:359-365 | no piece contains the delimiter |
| Explode.SplitUnique | src/utils.cc:348-372 | there is only one leftmost split of a string |
| Explode.SplitInvertsJoin | src/utils.cc:348-372 | splitting a join gives back the list exactly when the joined pieces are cut at the leftmost occurrences |
| Explode.OneCharCuts | src/utils.cc:348-372 | for a one-character delimiter those lists are the non-empty lists of delimiter-free pieces |
| Explode.SplitJoin | src/utils.cc:348-372 | for a one-character delimiter, splitting inverts joining on every non-empty list of delimiter-free pieces |
| TraceContext.TraceParentRoundTrip | src/provider.cc:221-229 | reading a header that was written for a span restores its trace id, span id and sampled bit |
| TraceContext.TraceParentReformat | src/provider.cc:251-253 | a readable header survives parsing and formatting exactly when it is canonical: version 00, lower-case identifiers of exact size, flag 00 or 01 |
| TraceContext.HeaderText | src/provider.cc:251-253 | an emitted header has 55 characters: 00, the two identifiers as lower-case numbers in base 16, and 01 if the request is sampled, else 00 |
| TraceContext.HeaderRead | src/provider.cc:221-229 | from a header of any version, with identifiers of 32 and 16 hex digits, come 16 and 8 bytes of the same value, and the request is sampled exactly by flag 01 |
| TraceContext.OtherFieldsIgnored | src/provider.cc:223-224 | a header with another number of fields than four yields nothing |
| TraceContext.FormatBaggageHeader | src/provider.cc:255-277 | the iterator loop writes the comma-separated items in iteration order |
| TraceContext.BaggageText | src/provider.cc:264-276 | the header text is key, equals sign and value for each entry, with a comma between them |
| TraceContext.BaggageRead | src/provider.cc:240-249 | a header is read item by item, from comma to comma |
| TraceContext.ItemRead | src/provider.cc:243-246 | an item yields an entry exactly if it has one equals sign |
| TraceContext.BindMeaning | src/provider.cc:199-207 | a key is bound to the value that came last for it |
| TraceContext.BaggagePairs | src/provider.cc:240-249 | from a map without separators the receiver adds one entry for each key, in iteration order |
| TraceContext.BaggageRoundTrip | src/provider.cc:240-277 | for every iteration order, parsing the formatted header rebuilds the map exactly when no key or value contains a separator |
| Rounding.RoundRepresentable | src/otel_exporter.cc:116 | a rounded number has a p-bit significand |
| Rounding.RoundIsNearest | src/otel_exporter.cc:116 | no number with a p-bit significand is nearer to x than the rounded x |
| Rounding.RoundMonotone | src/provider.cc:154 | rounding keeps the order of any two numbers |
| Rounding.RoundInteger | src/otel_exporter.cc:116 | integers below 2^p are not changed by rounding |
| Rounding.SameSide | src/otel_exporter.cc:116 | for n below 2^p the rounded quotient n/d lies on the same side of every integer as the exact one |
| Conversions.ShardCountExact | src/otel_exporter.cc:97-116 | below 2^24 bytes the float shard count is the exact number of 60000-byte blocks |
| Conversions.ShardCountLarge | src/otel_exporter.cc:97-116 | up to 2^29 bytes it is exact unless rounding swallows the excess over a multiple of 60000, and then it is one less |
| Conversions.TopQuotient | src/otel_exporter.cc:116 | the size 2^29, to which sizes just below it are rounded, gets 8948 shards |
| Conversions.ShardCountFails | src/otel_exporter.cc:97-116 | 16800001 bytes need 281 shards and get 280, and for every smaller size the count is right |
| Conversions.MillisExact | src/provider.cc:152-155 | below 2^53 nanoseconds the double conversion is integer division by a million |
| Conversions.MillisMonotone | src/provider.cc:152-155 | a longer duration never shows fewer milliseconds, at any size |
| Udp.UnwrapWrap | src/otel_exporter.cc:119-121 | a datagram decodes to the shard it was made from, also when the data contains the marker |
| Udp.WrapInjective | src/otel_exporter.cc:119-121 | different shards have different bytes on the wire |
| Udp.ShardsFit | src/otel_exporter.cc:116-121 | no shard is empty and every datagram with its header fits 65507 bytes |
| Udp.ConcatChunks | src/otel_exporter.cc:118-121 | the chunks lie side by side: put together they are the payload as far as they go |
| Udp.CollectedIsRight | src/otel_exporter.cc:118-134 | whatever the order, the repetitions and the foreign datagrams, the receiver holds the sender's chunk for exactly the indices that have arrived |
| Udp.Reassembly | src/otel_exporter.cc:118-134 | the receiver delivers exactly when one copy of every shard has arrived, and then the payload that the shards cover |
| OtelExporters.CountFits | src/otel_exporter.cc:116-121 | the computed count never points past the payload, and covers it all but for a swallowed tail |
| OtelExporters.DeliveredWhole | src/otel_exporter.cc:116-121 | what can be delivered is the payload exactly when rounding swallows no tail, and always below 2^24 bytes |
| OtelExporters.WarpIsShard | src/otel_exporter.cc:119-121 | the text that the loop puts together is that of the shard |
| OtelExporters.EachIsSent | src/otel_exporter.cc:101-134 | every datagram goes out once, in order, to the same address |
| OtelExporters.OtelExporter.ResolveUdpAddr | src/otel_exporter.cc:86-87 | a successful lookup restarts the walk at the head of the new address list |
| OtelExporters.OtelExporter.SendTracerByUdp | src/otel_exporter.cc:94-157 | without socket, address or data nothing changes; otherwise the raw message or every shard twice goes to the current address, and the address moves on by one |
| OtelExporters.RoundRobin | src/otel_exporter.cc:148-155 | after k messages the walk is at position k modulo the length of the list |
| OtelExporters.TwiceEachIsShards | src/otel_exporter.cc:118-134 | the emitted datagrams are exactly the shards, each at least twice, and twice as many as there are shards |
| OtelExporters.EmittedReassembles | src/otel_exporter.cc:94-134 | from any received sequence of the emitted datagrams, amid others, the receiver delivers exactly when none is missing altogether, and what it delivers is the payload without a swallowed tail |
| OtelExporters.EmittedReassemblesExactly | src/otel_exporter.cc:94-134 | below 2^24 bytes the payload is always reassembled exactly |
| OtelExporters.RawIsNotShard | src/otel_exporter.cc:101-103 | a serialised request that fits one datagram is not mistaken for a shard |
| MessageQueues.MessageQueue.constructor | src/core.cc:90-94 | a new queue is empty and has the configured bounds |
| MessageQueues.MessageQueue.TrySend | src/core.cc:22-34 | a message that is too long or comes to a full queue is refused and changes nothing; any other is appended, and the bounds are kept |
| MessageQueues.MessageQueue.Receive | src/core.cc:44-49 | the oldest message is taken out and is the beginning of the buffer; only a buffer below the maximal size is refused |
| MessageQueues.ConsumeOne | src/core.cc:42-62 | the buffer is never refused, and an exporter over UDP that has a socket and an address sends exactly the oldest message, any other sends nothing |
| MessageQueues.StepInv | src/core.cc:22-62 | every step of a producer or consumer keeps first-in first-out order, the accounts and the bounds |
| MessageQueues.Conservation | src/core.cc:22-62 | in every interleaving the offered messages are the rejected, the queued, the held and the exported ones, the received ones followed by the queued ones are the accepted ones in order, and the bounds hold |
| MessageQueues.Lossless | src/core.cc:22-34 | a run rejects nothing exactly when it never offers a message that is too long or is a full queue ahead of the consumers |
| MessageQueues.NoDeadlock | src/core.cc:42-62 | while a message is queued or held, some consumer can take a step |
| MessageQueues.QuietRunsDrain | src/core.cc:42-62 | without producers every schedule of the consumers ends after exactly the remaining work, with every accepted message exported |
| Pipeline.EndToEnd | src/core.cc:22-62 | for every interleaving and any losses, repetitions and reordering on the wire, a collector obtains an exported message whose datagrams all arrive, without a swallowed tail, and never anything that does not come from an offered and accepted message |
| Pipeline.EndToEndExactly | src/core.cc:22-62 | with a queue for messages below 2^24 bytes, fully arrived messages are obtained unchanged, and nothing that was not accepted |
| Pipeline.ArrivedIsObtained | src/otel_exporter.cc:94-134 | a message whose datagrams all arrived is obtained without a swallowed tail, amid the datagrams of other exports |
| Pipeline.ObtainedWasAccepted | src/otel_exporter.cc:94-134 | whatever is obtained comes from a message that was accepted |
| Pipeline.ExportedWasAccepted | src/core.cc:36-62 | an exported message was offered and accepted, and is within the size of the queue |
| Timer.StepInv | src/Timer.cc:15-80 | every step of the controller or the worker keeps the invariant on threads, flags and counter |
| Timer.Safety | src/Timer.cc:20-63 | in every interleaving at most one thread is alive, the counter is the number of completed runs up to the one being counted, a one-shot runs at most once, and a Start joins only a worker past its last run |
| Timer.Restartable | src/Timer.cc:20-22 | with the controller idle and no worker left, a Start is accepted exactly when no earlier Cancel stored its flag too late |
| Timer.AtomicCancelRestartable | src/Timer.cc:65-71 | if Cancel's check and store are one step, a finished worker always leaves the timer restartable |
| Timer.CancelOutcome | src/Timer.cc:65-71 | Cancel's store leaves the timer stuck exactly when its worker has exited |
| Timer.StuckForever | src/Timer.cc:20-22 | a stuck timer never creates a worker or runs a task again, whatever is called |
| Timer.CancelRace | src/Timer.cc:65-71 | there is an interleaving that ends stuck |
| Timer.AfterCancel | src/Timer.cc:38-51 | after the store of Cancel or the destructor the worker completes at most one more run and takes at most six more steps |
| Timer.JoinTerminates | src/Timer.cc:73-80 | a join that waits can go on after at most six steps of the worker |
| TimerRuns.LeavingHasACause | src/Timer.cc:38-52 | in every interleaving a worker on its way out was told to go, or it is a one-shot that has run its task exactly once; a loop never ends by itself |
| TimerRuns.RunsOfWorkers | src/Timer.cc:38-52 | as long as nobody cancels, a loop has run its task (n + 2) / 6 times after n steps of its own and never leaves, and a one-shot runs it exactly once and has finished after eight steps, in every interleaving |
| TimerRuns.AsyncStart | src/Timer.cc:20-52 | an asynchronous Start of an idle timer clears the count and creates one thread with the loop flag it was given |
| TimerRuns.SyncStart | src/Timer.cc:20-62 | a synchronous Start runs the task once and leaves the timer ready for the next |
| TimerRuns.StartRefused | src/Timer.cc:20-21 | a Start while a task is there, or before a cancel has taken effect, changes nothing |
| TimerRuns.CancelStores | src/Timer.cc:65-71 | a Cancel stores the try flag exactly if a task is there, not cancelled yet, and has a thread; the one-step form does the same |
| TimerRuns.DestroyStores | src/Timer.cc:15-18 | the destructor stores the try flag and, once the worker has exited, takes the thread away |
| SampleCounter.CountClosed | src/provider.cc:297-306 | the counter runs through 1 to 10000001 over and over |
| SampleCounter.AtMostOne | src/provider.cc:231-233 | any r consecutive requests contain at most one chosen request, also across the wrap |
| SampleCounter.AtLeastOne | src/provider.cc:231-233 | any 2r-1 consecutive requests, and already r plus the remainder of the period, contain a chosen one |
| SampleCounter.WindowIsTight | src/provider.cc:231-233 | the window cannot be shortened |
| SampleCounter.SomeRequestIsChosen | src/provider.cc:231-233 | the ratio rule chooses some request exactly when the ratio is at most 10000001 |
| Slots.CleansAgree | src/provider.cc:167-197 | the two forms of `clean` agree on exactly the slots that hold no baggage and no exception without a batch |
| Slots.DoKeeps | src/provider.cc:97-295 | every operation keeps a slot valid, and leaves nothing behind without a batch if nothing was there |
| Slots.AlwaysSettled | src/provider.cc:97-295 | no operations leave baggage, an exception or a flag behind without a batch |
| Slots.FormsAgree | src/provider.cc:24-295 | from a tidy slot both forms can do the same operations and end in the same slot |
| Slots.FormsNeverDiffer | src/provider.cc:24-295 | whatever a process does from the beginning, both forms can do it, end in the same slot and clean it alike |
| Slots.EveryRequestIsFresh | src/core.cc:228-254 | in either form a request after any number of others begins exactly as the very first one does |
| Slots.OnlyRatioReadsCount | src/provider.cc:231-233 | the same operations end in the same slot as long as the counter leads the ratio rule to the same decisions |
| Slots.AddAllBaggageKeeps | src/provider.cc:199-207 | parsing baggage binds the entries in order and appends one resource attribute for each |
| Slots.SlowMeaning | src/provider.cc:152-155 | a duration below 2^53 nanoseconds is slow exactly if its whole milliseconds reach the threshold, and a negative threshold is never reached |
| Slots.SampledMeaning | src/provider.cc:140-156 | a request is sampled exactly if it is flagged or has taken the configured milliseconds |
| Slots.ClockSetBack | src/provider.cc:152-155 | for thresholds up to 104 days, a request is slow exactly if it has reached the threshold or the clock was set back to before its start |
| Slots.ErrorSurvives | src/provider.cc:279-295 | after an error and an ending without one, the span has the error as its status and the later end |
| Slots.IgnoredHeader | src/provider.cc:221-238 | a header without exactly four fields changes nothing, and the ratio does not decide either |
| Providers.Provider.constructor | include/provider.h:64-79 | a new provider holds the empty slot for every process |
| Providers.Provider.GetRequest | src/provider.cc:24-34 | the result is the batch of the process, if it has one |
| Providers.Provider.GetResource | src/provider.cc:36-43 | the lookup, which may insert a null entry, changes no slot |
| Providers.Provider.GetTracer | src/provider.cc:45-95 | the first use opens a batch and a resource with the configured attributes, later uses nothing; no other process is affected |
| Providers.Provider.CreateFirstSpan | src/provider.cc:97-106 | the new span becomes the first one of its process only |
| Providers.Provider.CreateSpan | src/provider.cc:108-123 | the new span is appended with the trace id of the first span, or a new one |
| Providers.Provider.FirstOneSpan | src/provider.cc:125-134 | the result is the first span of the process, if it has one |
| Providers.Provider.IsSampled | src/provider.cc:140-156 | the answer is the flag or, for durations below 2^53 nanoseconds, whether the whole milliseconds since the start of the first span reach the configured number |
| Providers.Provider.SetSampled | src/provider.cc:158-165 | only the flag of the process changes |
| Providers.Provider.Clean | src/provider.cc:167-197 | the slot of the process is cleaned as its form does it, and no other |
| Providers.Provider.EraseRequest | src/provider.cc:182-189 | the erasures for a process with a batch affect no other process |
| Providers.Provider.EraseExtras | src/provider.cc:190-195 | the erasures for every process affect no other process |
| Providers.Provider.AddBaggage | src/provider.cc:199-207 | the entry is bound and becomes a resource attribute, for this process only |
| Providers.Provider.GetBaggage | src/provider.cc:209-219 | the lookup, which may insert an empty map, changes no slot |
| Providers.Provider.ParseTraceParent | src/provider.cc:221-238 | a four-field header sets trace, parent and flag; any other non-empty one changes nothing; without one the ratio decides |
| Providers.Provider.ParseBaggage | src/provider.cc:240-249 | the loop adds exactly the entries that the header denotes, in order |
| Providers.Provider.FormatTraceParentHeader | src/provider.cc:251-253 | the header is 00, the identifiers of the span in hexadecimal, and 01 or 00 as the request is sampled or not at this moment |
| Providers.Provider.FormatBaggageHeader | src/provider.cc:255-277 | the header lists the baggage of the process, and the lookup changes no slot |
| Providers.Provider.OkEnd | src/provider.cc:279-286 | the span ends now; only a status that was never set becomes Ok |
| Providers.Provider.ErrorEnd | src/provider.cc:288-295 | the span ends with an error, and its request becomes sampled |
| Providers.Provider.Increase | src/provider.cc:297-302 | the counter goes to its next value and no slot changes |
| Providers.Provider.GetRedisException | src/provider.cc:308-318 | the result is the pending message of the process, empty without one |
| Providers.Provider.SetRedisException | src/provider.cc:320-327 | only the pending message of the process changes |
| Providers.CreateChildSpan | src/zend_hook_curl.cc:90-93 | the new span is below the first span of its process |
| Providers.Perform | src/provider.cc:24-295 | every operation by the methods has the effect of the operation on the slot, at its process only |
| Providers.PerformAll | src/provider.cc:24-302 | under every interleaving of operations and counter steps at any processes, the process-keyed form takes each process to the slot it reaches alone with the counter values it finds, and from a tidy slot to the one that the single-slot form reaches |
| Providers.Serve | src/provider.cc:20-302 | a provider of the process-keyed form holds from its construction on, for each process, what the single-slot form would hold |
| Providers.SameOperations | src/provider.cc:24-302 | a process alone does the same operations as amid others, only the counter values may differ |
| Providers.OthersMatterByRatioOnly | src/provider.cc:231-233 | the other processes reach a process only through the ratio rule: if it decides alike, the process ends in the slot that it reaches with none of them there |
| Core.Globals.StartTracer | src/core.cc:214-309 | switched off, nothing changes; otherwise the provider exists, the counter has moved on, the header cache is emptied and the slot is a started one, with the other processes untouched |
| Core.Globals.Launch | src/core.cc:224-256 | a request begins at the provider, which is created if there is none, and other processes are untouched |
| Core.Globals.EnsureProvider | src/core.cc:224-226 | a missing provider is created empty, an existing one kept |
| Core.Globals.Begin | src/core.cc:228-256 | the slot is cleaned, the request counted and the first span opened |
| Core.Globals.Open | src/core.cc:254-256 | the first span takes over trace, parent, flag and baggage from the headers |
| Core.Globals.ShutdownTracer | src/core.cc:311-336 | the batch is offered exactly when the request has a first span under the present parent, collection is enabled and it is sampled at that moment, and then joins the queue exactly if that opens, has room and takes its length; then it is forgotten, on the command line together with the provider; without such a span the provider and its counter stay; the header cache is emptied |
| Core.Globals.Finish | src/core.cc:318-331 | the first span is ended before the decision, the offered batch contains it, and no other process is affected |
| Core.Globals.ExporterOpenTelemetry | src/core.cc:22-34 | the serialised batch joins the queue exactly if that opens, has room and takes its length; otherwise the queue stays as it is |
| Core.Globals.StartCliTracer | src/sdk.cc:22-52 | it succeeds exactly on an enabled command line that is not yet started, and then the slot is a started one, other processes are untouched and the header cache is emptied |
| Core.Globals.AddSpan | src/sdk.cc:180-237 | with a provider, a finished child span with the caller's start time is added, with an error or well |
| Core.Globals.AddFinished | src/sdk.cc:205-232 | the new span has the caller's start time and ends at once, with an error or well |
| Core.Globals.CurlExec | src/zend_hook_curl.cc:64-221 | a recorded request by the program touches the slot of its process only, and sends the base of the handle and the two lines of its span |
| Core.Globals.SetSampleRatioBased | src/sdk.cc:119-137 | 0 clears the flag, 1 sets it, anything else applies the configured ratio to a request without a header |
| Core.Globals.Count | src/core.cc:224-231 | without a provider, and only then, the counter stands at 0 |
| CommandLine.OneRun | src/core.cc:318-331 | a run counts on from what it finds, and removes the provider exactly if it ends under a parent with a batch |
| CommandLine.Execute | src/core.cc:214-336 | any runs leave the counter, and a batch under exactly the parents, that the record of their parents says |
| CommandLine.FreshCounter | src/core.cc:224-331 | every run finds the counter at 0 if and only if every run ends under the parent that it began under |
| CommandLine.RatioSamplesAllOrNone | src/provider.cc:231-233 | while no run ends under another parent, the ratio samples a run without headers if and only if it is 1 or -1 |
| CommandLine.ParentChanges | src/core.cc:318-331 | one run that ends under another parent makes the next one count 2, and ratio 2 samples it |
| CurlHooks.CurlHook.Setopt | src/zend_hook_curl.cc:230-262 | the cache and curl's list agree with the history, in which a header array is seen by the cache only with a provider and not by the hook's own option |
| CurlHooks.CurlHook.SetoptHandler | src/zend_hook_curl.cc:230-262 | a header array reaches curl and the cache; the hook's own option reaches curl as headers but never the cache; without a provider the cache is left alone |
| CurlHooks.CurlHook.SetoptArray | src/zend_hook_curl.cc:264-294 | whatever the header option holds is copied if there is a provider, and reaches curl if it is an array |
| CurlHooks.CurlHook.Exec | src/zend_hook_curl.cc:64-221 | curl gets the copy of the program's headers if there is one, the lines of earlier requests since it was made, and the two lines of the span created now; no other handle or process is touched; the span ends according to the response |
| CurlHooks.CurlHook.PassHeaders | src/zend_hook_curl.cc:66-137 | the lines are kept in the copy of the handle, or in a temporary list if it has none, and curl's list becomes the result |
| CurlHooks.CurlHook.StartSpan | src/zend_hook_curl.cc:90-113 | the two lines name the new child span, carry the sampling decision and list the baggage |
| CurlHooks.CurlHook.FinishSpan | src/zend_hook_curl.cc:190-221 | a failed transfer or a status from 400 on is an error, anything else ends well |
| CurlHooks.RequestSpan | src/zend_hook_curl.cc:90-221 | a recorded request adds a client span below the first one, which has the body or the curl error as its error for status 0 and from 400 on, and else ends well |
| CurlHooks.LineText | src/zend_hook_curl.cc:90-113 | the text of the line is the name of the header and the value of the new span |
| CurlHooks.CurlHook.ExecUnrecorded | src/zend_hook_curl.cc:22-26 | a request that is not recorded goes out with what the history gave to curl last: headers of the program, or the base and the two lines of the last recorded request |
| CurlHooks.CurlHook.Close | src/zend_hook_curl.cc:296-322 | the cache and curl forget the handle and no other |
| CurlHooks.CurlHook.Empty | src/core.cc:233 | the cache is emptied, at the start and at the end of a tracer, while curl keeps the lists of living handles |
| CurlHooks.LinesPileUp | src/zend_hook_curl.cc:68-132 | two lines stay in the copy for each earlier request, so it is what was copied exactly before the first one |
| CurlHooks.SeenIsCopied | src/zend_hook_curl.cc:255-291 | while the program's last headers were seen and not dropped, the copy is of just them |
| CurlHooks.RegularStep | src/zend_hook_curl.cc:252-291 | with arrays and without the hooks' own option, headers pass the cache by only while nothing is copied |
| CurlHooks.CopiedIsSeen | src/zend_hook_curl.cc:252-291 | a copy that is there is then of the program's last headers |
| CurlHooks.ProgramHeadersSent | src/zend_hook_curl.cc:68-132 | the program's headers are sent with a recorded request if and only if they were copied and the copy is still there, or there are none; and nothing else but the request's own lines if and only if, moreover, it is the first since they were copied |
| CurlHooks.HeadersBeforeStart | src/core.cc:233 | headers set before a start are still curl's list, but the next recorded request builds on nothing |
| CurlHooks.LinesStay | src/zend_hook_curl.cc:121-127 | until the handle is set, closed or recorded again, curl keeps the traceparent and baggage lines of the last recorded request, also across starts |
| CurlHooks.HandlesAreIndependent | src/zend_hook_curl.cc:68-132 | what is sent on a handle depends only on the events of that handle and the emptying of the cache |
| RedisHooks.RedisHook.HookClass | src/zend_hook_redis.cc:263-268 | the loop hooks exactly the listed functions of the table and keeps their handlers |
| RedisHooks.RedisHook.UnhookClass | src/zend_hook_redis.cc:285-289 | the loop puts a kept handler, or a null one if none was kept, back at every listed function |
| RedisHooks.RedisHook.Register | src/zend_hook_redis.cc:260-279 | both classes are hooked, each with a map of its own; a class that is not loaded is left alone |
| RedisHooks.RedisHook.Unregister | src/zend_hook_redis.cc:281-300 | both classes are unhooked from their own map |
| RedisHooks.RedisHook.Dispatch | src/zend_hook_redis.cc:135-142 | the hook calls the handler kept for its own class and function, and nothing for another class |
| RedisHooks.LowerMeaning | src/zend_hook_redis.cc:135-142 | lower-casing changes the 26 capital letters and nothing else |
| RedisHooks.RepeatsMeaning | src/zend_hook_redis.cc:263-268 | the repeated names are those that occur at two positions of the list |
| RedisHooks.Restored | src/zend_hook_redis.cc:260-300 | register then unregister gives back every handler exactly when no function of the table is listed twice, unless the hook was there from the start |
| RedisHooks.Transparent | src/zend_hook_redis.cc:32-33 | while hooked, exactly the listed functions of either class carry the hook, and a call runs that class's own handler once exactly when the function is not listed twice |
| Lifecycle.SampledLater | src/provider.cc:140-156 | with a monotone clock a sampled request stays sampled |
| Lifecycle.StartedShape | src/core.cc:254-256 | a run without headers is the root of a new trace sampled by the ratio; one with headers takes over trace, parent, flag and baggage |
| Lifecycle.ChildSlot | src/zend_hook_curl.cc:90-93 | a child span extends the batch below the first span and changes neither the flag nor the baggage |
| Lifecycle.AddedSlot | src/sdk.cc:205-232 | an added span is below the first one, and only a failed one makes the request sampled and gives the batch an error |
| Lifecycle.EndedSlot | src/provider.cc:279-295 | ending a span changes no identity; only an error makes the request sampled, and the batch has an error afterwards exactly if it had one or this is one |
| Lifecycle.HeadersAreReadable | src/provider.cc:221-229 | every emitted header can be read, and gives what was written |
| Lifecycle.StepAdvances | src/provider.cc:97-295 | every step inside a run creates at most one child span, emits at most one pair of headers and keeps the marks of its run and all of every other |
| Lifecycle.StepInv | src/core.cc:214-336 | every step of any process keeps the invariant on batches, runs, headers and spans |
| Lifecycle.ReachableInv | src/core.cc:214-336 | the invariant holds in every world that the processes can reach |
| Lifecycle.StartAdoptsBaggage | src/provider.cc:240-277 | a run started with emitted headers begins with the caller's baggage exactly when no key or value contains a separator |
| Lifecycle.ExecIsSteps | src/zend_hook_curl.cc:64-221 | a recorded request by the client hook is the emission of headers for a child span followed by the end of that span, with the same lines and the same slot |
| Ledger.StartedExactly | src/core.cc:254-256 | the slot of a run that has begun, in full: one span with the name, kind and start it was given, the identifiers drawn or taken from the headers, the configured attributes and the baggage of the headers |
| Ledger.AddedExactly | src/sdk.cc:180-237 | an added span has the name, kind and start that the caller gives, the identity of a child, and is ended at once |
| Ledger.StepBalanced | src/core.cc:214-336 | after every step of any process, every slot and every finished run agrees with an account that is kept from the steps alone |
| Ledger.EndingsMeaning | src/provider.cc:279-295 | the last failure of a span is its status, whatever comes after it; without one it is well if it was ended at all; and the last ending sets its end |
| Ledger.HeldAsAsked | src/provider.cc:55-123 | in every reachable world a process holds the spans so far, the configured attributes followed by the baggage entries in order, each key with its last value, and the flag of the account |
| Ledger.BatchIsAsAsked | src/core.cc:318-327 | in every reachable world the batch of a finished run has exactly the spans asked for, in order, with identity, name, kind and start, each ended as its endings say, and it has an error if and only if a span was ended with one |
| Ledger.OfferedExactly | src/core.cc:321-323 | in every reachable world a finished run has offered its batch if and only if its process collects and it is flagged or has taken the configured milliseconds; if its program left the ratio alone, that is if it began sampled, has an error or was slow |
| Ledger.WhatIsExported | src/core.cc:321-323 | where no program sets the ratio, a finished run is exported if and only if its process collects and it began sampled, one of its spans was ended with an error, or it took the configured milliseconds |
| Ledger.HeaderSays | src/provider.cc:251-253 | an emitted header names the trace of the run and the right span, and has flag 01 exactly if the run is flagged or slow by then |
| Ledger.RootBegins | src/provider.cc:231-233 | the k-th request of a web server, without headers, begins sampled exactly if the ratio is 1 or divides (k - 1) % 10000001 + 1 |
| Ledger.NeverZeroed | src/sdk.cc:119-137 | a run counts as zeroed only if some program sets the ratio to 0 |
| Simulation.Start | src/core.cc:214-309 | the globals after a start hold what the Start of the lifecycle gives the process |
| Simulation.Shutdown | src/core.cc:311-336 | the globals after a shutdown hold what the Shutdown of the lifecycle leaves, the batch is offered exactly if the lifecycle says so, and if the queue opens it takes the step of a producer that offers the serialised batch |
| Simulation.AddSpan | src/sdk.cc:180-237 | an added span is an Add of the lifecycle |
| Simulation.SetSampleRatioBased | src/sdk.cc:119-137 | setting the ratio is a SetRatio of the lifecycle |
| Simulation.Exec | src/zend_hook_curl.cc:64-221 | a recorded request is a Send and the ends of its span, and the two lines are the headers that the Send emits |
| TraceTree.SingleRoot | src/provider.cc:108-123 | where no parent is missing, all spans of a trace hang from one root |
| TraceTree.TracesAreTrees | src/zend_hook_curl.cc:90-113 | in every reachable world the spans of a trace id form one rooted tree: parents exist, are earlier, unique and in the same trace, and later spans of a run are children of its first |
| TraceTree.BatchesAreComplete | src/core.cc:318-327 | the batch of a finished run has exactly the spans created during the run, in order |
| TraceTree.SamplingAgreement | src/provider.cc:251-253 | once flag 01 has gone out, the sender offers its batch unless the ratio is set to 0 later, and so does every run started with that header unless the ratio is set to 0 there |
| TraceTree.FailuresAreExported | src/provider.cc:288-295 | a run with a failed span offers its batch, unless the ratio was set to 0 |
| TraceTree.RootDecides | src/provider.cc:221-233 | a decision to sample at the root reaches every run of the trace |
| TraceTree.WholeTraceIsExported | src/core.cc:311-327 | if the root is sampled at its start and no program of the trace sets the ratio to 0, every finished run of the trace offers its batch |
| TraceTree.NoOrphans | src/core.cc:311-327 | in such a trace the parent of any span is in the batch that its own run has offered, once that run is over |
| TraceTree.CommandLineRatio | src/core.cc:224-230 | in every reachable world, where parents stay the same, a root run of the command line is sampled at its start if and only if the ratio is 1 or -1 |
| Orphans.ExportIsCertain | src/core.cc:311-327 | in every continuation without the ratio being set to 0 the run exports at its end, if and only if it is flagged or slow already |
| Orphans.SafeStep | src/provider.cc:140-165 | a step of any process but setting the ratio to 0 keeps a sampled run sampled, or ends it with an export |
| Orphans.LateSamplingOrphans | src/provider.cc:288-295 | whenever a run that is neither flagged nor slow calls a process that fails, the callee exports and the caller, ending in time, does not |
| Orphans.OrphanCondition | src/provider.cc:251-253 | a caller can lose the parent of a callee's exported span in some continuation without the ratio being set to 0, if and only if it is neither flagged nor slow when it calls |
| Orphans.OrphanIsReachable | src/core.cc:311-327 | two web servers with ratio 2 reach a world in which that happens |
| Export.NextLogged | src/core.cc:22-34 | in every interleaving of processes and consumers the queue is offered exactly one message for each run that hands over its batch, in order: the serialised final batch with its resource |
| Export.WorldRuns | src/core.cc:214-336 | the steps that the processes take beside the queue are an ordinary run of the lifecycle |
| Export.QueueRuns | src/core.cc:22-62 | what the processes and consumers do to the queue is one of its ordinary runs |
| Export.CollectorObtains | src/core.cc:22-62 | for every interleaving, and whatever the network does, a collector obtains only texts of finished runs that were to be exported, and, when nothing is held up, the text of every such run |
| Export.SampledTraceArrives | src/core.cc:311-327 | when nothing is held up, a trace whose root is sampled at its start, without any ratio set to 0, is complete at the collector: each span of a finished run is in a batch whose text is obtained |
| Export.FailureArrives | src/provider.cc:288-295 | when nothing is held up, the text of every run with a failed span arrives, unless the ratio was set to 0 |

## Left out

- gRPC channels, completion queues, sockets, name resolution itself and its retries, unix sockets, logging: a send is an entry in a list of datagrams.
- Protocol buffers: a batch is a sequence of spans and its serialisation a parameter; attributes and events of spans are not modelled, resource attributes are a list.
- Providers.Provider.GetTracer: the attributes that lines 58-66 of src/provider.cc read from the configuration are a parameter, as a list.
- Core.Globals.StartTracer: the attributes of the first span and the service name derived from the server variables are not modelled.
- Core.Globals.AddSpan: the attribute list of the call is not modelled.
- MessageQueues.ConsumeOne: the sending by gRPC is not modelled, only that nothing goes out over UDP then.
- Pointers to spans: a span is named by its position in its batch, so aliasing and use after `clean` are not modelled.
- The redundant `resourceSpan` pointers of `Provider`: they always name the one entry of the request.
- Hex.Atoul: strings of hex digits only; `strtoul` also accepts blanks, a sign and a prefix, and its laws are stated for digits.
- Hex.ReadOctet: segments of hex digits only, as for `Hex.Atoul`.
- Hex.Decode: strings of hex digits only, as for `Hex.Atoul`; on other characters the program may give up or read a sign.
- Providers.Provider.ParseTraceParent: a header of four fields needs identifiers of enough hex digits; the program copies shorter ones beyond their end.
- Operations before `createFirstSpan` or after `clean`, which dereference null or freed pointers: they are preconditions; so is a configured ratio other than 0, by which the program divides.
- Conversions.ShardCountLarge: sizes below 2^29 bytes; from there on the multiples of 60000 are no longer all floats, and the count can also be one too many: 536940000 bytes give 8950 shards instead of 8949, the last of them empty. A message of the queue is bounded by its configured size, by default 102400 bytes.
- OtelExporters.CountFits: payloads below 2^29 bytes, as for `Conversions.ShardCountLarge`.
- OtelExporters.OtelExporter.SendTracerByUdp: payloads below 2^29 bytes, as for `Conversions.ShardCountLarge`.
- OtelExporters.EmittedReassembles: payloads below 2^29 bytes, as for `Conversions.ShardCountLarge`.
- Pipeline.EndToEnd: a queue for messages below 2^29 bytes, as for `Conversions.ShardCountLarge`; so too `Pipeline.ArrivedIsObtained` and `Pipeline.ObtainedWasAccepted`.
- Export.CollectorObtains: a queue for messages below 2^24 bytes, as for `Pipeline.EndToEndExactly`; so too `Export.SampledTraceArrives` and `Export.FailureArrives`.
- Ledger.OfferedExactly: runs of less than 2^53 nanoseconds and thresholds that are not negative, so that milliseconds are whole numbers; the decision for any other is that of `Conversions.Millis`. So too `Ledger.WhatIsExported` and `Ledger.HeaderSays`.
- The exponent range of floats is unbounded in `Rounding`.
- Timer: modelled on values, as the steps of two threads interleave; undefined behaviour of waiting without holding the mutex, clock functions and thread naming are not modelled; the creation of the thread and the assignment of its pointer are one step.
- The command line's own number of consumers and the creation and removal of the queue by name; the interprocess queue is an abstract FIFO with its documented rules, and all messages have priority 0.
- CurlHooks.CurlHook.PassHeaders: requires an array, as `CurlHooks.CurlHook.Exec` does.
- `curl_reset` and `curl_copy_handle`, which src/zend_hook_curl.cc does not hook: after a reset the next recorded request would send the old copy again, and a copied handle has none.
- Curl handle numbers that are used again for another handle without a close: the model has one number for each handle.
- CurlHooks.CurlHook.Exec: requires that the copy of the handle is an array; the hook of `curl_setopt_array` copies anything, and appending to what is no array has no defined meaning.
- The list of redis commands is a parameter of the model; the class and function names are compared as the program does, with ASCII lower-casing. A null handler stands for a null pointer that a later call would follow.
- The memcached, PDO, mysqli and Yar hooks, the exception and error hooks, argument and response parsing: long but shallow, and of the same form as the hooks that are modelled.
- `split`, `trim`, `find_code_stacktrace`, string predicates and time formatting of src/utils.cc: single-branch facts.
