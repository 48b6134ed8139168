/** The restart-safe transcription worker: what one visit and one pass do to the captures. */
module Transcription {
  import opened Integers
  import opened Sequences
  import opened Results
  import opened Text
  import opened TextOrder
  import opened CaptureModel

  datatype State = State(status: string, attempts: nat, lastError: Option<string>, nextAttemptAtMs: Option<nat>)

  const PENDING := State("pending", 0, None, None)

  datatype Transcript = Transcript(
    schemaVersion: nat, captureId: string, provider: string, model: string, createdAtMs: nat, text: string)

  datatype Capture = Capture(record: Record, state: State, transcript: Option<Transcript>)

  type Shelf = map<string, Capture>

  datatype Answer = Text(text: string) | Transient(message: string) | Permanent(message: string)

  datatype Provider = Provider(name: string, model: string, answer: Record -> Answer)

  /** Where the writes of one visit stop, by failure or crash. An unsynced state is in place all the same. */
  datatype WriteFault = NoFault | TranscriptFails | StateFails | StateUnsynced

  predicate Ready(state: State, nowMs: nat) {
    || state.status == "pending"
    || (state.status == "retrying" && state.nextAttemptAtMs.Some? && state.nextAttemptAtMs.value <= nowMs)
  }

  /** Backoff before the next attempt: five seconds, doubling, at most 512 times that. */
  function Delay(attempts: nat): nat {
    var earlier := if attempts == 0 then 0 else attempts - 1;
    5_000 * Pow2(if earlier < 9 then earlier else 9)
  }

  function Completed(state: State): State {
    state.(status := "completed", lastError := None, nextAttemptAtMs := None)
  }

  function AfterFailure(state: State, nowMs: nat, message: string, retry: bool): State {
    var attempts := if state.attempts < MAX_U32 then state.attempts + 1 else MAX_U32;
    if retry then State("retrying", attempts, Some(message), Some(Saturate(nowMs + Delay(attempts))))
    else State("failed", attempts, Some(message), None)
  }

  function Requeued(state: State): State {
    if state.status == "completed" then state else State("pending", state.attempts, None, None)
  }

  predicate ValidTranscript(id: string, transcript: Transcript) {
    && transcript.captureId == id && transcript.schemaVersion == 1
    && transcript.provider != "" && transcript.model != "" && !IsBlank(transcript.text)
    && transcript.createdAtMs != 0
  }

  // ----- one visit -----

  /** A capture after an attempted write, and whether the write was reported done. */
  datatype Written = Written(capture: Capture, reply: Result<(), CaptureError>)

  function WriteState(capture: Capture, state: State, fault: WriteFault): Written {
    match fault
    case NoFault => Written(capture.(state := state), Success(()))
    case StateUnsynced => Written(capture.(state := state), Failure(Io))
    case _ => Written(capture, Failure(Io))
  }

  /** Store a transcript once, then mark its capture completed. */
  function Complete(id: string, capture: Capture, transcript: Transcript, fault: WriteFault): Written {
    if !ValidTranscript(id, transcript) then Written(capture, Failure(InvalidCapture))
    else if capture.transcript.Some? && capture.transcript != Some(transcript) then Written(capture, Failure(Conflict))
    else if capture.transcript.None? && fault == TranscriptFails then Written(capture, Failure(Io))
    else
      var kept := capture.(transcript := Some(transcript));
      WriteState(kept, Completed(kept.state), fault)
  }

  datatype Visit = Visit(capture: Capture, called: bool, reply: Result<bool, CaptureError>)

  function Processed(written: Written, called: bool): Visit {
    Visit(written.capture, called,
          match written.reply case Success(_) => Success(true) case Failure(error) => Failure(error))
  }

  function TranscriptFor(provider: Provider, id: string, nowMs: nat, text: string): Transcript {
    Transcript(1, id, provider.name, provider.model, nowMs, text)
  }

  function VisitOne(id: string, capture: Capture, provider: Provider, nowMs: nat, fault: WriteFault): Visit {
    if !Ready(capture.state, nowMs) then Visit(capture, false, Success(false))
    else if capture.transcript.Some? then Processed(WriteState(capture, Completed(capture.state), fault), false)
    else
      match provider.answer(capture.record)
      case Text(text) =>
        if IsBlank(text) then
          Processed(WriteState(capture, AfterFailure(capture.state, nowMs, "provider returned an empty transcript", false), fault), true)
        else Processed(Complete(id, capture, TranscriptFor(provider, id, nowMs, text), fault), true)
      case Transient(message) => Processed(WriteState(capture, AfterFailure(capture.state, nowMs, message, true), fault), true)
      case Permanent(message) => Processed(WriteState(capture, AfterFailure(capture.state, nowMs, message, false), fault), true)
  }

  // ----- one pass -----

  function RecordedBefore(shelf: Shelf, left: string, right: string): bool
    requires left in shelf && right in shelf
  {
    !CompareNat(shelf[left].record.recordedAtMs, shelf[right].record.recordedAtMs).Then(CompareText(left, right)).Greater?
  }

  function InsertByTime(shelf: Shelf, id: string, ids: seq<string>): (sorted: seq<string>)
    requires id in shelf && forall other :: other in ids ==> other in shelf
    ensures multiset(sorted) == multiset(ids) + multiset{id}
    ensures forall other :: other in sorted ==> other in shelf
  {
    if ids == [] then [id]
    else
      assert ids == [ids[0]] + ids[1..];
      if RecordedBefore(shelf, id, ids[0]) then [id] + ids else [ids[0]] + InsertByTime(shelf, id, ids[1..])
  }

  /** The directory listing in recording order, ties broken by id. */
  function Listed(shelf: Shelf, names: seq<string>): (ids: seq<string>)
    requires forall name :: name in names ==> name in shelf
    ensures multiset(ids) == multiset(names)
    ensures forall id :: id in ids ==> id in shelf
  {
    if names == [] then []
    else
      assert names == [names[0]] + names[1..];
      InsertByTime(shelf, names[0], Listed(shelf, names[1..]))
  }

  datatype Pass = Pass(shelf: Shelf, reply: Result<nat, CaptureError>, called: seq<string>)

  /** Visit each listed capture once; a storage failure ends the pass. */
  function VisitEach(shelf: Shelf, ids: seq<string>, provider: Provider, nowMs: nat, faults: string -> WriteFault): (pass: Pass)
    requires forall id :: id in ids ==> id in shelf
    ensures pass.shelf.Keys == shelf.Keys
    decreases |ids|
  {
    if ids == [] then Pass(shelf, Success(0), [])
    else
      var visit := VisitOne(ids[0], shelf[ids[0]], provider, nowMs, faults(ids[0]));
      var next := shelf[ids[0] := visit.capture];
      var called := if visit.called then [ids[0]] else [];
      match visit.reply
      case Failure(error) => Pass(next, Failure(error), called)
      case Success(processed) =>
        var rest := VisitEach(next, ids[1..], provider, nowMs, faults);
        Pass(rest.shelf,
             if rest.reply.Success? then Success(rest.reply.value + if processed then 1 else 0) else rest.reply,
             called + rest.called)
  }

  // ----- one visit's guarantees -----

  /** The provider is consulted only for a ready capture that has no transcript, and a stored
      transcript never changes. */
  lemma VisitRespectsTranscript(id: string, capture: Capture, provider: Provider, nowMs: nat, fault: WriteFault)
    ensures var visit := VisitOne(id, capture, provider, nowMs, fault);
      && (visit.called <==> Ready(capture.state, nowMs) && capture.transcript.None?)
      && (capture.transcript.Some? ==> visit.capture.transcript == capture.transcript)
      && visit.capture.record == capture.record
      && (visit.reply.Success? ==> (visit.reply.value <==> Ready(capture.state, nowMs)))
  {
  }

  lemma DelayIsPositive(attempts: nat)
    ensures 5_000 <= Delay(attempts)
  {
  }

  /** A visit that was reported done leaves its capture ready only when a transient failure cannot be
      put off any further, at the last representable millisecond. */
  lemma VisitSettles(id: string, capture: Capture, provider: Provider, nowMs: nat, fault: WriteFault)
    requires nowMs <= MAX_U64
    ensures var visit := VisitOne(id, capture, provider, nowMs, fault);
      visit.reply.Success? ==>
        (Ready(visit.capture.state, nowMs) <==> visit.called && provider.answer(capture.record).Transient? && nowMs == MAX_U64)
  {
    hide Pow2, ValidTranscript, IsBlank, Delay;
    var attempts := if capture.state.attempts < MAX_U32 then capture.state.attempts + 1 else MAX_U32;
    DelayIsPositive(attempts);
  }

  /** Without storage errors a visit fails exactly when a transcript arrives that the store refuses:
      at time zero, or from a provider without a name or a model. */
  lemma VisitFailsIff(id: string, capture: Capture, provider: Provider, nowMs: nat)
    ensures VisitOne(id, capture, provider, nowMs, NoFault).reply.Failure? <==>
      && Ready(capture.state, nowMs) && capture.transcript.None?
      && provider.answer(capture.record).Text? && !IsBlank(provider.answer(capture.record).text)
      && (nowMs == 0 || provider.name == "" || provider.model == "")
  {
    hide IsBlank;
  }

  // ----- a pass's guarantees -----

  /** A pass touches only listed captures and rewrites no transcript, even one that fails part-way. */
  lemma {:induction false} PassKeepsTranscripts(shelf: Shelf, ids: seq<string>, provider: Provider, nowMs: nat, faults: string -> WriteFault)
    requires forall id :: id in ids ==> id in shelf
    ensures var after := VisitEach(shelf, ids, provider, nowMs, faults).shelf;
      && (forall id :: id in shelf ==> after[id].record == shelf[id].record)
      && (forall id :: id in shelf && shelf[id].transcript.Some? ==> after[id].transcript == shelf[id].transcript)
      && (forall id :: id in shelf && id !in ids ==> after[id] == shelf[id])
    decreases |ids|
  {
    hide VisitOne, Ready;
    if ids != [] {
      VisitRespectsTranscript(ids[0], shelf[ids[0]], provider, nowMs, faults(ids[0]));
      var visit := VisitOne(ids[0], shelf[ids[0]], provider, nowMs, faults(ids[0]));
      PassKeepsTranscripts(shelf[ids[0] := visit.capture], ids[1..], provider, nowMs, faults);
    }
  }

  /** It asks the provider at most once for each, and only for those that were ready and had no transcript. */
  lemma {:induction false} PassAsksOnce(shelf: Shelf, ids: seq<string>, provider: Provider, nowMs: nat, faults: string -> WriteFault)
    requires Unrepeated(ids) && forall id :: id in ids ==> id in shelf
    ensures var called := VisitEach(shelf, ids, provider, nowMs, faults).called;
      && Unrepeated(called)
      && forall id :: id in called ==> id in ids && Ready(shelf[id].state, nowMs) && shelf[id].transcript.None?
    decreases |ids|
  {
    hide VisitOne, Ready;
    if ids != [] {
      VisitRespectsTranscript(ids[0], shelf[ids[0]], provider, nowMs, faults(ids[0]));
      var visit := VisitOne(ids[0], shelf[ids[0]], provider, nowMs, faults(ids[0]));
      var next := shelf[ids[0] := visit.capture];
      PassAsksOnce(next, ids[1..], provider, nowMs, faults);
      var rest := VisitEach(next, ids[1..], provider, nowMs, faults).called;
      assert forall i :: 0 <= i < |rest| ==> rest[i] in rest && rest[i] in ids[1..];
    }
  }

  /** A finished pass leaves no listed capture ready. */
  lemma {:induction false} PassLeavesNothingReady(shelf: Shelf, ids: seq<string>, provider: Provider, nowMs: nat, faults: string -> WriteFault)
    requires Unrepeated(ids) && (forall id :: id in ids ==> id in shelf) && nowMs < MAX_U64
    requires VisitEach(shelf, ids, provider, nowMs, faults).reply.Success?
    ensures forall id :: id in ids ==> !Ready(VisitEach(shelf, ids, provider, nowMs, faults).shelf[id].state, nowMs)
    decreases |ids|
  {
    hide VisitOne, Ready;
    if ids != [] {
      VisitSettles(ids[0], shelf[ids[0]], provider, nowMs, faults(ids[0]));
      var visit := VisitOne(ids[0], shelf[ids[0]], provider, nowMs, faults(ids[0]));
      var next := shelf[ids[0] := visit.capture];
      PassLeavesNothingReady(next, ids[1..], provider, nowMs, faults);
      PassKeepsTranscripts(next, ids[1..], provider, nowMs, faults);
      assert forall id :: id in ids ==> id == ids[0] || id in ids[1..];
    }
  }

  lemma {:induction false} NothingReadyNothingDone(shelf: Shelf, ids: seq<string>, provider: Provider, nowMs: nat, faults: string -> WriteFault)
    requires forall id :: id in ids ==> id in shelf && !Ready(shelf[id].state, nowMs)
    ensures VisitEach(shelf, ids, provider, nowMs, faults) == Pass(shelf, Success(0), [])
    decreases |ids|
  {
    if ids != [] {
      assert shelf[ids[0] := shelf[ids[0]]] == shelf;
      hide Ready;
      NothingReadyNothingDone(shelf, ids[1..], provider, nowMs, faults);
    }
  }

  /** A second pass at the same time, whatever the provider and the disk do then, processes nothing. */
  lemma SecondPassIsIdle(shelf: Shelf, names: seq<string>, first: Provider, second: Provider, nowMs: nat,
                         faults: string -> WriteFault, laterFaults: string -> WriteFault, laterNames: seq<string>)
    requires Unrepeated(names) && (forall name :: name in names <==> name in shelf) && nowMs < MAX_U64
    requires forall name :: name in laterNames <==> name in shelf
    requires VisitEach(shelf, Listed(shelf, names), first, nowMs, faults).reply.Success?
    ensures var after := VisitEach(shelf, Listed(shelf, names), first, nowMs, faults).shelf;
      && after.Keys == shelf.Keys
      && VisitEach(after, Listed(after, laterNames), second, nowMs, laterFaults) == Pass(after, Success(0), [])
  {
    hide Listed, VisitEach, Ready;
    ListingUnrepeated(shelf, names);
    var ids := Listed(shelf, names);
    PassKeepsTranscripts(shelf, ids, first, nowMs, faults);
    PassLeavesNothingReady(shelf, ids, first, nowMs, faults);
    var after := VisitEach(shelf, ids, first, nowMs, faults).shelf;
    forall id | id in Listed(after, laterNames) ensures id in after && !Ready(after[id].state, nowMs) {
      assert id in multiset(names);
      assert id in multiset(ids);
    }
    NothingReadyNothingDone(after, Listed(after, laterNames), second, nowMs, laterFaults);
  }

  lemma ListingUnrepeated(shelf: Shelf, names: seq<string>)
    requires Unrepeated(names) && forall name :: name in names ==> name in shelf
    ensures Unrepeated(Listed(shelf, names))
    ensures forall name :: name in names <==> name in Listed(shelf, names)
  {
    hide Listed;
    RearrangedUnrepeated(names, Listed(shelf, names));
  }

  // ----- runs -----

  /** A pass of the one worker, an operator's retry, or a new capture. */
  datatype Action =
    | ProcessReady(names: seq<string>, provider: Provider, nowMs: nat, faults: string -> WriteFault)
    | Retry(id: string, fault: WriteFault)
    | Ingest(id: string, record: Record)

  function Step(shelf: Shelf, action: Action): Shelf {
    match action
    case ProcessReady(names, provider, nowMs, faults) =>
      if Unrepeated(names) && forall name :: name in names ==> name in shelf then
        VisitEach(shelf, Listed(shelf, names), provider, nowMs, faults).shelf
      else shelf
    case Retry(id, fault) =>
      if id !in shelf || shelf[id].state.status == "completed" then shelf
      else shelf[id := WriteState(shelf[id], Requeued(shelf[id].state), fault).capture]
    case Ingest(id, record) => if id in shelf then shelf else shelf[id := Capture(record, PENDING, None)]
  }

  function Run(shelf: Shelf, actions: seq<Action>): Shelf
    decreases |actions|
  {
    if actions == [] then shelf else Run(Step(shelf, actions[0]), actions[1..])
  }

  /** A transcript that is not yet marked completed is due again no later than it was made. */
  predicate Converging(capture: Capture) {
    capture.transcript.Some? ==>
      || capture.state.status == "completed" || capture.state.status == "pending"
      || (capture.state.status == "retrying" && capture.state.nextAttemptAtMs.Some?
          && capture.state.nextAttemptAtMs.value <= capture.transcript.value.createdAtMs)
  }

  predicate AllConverging(shelf: Shelf) {
    forall id :: id in shelf ==> Converging(shelf[id])
  }

  lemma VisitConverges(id: string, capture: Capture, provider: Provider, nowMs: nat, fault: WriteFault)
    requires Converging(capture)
    ensures Converging(VisitOne(id, capture, provider, nowMs, fault).capture)
  {
    hide IsBlank, ValidTranscript, Delay;
  }

  lemma {:induction false} PassConverges(shelf: Shelf, ids: seq<string>, provider: Provider, nowMs: nat, faults: string -> WriteFault)
    requires AllConverging(shelf) && forall id :: id in ids ==> id in shelf
    ensures AllConverging(VisitEach(shelf, ids, provider, nowMs, faults).shelf)
    decreases |ids|
  {
    hide VisitOne, Converging;
    if ids != [] {
      VisitConverges(ids[0], shelf[ids[0]], provider, nowMs, faults(ids[0]));
      var next := shelf[ids[0] := VisitOne(ids[0], shelf[ids[0]], provider, nowMs, faults(ids[0])).capture];
      PassConverges(next, ids[1..], provider, nowMs, faults);
    }
  }

  lemma StepKeeps(shelf: Shelf, action: Action)
    requires AllConverging(shelf)
    ensures AllConverging(Step(shelf, action))
    ensures forall id :: id in shelf ==> id in Step(shelf, action) && Step(shelf, action)[id].record == shelf[id].record
    ensures forall id :: id in shelf && shelf[id].transcript.Some? ==> Step(shelf, action)[id].transcript == shelf[id].transcript
  {
    hide Listed, VisitEach;
    match action {
      case ProcessReady(names, provider, nowMs, faults) =>
        if Unrepeated(names) && forall name :: name in names ==> name in shelf {
          ListingUnrepeated(shelf, names);
          PassConverges(shelf, Listed(shelf, names), provider, nowMs, faults);
          PassKeepsTranscripts(shelf, Listed(shelf, names), provider, nowMs, faults);
        }
      case Retry(id, fault) =>
      case Ingest(id, record) =>
    }
  }

  /** Over any run of passes, retries and arrivals, cut short anywhere, a stored transcript and every
      record stay as they are. */
  lemma {:induction false} TranscriptsAreImmutable(shelf: Shelf, actions: seq<Action>, id: string)
    requires AllConverging(shelf) && id in shelf
    ensures AllConverging(Run(shelf, actions)) && id in Run(shelf, actions)
    ensures Run(shelf, actions)[id].record == shelf[id].record
    ensures shelf[id].transcript.Some? ==> Run(shelf, actions)[id].transcript == shelf[id].transcript
    decreases |actions|
  {
    hide Step, AllConverging;
    if actions != [] {
      StepKeeps(shelf, actions[0]);
      TranscriptsAreImmutable(Step(shelf, actions[0]), actions[1..], id);
    }
  }

  lemma {:induction false} RunConverges(shelf: Shelf, actions: seq<Action>)
    requires AllConverging(shelf)
    ensures AllConverging(Run(shelf, actions))
    decreases |actions|
  {
    hide Step, AllConverging;
    if actions != [] {
      StepKeeps(shelf, actions[0]);
      RunConverges(Step(shelf, actions[0]), actions[1..]);
    }
  }

  /** From any reachable state, one finished pass no earlier than a transcript was made marks its
      capture completed, without asking the provider. */
  lemma TranscribedIsCompleted(actions: seq<Action>, names: seq<string>, provider: Provider, nowMs: nat,
                               faults: string -> WriteFault, id: string)
    requires var shelf := Run(map[], actions);
      && Unrepeated(names) && (forall name :: name in names <==> name in shelf)
      && id in shelf && shelf[id].transcript.Some?
      && shelf[id].transcript.value.createdAtMs <= nowMs < MAX_U64
      && VisitEach(shelf, Listed(shelf, names), provider, nowMs, faults).reply.Success?
    ensures var shelf := Run(map[], actions);
      var pass := VisitEach(shelf, Listed(shelf, names), provider, nowMs, faults);
      id !in pass.called && pass.shelf.Keys == shelf.Keys && pass.shelf[id].state.status == "completed"
  {
    RunConverges(map[], actions);
    var shelf := Run(map[], actions);
    hide Run, Listed, VisitEach;
    ListingUnrepeated(shelf, names);
    var ids := Listed(shelf, names);
    PassKeepsTranscripts(shelf, ids, provider, nowMs, faults);
    PassAsksOnce(shelf, ids, provider, nowMs, faults);
    PassLeavesNothingReady(shelf, ids, provider, nowMs, faults);
    PassConverges(shelf, ids, provider, nowMs, faults);
    var after := VisitEach(shelf, ids, provider, nowMs, faults).shelf[id];
    assert Converging(after) && !Ready(after.state, nowMs);
  }
}
