/**
 What transcription means to a caller: the state and transcript each provider answer leaves, in which order
 a pass goes through the captures, and what an operator's retry achieves.
 */
module TranscriptionMeaning {
  import opened Integers
  import opened Sequences
  import opened Results
  import opened Text
  import opened TextOrder
  import opened CaptureModel
  import opened Transcription

  // ----- one visit -----

  /** The capture waits for transcription, or its last failure asked to try again by now. */
  ghost predicate Due(state: State, nowMs: nat) {
    || state.status == "pending"
    || (state.status == "retrying" && exists atMs :: state.nextAttemptAtMs == Some(atMs) && atMs <= nowMs)
  }

  /** Backoff before the next attempt, by the attempts made. */
  function Backoff(attempts: nat): nat {
    if attempts <= 1 then 5_000
    else if attempts == 2 then 10_000
    else if attempts == 3 then 20_000
    else if attempts == 4 then 40_000
    else if attempts == 5 then 80_000
    else if attempts == 6 then 160_000
    else if attempts == 7 then 320_000
    else if attempts == 8 then 640_000
    else if attempts == 9 then 1_280_000
    else 2_560_000
  }

  lemma BackoffMeans(attempts: nat)
    ensures Delay(attempts) == Backoff(attempts)
  {
    assert Pow2(0) == 1 && Pow2(1) == 2 && Pow2(2) == 4 && Pow2(3) == 8 && Pow2(4) == 16;
    assert Pow2(5) == 32 && Pow2(6) == 64 && Pow2(7) == 128 && Pow2(8) == 256 && Pow2(9) == 512;
  }

  predicate Finished(before: State, after: State) {
    after.status == "completed" && after.attempts == before.attempts && after.lastError.None? && after.nextAttemptAtMs.None?
  }

  /** One more attempt counted and its message kept; `atMs` is the next attempt, if there is to be one. */
  predicate Failed(before: State, after: State, message: string, atMs: Option<nat>) {
    && after.attempts == (if before.attempts < MAX_U32 then before.attempts + 1 else MAX_U32)
    && after.lastError == Some(message)
    && after.status == (if atMs.Some? then "retrying" else "failed")
    && after.nextAttemptAtMs == atMs
  }

  function NextAttempt(before: State, nowMs: nat): nat {
    var attempts := if before.attempts < MAX_U32 then before.attempts + 1 else MAX_U32;
    if nowMs + Backoff(attempts) < MAX_U64 then nowMs + Backoff(attempts) else MAX_U64
  }

  /** What a visit that is reported done leaves of a due capture. A new transcript names the capture, the
      provider, its model, the time and the very text it answered; a blank text is a permanent failure. */
  ghost predicate Leaves(id: string, before: Capture, after: Capture, provider: Provider, nowMs: nat) {
    && after.record == before.record
    && if before.transcript.Some? then
         after.transcript == before.transcript && Finished(before.state, after.state)
       else
         match provider.answer(before.record)
         case Text(text) =>
           if forall i :: 0 <= i < |text| ==> IsWhitespace(text[i]) then
             after.transcript.None? && Failed(before.state, after.state, "provider returned an empty transcript", None)
           else
             && Finished(before.state, after.state)
             && after.transcript == Some(Transcript(schemaVersion := 1, captureId := id, provider := provider.name,
                                                    model := provider.model, createdAtMs := nowMs, text := text))
         case Transient(message) =>
           after.transcript.None? && Failed(before.state, after.state, message, Some(NextAttempt(before.state, nowMs)))
         case Permanent(message) => after.transcript.None? && Failed(before.state, after.state, message, None)
  }

  /** A visit reported done asked the provider exactly for a due capture without a transcript, and left what
      its answer says; of one that is not due it leaves everything. */
  lemma VisitMeans(id: string, capture: Capture, provider: Provider, nowMs: nat, fault: WriteFault)
    requires VisitOne(id, capture, provider, nowMs, fault).reply.Success?
    ensures var visit := VisitOne(id, capture, provider, nowMs, fault);
      && visit.reply.value == Due(capture.state, nowMs)
      && (visit.called <==> Due(capture.state, nowMs) && capture.transcript.None?)
      && (if Due(capture.state, nowMs) then Leaves(id, capture, visit.capture, provider, nowMs) else visit.capture == capture)
  {
    var attempts := if capture.state.attempts < MAX_U32 then capture.state.attempts + 1 else MAX_U32;
    BackoffMeans(attempts);
    hide Delay, Backoff, IsWhitespace;
    assert Ready(capture.state, nowMs) <==> Due(capture.state, nowMs);
  }

  // ----- one pass -----

  /** A finished pass does to every listed capture what a visit does to it as it was when the pass began. */
  lemma {:induction false} PassVisitsEach(shelf: Shelf, ids: seq<string>, provider: Provider, nowMs: nat,
                                          faults: string -> WriteFault, id: string)
    requires Unrepeated(ids) && (forall other :: other in ids ==> other in shelf) && id in ids
    requires VisitEach(shelf, ids, provider, nowMs, faults).reply.Success?
    ensures var pass := VisitEach(shelf, ids, provider, nowMs, faults);
      var visit := VisitOne(id, shelf[id], provider, nowMs, faults(id));
      && visit.reply.Success? && pass.shelf[id] == visit.capture && (id in pass.called <==> visit.called)
    decreases |ids|
  {
    hide VisitOne;
    var visit := VisitOne(ids[0], shelf[ids[0]], provider, nowMs, faults(ids[0]));
    var next := shelf[ids[0] := visit.capture];
    var rest := VisitEach(next, ids[1..], provider, nowMs, faults);
    PassKeepsTranscripts(next, ids[1..], provider, nowMs, faults);
    PassAsksOnce(next, ids[1..], provider, nowMs, faults);
    if id == ids[0] {
      assert id !in ids[1..];
    } else {
      assert id in ids[1..];
      PassVisitsEach(next, ids[1..], provider, nowMs, faults, id);
    }
  }

  /** A finished pass over the whole listing leaves each due capture as its answer says, asks for exactly the due
      ones without a transcript, and leaves the others alone. */
  lemma PassMeans(shelf: Shelf, names: seq<string>, provider: Provider, nowMs: nat, faults: string -> WriteFault, id: string)
    requires Unrepeated(names) && (forall name :: name in names <==> name in shelf) && id in shelf
    requires VisitEach(shelf, Listed(shelf, names), provider, nowMs, faults).reply.Success?
    ensures var pass := VisitEach(shelf, Listed(shelf, names), provider, nowMs, faults);
      && (id in pass.called <==> Due(shelf[id].state, nowMs) && shelf[id].transcript.None?)
      && (if Due(shelf[id].state, nowMs) then Leaves(id, shelf[id], pass.shelf[id], provider, nowMs)
          else pass.shelf[id] == shelf[id])
  {
    hide Listed, VisitEach, VisitOne, Leaves, Due;
    ListingUnrepeated(shelf, names);
    PassVisitsEach(shelf, Listed(shelf, names), provider, nowMs, faults, id);
    VisitMeans(id, shelf[id], provider, nowMs, faults(id));
  }

  /** It counts the captures it advanced. */
  lemma {:induction false} PassCounts(shelf: Shelf, ids: seq<string>, provider: Provider, nowMs: nat, faults: string -> WriteFault)
    requires Unrepeated(ids) && (forall id :: id in ids ==> id in shelf)
    requires VisitEach(shelf, ids, provider, nowMs, faults).reply.Success?
    ensures VisitEach(shelf, ids, provider, nowMs, faults).reply.value == |set id | id in ids && Due(shelf[id].state, nowMs)|
    decreases |ids|
  {
    hide VisitOne, Due, Unrepeated, Leaves;
    if ids == [] {
      assert (set id | id in ids && Due(shelf[id].state, nowMs)) == {};
    } else {
      var visit := VisitOne(ids[0], shelf[ids[0]], provider, nowMs, faults(ids[0]));
      VisitMeans(ids[0], shelf[ids[0]], provider, nowMs, faults(ids[0]));
      HeadIsNew(ids);
      PassCounts(shelf[ids[0] := visit.capture], ids[1..], provider, nowMs, faults);
      DueSplit(shelf, ids, visit.capture, nowMs);
    }
  }

  lemma HeadIsNew(ids: seq<string>)
    requires Unrepeated(ids) && ids != []
    ensures ids[0] !in ids[1..] && Unrepeated(ids[1..])
  {
  }

  lemma DueSplit(shelf: Shelf, ids: seq<string>, changed: Capture, nowMs: nat)
    requires ids != [] && ids[0] !in ids[1..] && forall id :: id in ids ==> id in shelf
    ensures var next := shelf[ids[0] := changed];
      |set id | id in ids && Due(shelf[id].state, nowMs)| ==
      |set id | id in ids[1..] && Due(next[id].state, nowMs)| + if Due(shelf[ids[0]].state, nowMs) then 1 else 0
  {
    hide Due;
    var next := shelf[ids[0] := changed];
    var due := set id | id in ids && Due(shelf[id].state, nowMs);
    var rest := set id | id in ids[1..] && Due(next[id].state, nowMs);
    assert ids == [ids[0]] + ids[1..];
    assert due == rest + if Due(shelf[ids[0]].state, nowMs) then {ids[0]} else {};
  }

  // ----- the listing -----

  /** Earlier recordings come first; those of one time go by id. */
  ghost predicate InRecordingOrder(shelf: Shelf, ids: seq<string>)
    requires forall id :: id in ids ==> id in shelf
  {
    forall i, j :: 0 <= i < j < |ids| ==> Before(shelf, ids[i], ids[j])
  }

  predicate Before(shelf: Shelf, left: string, right: string)
    requires left in shelf && right in shelf
  {
    || shelf[left].record.recordedAtMs < shelf[right].record.recordedAtMs
    || (shelf[left].record.recordedAtMs == shelf[right].record.recordedAtMs && !CompareText(left, right).Greater?)
  }

  lemma BeforeLaws(shelf: Shelf, a: string, b: string, c: string)
    requires a in shelf && b in shelf && c in shelf
    ensures Before(shelf, a, b) || Before(shelf, b, a)
    ensures Before(shelf, a, b) && Before(shelf, b, c) ==> Before(shelf, a, c)
    ensures Before(shelf, a, b) <==> RecordedBefore(shelf, a, b)
  {
    hide CompareText;
    CompareTextLaws(a, b, c);
  }

  /** A pass goes through the captures in recording order. */
  lemma {:induction false} ListingOrder(shelf: Shelf, names: seq<string>)
    requires forall name :: name in names ==> name in shelf
    ensures InRecordingOrder(shelf, Listed(shelf, names))
  {
    hide InsertByTime, Before;
    if names != [] {
      ListingOrder(shelf, names[1..]);
      InsertKeepsOrder(shelf, names[0], Listed(shelf, names[1..]));
    }
  }

  lemma {:induction false} InsertKeepsOrder(shelf: Shelf, id: string, ids: seq<string>)
    requires id in shelf && (forall other :: other in ids ==> other in shelf) && InRecordingOrder(shelf, ids)
    ensures InRecordingOrder(shelf, InsertByTime(shelf, id, ids))
  {
    hide RecordedBefore, Before;
    if ids == [] {
    } else if RecordedBefore(shelf, id, ids[0]) {
      BeforeLaws(shelf, id, ids[0], id);
      var whole := [id] + ids;
      forall j | 0 <= j < |ids| ensures Before(shelf, id, ids[j]) {
        assert ids[j] in ids;
        BeforeLaws(shelf, id, ids[0], ids[j]);
      }
    } else {
      BeforeLaws(shelf, id, ids[0], id);
      InsertKeepsOrder(shelf, id, ids[1..]);
      var rest := InsertByTime(shelf, id, ids[1..]);
      forall j | 0 <= j < |rest| ensures rest[j] in shelf && Before(shelf, ids[0], rest[j]) {
        assert rest[j] in multiset(rest);
        assert rest[j] == id || rest[j] in ids[1..];
      }
    }
  }

  // ----- an operator's retry -----

  /** Retrying puts any capture that is not completed back in line, with its attempts kept and its error
      forgotten, and changes no other. */
  lemma RetryMeans(shelf: Shelf, id: string, fault: WriteFault)
    requires id in shelf && shelf[id].state.status != "completed" && (fault == NoFault || fault == StateUnsynced)
    ensures var retried := Step(shelf, Retry(id, fault));
      && retried.Keys == shelf.Keys
      && (forall other :: other in shelf && other != id ==> retried[other] == shelf[other])
      && retried[id] == shelf[id].(state := State("pending", shelf[id].state.attempts, None, None))
  {
  }

  /** The next finished pass asks the provider for a retried capture again, whenever it comes and whatever had
      failed, and leaves what the answer says. */
  lemma RetriedIsAttempted(shelf: Shelf, id: string, fault: WriteFault, retried: Shelf, names: seq<string>,
                           provider: Provider, nowMs: nat, faults: string -> WriteFault)
    requires id in shelf && shelf[id].state.status != "completed" && shelf[id].transcript.None?
    requires (fault == NoFault || fault == StateUnsynced) && retried == Step(shelf, Retry(id, fault))
    requires Unrepeated(names) && forall name :: name in names <==> name in retried
    requires VisitEach(retried, Listed(retried, names), provider, nowMs, faults).reply.Success?
    ensures id in retried && retried[id].state.attempts == shelf[id].state.attempts
    ensures var pass := VisitEach(retried, Listed(retried, names), provider, nowMs, faults);
      id in pass.called && Leaves(id, retried[id], pass.shelf[id], provider, nowMs)
  {
    RetryMeans(shelf, id, fault);
    hide Listed, VisitEach, Leaves, Step;
    PassMeans(retried, names, provider, nowMs, faults, id);
  }

  /** A completed capture is never retried. */
  lemma CompletedIsNotRetried(shelf: Shelf, id: string, fault: WriteFault)
    requires id in shelf && shelf[id].state.status == "completed"
    ensures Step(shelf, Retry(id, fault)) == shelf
  {
  }
}
