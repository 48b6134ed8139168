/**
 The capture store and its worker as they run: files appear and change in place.

 Ingestion is proved against the concurrent model taken one step after another, and the worker
 against its pass.
 */
module CaptureStores {
  import opened Integers
  import opened Sequences
  import opened Results
  import opened Text
  import opened Hex
  import opened CaptureModel
  import I = CaptureIngest
  import opened Transcription

  /** What one ingest meets: whether an existing capture reads back, the rename and the root sync work. */
  datatype IngestEnv = IngestEnv(readable: bool, renames: bool, syncs: bool)

  class Store {
    const hash: Hash
    var published: map<string, I.Entry>
    var synced: set<string>
    var shelf: Shelf

    constructor (hash: Hash)
      ensures this.hash == hash && published == map[] && synced == {} && shelf == map[]
    {
      this.hash, published, synced, shelf := hash, map[], {}, map[];
    }

    /** The store as the concurrent model sees it while one ingest runs alone. */
    ghost function Alone(): I.System
      reads this
    {
      I.System(published, synced, map[], [])
    }

    /** Ingest one recording; a destination that exists is compared, never replaced. */
    method Ingest(draft: Draft, stream: Stream, env: IngestEnv) returns (result: Result<I.Outcome, CaptureError>)
      requires forall chunk :: chunk in stream.chunks ==> |chunk| <= BUFFER_BYTES
      modifies this
      ensures result.Success? <==> ValidDraft(draft) && Accepted(stream).Some?
      ensures !ValidDraft(draft) ==> result == Failure(InvalidCapture)
      ensures result.Failure? ==> published == old(published) && synced == old(synced) && shelf == old(shelf)
      ensures result.Success? ==> Ingested(draft, Accepted(stream).value, env, old(published), result.value)
      ensures synced == if result == Success(I.Created) then published.Keys else old(synced)
      ensures shelf == if published == old(published) then old(shelf)
                       else old(shelf)[draft.id := Capture(published[draft.id].record, PENDING, None)]
      ensures result.Success? ==>
        var final := I.Run(hash, old(Alone()), IngestSteps(draft, stream, env));
        && final.published == published && final.synced == synced && final.threads == map[]
        && |final.returned| == 1
        && final.returned[0].asked == I.Request(draft, stream) && final.returned[0].outcome == result.value
    {
      hide ValidDraft, Accepted;
      if !ValidDraft(draft) {
        return Failure(InvalidCapture);
      }
      var audio := ReadAudio(stream);
      if audio.Failure? {
        return Failure(audio.error);
      }
      var entry := EntryOf(hash, draft, audio.value);
      AloneSteps(hash, Alone(), draft, stream, env, entry);
      RecordDescribes(hash, draft, audio.value);
      if draft.id in published {
        SameRecordIfDescribed(hash, published[draft.id].record, draft, audio.value);
        assert old(published)[draft.id] == published[draft.id];
        var answer := CompareExisting(entry, env.readable);
        return Success(answer);
      }
      if !env.renames {
        return Success(I.Failed);
      }
      published := published[draft.id := entry];
      shelf := shelf[draft.id := Capture(entry.record, PENDING, None)];
      if !env.syncs {
        return Success(I.Failed);
      }
      synced := published.Keys;
      result := Success(I.Created);
    }

    /** How an ingest of this draft and audio ends: against a capture already published under its id by
        comparing all that the record says, otherwise by placing exactly this record and audio there. */
    ghost predicate Ingested(draft: Draft, audio: seq<Byte>, env: IngestEnv, before: map<string, I.Entry>, answer: I.Outcome)
      reads this
    {
      if draft.id in before then
        && published == before
        && answer == (if !env.readable then I.Failed
                      else if Describes(hash, before[draft.id].record, draft, audio) then I.Existing else I.Conflicting)
      else if !env.renames then published == before && answer == I.Failed
      else
        && published.Keys == before.Keys + {draft.id}
        && (forall id :: id in before ==> published[id] == before[id])
        && published[draft.id].audio == audio
        && Describes(hash, published[draft.id].record, draft, audio)
        && answer == if env.syncs then I.Created else I.Failed
    }

    method CompareExisting(entry: I.Entry, readable: bool) returns (answer: I.Outcome)
      requires entry.record.id in published
      ensures answer == if !readable then I.Failed
                        else if published[entry.record.id].record == entry.record then I.Existing else I.Conflicting
    {
      if !readable {
        return I.Failed;
      }
      answer := if published[entry.record.id].record == entry.record then I.Existing else I.Conflicting;
    }

    method ReplaceState(id: string, state: State, fault: WriteFault) returns (reply: Result<(), CaptureError>)
      requires id in shelf
      modifies this`shelf
      ensures var written := WriteState(old(shelf)[id], state, fault);
        shelf == old(shelf)[id := written.capture] && reply == written.reply
    {
      if fault == TranscriptFails || fault == StateFails {
        assert shelf[id := shelf[id]] == shelf;
        return Failure(Io);
      }
      shelf := shelf[id := shelf[id].(state := state)];
      reply := if fault == NoFault then Success(()) else Failure(Io);
    }

    method MarkCompleted(id: string, fault: WriteFault) returns (reply: Result<(), CaptureError>)
      requires id in shelf
      modifies this`shelf
      ensures var written := WriteState(old(shelf)[id], Completed(old(shelf)[id].state), fault);
        shelf == old(shelf)[id := written.capture] && reply == written.reply
    {
      var state := shelf[id].state;
      state := state.(status := "completed");
      state := state.(lastError := None);
      state := state.(nextAttemptAtMs := None);
      reply := ReplaceState(id, state, fault);
    }

    method RecordFailure(id: string, nowMs: nat, message: string, retry: bool, fault: WriteFault) returns (reply: Result<(), CaptureError>)
      requires id in shelf
      modifies this`shelf
      ensures var written := WriteState(old(shelf)[id], AfterFailure(old(shelf)[id].state, nowMs, message, retry), fault);
        shelf == old(shelf)[id := written.capture] && reply == written.reply
    {
      var state := shelf[id].state;
      var attempts := if state.attempts < MAX_U32 then state.attempts + 1 else MAX_U32;
      state := state.(attempts := attempts, lastError := Some(message));
      if retry {
        state := state.(status := "retrying", nextAttemptAtMs := Some(Saturate(nowMs + Delay(attempts))));
      } else {
        state := state.(status := "failed", nextAttemptAtMs := None);
      }
      reply := ReplaceState(id, state, fault);
    }

    method CompleteTranscription(id: string, transcript: Transcript, fault: WriteFault) returns (reply: Result<(), CaptureError>)
      requires id in shelf
      modifies this`shelf
      ensures var written := Complete(id, old(shelf)[id], transcript, fault);
        shelf == old(shelf)[id := written.capture] && reply == written.reply
    {
      hide ValidTranscript;
      assert shelf[id := shelf[id]] == shelf;
      if !ValidTranscript(id, transcript) {
        return Failure(InvalidCapture);
      }
      if shelf[id].transcript.Some? {
        if shelf[id].transcript.value != transcript {
          return Failure(CaptureError.Conflict);
        }
      } else {
        if fault == TranscriptFails {
          return Failure(Io);
        }
        shelf := shelf[id := shelf[id].(transcript := Some(transcript))];
      }
      reply := MarkCompleted(id, fault);
    }

    method RetryTranscription(id: string, fault: WriteFault) returns (reply: Result<(), CaptureError>)
      modifies this`shelf
      ensures shelf == Step(old(shelf), Retry(id, fault))
      ensures id !in old(shelf) ==> reply == Failure(NotFound)
    {
      if id !in shelf {
        return Failure(NotFound);
      }
      var state := shelf[id].state;
      if state.status == "completed" {
        return Success(());
      }
      state := state.(status := "pending", lastError := None, nextAttemptAtMs := None);
      reply := ReplaceState(id, state, fault);
    }

    /** Advance the listed captures in turn, each as it was when listed. */
    method AdvanceAll(ids: seq<string>, captures: seq<Capture>, provider: Provider, nowMs: nat, faults: string -> WriteFault)
      returns (reply: Result<nat, CaptureError>, ghost called: seq<string>)
      requires Unrepeated(ids) && StillListed(shelf, ids, captures, 0)
      modifies this`shelf
      ensures (forall id :: id in ids ==> id in old(shelf)) &&
        Pass(shelf, reply, called) == VisitEach(old(shelf), ids, provider, nowMs, faults)
    {
      hide VisitOne, VisitEach, Unrepeated, StillListed, ContinuesFrom;
      called := [];
      var processed := 0;
      assert ids[0..] == ids;
      ListedMeansStored(shelf, ids, captures, 0);
      ghost var whole := VisitEach(shelf, ids, provider, nowMs, faults);
      PassBegins(whole);
      for i := 0 to |ids|
        invariant |captures| == |ids| && StillListed(shelf, ids, captures, i)
        invariant forall id :: id in ids[i..] ==> id in shelf
        invariant ContinuesFrom(whole, processed, called, VisitEach(shelf, ids[i..], provider, nowMs, faults))
      {
        assert ids[i..][1..] == ids[i + 1..];
        ListedMeansStored(shelf, ids, captures, i);
        VisitFirst(whole, processed, called, shelf, ids[i..], provider, nowMs, faults);
        ghost var before := shelf;
        var advanced, asked := Advance(ids[i], captures[i], provider, nowMs, faults(ids[i]));
        called := called + if asked then [ids[i]] else [];
        if advanced.Failure? {
          return Failure(advanced.error), called;
        }
        processed := processed + if advanced.value then 1 else 0;
        OthersStillListed(before, ids, captures, i, shelf[ids[i]]);
        ListedMeansStored(shelf, ids, captures, i + 1);
      }
      assert ids[|ids|..] == [];
      PassEnds(whole, processed, called, shelf, provider, nowMs, faults);
      reply := Success(processed);
    }

    /** Attempt every ready capture of the listing once, counting those advanced. */
    method ProcessReady(names: seq<string>, provider: Provider, nowMs: nat, faults: string -> WriteFault)
      returns (reply: Result<nat, CaptureError>, ghost called: seq<string>)
      requires Unrepeated(names) && forall name :: name in names ==> name in shelf
      modifies this`shelf
      ensures Pass(shelf, reply, called) == VisitEach(old(shelf), Listed(old(shelf), names), provider, nowMs, faults)
    {
      hide VisitEach, Listed;
      ListingUnrepeated(shelf, names);
      var ids := Listed(shelf, names);
      // The listing is read once; each capture is judged by what it held then.
      var stored := shelf;
      var captures := seq(|ids|, i requires 0 <= i < |ids| => stored[ids[i]]);
      reply, called := AdvanceAll(ids, captures, provider, nowMs, faults);
    }

    /** One capture of the loop: complete it, ask the provider for it, or pass it over. */
    method Advance(id: string, capture: Capture, provider: Provider, nowMs: nat, fault: WriteFault)
      returns (reply: Result<bool, CaptureError>, asked: bool)
      requires id in shelf && shelf[id] == capture
      modifies this`shelf
      ensures var visit := VisitOne(id, capture, provider, nowMs, fault);
        shelf == old(shelf)[id := visit.capture] && reply == visit.reply && asked == visit.called
    {
      hide WriteState, Complete, AfterFailure, Completed, IsBlank;
      assert shelf[id := shelf[id]] == shelf;
      var state := capture.state;
      asked := false;
      var ready := state.status == "pending"
        || (state.status == "retrying" && state.nextAttemptAtMs.Some? && state.nextAttemptAtMs.value <= nowMs);
      if !ready {
        return Success(false), false;
      }
      var done;
      if shelf[id].transcript.Some? {
        done := MarkCompleted(id, fault);
      } else {
        asked := true;
        match provider.answer(capture.record) {
          case Text(text) =>
            if !IsBlank(text) {
              done := CompleteTranscription(id, TranscriptFor(provider, id, nowMs, text), fault);
            } else {
              done := RecordFailure(id, nowMs, "provider returned an empty transcript", false, fault);
            }
          case Transient(message) => done := RecordFailure(id, nowMs, message, true, fault);
          case Permanent(message) => done := RecordFailure(id, nowMs, message, false, fault);
        }
      }
      reply := if done.Success? then Success(true) else Failure(done.error);
    }
  }

  lemma SameRecordIfDescribed(hash: Hash, record: Record, draft: Draft, audio: seq<Byte>)
    ensures Describes(hash, record, draft, audio) <==> record == RecordOf(hash, draft, audio)
  {
  }

  function EntryOf(hash: Hash, draft: Draft, audio: seq<Byte>): I.Entry {
    I.Entry(RecordOf(hash, draft, audio), audio)
  }

  function IngestSteps(draft: Draft, stream: Stream, env: IngestEnv): seq<I.Action> {
    [I.Prepare(0, draft, stream), I.Look(0, env.readable), I.Publish(0, env.renames, env.readable, env.syncs)]
  }

  /** The three steps of an ingest that nothing interrupts. */
  lemma AloneSteps(hash: Hash, system: I.System, draft: Draft, stream: Stream, env: IngestEnv, entry: I.Entry)
    requires system.threads == map[] && system.returned == []
    requires ValidDraft(draft) && Accepted(stream).Some? && entry == EntryOf(hash, draft, Accepted(stream).value)
    ensures var final := I.Run(hash, system, IngestSteps(draft, stream, env));
      var asked := I.Request(draft, stream);
      final ==
        if draft.id in system.published then
          system.(returned := [I.Returned(asked, entry, if !env.readable then I.Failed
                                                        else if system.published[draft.id].record == entry.record then I.Existing
                                                        else I.Conflicting)])
        else if !env.renames then system.(returned := [I.Returned(asked, entry, I.Failed)])
        else
          var published := system.published[draft.id := entry];
          I.System(published, if env.syncs then published.Keys else system.synced, map[],
                   [I.Returned(asked, entry, if env.syncs then I.Created else I.Failed)])
  {
    hide ValidDraft, Accepted;
    var steps := IngestSteps(draft, stream, env);
    var s1 := I.Step(hash, system, steps[0]);
    var s2 := I.Step(hash, s1, steps[1]);
    var asked := I.Request(draft, stream);
    assert s1.threads == map[0 := I.Prepared(asked, entry)];
    assert s1.threads - {0} == map[];
    assert draft.id in system.published ==> s2.threads == map[];
    assert draft.id !in system.published ==> s2.threads == map[0 := I.Absent(asked, entry)];
    assert s2.threads - {0} == map[];
    assert [] + [I.Returned(asked, entry, I.Failed)] == [I.Returned(asked, entry, I.Failed)];
    ThreeSteps(hash, system, steps);
  }

  lemma ThreeSteps(hash: Hash, system: I.System, steps: seq<I.Action>)
    requires |steps| == 3
    ensures I.Run(hash, system, steps) == I.Step(hash, I.Step(hash, I.Step(hash, system, steps[0]), steps[1]), steps[2])
  {
    hide I.Step;
    var rest := steps[1..];
    var last := rest[1..];
    var s1 := I.Step(hash, system, steps[0]);
    var s2 := I.Step(hash, s1, rest[0]);
    assert I.Run(hash, s2, last) == I.Step(hash, s2, last[0]) by { assert last[1..] == []; }
    assert I.Run(hash, s1, rest) == I.Run(hash, s2, last);
  }

  /** From place `from` on, the captures listed are still what is stored. */
  predicate StillListed(shelf: Shelf, ids: seq<string>, captures: seq<Capture>, from: nat) {
    |captures| == |ids| && forall j :: from <= j < |ids| ==> ids[j] in shelf && shelf[ids[j]] == captures[j]
  }

  lemma ListedMeansStored(shelf: Shelf, ids: seq<string>, captures: seq<Capture>, from: nat)
    requires StillListed(shelf, ids, captures, from) && from <= |ids|
    ensures |captures| == |ids| && forall id :: id in ids[from..] ==> id in shelf
    ensures from < |ids| ==> ids[from] in shelf && shelf[ids[from]] == captures[from]
  {
  }

  lemma OthersStillListed(shelf: Shelf, ids: seq<string>, captures: seq<Capture>, from: nat, capture: Capture)
    requires Unrepeated(ids) && from < |ids| && StillListed(shelf, ids, captures, from)
    ensures StillListed(shelf[ids[from] := capture], ids, captures, from + 1)
  {
  }

  /** The whole pass is what was done so far followed by `rest`. */
  ghost predicate ContinuesFrom(whole: Pass, processed: nat, called: seq<string>, rest: Pass) {
    && whole.shelf == rest.shelf
    && whole.called == called + rest.called
    && whole.reply == if rest.reply.Success? then Success(processed + rest.reply.value) else rest.reply
  }

  /** One visit of the loop: it ends the pass, or the rest continues from there. */
  lemma VisitFirst(whole: Pass, processed: nat, called: seq<string>, shelf: Shelf, ids: seq<string>, provider: Provider,
                   nowMs: nat, faults: string -> WriteFault)
    requires ids != [] && forall id :: id in ids ==> id in shelf
    requires ContinuesFrom(whole, processed, called, VisitEach(shelf, ids, provider, nowMs, faults))
    ensures var visit := VisitOne(ids[0], shelf[ids[0]], provider, nowMs, faults(ids[0]));
      var next := shelf[ids[0] := visit.capture];
      var asked := called + if visit.called then [ids[0]] else [];
      match visit.reply
      case Failure(error) => whole == Pass(next, Failure(error), asked)
      case Success(advanced) =>
        ContinuesFrom(whole, processed + if advanced then 1 else 0, asked, VisitEach(next, ids[1..], provider, nowMs, faults))
  {
    hide VisitOne;
  }

  lemma PassBegins(whole: Pass)
    ensures ContinuesFrom(whole, 0, [], whole)
  {
  }

  lemma PassEnds(whole: Pass, processed: nat, called: seq<string>, shelf: Shelf, provider: Provider, nowMs: nat,
                 faults: string -> WriteFault)
    requires ContinuesFrom(whole, processed, called, VisitEach(shelf, [], provider, nowMs, faults))
    ensures whole == Pass(shelf, Success(processed), called)
  {
  }
}
