/** Captures: drafts, their canonical record, and the bounded read of their audio. */
module CaptureModel {
  import opened Results
  import opened Text
  import opened Hex

  const MAX_CAPTURE_BYTES := 20 * 1024 * 1024
  const BUFFER_BYTES := 16 * 1024

  datatype Source = Android | Neovim

  datatype Draft = Draft(id: string, source: Source, recordedAtMs: nat, durationMs: nat, mimeType: string)

  datatype Record = Record(
    schemaVersion: nat, id: string, source: Source, recordedAtMs: nat, durationMs: nat, mimeType: string,
    bytes: nat, sha256: string)

  datatype CaptureError =
    | InvalidCapture | TooLarge(received: nat) | Conflict | NotFound | Io | Malformed

  /** SHA-256, left uninterpreted. */
  type Hash = seq<Byte> -> Digest

  /** UUID text in either case; captures are identified by the exact text. */
  predicate IsUuidText(text: string) {
    && |text| == 36
    && forall i :: 0 <= i < 36 ==>
        if i == 8 || i == 13 || i == 18 || i == 23 then text[i] == '-' else IsDigit(text[i]) || 'a' <= text[i] <= 'f' || 'A' <= text[i] <= 'F'
  }

  predicate SupportedMime(mime: string) {
    mime in {"audio/mp4", "audio/ogg", "audio/wav", "audio/x-wav", "audio/webm"}
  }

  predicate ValidDraft(draft: Draft) {
    IsUuidText(draft.id) && draft.recordedAtMs != 0 && draft.durationMs != 0 && SupportedMime(draft.mimeType)
  }

  function RecordOf(hash: Hash, draft: Draft, audio: seq<Byte>): Record {
    Record(1, draft.id, draft.source, draft.recordedAtMs, draft.durationMs, draft.mimeType, |audio|, LowerHex(hash(audio)))
  }

  /** The record of this audio under this draft, field by field. */
  predicate Describes(hash: Hash, record: Record, draft: Draft, audio: seq<Byte>) {
    && record.schemaVersion == 1
    && record.id == draft.id
    && record.source == draft.source
    && record.recordedAtMs == draft.recordedAtMs
    && record.durationMs == draft.durationMs
    && record.mimeType == draft.mimeType
    && record.bytes == |audio|
    && record.sha256 == LowerHex(hash(audio))
  }

  lemma RecordDescribes(hash: Hash, draft: Draft, audio: seq<Byte>)
    ensures Describes(hash, RecordOf(hash, draft, audio), draft, audio)
  {
  }

  /** Equal records mean the same draft, the same number of bytes and the same digest, and nothing else. */
  lemma SameRecordIff(hash: Hash, first: Record, draft1: Draft, audio1: seq<Byte>, second: Record, draft2: Draft, audio2: seq<Byte>)
    requires Describes(hash, first, draft1, audio1) && Describes(hash, second, draft2, audio2)
    ensures first == second <==> draft1 == draft2 && |audio1| == |audio2| && hash(audio1) == hash(audio2)
  {
    hide LowerHex;
    HexRoundTrip(hash(audio1));
    HexRoundTrip(hash(audio2));
  }

  // ----- reading -----

  /** What successive reads return; an empty read is the end, and after the last comes the end or an error. */
  datatype Stream = Stream(chunks: seq<seq<Byte>>, fails: bool)

  function Flatten(chunks: seq<seq<Byte>>): seq<Byte> {
    if chunks == [] then [] else Flatten(chunks[..|chunks| - 1]) + chunks[|chunks| - 1]
  }

  /** The chunks read before the first empty one. */
  function Effective(chunks: seq<seq<Byte>>): (n: nat)
    ensures n <= |chunks|
    ensures forall i :: 0 <= i < n ==> chunks[i] != []
    ensures n < |chunks| ==> chunks[n] == []
  {
    if chunks == [] || chunks[0] == [] then 0
    else
      var n := Effective(chunks[1..]);
      assert forall i :: 1 <= i < n + 1 ==> chunks[i] == chunks[1..][i - 1];
      n + 1
  }

  /** The stream's content, unless it fails before its end. */
  function Content(stream: Stream): Option<seq<Byte>> {
    var n := Effective(stream.chunks);
    if n == |stream.chunks| && stream.fails then None else Some(Flatten(stream.chunks[..n]))
  }

  /** Longest content the reader sees before it stops, whether or not the stream then fails. */
  function Seen(stream: Stream): seq<Byte> {
    Flatten(stream.chunks[..Effective(stream.chunks)])
  }

  /** The audio an ingest goes on with: the whole content, when it arrives and fits. */
  function Accepted(stream: Stream): Option<seq<Byte>> {
    if |Seen(stream)| <= MAX_CAPTURE_BYTES then Content(stream) else None
  }

  lemma {:induction false} FlattenGrows(chunks: seq<seq<Byte>>, i: nat, j: nat)
    requires i <= j <= |chunks|
    ensures Flatten(chunks[..i]) <= Flatten(chunks[..j])
    decreases j - i
  {
    if i < j {
      assert chunks[..j][..j - 1] == chunks[..j - 1];
      FlattenGrows(chunks, i, j - 1);
    }
  }

  /** Copy the stream into the incoming file, stopping at the first read past the limit. Exactly the
      streams whose content fits are accepted, byte for byte, and a refusal for size names a prefix
      less than one buffer past the limit. */
  method ReadAudio(stream: Stream) returns (result: Result<seq<Byte>, CaptureError>)
    requires forall read :: read in stream.chunks ==> |read| <= BUFFER_BYTES
    ensures match Accepted(stream) case Some(audio) => result == Success(audio) case None => result.Failure?
    ensures result.Failure? ==>
      if |Seen(stream)| <= MAX_CAPTURE_BYTES then result == Failure(Io)
      else result.error.TooLarge? && MAX_CAPTURE_BYTES < result.error.received <= MAX_CAPTURE_BYTES + BUFFER_BYTES
           && result.error.received <= |Seen(stream)|
  {
    hide Effective;
    var audio: seq<Byte> := [];
    var bytes := 0;
    var i := 0;
    ghost var n := Effective(stream.chunks);
    while i < |stream.chunks| && stream.chunks[i] != []
      invariant i <= n
      invariant audio == Flatten(stream.chunks[..i]) && bytes == |audio| <= MAX_CAPTURE_BYTES
    {
      var read := stream.chunks[i];
      assert read in stream.chunks;
      bytes := bytes + |read|;
      assert stream.chunks[..i + 1][..i] == stream.chunks[..i];
      if bytes > MAX_CAPTURE_BYTES {
        FlattenGrows(stream.chunks, i + 1, n);
        return Failure(TooLarge(bytes));
      }
      audio := audio + read;
      i := i + 1;
    }
    assert i == n;
    if i == |stream.chunks| && stream.fails {
      return Failure(Io);
    }
    result := Success(audio);
  }
}

/**
 Any number of concurrent ingests of any ids, each split where another may intervene: read and
 hash, look for the destination, rename into place.
 */
module CaptureIngest {
  import opened Results
  import opened Hex
  import opened CaptureModel

  /** The immutable part of a published capture. */
  datatype Entry = Entry(record: Record, audio: seq<Byte>)

  /** What a caller hands in. */
  datatype Request = Request(draft: Draft, stream: Stream)

  datatype Thread = Prepared(asked: Request, entry: Entry) | Absent(asked: Request, entry: Entry)

  datatype Outcome = Created | Existing | Conflicting | Failed

  datatype Returned = Returned(asked: Request, entry: Entry, outcome: Outcome)

  /** `synced` are the names the root directory is known to hold after a power loss. */
  datatype System = System(
    published: map<string, Entry>, synced: set<string>, threads: map<nat, Thread>, returned: seq<Returned>)

  datatype Action =
    | Prepare(thread: nat, draft: Draft, stream: Stream)
    | Look(thread: nat, readable: bool)
    | Publish(thread: nat, renames: bool, readable: bool, syncs: bool)
    | Kill(thread: nat)
    | LosePower(lost: set<string>)

  const EMPTY := System(map[], {}, map[], [])

  function Finish(system: System, thread: nat, own: Thread, outcome: Outcome): System {
    system.(threads := system.threads - {thread}, returned := system.returned + [Returned(own.asked, own.entry, outcome)])
  }

  /** Answer from what is already published under the id. */
  function Compare(system: System, thread: nat, own: Thread, readable: bool): System
    requires own.entry.record.id in system.published
  {
    var existing := system.published[own.entry.record.id];
    Finish(system, thread, own,
           if !readable then Failed else if existing.record == own.entry.record then Existing else Conflicting)
  }

  function Step(hash: Hash, system: System, action: Action): System {
    match action
    case Prepare(thread, draft, stream) =>
      var read := Accepted(stream);
      if thread in system.threads || !ValidDraft(draft) || read.None? then system
      else
        var entry := Entry(RecordOf(hash, draft, read.value), read.value);
        system.(threads := system.threads[thread := Prepared(Request(draft, stream), entry)])
    case Look(thread, readable) =>
      if thread !in system.threads || !system.threads[thread].Prepared? then system
      else
        var own := system.threads[thread];
        if own.entry.record.id in system.published then Compare(system, thread, own, readable)
        else system.(threads := system.threads[thread := Absent(own.asked, own.entry)])
    case Publish(thread, renames, readable, syncs) =>
      if thread !in system.threads || !system.threads[thread].Absent? then system
      else
        var own := system.threads[thread];
        // A rename cannot replace a published directory.
        if own.entry.record.id in system.published then Compare(system, thread, own, readable)
        else if !renames then Finish(system, thread, own, Failed)
        else
          var published := system.published[own.entry.record.id := own.entry];
          var placed := system.(published := published, synced := if syncs then published.Keys else system.synced);
          Finish(placed, thread, own, if syncs then Created else Failed)
    case Kill(thread) => system.(threads := system.threads - {thread})
    case LosePower(lost) =>
      system.(published := map id | id in system.published && (id !in lost || id in system.synced) :: system.published[id],
              synced := system.synced, threads := map[])
  }

  function Run(hash: Hash, system: System, actions: seq<Action>): System
    decreases |actions|
  {
    if actions == [] then system else Run(hash, Step(hash, system, actions[0]), actions[1..])
  }

  ghost predicate Hashed(hash: Hash, entry: Entry) {
    entry.record.bytes == |entry.audio| && entry.record.sha256 == LowerHex(hash(entry.audio))
  }

  /** The entry is exactly what the request brought. */
  ghost predicate Brought(hash: Hash, asked: Request, entry: Entry) {
    && ValidDraft(asked.draft)
    && Accepted(asked.stream) == Some(entry.audio)
    && Describes(hash, entry.record, asked.draft, entry.audio)
  }

  lemma BroughtIsHashed(hash: Hash, asked: Request, entry: Entry)
    requires Brought(hash, asked, entry)
    ensures Hashed(hash, entry) && entry.record.id == asked.draft.id
  {
    hide ValidDraft, Accepted;
  }

  ghost predicate Inv(hash: Hash, system: System) {
    && system.synced <= system.published.Keys
    && (forall id :: id in system.published ==> system.published[id].record.id == id && Hashed(hash, system.published[id]))
    && (forall thread :: thread in system.threads ==>
        Brought(hash, system.threads[thread].asked, system.threads[thread].entry))
    && (forall answer :: answer in system.returned ==> Brought(hash, answer.asked, answer.entry))
    && (forall answer :: answer in system.returned && answer.outcome == Created ==>
        && answer.entry.record.id in system.synced
        && system.published[answer.entry.record.id] == answer.entry)
    && (forall i, j :: 0 <= i < j < |system.returned| && system.returned[i].outcome == Created && system.returned[j].outcome == Created ==>
        system.returned[i].entry.record.id != system.returned[j].entry.record.id)
  }

  lemma FinishKeeps(hash: Hash, system: System, thread: nat, own: Thread, outcome: Outcome)
    requires Inv(hash, system) && Brought(hash, own.asked, own.entry)
    requires outcome == Created ==>
      && own.entry.record.id in system.synced && system.published[own.entry.record.id] == own.entry
      && forall answer :: answer in system.returned && answer.outcome == Created ==>
          answer.entry.record.id != own.entry.record.id
    ensures Inv(hash, Finish(system, thread, own, outcome))
  {
    hide Hashed, Brought;
    forall i | 0 <= i < |system.returned| ensures system.returned[i] in system.returned {}
  }

  /** Renaming a new capture into place, and syncing the directory or not. */
  lemma PlaceKeeps(hash: Hash, system: System, entry: Entry, syncs: bool)
    requires Inv(hash, system) && Hashed(hash, entry) && entry.record.id !in system.published
    ensures var published := system.published[entry.record.id := entry];
      var placed := system.(published := published, synced := if syncs then published.Keys else system.synced);
      && Inv(hash, placed)
      && forall answer :: answer in system.returned && answer.outcome == Created ==> answer.entry.record.id != entry.record.id
  {
    hide Hashed, Brought;
  }

  lemma PowerLossKeeps(hash: Hash, system: System, lost: set<string>)
    requires Inv(hash, system)
    ensures Inv(hash, Step(hash, system, LosePower(lost)))
  {
    hide Hashed, Brought;
  }

  lemma StepKeepsInv(hash: Hash, system: System, action: Action)
    requires Inv(hash, system)
    ensures Inv(hash, Step(hash, system, action))
    ensures system.returned <= Step(hash, system, action).returned
    ensures system.synced <= Step(hash, system, action).synced
  {
    assert system.synced <= system.published.Keys;
    hide Inv, Step;
    StepOnlyGrows(hash, system, action);
    match action {
      case Prepare(thread, draft, stream) => PrepareKeeps(hash, system, action);
      case Look(thread, readable) => LookKeeps(hash, system, action);
      case Publish(thread, renames, readable, syncs) => PublishStepKeeps(hash, system, action);
      case Kill(thread) => KillKeeps(hash, system, action);
      case LosePower(lost) => PowerLossKeeps(hash, system, lost);
    }
  }

  lemma StepOnlyGrows(hash: Hash, system: System, action: Action)
    requires system.synced <= system.published.Keys
    ensures system.returned <= Step(hash, system, action).returned
    ensures system.synced <= Step(hash, system, action).synced
  {
    hide ValidDraft, Accepted, RecordOf;
  }

  lemma PrepareKeeps(hash: Hash, system: System, action: Action)
    requires Inv(hash, system) && action.Prepare?
    ensures Inv(hash, Step(hash, system, action))
  {
    hide ValidDraft, Accepted, Hashed, Brought;
    if ValidDraft(action.draft) && Accepted(action.stream).Some? {
      PreparedIsBrought(hash, action.draft, action.stream, Accepted(action.stream).value);
    }
  }

  lemma KillKeeps(hash: Hash, system: System, action: Action)
    requires Inv(hash, system) && action.Kill?
    ensures Inv(hash, Step(hash, system, action))
  {
    hide Hashed, Brought;
  }

  lemma ThreadIsBrought(hash: Hash, system: System, thread: nat)
    requires Inv(hash, system) && thread in system.threads
    ensures Brought(hash, system.threads[thread].asked, system.threads[thread].entry)
    ensures Hashed(hash, system.threads[thread].entry)
  {
    hide Hashed, Brought;
    BroughtIsHashed(hash, system.threads[thread].asked, system.threads[thread].entry);
  }

  lemma CompareKeeps(hash: Hash, system: System, thread: nat, own: Thread, readable: bool)
    requires Inv(hash, system) && Brought(hash, own.asked, own.entry) && own.entry.record.id in system.published
    ensures Inv(hash, Compare(system, thread, own, readable))
  {
    hide Inv, Finish, Hashed, Brought;
    FinishKeeps(hash, system, thread, own, Failed);
    FinishKeeps(hash, system, thread, own, Existing);
    FinishKeeps(hash, system, thread, own, Conflicting);
  }

  lemma LookKeeps(hash: Hash, system: System, action: Action)
    requires Inv(hash, system) && action.Look?
    ensures Inv(hash, Step(hash, system, action))
  {
    hide Hashed, Brought, Compare;
    if action.thread in system.threads {
      var own := system.threads[action.thread];
      if own.entry.record.id in system.published { CompareKeeps(hash, system, action.thread, own, action.readable); }
    }
  }

  lemma PublishStepKeeps(hash: Hash, system: System, action: Action)
    requires Inv(hash, system) && action.Publish?
    ensures Inv(hash, Step(hash, system, action))
  {
    hide Inv, Hashed, Brought, Compare, Finish;
    if action.thread in system.threads && system.threads[action.thread].Absent? {
      var own := system.threads[action.thread];
      ThreadIsBrought(hash, system, action.thread);
      FinishKeeps(hash, system, action.thread, own, Failed);
      if own.entry.record.id in system.published {
        CompareKeeps(hash, system, action.thread, own, action.readable);
      } else {
        PublishKeeps(hash, system, action.thread, own, action.syncs);
      }
    }
  }

  lemma PublishKeeps(hash: Hash, system: System, thread: nat, own: Thread, syncs: bool)
    requires Inv(hash, system) && Brought(hash, own.asked, own.entry) && Hashed(hash, own.entry)
    requires own.entry.record.id !in system.published
    ensures var published := system.published[own.entry.record.id := own.entry];
      var placed := system.(published := published, synced := if syncs then published.Keys else system.synced);
      && Inv(hash, Finish(placed, thread, own, if syncs then Created else Failed))
      && system.synced <= placed.synced
  {
    PlaceKeeps(hash, system, own.entry, syncs);
    var published := system.published[own.entry.record.id := own.entry];
    var placed := system.(published := published, synced := if syncs then published.Keys else system.synced);
    assert system.synced <= system.published.Keys;
    hide Inv, Hashed, Brought;
    FinishKeeps(hash, placed, thread, own, if syncs then Created else Failed);
  }

  lemma PreparedIsBrought(hash: Hash, draft: Draft, stream: Stream, audio: seq<Byte>)
    requires ValidDraft(draft) && Accepted(stream) == Some(audio)
    ensures Brought(hash, Request(draft, stream), Entry(RecordOf(hash, draft, audio), audio))
  {
    hide ValidDraft, Accepted, Describes, RecordOf;
    RecordDescribes(hash, draft, audio);
  }

  lemma {:induction false} RunKeepsInv(hash: Hash, system: System, actions: seq<Action>)
    requires Inv(hash, system)
    ensures Inv(hash, Run(hash, system, actions))
    ensures system.returned <= Run(hash, system, actions).returned
    decreases |actions|
  {
    hide Inv, Step;
    if actions != [] {
      StepKeepsInv(hash, system, actions[0]);
      RunKeepsInv(hash, Step(hash, system, actions[0]), actions[1..]);
    }
  }

  /** Of all the ingests of one id ever made, at most one is told it created the capture. */
  lemma AtMostOneCreated(hash: Hash, actions: seq<Action>, i: nat, j: nat)
    requires var returned := Run(hash, EMPTY, actions).returned;
      i < j < |returned| && returned[i].outcome == Created && returned[j].outcome == Created
    ensures var returned := Run(hash, EMPTY, actions).returned;
      returned[i].entry.record.id != returned[j].entry.record.id
  {
    RunKeepsInv(hash, EMPTY, actions);
  }

  /** A capture reported as created keeps that record and audio for ever, power loss included. */
  lemma CreatedIsForever(hash: Hash, actions: seq<Action>, later: seq<Action>, answer: Returned)
    requires answer in Run(hash, EMPTY, actions).returned && answer.outcome == Created
    ensures var final := Run(hash, Run(hash, EMPTY, actions), later);
      answer.entry.record.id in final.published && final.published[answer.entry.record.id] == answer.entry
  {
    RunKeepsInv(hash, EMPTY, actions);
    var system := Run(hash, EMPTY, actions);
    hide Run, EMPTY;
    RunKeepsInv(hash, system, later);
    var i :| 0 <= i < |system.returned| && system.returned[i] == answer;
    assert Run(hash, system, later).returned[i] == answer;
  }

  // ----- what is published -----

  /** Every answer is to a request of the run. */
  lemma {:induction false} AnswersAreRequested(hash: Hash, system: System, actions: seq<Action>, requests: set<Request>)
    requires forall thread :: thread in system.threads ==> system.threads[thread].asked in requests
    requires forall answer :: answer in system.returned ==> answer.asked in requests
    requires forall action :: action in actions && action.Prepare? ==> Request(action.draft, action.stream) in requests
    ensures forall answer :: answer in Run(hash, system, actions).returned ==> answer.asked in requests
    decreases |actions|
  {
    hide Step;
    if actions != [] {
      assert actions[0] in actions;
      StepAnswersRequests(hash, system, actions[0], requests);
      AnswersAreRequested(hash, Step(hash, system, actions[0]), actions[1..], requests);
    }
  }

  lemma StepAnswersRequests(hash: Hash, system: System, action: Action, requests: set<Request>)
    requires forall thread :: thread in system.threads ==> system.threads[thread].asked in requests
    requires forall answer :: answer in system.returned ==> answer.asked in requests
    requires action.Prepare? ==> Request(action.draft, action.stream) in requests
    ensures var next := Step(hash, system, action);
      && (forall thread :: thread in next.threads ==> next.threads[thread].asked in requests)
      && (forall answer :: answer in next.returned ==> answer.asked in requests)
  {
    hide ValidDraft, Accepted, RecordOf;
  }

  /** A caller told it created a capture has exactly its own draft and its own audio published under its id,
      in every later state, power loss included. */
  lemma CreatedIsWhatWasAsked(hash: Hash, actions: seq<Action>, later: seq<Action>, answer: Returned)
    requires answer in Run(hash, EMPTY, actions).returned && answer.outcome == Created
    ensures var final := Run(hash, Run(hash, EMPTY, actions), later);
      var draft := answer.asked.draft;
      && ValidDraft(draft) && draft.id in final.published
      && var kept := final.published[draft.id];
      && Accepted(answer.asked.stream) == Some(kept.audio)
      && Describes(hash, kept.record, draft, kept.audio)
  {
    CreatedIsForever(hash, actions, later, answer);
    RunKeepsInv(hash, EMPTY, actions);
    hide Run, EMPTY, ValidDraft, Accepted, Hashed;
  }

  /** Once a capture is created, a later ingest of its id that completes is told `Existing` exactly when its
      draft is the same in every field and its audio has the same length and digest, and a conflict otherwise,
      whatever happens between, power loss included. */
  lemma LaterIngestsCompare(hash: Hash, actions: seq<Action>, later: seq<Action>, first: Returned, k: nat)
    requires var before := Run(hash, EMPTY, actions);
      && first in before.returned && first.outcome == Created
      && |before.returned| <= k < |Run(hash, before, later).returned|
    ensures var second := Run(hash, Run(hash, EMPTY, actions), later).returned[k];
      && Accepted(first.asked.stream).Some? && Accepted(second.asked.stream).Some?
      && (second.asked.draft.id == first.asked.draft.id && second.outcome != Failed ==>
          var audio1, audio2 := Accepted(first.asked.stream).value, Accepted(second.asked.stream).value;
          second.outcome == if second.asked.draft == first.asked.draft && |audio2| == |audio1| && hash(audio2) == hash(audio1)
                            then Existing else Conflicting)
  {
    var before := Run(hash, EMPTY, actions);
    RunKeepsInv(hash, EMPTY, actions);
    hide Run, EMPTY, Hashed, Accepted, ValidDraft, Describes;
    RunKeepsInv(hash, before, later);
    var final := Run(hash, before, later);
    var second := final.returned[k];
    var id := first.entry.record.id;
    assert second in final.returned;
    ComparedWith(hash, before, later, id, first.entry.record, |before.returned|);
    BroughtIsHashed(hash, first.asked, first.entry);
    BroughtIsHashed(hash, second.asked, second.entry);
    SameRecordIff(hash, first.entry.record, first.asked.draft, first.entry.audio,
                  second.entry.record, second.asked.draft, second.entry.audio);
  }

  /** From place `from` on, every completed ingest of `id` was compared with this record. */
  ghost predicate Compared(system: System, id: string, record: Record, from: nat) {
    forall k :: from <= k < |system.returned| && system.returned[k].entry.record.id == id && system.returned[k].outcome != Failed ==>
      system.returned[k].outcome == if system.returned[k].entry.record == record then Existing else Conflicting
  }

  lemma {:induction false} ComparedWith(hash: Hash, system: System, actions: seq<Action>, id: string, record: Record, from: nat)
    requires Inv(hash, system) && id in system.synced && system.published[id].record == record
    requires Compared(system, id, record, from)
    ensures Compared(Run(hash, system, actions), id, record, from)
    decreases |actions|
  {
    hide Step, Inv, Compared;
    if actions != [] {
      var next := Step(hash, system, actions[0]);
      SyncedIsPublished(hash, system, id);
      StepKeepsInv(hash, system, actions[0]);
      StepKeepsPublished(hash, system, actions[0], id);
      StepCompares(hash, system, actions[0], id, record, from);
      ComparedWith(hash, next, actions[1..], id, record, from);
    }
  }

  lemma SyncedIsPublished(hash: Hash, system: System, id: string)
    requires Inv(hash, system) && id in system.synced
    ensures id in system.published
  {
    hide Hashed, Brought;
  }

  lemma StepCompares(hash: Hash, system: System, action: Action, id: string, record: Record, from: nat)
    requires id in system.published && system.published[id].record == record && Compared(system, id, record, from)
    ensures Compared(Step(hash, system, action), id, record, from)
  {
    hide ValidDraft, Accepted, RecordOf;
  }

  // ----- answers -----

  predicate PowerStays(actions: seq<Action>) {
    forall action :: action in actions ==> !action.LosePower?
  }

  lemma {:induction false} PublishedStays(hash: Hash, system: System, actions: seq<Action>, id: string)
    requires id in system.published && (PowerStays(actions) || id in system.synced) && Inv(hash, system)
    ensures id in Run(hash, system, actions).published
    ensures Run(hash, system, actions).published[id] == system.published[id]
    decreases |actions|
  {
    hide Step, Inv;
    if actions != [] {
      var next := Step(hash, system, actions[0]);
      StepKeepsInv(hash, system, actions[0]);
      assert PowerStays(actions) ==> actions[0] in actions && PowerStays(actions[1..]);
      StepKeepsPublished(hash, system, actions[0], id);
      PublishedStays(hash, next, actions[1..], id);
    }
  }

  /** No step changes a published capture; only a power loss can drop one, before its directory sync. */
  lemma StepKeepsPublished(hash: Hash, system: System, action: Action, id: string)
    requires id in system.published && (!action.LosePower? || id in system.synced)
    ensures id in Step(hash, system, action).published
    ensures Step(hash, system, action).published[id] == system.published[id]
  {
    hide ValidDraft, Accepted, RecordOf;
  }

  /** Every other completed ingest is answered exactly: `Existing` when its record equals the published
      one and a conflict otherwise, and that answer stays true while no power is lost. */
  ghost predicate Truthful(system: System) {
    forall answer :: answer in system.returned && !answer.outcome.Failed? ==>
      && answer.entry.record.id in system.published
      && (answer.outcome.Conflicting? <==> system.published[answer.entry.record.id].record != answer.entry.record)
  }

  lemma StepKeepsTruth(hash: Hash, system: System, action: Action)
    requires Inv(hash, system) && Truthful(system) && !action.LosePower?
    ensures Truthful(Step(hash, system, action))
  {
    hide ValidDraft, Accepted, RecordOf, Hashed, Brought;
  }

  lemma {:induction false} AnswersAreExact(hash: Hash, system: System, actions: seq<Action>)
    requires Inv(hash, system) && Truthful(system) && PowerStays(actions)
    ensures Truthful(Run(hash, system, actions)) && Inv(hash, Run(hash, system, actions))
    decreases |actions|
  {
    hide Step, Inv, Truthful;
    if actions != [] {
      assert actions[0] in actions && PowerStays(actions[1..]);
      StepKeepsInv(hash, system, actions[0]);
      StepKeepsTruth(hash, system, actions[0]);
      AnswersAreExact(hash, Step(hash, system, actions[0]), actions[1..]);
    }
  }

  /** Callers told `Created` or `Existing` for one id brought the record that is published, and the very
      audio too, if and only if that audio and the published one do not collide under SHA-256. */
  lemma AcceptedAudioIsPublished(hash: Hash, actions: seq<Action>, answer: Returned)
    requires PowerStays(actions)
    requires answer in Run(hash, EMPTY, actions).returned && answer.outcome in {Created, Existing}
    ensures var system := Run(hash, EMPTY, actions);
      && answer.entry.record.id in system.published
      && var existing := system.published[answer.entry.record.id];
      && existing.record == answer.entry.record
      && (existing == answer.entry <==>
          (hash(existing.audio) == hash(answer.entry.audio) ==> existing.audio == answer.entry.audio))
  {
    AnswersAreExact(hash, EMPTY, actions);
    var system := Run(hash, EMPTY, actions);
    hide Run, EMPTY, PowerStays, Hashed, Brought;
    BroughtIsHashed(hash, answer.asked, answer.entry);
    SameRecordSameHash(hash, system.published[answer.entry.record.id], answer.entry);
  }

  lemma SameRecordSameHash(hash: Hash, a: Entry, b: Entry)
    requires Hashed(hash, a) && Hashed(hash, b) && a.record == b.record
    ensures hash(a.audio) == hash(b.audio)
  {
    hide LowerHex;
    HexRoundTrip(hash(a.audio));
    HexRoundTrip(hash(b.audio));
  }

  ghost predicate Survives(hash: Hash, system: System, id: string) {
    forall later :: id in Run(hash, system, later).published
  }

  /** A published capture survives every later run, power loss included, exactly once a directory sync
      has covered it. */
  lemma PublishedIsDurableIff(hash: Hash, system: System, id: string)
    requires Inv(hash, system) && id in system.published
    ensures Survives(hash, system, id) <==> id in system.synced
  {
    hide Inv;
    if id in system.synced {
      forall later ensures id in Run(hash, system, later).published {
        PublishedStays(hash, system, later, id);
      }
    } else {
      LostWithPower(hash, system, id);
    }
  }

  lemma LostWithPower(hash: Hash, system: System, id: string)
    requires id !in system.synced
    ensures id !in Run(hash, system, [LosePower({id})]).published
  {
    var loss := [LosePower({id})];
    var after := Step(hash, system, loss[0]);
    assert Run(hash, system, loss) == after by { assert loss[1..] == []; }
  }

  /** `Existing` is not durable: it may answer from a rename another ingest never got to sync. */
  lemma ExistingMayBeLost(hash: Hash, draft: Draft, audio: seq<Byte>)
    requires ValidDraft(draft) && 0 < |audio| <= MAX_CAPTURE_BYTES
    ensures exists actions, lost, answer ::
      var system := Run(hash, EMPTY, actions);
      && answer in system.returned && answer.outcome == Existing && answer.entry.record.id == draft.id
      && draft.id !in Step(hash, system, LosePower(lost)).published
  {
    var stream := Stream([audio], false);
    OneRead(audio);
    hide ValidDraft, Accepted;
    var entry := Entry(RecordOf(hash, draft, audio), audio);
    var a1 := [Prepare(0, draft, stream), Look(0, true), Publish(0, true, true, false), Prepare(1, draft, stream), Look(1, true)];
    var s1 := Step(hash, EMPTY, a1[0]);
    var s2 := Step(hash, s1, a1[1]);
    var s3 := Step(hash, s2, a1[2]);
    var s4 := Step(hash, s3, a1[3]);
    var s5 := Step(hash, s4, a1[4]);
    var asked := Request(draft, stream);
    assert s1.threads == map[0 := Prepared(asked, entry)];
    assert s3.published == map[draft.id := entry] && s3.synced == {};
    assert s5.returned == [Returned(asked, entry, Failed), Returned(asked, entry, Existing)];
    FiveSteps(hash, EMPTY, a1);
    assert Returned(asked, entry, Existing) in Run(hash, EMPTY, a1).returned;
    assert draft.id !in Step(hash, Run(hash, EMPTY, a1), LosePower({draft.id})).published;
  }

  lemma OneRead(audio: seq<Byte>)
    requires 0 < |audio| <= MAX_CAPTURE_BYTES
    ensures Accepted(Stream([audio], false)) == Some(audio)
  {
    var chunks := [audio];
    assert chunks[1..] == [];
    assert Effective(chunks) == 1;
    assert chunks[..1] == chunks && chunks[..0] == [];
    assert Flatten(chunks) == audio;
  }

  lemma FiveSteps(hash: Hash, system: System, actions: seq<Action>)
    requires |actions| == 5
    ensures Run(hash, system, actions) ==
      Step(hash, Step(hash, Step(hash, Step(hash, Step(hash, system, actions[0]), actions[1]), actions[2]), actions[3]), actions[4])
  {
    hide Step;
    var t1 := actions[1..];
    var t2 := t1[1..];
    var t3 := t2[1..];
    var t4 := t3[1..];
    var s1 := Step(hash, system, actions[0]);
    var s2 := Step(hash, s1, t1[0]);
    var s3 := Step(hash, s2, t2[0]);
    var s4 := Step(hash, s3, t3[0]);
    assert Run(hash, s4, t4) == Step(hash, s4, t4[0]) by { assert t4[1..] == []; }
    assert Run(hash, s3, t3) == Run(hash, s4, t4);
    assert Run(hash, s2, t2) == Run(hash, s3, t3);
    assert Run(hash, s1, t1) == Run(hash, s2, t2);
  }
}
