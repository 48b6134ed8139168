/**
 What each Attention call writes and replies, as a function of the state it finds.

 A call is atomic under the store lock. Its outcome lists every replacement it attempts,
 in order, each with the fault that replacement meets.
 */
module AttentionOps {
  import opened Integers
  import opened Results
  import opened Disk
  import opened Hex
  import opened Text
  import opened AttentionModel
  import opened AttentionListing

  // ----- Run facts -----

  datatype RunLookup = LookupFailed | Absent | Found(lifecycle: string, parkExpiresAtMs: nat)

  /** What the Run store answers during one call. Without Run support nothing is looked up. */
  datatype RunFacts = RunFacts(supported: bool, lookup: string -> RunLookup, nowMs: nat)

  /** SHA-256 derivations, left uninterpreted: the local Park operation id of a Run, and the
      digest of a projection's canonical bytes. */
  datatype Hashes = Hashes(parkOperation: string -> string, projectionDigest: Projection -> Digest)

  datatype Resolution = Resolved | Unresolved | Unknown

  predicate IsLocalPark(hashes: Hashes, key: Key) {
    && key.subjectKind == Run
    && key.kind == RunParked
    && key.sourceOperationId == hashes.parkOperation(key.subjectId)
  }

  function LocalParkResolution(hashes: Hashes, facts: RunFacts, key: Key): Resolution {
    if !facts.supported || !IsLocalPark(hashes, key) then Unresolved
    else
      match facts.lookup(key.subjectId)
      case LookupFailed => Unknown
      case Absent => Unresolved
      case Found(lifecycle, expires) =>
        if (lifecycle == "parked" || lifecycle == "cold_parked") && 0 < expires then
          if expires <= facts.nowMs then Resolved else Unresolved
        else if lifecycle == "resuming" then Unresolved
        else if lifecycle == "active" || lifecycle == "disposed" then Resolved
        else Unknown
  }

  function Unsettled(hashes: Hashes, facts: RunFacts): Item -> bool {
    (item: Item) => LocalParkResolution(hashes, facts, item.key) != Resolved
  }

  predicate LookupsSucceed(hashes: Hashes, facts: RunFacts, items: seq<Item>) {
    forall item :: item in items ==> LocalParkResolution(hashes, facts, item.key) != Unknown
  }

  // ----- outcomes -----

  /** Why a replacement was made. The history of a state is its list of causes. */
  datatype Cause =
    | Reaffirmed
    | Reconciled(facts: RunFacts)
    | Upserted(draft: Draft)
    | EligibilitySet(key: Key, eligible: bool)
    | Cleared(key: Key)
    | SessionKindCleared(sessionId: string, kind: Kind)
    | SessionCleared(sessionId: string)
    | Projected(projection: Projection)

  type AttentionWrite = Write<State, Cause>

  datatype Outcome<R> = Outcome(writes: seq<AttentionWrite>, reply: Result<R, AttentionError>)

  /** Run facts and disk faults one call meets. `check` is read when an upsert asks again
      about its own Park after loading. */
  datatype Env = Env(facts: RunFacts, check: RunFacts, loadFault: PersistFault, fault: PersistFault)

  function Save(state: State, cause: Cause, fault: PersistFault): Outcome<State> {
    Outcome([Write(state, cause, fault)], if fault == Synced then Success(state) else Failure(Storage))
  }

  /** Count the change, then save it; an exhausted counter writes nothing. */
  function Commit(state: State, cause: Cause, fault: PersistFault): Outcome<State> {
    if state.generation == MAX_U64 then Outcome([], Failure(GenerationOverflow))
    else Save(state.(generation := state.generation + 1), cause, fault)
  }

  function LoadOutcome(hashes: Hashes, state: State, env: Env): Outcome<State> {
    if !ValidState(state) then Outcome([], Failure(InvalidStored))
    else if !LookupsSucceed(hashes, env.facts, state.items) then Outcome([], Failure(RunUnavailable))
    else
      var retained := Retain(state.items, Unsettled(hashes, env.facts));
      if |retained| == |state.items| then Outcome([], Success(state.(items := retained)))
      else Commit(state.(items := retained), Reconciled(env.facts), env.loadFault)
  }

  function SnapshotOf(result: Result<State, AttentionError>): Result<Snapshot, AttentionError> {
    match result
    case Success(state) => Success(Snapshot(state.generation, state.items))
    case Failure(error) => Failure(error)
  }

  /** Continue with a change, or leave the loaded state as it is. */
  function Finish(writes: seq<AttentionWrite>, state: State, changed: Option<State>, cause: Cause,
                  fault: PersistFault): Outcome<Snapshot> {
    match changed
    case None => Outcome(writes, SnapshotOf(Success(state)))
    case Some(next) =>
      var saved := Commit(next, cause, fault);
      Outcome(writes + saved.writes, SnapshotOf(saved.reply))
  }

  /** The state an upsert leaves, unless it repeats what is stored. */
  function UpsertChange(hashes: Hashes, state: State, draft: Draft): Option<State> {
    var index := IndexOf(state.items, draft.key);
    if index == -1 then
      Some(state.(items := SortItems(state.items + [ItemOf(draft, draft.createdAtMs, false)])))
    else
      var current := state.items[index];
      // A listed local Park keeps its first date.
      var created := if IsLocalPark(hashes, draft.key) then current.createdAtMs else draft.createdAtMs;
      var item := ItemOf(draft, created, false);
      if SameContent(current, item) then None
      else Some(state.(items := SortItems(state.items[index := item.(eligible := current.eligible)])))
  }

  function UpsertOutcome(hashes: Hashes, state: State, draft: Draft, env: Env): Outcome<Snapshot> {
    if !ValidDraft(draft) then Outcome([], Failure(InvalidInput))
    else
      var loaded := LoadOutcome(hashes, state, env);
      match loaded.reply
      case Failure(error) => Outcome(loaded.writes, Failure(error))
      case Success(current) =>
        match LocalParkResolution(hashes, env.check, draft.key)
        case Unknown => Outcome(loaded.writes, Failure(RunUnavailable))
        case Resolved => Outcome(loaded.writes, SnapshotOf(loaded.reply))
        case Unresolved =>
          Finish(loaded.writes, current, UpsertChange(hashes, current, draft), Upserted(draft), env.fault)
  }

  function SetEligibleOutcome(hashes: Hashes, state: State, key: Key, eligible: bool, env: Env): Outcome<Snapshot> {
    if !ValidKey(key) then Outcome([], Failure(InvalidInput))
    else
      var loaded := LoadOutcome(hashes, state, env);
      match loaded.reply
      case Failure(error) => Outcome(loaded.writes, Failure(error))
      case Success(current) =>
        var index := IndexOf(current.items, key);
        if index == -1 then Outcome(loaded.writes, Failure(NotFound))
        else
          var item := current.items[index];
          var changed :=
            if item.eligible == eligible then None
            else Some(current.(items := current.items[index := item.(eligible := eligible)]));
          Finish(loaded.writes, current, changed, EligibilitySet(key, eligible), env.fault)
  }

  /** Drop what `keep` rejects, unless that is nothing. */
  function RemoveOutcome(hashes: Hashes, state: State, valid: bool, keep: Item -> bool, cause: Cause, env: Env)
    : Outcome<Snapshot>
  {
    if !valid then Outcome([], Failure(InvalidInput))
    else
      var loaded := LoadOutcome(hashes, state, env);
      match loaded.reply
      case Failure(error) => Outcome(loaded.writes, Failure(error))
      case Success(current) =>
        var retained := Retain(current.items, keep);
        var changed :=
          if |retained| == |current.items| then None else Some(current.(items := retained));
        Finish(loaded.writes, current, changed, cause, env.fault)
  }

  function NotKeyed(key: Key): Item -> bool {
    (item: Item) => item.key != key
  }

  function NotSessionKind(sessionId: string, kind: Kind): Item -> bool {
    (item: Item) => item.key.subjectKind != Session || item.key.subjectId != sessionId || item.key.kind != kind
  }

  function NotSubject(subjectKind: SubjectKind, subjectId: string): Item -> bool {
    (item: Item) => item.key.subjectKind != subjectKind || item.key.subjectId != subjectId
  }

  /** The operator-side calls. */
  datatype Operation =
    | Read
    | Upsert(draft: Draft)
    | SetEligible(key: Key, eligible: bool)
    | Clear(key: Key)
    | ClearSessionKind(sessionId: string, kind: Kind)
    | ClearSession(sessionId: string)

  function OperationOutcome(hashes: Hashes, state: State, operation: Operation, env: Env): Outcome<Snapshot> {
    match operation
    case Read =>
      var loaded := LoadOutcome(hashes, state, env);
      Outcome(loaded.writes, SnapshotOf(loaded.reply))
    case Upsert(draft) => UpsertOutcome(hashes, state, draft, env)
    case SetEligible(key, eligible) => SetEligibleOutcome(hashes, state, key, eligible, env)
    case Clear(key) => RemoveOutcome(hashes, state, ValidKey(key), NotKeyed(key), Cleared(key), env)
    case ClearSessionKind(id, kind) =>
      RemoveOutcome(hashes, state, ValidSubjectId(id), NotSessionKind(id, kind), SessionKindCleared(id, kind), env)
    case ClearSession(id) =>
      RemoveOutcome(hashes, state, ValidSubjectId(id), NotSubject(Session, id), SessionCleared(id), env)
  }

  // ----- ordered broker projection -----

  function ApplyChange(items: seq<Item>, change: Change): seq<Item> {
    match change
    case UpsertCondition(attention) => Put(items, ItemOf(attention, attention.createdAtMs, true))
    case ClearCondition(key) => Retain(items, NotKeyed(key))
    case ClearSubject(kind, id) => Retain(items, NotSubject(kind, id))
  }

  function DigestText(hashes: Hashes, projection: Projection): string {
    LowerHex(hashes.projectionDigest(projection))
  }

  function ProjectOutcome(hashes: Hashes, state: State, projection: Projection, env: Env): Outcome<ProjectionResult> {
    if !ValidProjection(projection) then Outcome([], Failure(InvalidInput))
    else
      var digest := DigestText(hashes, projection);
      var loaded := LoadOutcome(hashes, state, env);
      match loaded.reply
      case Failure(error) => Outcome(loaded.writes, Failure(error))
      case Success(current) =>
        var previous := current.Sequence();
        if projection.sequence <= previous then
          if projection.sequence == previous && current.cursor.Some? && current.cursor.value.digest != digest then
            Outcome(loaded.writes, Failure(SequenceConflict))
          else
            // A stale entry changes nothing, but is stored again so that its reply is durable.
            var saved := Save(current, Reaffirmed, env.fault);
            Outcome(loaded.writes + saved.writes,
                    Acknowledge(saved.reply, ProjectionResult(projection.sequence, digest, false)))
        else if previous + 1 != projection.sequence || previous == MAX_U64 then
          Outcome(loaded.writes, Failure(SequenceGap))
        else
          var next := current.(items := SortItems(ApplyChange(current.items, projection.change)),
                               cursor := Some(Cursor(projection.sequence, digest)));
          var saved := Commit(next, Projected(projection), env.fault);
          Outcome(loaded.writes + saved.writes,
                  Acknowledge(saved.reply, ProjectionResult(projection.sequence, digest, true)))
  }

  function Acknowledge(saved: Result<State, AttentionError>, result: ProjectionResult)
    : Result<ProjectionResult, AttentionError>
  {
    match saved
    case Success(_) => Success(result)
    case Failure(error) => Failure(error)
  }

  // ----- the abstract inbox -----

  /** What a cause does to the key-to-item map, with no list and no order. */
  ghost function Replay1(hashes: Hashes, inbox: map<Key, Item>, cause: Cause): map<Key, Item> {
    match cause
    case Reaffirmed => inbox
    case Reconciled(facts) =>
      map key | key in inbox && LocalParkResolution(hashes, facts, key) != Resolved :: inbox[key]
    case Upserted(draft) =>
      if draft.key in inbox then
        var current := inbox[draft.key];
        var created := if IsLocalPark(hashes, draft.key) then current.createdAtMs else draft.createdAtMs;
        inbox[draft.key := ItemOf(draft, created, current.eligible)]
      else inbox[draft.key := ItemOf(draft, draft.createdAtMs, false)]
    case EligibilitySet(key, eligible) =>
      if key in inbox then inbox[key := inbox[key].(eligible := eligible)] else inbox
    case Cleared(key) => inbox - {key}
    case SessionKindCleared(id, kind) =>
      map key | key in inbox && !(key.subjectKind == Session && key.subjectId == id && key.kind == kind) :: inbox[key]
    case SessionCleared(id) =>
      map key | key in inbox && !(key.subjectKind == Session && key.subjectId == id) :: inbox[key]
    case Projected(projection) =>
      match projection.change
      case UpsertCondition(draft) => inbox[draft.key := ItemOf(draft, draft.createdAtMs, true)]
      case ClearCondition(key) => inbox - {key}
      case ClearSubject(subjectKind, id) =>
        map key | key in inbox && !(key.subjectKind == subjectKind && key.subjectId == id) :: inbox[key]
  }

  ghost function Replay(hashes: Hashes, history: seq<Cause>): map<Key, Item> {
    if history == [] then map[]
    else Replay1(hashes, Replay(hashes, history[..|history| - 1]), history[|history| - 1])
  }
}
