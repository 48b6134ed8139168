/**
 Every Attention call refines its effect on the abstract inbox, a key-to-item map.

 `Successor` says what one replacement may do; `CallRefines` and `ProjectRefines` show that
 every call only ever writes successors.
 */
module AttentionRefinement {
  import opened Integers
  import opened Results
  import opened Disk
  import opened Hex
  import opened Text
  import opened AttentionModel
  import opened AttentionListing
  import opened AttentionOps

  ghost predicate ValidItems(items: seq<Item>) {
    forall item :: item in items ==> ValidItem(item)
  }

  /** A stored state that reloads and lists exactly `inbox`. */
  ghost predicate Represents(state: State, inbox: map<Key, Item>) {
    && Lists(state.items, inbox)
    && ValidState(state)
    && state.generation <= MAX_U64
  }

  /** `write` is a legitimate next state after `state`. */
  ghost predicate Successor(hashes: Hashes, state: State, inbox: map<Key, Item>, write: AttentionWrite) {
    && Represents(write.state, Replay1(hashes, inbox, write.cause))
    && (if write.cause.Reaffirmed? then write.state == state
        else write.state.generation == state.generation + 1)
    && (if write.cause.Projected? then
          && write.cause.projection.sequence == state.Sequence() + 1
          && write.state.cursor ==
             Some(Cursor(write.cause.projection.sequence, DigestText(hashes, write.cause.projection)))
        else write.state.cursor == state.cursor)
  }

  /** Writes follow one another, and nothing follows a failed one. */
  ghost predicate Chain(hashes: Hashes, state: State, inbox: map<Key, Item>, writes: seq<AttentionWrite>)
    decreases |writes|
  {
    writes != [] ==>
      && Successor(hashes, state, inbox, writes[0])
      && (|writes| > 1 ==> writes[0].fault == Synced)
      && Chain(hashes, writes[0].state, Replay1(hashes, inbox, writes[0].cause), writes[1..])
  }

  function StateAfter(state: State, writes: seq<AttentionWrite>): State {
    if writes == [] then state else writes[|writes| - 1].state
  }

  ghost function InboxAfter(hashes: Hashes, inbox: map<Key, Item>, writes: seq<AttentionWrite>): map<Key, Item> {
    if writes == [] then inbox
    else Replay1(hashes, InboxAfter(hashes, inbox, writes[..|writes| - 1]), writes[|writes| - 1].cause)
  }

  // ----- building valid states -----

  /** `items` is the valid canonical listing of `inbox`. */
  ghost predicate ValidListing(items: seq<Item>, inbox: map<Key, Item>) {
    Lists(items, inbox) && ValidItems(items)
  }

  lemma ListingIsValid(state: State, inbox: map<Key, Item>)
    requires Lists(state.items, inbox) && ValidItems(state.items)
    requires state.schemaVersion == SCHEMA_VERSION && (state.cursor.Some? ==> ValidCursor(state.cursor.value))
    ensures ValidState(state)
  {
    hide ListingAccepted, ValidItem, Sorted;
    UniqueListingAccepted(state.items);
  }

  lemma CardIsValid(draft: Draft, createdAtMs: nat, eligible: bool)
    requires ValidDraft(draft) && createdAtMs != 0
    ensures ValidItem(ItemOf(draft, createdAtMs, eligible))
  {
  }

  lemma ValidStateItems(state: State)
    requires ValidState(state)
    ensures ValidItems(state.items)
    ensures forall item :: item in state.items ==> item.createdAtMs != 0
  {
    hide ListingAccepted;
  }

  lemma CommitRefines(hashes: Hashes, state: State, inbox: map<Key, Item>, next: State, cause: Cause, fault: PersistFault)
    requires Represents(state, inbox)
    requires next.generation == state.generation && next.schemaVersion == SCHEMA_VERSION
    requires ValidListing(next.items, Replay1(hashes, inbox, cause))
    requires !cause.Reaffirmed?
    requires if cause.Projected? then
        && cause.projection.sequence == state.Sequence() + 1
        && next.cursor == Some(Cursor(cause.projection.sequence, DigestText(hashes, cause.projection)))
      else next.cursor == state.cursor
    ensures Chain(hashes, state, inbox, Commit(next, cause, fault).writes)
  {
    hide ListingAccepted, Sorted, KeyUnique, ValidItem, Replay1;
    if state.generation != MAX_U64 {
      var written := next.(generation := state.generation + 1);
      if cause.Projected? { DigestTextIsValid(hashes.projectionDigest(cause.projection)); }
      ListingIsValid(written, Replay1(hashes, inbox, cause));
    }
  }

  lemma ChainThen(hashes: Hashes, state: State, inbox: map<Key, Item>, first: seq<AttentionWrite>, rest: seq<AttentionWrite>)
    requires |first| <= 1 && Chain(hashes, state, inbox, first)
    requires first != [] ==> first[0].fault == Synced
    requires Chain(hashes, StateAfter(state, first), InboxAfter(hashes, inbox, first), rest)
    ensures Chain(hashes, state, inbox, first + rest)
  {
    hide Successor, Replay1;
    if first == [] {
      assert first + rest == rest;
    } else {
      assert (first + rest)[1..] == rest;
      assert first[..0] == [];
    }
  }

  // ----- loading -----

  /** What a call knows once it has loaded. */
  ghost predicate Loaded(hashes: Hashes, state: State, inbox: map<Key, Item>, facts: RunFacts, loaded: Outcome<State>) {
    && |loaded.writes| <= 1
    && Chain(hashes, state, inbox, loaded.writes)
    && (loaded.writes != [] ==> loaded.writes[0].cause == Reconciled(facts))
    && (loaded.reply.Success? ==>
        && (loaded.writes != [] ==> loaded.writes[0].fault == Synced)
        && loaded.reply.value == StateAfter(state, loaded.writes)
        && Represents(loaded.reply.value, InboxAfter(hashes, inbox, loaded.writes))
        && loaded.reply.value.schemaVersion == SCHEMA_VERSION
        && loaded.reply.value.cursor == state.cursor)
    && (loaded.reply.Failure? ==> loaded.reply.error in {RunUnavailable, GenerationOverflow, Storage})
  }

  lemma ReconciledIsFilter(hashes: Hashes, inbox: map<Key, Item>, facts: RunFacts)
    requires forall key :: key in inbox ==> inbox[key].key == key
    ensures Replay1(hashes, inbox, Reconciled(facts)) ==
      map key | key in inbox && Unsettled(hashes, facts)(inbox[key]) :: inbox[key]
  {
  }

  /** Loading never meets a state it rejects, and reconciliation is a map filter. */
  lemma LoadRefines(hashes: Hashes, state: State, inbox: map<Key, Item>, env: Env)
    requires Represents(state, inbox)
    ensures Loaded(hashes, state, inbox, env.facts, LoadOutcome(hashes, state, env))
  {
    hide ListingAccepted, Sorted, KeyUnique, ValidItem, Replay1;
    var keep := Unsettled(hashes, env.facts);
    var retained := Retain(state.items, keep);
    var cause := Reconciled(env.facts);
    if LookupsSucceed(hashes, env.facts, state.items) {
      if |retained| == |state.items| {
        RetainSameLength(state.items, keep);
      } else {
        RetainLists(state.items, inbox, keep);
        ReconciledIsFilter(hashes, inbox, env.facts);
        ValidStateItems(state);
        CommitRefines(hashes, state, inbox, state.(items := retained), cause, env.loadFault);
        var loaded := LoadOutcome(hashes, state, env);
        if loaded.writes != [] {
          assert loaded.writes[..0] == [];
          assert Successor(hashes, state, inbox, loaded.writes[0]);
          assert Represents(loaded.writes[0].state, InboxAfter(hashes, inbox, loaded.writes));
        }
      }
    }
  }

  lemma NothingWritten(hashes: Hashes, state: State, inbox: map<Key, Item>)
    ensures Chain(hashes, state, inbox, [])
  {
  }

  // ----- the changes -----

  lemma SortedIsValidListing(items: seq<Item>, inbox: map<Key, Item>)
    requires Contents(items, inbox) && ValidItems(items)
    ensures ValidListing(SortItems(items), inbox)
  {
    hide Sorted, KeyUnique, ValidItem;
    SortLists(items, inbox);
    SortMembers(items);
  }

  lemma UpsertRefines(hashes: Hashes, state: State, inbox: map<Key, Item>, draft: Draft)
    requires Represents(state, inbox) && ValidDraft(draft)
    ensures var changed := UpsertChange(hashes, state, draft);
      var replayed := Replay1(hashes, inbox, Upserted(draft));
      if changed.None? then replayed == inbox
      else ValidListing(changed.value.items, replayed) && changed.value == state.(items := changed.value.items)
  {
    hide Sorted, KeyUnique, ValidItem, ListingAccepted, IsLocalPark;
    IndexOfContents(state.items, inbox, draft.key);
    ValidStateItems(state);
    assert draft.createdAtMs != 0;
    var index := IndexOf(state.items, draft.key);
    if index == -1 {
      var item := ItemOf(draft, draft.createdAtMs, false);
      CardIsValid(draft, draft.createdAtMs, false);
      AppendContents(state.items, inbox, item);
      SortedIsValidListing(state.items + [item], inbox[draft.key := item]);
    } else {
      var current := state.items[index];
      assert current in state.items;
      var created := if IsLocalPark(hashes, draft.key) then current.createdAtMs else draft.createdAtMs;
      var item := ItemOf(draft, created, current.eligible);
      if SameContent(current, ItemOf(draft, created, false)) {
        assert item == current;
      } else {
        CardIsValid(draft, created, current.eligible);
        ReplaceContents(state.items, inbox, index, item);
        SortedIsValidListing(state.items[index := item], inbox[draft.key := item]);
      }
    }
  }

  lemma PutRefines(items: seq<Item>, inbox: map<Key, Item>, draft: Draft)
    requires ValidListing(items, inbox) && ValidDraft(draft)
    ensures var item := ItemOf(draft, draft.createdAtMs, true);
      Contents(Put(items, item), inbox[draft.key := item]) && ValidItems(Put(items, item))
  {
    CardIsValid(draft, draft.createdAtMs, true);
    hide Sorted, KeyUnique, ValidItem, ValidDraft;
    PutContents(items, inbox, ItemOf(draft, draft.createdAtMs, true));
  }

  lemma RetainRefines(items: seq<Item>, inbox: map<Key, Item>, keep: Item -> bool)
    requires ValidListing(items, inbox)
    ensures Contents(Retain(items, keep), map key | key in inbox && keep(inbox[key]) :: inbox[key])
    ensures ValidItems(Retain(items, keep))
    ensures forall key :: key in inbox ==> inbox[key].key == key
  {
    hide Sorted, KeyUnique, ValidItem;
    RetainLists(items, inbox, keep);
  }

  lemma ChangeRefines(hashes: Hashes, items: seq<Item>, inbox: map<Key, Item>, projection: Projection)
    requires ValidListing(items, inbox) && ValidProjection(projection)
    ensures ValidListing(SortItems(ApplyChange(items, projection.change)), Replay1(hashes, inbox, Projected(projection)))
  {
    hide Contents, ValidListing, ValidItems, ValidDraft, ValidKey;
    var replayed := Replay1(hashes, inbox, Projected(projection));
    match projection.change {
      case UpsertCondition(draft) => PutRefines(items, inbox, draft);
      case ClearCondition(key) =>
        RetainRefines(items, inbox, NotKeyed(key));
        assert (map k | k in inbox && NotKeyed(key)(inbox[k]) :: inbox[k]) == replayed;
      case ClearSubject(kind, id) =>
        RetainRefines(items, inbox, NotSubject(kind, id));
        assert (map k | k in inbox && NotSubject(kind, id)(inbox[k]) :: inbox[k]) == replayed;
    }
    SortedIsValidListing(ApplyChange(items, projection.change), replayed);
  }

  // ----- the calls -----

  /** A call writes for reconciliation, or for its own reason. */
  ghost predicate CausesAllowed(writes: seq<AttentionWrite>, cause: Cause) {
    forall write :: write in writes ==> write.cause.Reconciled? || write.cause == cause
  }

  /** At most two writes, chained, with a success reply exactly describing the last state. */
  ghost predicate CallShape(hashes: Hashes, state: State, inbox: map<Key, Item>, outcome: Outcome<Snapshot>, cause: Cause) {
    && |outcome.writes| <= 2
    && Chain(hashes, state, inbox, outcome.writes)
    && CausesAllowed(outcome.writes, cause)
    && (outcome.reply.Success? ==>
        && outcome.reply.value ==
           Snapshot(StateAfter(state, outcome.writes).generation, StateAfter(state, outcome.writes).items)
        && (outcome.writes != [] ==> outcome.writes[|outcome.writes| - 1].fault == Synced))
    && outcome.reply != Failure(InvalidStored)
  }

  /** The chain a call appends to what its load wrote. */
  lemma FinishRefines(hashes: Hashes, state: State, inbox: map<Key, Item>, facts: RunFacts, loaded: Outcome<State>,
                      changed: Option<State>, cause: Cause, fault: PersistFault)
    requires Loaded(hashes, state, inbox, facts, loaded) && loaded.reply.Success?
    requires !cause.Reaffirmed? && !cause.Projected?
    requires changed.Some? ==>
      && changed.value == loaded.reply.value.(items := changed.value.items)
      && ValidListing(changed.value.items, Replay1(hashes, InboxAfter(hashes, inbox, loaded.writes), cause))
    ensures CallShape(hashes, state, inbox, Finish(loaded.writes, loaded.reply.value, changed, cause, fault), cause)
  {
    hide ValidListing, Represents, Replay1, Chain;
    if changed.Some? {
      CommitRefines(hashes, loaded.reply.value, InboxAfter(hashes, inbox, loaded.writes), changed.value, cause, fault);
      var saved := Commit(changed.value, cause, fault).writes;
      ChainThen(hashes, state, inbox, loaded.writes, saved);
    }
  }

  function CauseOf(operation: Operation): Cause {
    match operation
    case Read => Reaffirmed
    case Upsert(draft) => Upserted(draft)
    case SetEligible(key, eligible) => EligibilitySet(key, eligible)
    case Clear(key) => Cleared(key)
    case ClearSessionKind(id, kind) => SessionKindCleared(id, kind)
    case ClearSession(id) => SessionCleared(id)
  }

  /** `cause` removes exactly what `keep` rejects. */
  ghost predicate Removes(hashes: Hashes, inbox: map<Key, Item>, cause: Cause, keep: Item -> bool) {
    Replay1(hashes, inbox, cause) == map key | key in inbox && keep(inbox[key]) :: inbox[key]
  }

  lemma ClearCausesRemove(hashes: Hashes, inbox: map<Key, Item>, key: Key, id: string, kind: Kind)
    requires forall k :: k in inbox ==> inbox[k].key == k
    ensures Removes(hashes, inbox, Cleared(key), NotKeyed(key))
    ensures Removes(hashes, inbox, SessionKindCleared(id, kind), NotSessionKind(id, kind))
    ensures Removes(hashes, inbox, SessionCleared(id), NotSubject(Session, id))
  {
  }

  lemma RemoveRefines(hashes: Hashes, state: State, inbox: map<Key, Item>, valid: bool, keep: Item -> bool, cause: Cause, env: Env)
    requires Represents(state, inbox)
    requires !cause.Reaffirmed? && !cause.Projected?
    requires var loaded := LoadOutcome(hashes, state, env);
      loaded.reply.Success? ==> Removes(hashes, InboxAfter(hashes, inbox, loaded.writes), cause, keep)
    ensures CallShape(hashes, state, inbox, RemoveOutcome(hashes, state, valid, keep, cause, env), cause)
  {
    hide Sorted, Contents, ListingAccepted, ValidItem, Replay1, Chain, LoadOutcome;
    NothingWritten(hashes, state, inbox);
    LoadRefines(hashes, state, inbox, env);
    var loaded := LoadOutcome(hashes, state, env);
    if valid && loaded.reply.Success? {
      var current := loaded.reply.value;
      RetainLists(current.items, InboxAfter(hashes, inbox, loaded.writes), keep);
      ValidStateItems(current);
      var retained := Retain(current.items, keep);
      var changed := if |retained| == |current.items| then None else Some(current.(items := retained));
      FinishRefines(hashes, state, inbox, env.facts, loaded, changed, cause, env.fault);
    }
  }

  lemma EligibilityKeepsValid(items: seq<Item>, index: nat, eligible: bool)
    requires ValidItems(items) && index < |items|
    ensures ValidItems(items[index := items[index].(eligible := eligible)])
  {
    assert items[index] in items;
  }

  lemma SetEligibleRefines(hashes: Hashes, state: State, inbox: map<Key, Item>, key: Key, eligible: bool, env: Env)
    requires Represents(state, inbox)
    ensures CallShape(hashes, state, inbox, SetEligibleOutcome(hashes, state, key, eligible, env),
                      EligibilitySet(key, eligible))
  {
    hide Sorted, KeyUnique, ListingAccepted, ValidItem, Chain, LoadOutcome;
    NothingWritten(hashes, state, inbox);
    LoadRefines(hashes, state, inbox, env);
    var loaded := LoadOutcome(hashes, state, env);
    if ValidKey(key) && loaded.reply.Success? {
      var current := loaded.reply.value;
      var after := InboxAfter(hashes, inbox, loaded.writes);
      IndexOfContents(current.items, after, key);
      var index := IndexOf(current.items, key);
      if index != -1 {
        var item := current.items[index];
        EligibilityLists(current.items, after, index, eligible);
        ValidStateItems(current);
        EligibilityKeepsValid(current.items, index, eligible);
        var updated := current.items[index := item.(eligible := eligible)];
        var changed := if item.eligible == eligible then None else Some(current.(items := updated));
        FinishRefines(hashes, state, inbox, env.facts, loaded, changed, EligibilitySet(key, eligible), env.fault);
      }
    }
  }

  lemma UpsertCallRefines(hashes: Hashes, state: State, inbox: map<Key, Item>, draft: Draft, env: Env)
    requires Represents(state, inbox)
    ensures CallShape(hashes, state, inbox, UpsertOutcome(hashes, state, draft, env), Upserted(draft))
  {
    hide Sorted, Contents, ListingAccepted, ValidItem, Chain, LoadOutcome, UpsertChange, Replay1;
    NothingWritten(hashes, state, inbox);
    LoadRefines(hashes, state, inbox, env);
    var loaded := LoadOutcome(hashes, state, env);
    if ValidDraft(draft) && loaded.reply.Success? {
      UpsertRefines(hashes, loaded.reply.value, InboxAfter(hashes, inbox, loaded.writes), draft);
      FinishRefines(hashes, state, inbox, env.facts, loaded, UpsertChange(hashes, loaded.reply.value, draft),
                    Upserted(draft), env.fault);
    }
  }

  /** Every operator call acts on the listing exactly as its cause acts on the map. */
  lemma CallRefines(hashes: Hashes, state: State, inbox: map<Key, Item>, operation: Operation, env: Env)
    requires Represents(state, inbox)
    ensures CallShape(hashes, state, inbox, OperationOutcome(hashes, state, operation, env), CauseOf(operation))
  {
    hide Sorted, KeyUnique, ListingAccepted, ValidItem, Chain, LoadOutcome, RemoveOutcome, Removes, UpsertOutcome, SetEligibleOutcome;
    LoadRefines(hashes, state, inbox, env);
    var loaded := LoadOutcome(hashes, state, env);
    var after := InboxAfter(hashes, inbox, loaded.writes);
    match operation {
      case Read =>
      case Upsert(draft) => UpsertCallRefines(hashes, state, inbox, draft, env);
      case SetEligible(key, eligible) => SetEligibleRefines(hashes, state, inbox, key, eligible, env);
      case Clear(key) =>
        if loaded.reply.Success? { ClearCausesRemove(hashes, after, key, "", TurnReady); }
        RemoveRefines(hashes, state, inbox, ValidKey(key), NotKeyed(key), Cleared(key), env);
      case ClearSessionKind(id, kind) =>
        if loaded.reply.Success? { ClearCausesRemove(hashes, after, Key(Session, id, kind, ""), id, kind); }
        RemoveRefines(hashes, state, inbox, ValidSubjectId(id), NotSessionKind(id, kind), SessionKindCleared(id, kind), env);
      case ClearSession(id) =>
        if loaded.reply.Success? { ClearCausesRemove(hashes, after, Key(Session, id, TurnReady, ""), id, TurnReady); }
        RemoveRefines(hashes, state, inbox, ValidSubjectId(id), NotSubject(Session, id), SessionCleared(id), env);
    }
  }

  // ----- projection -----

  /** What one offered projection writes and when it may be acknowledged or refused. */
  ghost predicate ProjectShape(hashes: Hashes, state: State, inbox: map<Key, Item>, projection: Projection,
                               outcome: Outcome<ProjectionResult>) {
    && |outcome.writes| <= 2
    && Chain(hashes, state, inbox, outcome.writes)
    && (CausesAllowed(outcome.writes, Reaffirmed) || CausesAllowed(outcome.writes, Projected(projection)))
    && (outcome.reply.Success? ==>
        && outcome.writes != []
        && outcome.writes[|outcome.writes| - 1].fault == Synced
        && outcome.reply.value == ProjectionResult(projection.sequence, DigestText(hashes, projection),
                                                   projection.sequence == state.Sequence() + 1)
        && projection.sequence <= StateAfter(state, outcome.writes).Sequence())
  }

  lemma ReaffirmRefines(hashes: Hashes, state: State, inbox: map<Key, Item>, facts: RunFacts, loaded: Outcome<State>, fault: PersistFault)
    requires Loaded(hashes, state, inbox, facts, loaded) && loaded.reply.Success?
    ensures var writes := loaded.writes + Save(loaded.reply.value, Reaffirmed, fault).writes;
      && Chain(hashes, state, inbox, writes)
      && StateAfter(state, writes) == loaded.reply.value
      && CausesAllowed(writes, Reaffirmed)
  {
    hide Lists, ValidState;
    ChainThen(hashes, state, inbox, loaded.writes, Save(loaded.reply.value, Reaffirmed, fault).writes);
  }

  lemma AdvanceRefines(hashes: Hashes, state: State, inbox: map<Key, Item>, facts: RunFacts, loaded: Outcome<State>,
                       projection: Projection, fault: PersistFault)
    requires Loaded(hashes, state, inbox, facts, loaded) && loaded.reply.Success?
    requires ValidProjection(projection) && projection.sequence == state.Sequence() + 1
    ensures var current := loaded.reply.value;
      var next := current.(items := SortItems(ApplyChange(current.items, projection.change)),
                           cursor := Some(Cursor(projection.sequence, DigestText(hashes, projection))));
      var writes := loaded.writes + Commit(next, Projected(projection), fault).writes;
      && Chain(hashes, state, inbox, writes)
      && (Commit(next, Projected(projection), fault).writes != [] ==>
          StateAfter(state, writes).Sequence() == projection.sequence)
      && CausesAllowed(writes, Projected(projection))
  {
    hide Lists, Replay1, Successor, ValidProjection, DigestText;
    var current := loaded.reply.value;
    var after := InboxAfter(hashes, inbox, loaded.writes);
    ValidStateItems(current);
    ChangeRefines(hashes, current.items, after, projection);
    var next := current.(items := SortItems(ApplyChange(current.items, projection.change)),
                         cursor := Some(Cursor(projection.sequence, DigestText(hashes, projection))));
    CommitRefines(hashes, current, after, next, Projected(projection), fault);
    ChainThen(hashes, state, inbox, loaded.writes, Commit(next, Projected(projection), fault).writes);
  }

  /** A projection is applied once, in order; a success reply means its state is durable. */
  lemma ProjectRefines(hashes: Hashes, state: State, inbox: map<Key, Item>, projection: Projection, env: Env)
    requires Represents(state, inbox)
    ensures ProjectShape(hashes, state, inbox, projection, ProjectOutcome(hashes, state, projection, env))
  {
    hide Represents, Chain, LoadOutcome, DigestText, ApplyChange, SortItems, ValidProjection;
    NothingWritten(hashes, state, inbox);
    LoadRefines(hashes, state, inbox, env);
    var loaded := LoadOutcome(hashes, state, env);
    if ValidProjection(projection) && loaded.reply.Success? {
      var current := loaded.reply.value;
      if projection.sequence <= current.Sequence() {
        ReaffirmRefines(hashes, state, inbox, env.facts, loaded, env.fault);
      } else if current.Sequence() + 1 == projection.sequence && current.Sequence() != MAX_U64 {
        AdvanceRefines(hashes, state, inbox, env.facts, loaded, projection, env.fault);
      }
    }
  }

  /** Exactly when a projection is refused: as invalid by its own contents, and after a successful load as
      a gap or a conflict by how its sequence and digest stand to the stored cursor. */
  lemma ProjectRefusals(hashes: Hashes, state: State, inbox: map<Key, Item>, projection: Projection, env: Env)
    requires Represents(state, inbox)
    ensures var reply := ProjectOutcome(hashes, state, projection, env).reply;
      var listed := ValidProjection(projection) && LoadOutcome(hashes, state, env).reply.Success?;
      && (reply == Failure(InvalidInput) <==> !ValidProjection(projection))
      && (reply == Failure(SequenceGap) <==>
          && listed && state.Sequence() < projection.sequence
          && (projection.sequence != state.Sequence() + 1 || state.Sequence() == MAX_U64))
      && (reply == Failure(SequenceConflict) <==>
          && listed && projection.sequence == state.Sequence()
          && state.cursor != Some(Cursor(projection.sequence, DigestText(hashes, projection))))
      && reply != Failure(InvalidStored)
  {
    hide Represents, Loaded, LoadOutcome, DigestText, ApplyChange, SortItems, ValidProjection, Commit, Save;
    LoadRefines(hashes, state, inbox, env);
    LoadedCursor(hashes, state, inbox, env.facts, LoadOutcome(hashes, state, env));
    ValidSequence(projection);
    var loaded := LoadOutcome(hashes, state, env);
    if ValidProjection(projection) && loaded.reply.Success? {
      var current := loaded.reply.value;
      var next := current.(items := SortItems(ApplyChange(current.items, projection.change)),
                           cursor := Some(Cursor(projection.sequence, DigestText(hashes, projection))));
      CommitReply(next, Projected(projection), env.fault);
      SaveReply(current, Reaffirmed, env.fault);
    }
  }

  lemma ValidSequence(projection: Projection)
    ensures ValidProjection(projection) ==> projection.sequence != 0
  {
    hide ValidDraft, ValidKey, ValidSubjectId;
  }

  lemma LoadedCursor(hashes: Hashes, state: State, inbox: map<Key, Item>, facts: RunFacts, loaded: Outcome<State>)
    requires Loaded(hashes, state, inbox, facts, loaded)
    ensures loaded.reply.Success? ==> loaded.reply.value.cursor == state.cursor
    ensures loaded.reply.Failure? ==> loaded.reply.error in {RunUnavailable, GenerationOverflow, Storage}
  {
    hide Represents, Chain;
  }

  lemma CommitReply(state: State, cause: Cause, fault: PersistFault)
    ensures Commit(state, cause, fault).reply.Failure? ==> Commit(state, cause, fault).reply.error in {GenerationOverflow, Storage}
  {
  }

  lemma SaveReply(state: State, cause: Cause, fault: PersistFault)
    ensures Save(state, cause, fault).reply.Failure? ==> Save(state, cause, fault).reply.error == Storage
  {
  }
}
