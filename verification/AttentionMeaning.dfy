/**
 What the Attention calls mean to a reader: which conditions are listed afterwards and when a call is
 refused, in terms of what callers pass and the Run store answers, with none of the calls' own helpers.
 */
module AttentionMeaning {
  import opened Integers
  import opened Results
  import opened Disk
  import opened Text
  import opened TextOrder
  import opened Hex
  import opened AttentionModel
  import opened AttentionListing
  import opened AttentionOps
  import opened AttentionRefinement
  import opened AttentionRuns

  // ----- what a Run's answer says about its local Park -----

  /** The key under which the local controller reports that a Run is Parked. */
  predicate LocalParkKey(hashes: Hashes, key: Key) {
    key == Key(Run, key.subjectId, RunParked, hashes.parkOperation(key.subjectId))
  }

  predicate ParkedUntil(answer: RunLookup, expires: nat) {
    (answer == Found("parked", expires) || answer == Found("cold_parked", expires)) && 0 < expires
  }

  /** The Run still waits: nobody knows it, it is resuming, or its Park runs out later. */
  predicate Waiting(answer: RunLookup, nowMs: nat) {
    || answer == Absent
    || (answer.Found? && answer.lifecycle == "resuming")
    || (answer.Found? && ParkedUntil(answer, answer.parkExpiresAtMs) && nowMs < answer.parkExpiresAtMs)
  }

  /** The wait is over: the Run is active or disposed, or its Park ran out. */
  predicate Over(answer: RunLookup, nowMs: nat) {
    && answer.Found?
    && (|| answer.lifecycle == "active" || answer.lifecycle == "disposed"
        || (ParkedUntil(answer, answer.parkExpiresAtMs) && answer.parkExpiresAtMs <= nowMs))
  }

  /** Only a local Park is ever looked up. */
  predicate Kept(hashes: Hashes, facts: RunFacts, key: Key) {
    facts.supported && LocalParkKey(hashes, key) ==> Waiting(facts.lookup(key.subjectId), facts.nowMs)
  }

  predicate Answered(hashes: Hashes, facts: RunFacts, key: Key) {
    facts.supported && LocalParkKey(hashes, key) ==>
      Waiting(facts.lookup(key.subjectId), facts.nowMs) || Over(facts.lookup(key.subjectId), facts.nowMs)
  }

  lemma ResolutionMeans(hashes: Hashes, facts: RunFacts, key: Key)
    ensures LocalParkResolution(hashes, facts, key) ==
      if Kept(hashes, facts, key) then Unresolved
      else if Answered(hashes, facts, key) then Resolved else Unknown
  {
  }

  lemma LookupsMean(hashes: Hashes, facts: RunFacts, items: seq<Item>)
    ensures LookupsSucceed(hashes, facts, items) <==> forall item :: item in items ==> Answered(hashes, facts, item.key)
  {
    hide Answered, Kept, LocalParkResolution;
    forall item: Item
      ensures LocalParkResolution(hashes, facts, item.key) != Unknown <==> Answered(hashes, facts, item.key)
    {
      ResolutionMeans(hashes, facts, item.key);
      KeptIsAnswered(hashes, facts, item.key);
    }
  }

  lemma KeptIsAnswered(hashes: Hashes, facts: RunFacts, key: Key)
    ensures Kept(hashes, facts, key) ==> Answered(hashes, facts, key)
  {
  }

  // ----- loading -----

  /** `after` lists exactly the items of `before` that `facts` keep. */
  ghost predicate Reconciles(hashes: Hashes, facts: RunFacts, before: State, after: State) {
    && (forall item :: item in after.items <==> item in before.items && Kept(hashes, facts, item.key))
    && after.cursor == before.cursor
    && after.generation ==
       before.generation + (if forall item :: item in before.items ==> Kept(hashes, facts, item.key) then 0 else 1)
  }

  /** Why a change could not be stored: the counter is exhausted, or the disk failed. */
  function StoreError(state: State): AttentionError {
    if state.generation == MAX_U64 then GenerationOverflow else Storage
  }

  /** A load keeps exactly the items whose local Park still waits, and every other condition. It fails as
      unavailable exactly when a listed local Park gets any further answer, and otherwise succeeds exactly
      when nothing has to be dropped or the shorter list is stored durably. */
  lemma LoadMeans(hashes: Hashes, state: State, inbox: map<Key, Item>, env: Env)
    requires Represents(state, inbox)
    ensures var loaded := LoadOutcome(hashes, state, env);
      var answered := forall item :: item in state.items ==> Answered(hashes, env.facts, item.key);
      var idle := forall item :: item in state.items ==> Kept(hashes, env.facts, item.key);
      && (loaded.reply == Failure(RunUnavailable) <==> !answered)
      && (loaded.reply.Success? <==> answered && (idle || (state.generation < MAX_U64 && env.loadFault == Synced)))
      && (answered && loaded.reply.Failure? ==> loaded.reply.error == StoreError(state))
      && (loaded.reply.Success? ==> Reconciles(hashes, env.facts, state, loaded.reply.value))
      && (forall write :: write in loaded.writes ==> Reconciles(hashes, env.facts, state, write.state))
      && (loaded.writes != [] <==> answered && !idle && state.generation < MAX_U64)
      && (idle && answered ==> loaded.reply == Success(state))
  {
    hide Lists, ListingAccepted, ValidItem, LocalParkResolution, Kept, Answered;
    LookupsMean(hashes, env.facts, state.items);
    var keep := Unsettled(hashes, env.facts);
    var retained := Retain(state.items, keep);
    if LookupsSucceed(hashes, env.facts, state.items) {
      SettledIsKept(hashes, env.facts, state.items);
      if |retained| == |state.items| {
        RetainSameLength(state.items, keep);
      } else {
        if forall item :: item in state.items ==> Kept(hashes, env.facts, item.key) {
          RetainEverything(state.items, keep);
        }
      }
    }
  }

  lemma SettledIsKept(hashes: Hashes, facts: RunFacts, items: seq<Item>)
    requires LookupsSucceed(hashes, facts, items)
    ensures forall item :: item in items ==> (Unsettled(hashes, facts)(item) <==> Kept(hashes, facts, item.key))
  {
    hide Kept, Answered, LocalParkResolution;
    forall item | item in items ensures Unsettled(hashes, facts)(item) <==> Kept(hashes, facts, item.key) {
      ResolutionMeans(hashes, facts, item.key);
    }
  }

  // ----- time -----

  ghost predicate Listed(state: State, key: Key) {
    exists item :: item in state.items && item.key == key
  }

  function Reads(environments: seq<Env>): seq<Action> {
    seq(|environments|, i requires 0 <= i < |environments| => Local(Read, environments[i]))
  }

  ghost predicate AllSucceed(hashes: Hashes, outbox: nat -> Change, system: System, environments: seq<Env>)
    decreases |environments|
  {
    environments != [] ==>
      && OperationOutcome(hashes, system.disk.Visible().state, Read, environments[0]).reply.Success?
      && AllSucceed(hashes, outbox, Step(hashes, outbox, system, Local(Read, environments[0])), environments[1..])
  }

  /** A listed local Park whose Run is parked until `expires` is dropped by the first read at or after that
      time, and by none before: it is still listed after a run of reads exactly when all came earlier. */
  lemma ParkStaysUntilExpiry(hashes: Hashes, outbox: nat -> Change, actions: seq<Action>, environments: seq<Env>,
                             key: Key, expires: nat)
    requires var system := AttentionRuns.Run(hashes, outbox, INITIAL, actions);
      Listed(system.disk.Visible().state, key) && AllSucceed(hashes, outbox, system, environments)
    requires LocalParkKey(hashes, key)
    requires forall env :: env in environments ==>
      env.facts.supported && ParkedUntil(env.facts.lookup(key.subjectId), expires)
    ensures var final := AttentionRuns.Run(hashes, outbox, AttentionRuns.Run(hashes, outbox, INITIAL, actions), Reads(environments));
      Listed(final.disk.Visible().state, key) <==> forall env :: env in environments ==> env.facts.nowMs < expires
  {
    hide Inv, AttentionRuns.Run, INITIAL, Listed, AllSucceed, Reads, LocalParkKey;
    Reachable(hashes, outbox, actions);
    ReadsDrop(hashes, outbox, AttentionRuns.Run(hashes, outbox, INITIAL, actions), environments, key, expires);
  }

  lemma {:induction false} ReadsDrop(hashes: Hashes, outbox: nat -> Change, system: System, environments: seq<Env>,
                                     key: Key, expires: nat)
    requires Inv(hashes, outbox, system) && AllSucceed(hashes, outbox, system, environments)
    requires LocalParkKey(hashes, key)
    requires forall env :: env in environments ==>
      env.facts.supported && ParkedUntil(env.facts.lookup(key.subjectId), expires)
    ensures var final := AttentionRuns.Run(hashes, outbox, system, Reads(environments));
      Listed(final.disk.Visible().state, key) <==>
      Listed(system.disk.Visible().state, key) && forall env :: env in environments ==> env.facts.nowMs < expires
    decreases |environments|
  {
    hide Inv, Step, Listed, LocalParkKey, OperationOutcome, ParkedUntil;
    if environments == [] {
    } else {
      var env := environments[0];
      var action := Local(Read, env);
      var next := Step(hashes, outbox, system, action);
      assert env in environments;
      ReadDrops(hashes, outbox, system, env, key);
      ParkedMeansKept(hashes, env.facts, key, expires);
      StepKeepsInv(hashes, outbox, system, action);
      assert forall later :: later in environments <==> later == env || later in environments[1..];
      ReadsDrop(hashes, outbox, next, environments[1..], key, expires);
      assert Reads(environments) == [action] + Reads(environments[1..]);
      RunFirst(hashes, outbox, system, action, Reads(environments[1..]));
    }
  }

  lemma ParkedMeansKept(hashes: Hashes, facts: RunFacts, key: Key, expires: nat)
    requires LocalParkKey(hashes, key) && facts.supported && ParkedUntil(facts.lookup(key.subjectId), expires)
    ensures Kept(hashes, facts, key) <==> facts.nowMs < expires
  {
  }

  /** A successful read leaves a condition listed exactly when the Run's answer keeps it. */
  lemma ReadDrops(hashes: Hashes, outbox: nat -> Change, system: System, env: Env, key: Key)
    requires Inv(hashes, outbox, system)
    requires OperationOutcome(hashes, system.disk.Visible().state, Read, env).reply.Success?
    ensures Listed(Step(hashes, outbox, system, Local(Read, env)).disk.Visible().state, key) <==>
      Listed(system.disk.Visible().state, key) && Kept(hashes, env.facts, key)
  {
    hide *;
    VisibleRepresents(hashes, outbox, system);
    var state := system.disk.Visible().state;
    var inbox := Replay(hashes, system.disk.Visible().history);
    ReadIsLoad(hashes, state, env);
    ReadLeaves(hashes, outbox, system, env);
    ReadReconciles(hashes, state, inbox, env, system.disk);
    ReconcilesListed(hashes, env.facts, state, LoadOutcome(hashes, state, env).reply.value, key);
  }

  lemma ReadLeaves(hashes: Hashes, outbox: nat -> Change, system: System, env: Env)
    ensures Step(hashes, outbox, system, Local(Read, env)).disk ==
      Record(system.disk, LoadOutcome(hashes, system.disk.Visible().state, env).writes)
  {
    hide LoadOutcome, Record;
  }

  lemma ReadReconciles(hashes: Hashes, state: State, inbox: map<Key, Item>, env: Env, disk: TracedDisk)
    requires Represents(state, inbox) && state == disk.Visible().state
    requires LoadOutcome(hashes, state, env).reply.Success?
    ensures var loaded := LoadOutcome(hashes, state, env);
      && Record(disk, loaded.writes).Visible().state == loaded.reply.value
      && Reconciles(hashes, env.facts, state, loaded.reply.value)
  {
    hide *;
    LoadMeans(hashes, state, inbox, env);
    LoadRefines(hashes, state, inbox, env);
    LoadedIsVisible(hashes, state, inbox, disk, env.facts, LoadOutcome(hashes, state, env));
  }

  lemma ReadIsLoad(hashes: Hashes, state: State, env: Env)
    ensures var loaded := LoadOutcome(hashes, state, env);
      && OperationOutcome(hashes, state, Read, env) == Outcome(loaded.writes, SnapshotOf(loaded.reply))
      && (SnapshotOf(loaded.reply).Success? <==> loaded.reply.Success?)
  {
    hide LoadOutcome;
  }

  lemma LoadedIsVisible(hashes: Hashes, state: State, inbox: map<Key, Item>, disk: TracedDisk, facts: RunFacts,
                        loaded: Outcome<State>)
    requires state == disk.Visible().state
    requires Loaded(hashes, state, inbox, facts, loaded) && loaded.reply.Success?
    ensures Record(disk, loaded.writes).Visible().state == loaded.reply.value
  {
    hide Chain, Represents, InboxAfter;
    if loaded.writes != [] {
      assert loaded.writes == [loaded.writes[0]];
      RecordSingle(disk, loaded.writes[0]);
    }
  }

  lemma ReconcilesListed(hashes: Hashes, facts: RunFacts, before: State, after: State, key: Key)
    requires Reconciles(hashes, facts, before, after)
    ensures Listed(after, key) <==> Listed(before, key) && Kept(hashes, facts, key)
  {
    hide Kept;
  }

  // ----- operator calls -----

  /** Everything a reader sees of a drafted condition. */
  function Card(draft: Draft, createdAtMs: nat, eligible: bool): Item {
    Item(key := draft.key, createdAtMs := createdAtMs, eligible := eligible, reason := draft.key.kind.Reason(),
         linkedRunId := draft.linkedRunId, stage := draft.stage, code := draft.code, withdrawal := draft.withdrawal)
  }

  /** `card` is listed, alone under its key, and every condition under another key is listed as before. */
  ghost predicate Shows(before: seq<Item>, after: seq<Item>, card: Item) {
    forall item :: item in after <==> item == card || (item in before && item.key != card.key)
  }

  /** A success means `card` is listed, and comes exactly when it already was or storing it worked. */
  ghost predicate Settles(current: State, reply: Result<Snapshot, AttentionError>, fault: PersistFault, card: Item) {
    var idle := card in current.items;
    && (reply.Success? <==> idle || (current.generation < MAX_U64 && fault == Synced))
    && (reply.Failure? ==> reply.error == StoreError(current))
    && (reply.Success? ==>
        && Shows(current.items, reply.value.items, card)
        && reply.value.generation == current.generation + (if idle then 0 else 1))
  }

  lemma ShowsItself(items: seq<Item>, card: Item)
    requires KeyUnique(items) && card in items
    ensures Shows(items, items, card)
  {
    var i :| 0 <= i < |items| && items[i] == card;
    forall item | item in items && item.key == card.key ensures item == card {
      var j :| 0 <= j < |items| && items[j] == item;
    }
  }

  lemma ReplacedShows(items: seq<Item>, index: nat, card: Item)
    requires KeyUnique(items) && index < |items| && items[index].key == card.key
    ensures Shows(items, items[index := card], card)
  {
    var result := items[index := card];
    forall item ensures item in result <==> item == card || (item in items && item.key != card.key) {
      if item in result {
        var i :| 0 <= i < |result| && result[i] == item;
      }
      if item in items && item.key != card.key {
        var i :| 0 <= i < |items| && items[i] == item;
        assert result[i] == item;
      }
      assert result[index] == card;
    }
  }

  lemma AppendedShows(items: seq<Item>, card: Item)
    requires forall item :: item in items ==> item.key != card.key
    ensures Shows(items, items + [card], card)
  {
  }

  lemma SortedShows(before: seq<Item>, after: seq<Item>, card: Item)
    requires Shows(before, after, card)
    ensures Shows(before, SortItems(after), card)
  {
    SortMembers(after);
  }

  lemma ListedOnce(items: seq<Item>, listed: Item)
    requires KeyUnique(items) && listed in items
    ensures IndexOf(items, listed.key) != -1 && items[IndexOf(items, listed.key)] == listed
  {
    var i :| 0 <= i < |items| && items[i] == listed;
    assert items[IndexOf(items, listed.key)].key == items[i].key;
  }

  lemma LoadedUnique(hashes: Hashes, state: State, inbox: map<Key, Item>, env: Env)
    requires Represents(state, inbox) && LoadOutcome(hashes, state, env).reply.Success?
    ensures KeyUnique(LoadOutcome(hashes, state, env).reply.value.items)
    ensures Sorted(LoadOutcome(hashes, state, env).reply.value.items)
    ensures LoadOutcome(hashes, state, env).reply.value.generation <= MAX_U64
  {
    hide LoadOutcome, ValidState, Sorted, KeyUnique, InboxAfter, Chain;
    LoadRefines(hashes, state, inbox, env);
  }

  /** After a successful load an upsert lists the drafted condition, all of its fields from the draft except
      what an earlier listing keeps: its eligibility and, of a local Park, its first date. A local Park whose
      Run has meanwhile moved on changes nothing, and one whose Run gives any further answer is refused. */
  lemma UpsertMeans(hashes: Hashes, state: State, inbox: map<Key, Item>, draft: Draft, env: Env)
    requires Represents(state, inbox) && LoadOutcome(hashes, state, env).reply.Success?
    ensures var current := LoadOutcome(hashes, state, env).reply.value;
      var reply := OperationOutcome(hashes, state, Upsert(draft), env).reply;
      && (reply == Failure(InvalidInput) <==> !ValidDraft(draft))
      && (ValidDraft(draft) && !Answered(hashes, env.check, draft.key) ==> reply == Failure(RunUnavailable))
      && (ValidDraft(draft) && Answered(hashes, env.check, draft.key) && !Kept(hashes, env.check, draft.key) ==>
          reply == Success(Snapshot(current.generation, current.items)))
      && (ValidDraft(draft) && Kept(hashes, env.check, draft.key) ==>
          && (forall listed :: listed in current.items && listed.key == draft.key ==>
              Settles(current, reply, env.fault,
                      Card(draft, if LocalParkKey(hashes, draft.key) then listed.createdAtMs else draft.createdAtMs, listed.eligible)))
          && (!Listed(current, draft.key) ==>
              Settles(current, reply, env.fault, Card(draft, draft.createdAtMs, false))))
  {
    hide LoadOutcome, Represents, ValidDraft, Answered, Kept, LocalParkResolution, UpsertChange, Settles, LocalParkKey;
    LoadedUnique(hashes, state, inbox, env);
    ResolutionMeans(hashes, env.check, draft.key);
    KeptIsAnswered(hashes, env.check, draft.key);
    var loaded := LoadOutcome(hashes, state, env);
    var current := loaded.reply.value;
    if ValidDraft(draft) && Kept(hashes, env.check, draft.key) {
      FinishSettles(hashes, loaded.writes, current, draft, env.fault);
    }
  }

  lemma FinishSettles(hashes: Hashes, writes: seq<AttentionWrite>, current: State, draft: Draft, fault: PersistFault)
    requires KeyUnique(current.items) && current.generation <= MAX_U64
    ensures var reply := Finish(writes, current, UpsertChange(hashes, current, draft), Upserted(draft), fault).reply;
      && reply != Failure(InvalidInput)
      && (forall listed :: listed in current.items && listed.key == draft.key ==>
          Settles(current, reply, fault,
                  Card(draft, if LocalParkKey(hashes, draft.key) then listed.createdAtMs else draft.createdAtMs, listed.eligible)))
      && (!Listed(current, draft.key) ==> Settles(current, reply, fault, Card(draft, draft.createdAtMs, false)))
  {
    hide KeyUnique, Shows, SortItems;
    var index := IndexOf(current.items, draft.key);
    if index == -1 {
      var card := Card(draft, draft.createdAtMs, false);
      AppendedShows(current.items, card);
      SortedShows(current.items, current.items + [card], card);
    } else {
      var listed := current.items[index];
      forall other | other in current.items && other.key == draft.key ensures other == listed {
        ListedOnce(current.items, other);
      }
      var created := if LocalParkKey(hashes, draft.key) then listed.createdAtMs else draft.createdAtMs;
      var card := Card(draft, created, listed.eligible);
      if card in current.items {
        ListedOnce(current.items, card);
        ShowsItself(current.items, card);
      } else {
        ReplacedShows(current.items, index, card);
        SortedShows(current.items, current.items[index := card], card);
        assert listed != card;
      }
    }
  }

  /** Setting eligibility changes that of the one condition under this key, and nothing else. */
  lemma SetEligibleMeans(hashes: Hashes, state: State, inbox: map<Key, Item>, key: Key, eligible: bool, env: Env)
    requires Represents(state, inbox) && LoadOutcome(hashes, state, env).reply.Success?
    ensures var current := LoadOutcome(hashes, state, env).reply.value;
      var reply := OperationOutcome(hashes, state, SetEligible(key, eligible), env).reply;
      && (reply == Failure(InvalidInput) <==> !ValidKey(key))
      && (reply == Failure(NotFound) <==> ValidKey(key) && !Listed(current, key))
      && (ValidKey(key) ==> forall listed :: listed in current.items && listed.key == key ==>
          Settles(current, reply, env.fault, listed.(eligible := eligible)))
  {
    hide LoadOutcome, Represents, ValidKey, KeyUnique, Shows;
    LoadedUnique(hashes, state, inbox, env);
    var loaded := LoadOutcome(hashes, state, env);
    var current := loaded.reply.value;
    var index := IndexOf(current.items, key);
    if ValidKey(key) && index != -1 {
      var item := current.items[index];
      forall listed | listed in current.items && listed.key == key ensures listed == item {
        ListedOnce(current.items, listed);
      }
      var card := item.(eligible := eligible);
      if card in current.items {
        ListedOnce(current.items, card);
        ShowsItself(current.items, card);
      } else {
        ReplacedShows(current.items, index, card);
      }
    }
  }

  /** The conditions a clearing call names. */
  predicate Clears(operation: Operation, key: Key) {
    match operation
    case Clear(named) => key == named
    case ClearSessionKind(id, kind) => key.subjectKind == Session && key.subjectId == id && key.kind == kind
    case ClearSession(id) => key.subjectKind == Session && key.subjectId == id
    case _ => false
  }

  predicate ValidNames(operation: Operation) {
    match operation
    case Clear(key) => ValidKey(key)
    case ClearSessionKind(id, _) => ValidSubjectId(id)
    case ClearSession(id) => ValidSubjectId(id)
    case _ => true
  }

  /** After a successful load a clearing call drops exactly the conditions it names; one that drops nothing
      succeeds without storing anything. */
  lemma ClearMeans(hashes: Hashes, state: State, inbox: map<Key, Item>, operation: Operation, env: Env)
    requires operation.Clear? || operation.ClearSessionKind? || operation.ClearSession?
    requires Represents(state, inbox) && LoadOutcome(hashes, state, env).reply.Success?
    ensures var current := LoadOutcome(hashes, state, env).reply.value;
      var reply := OperationOutcome(hashes, state, operation, env).reply;
      var idle := forall item :: item in current.items ==> !Clears(operation, item.key);
      && (reply == Failure(InvalidInput) <==> !ValidNames(operation))
      && (ValidNames(operation) ==>
          && (reply.Success? <==> idle || (current.generation < MAX_U64 && env.fault == Synced))
          && (reply.Failure? ==> reply.error == StoreError(current))
          && (reply.Success? ==>
              && (forall item :: item in reply.value.items <==> item in current.items && !Clears(operation, item.key))
              && reply.value.generation == current.generation + (if idle then 0 else 1)))
  {
    hide LoadOutcome, ValidKey, ValidSubjectId, RemoveOutcome, Represents, Sorted, KeyUnique;
    LoadedUnique(hashes, state, inbox, env);
    match operation {
      case Clear(key) => RemovalMeans(hashes, state, ValidKey(key), NotKeyed(key), Cleared(key), env);
      case ClearSessionKind(id, kind) =>
        RemovalMeans(hashes, state, ValidSubjectId(id), NotSessionKind(id, kind), SessionKindCleared(id, kind), env);
      case ClearSession(id) =>
        RemovalMeans(hashes, state, ValidSubjectId(id), NotSubject(Session, id), SessionCleared(id), env);
    }
  }

  lemma RemovalMeans(hashes: Hashes, state: State, valid: bool, keep: Item -> bool, cause: Cause, env: Env)
    requires LoadOutcome(hashes, state, env).reply.Success?
    requires LoadOutcome(hashes, state, env).reply.value.generation <= MAX_U64
    ensures var current := LoadOutcome(hashes, state, env).reply.value;
      var reply := RemoveOutcome(hashes, state, valid, keep, cause, env).reply;
      var idle := forall item :: item in current.items ==> keep(item);
      && (reply == Failure(InvalidInput) <==> !valid)
      && (valid ==>
          && (reply.Success? <==> idle || (current.generation < MAX_U64 && env.fault == Synced))
          && (reply.Failure? ==> reply.error == StoreError(current))
          && (reply.Success? ==>
              && (forall item :: item in reply.value.items <==> item in current.items && keep(item))
              && reply.value.generation == current.generation + (if idle then 0 else 1)))
  {
    hide LoadOutcome;
    var current := LoadOutcome(hashes, state, env).reply.value;
    if |Retain(current.items, keep)| == |current.items| {
      RetainSameLength(current.items, keep);
    } else if forall item :: item in current.items ==> keep(item) {
      RetainEverything(current.items, keep);
    }
  }

  /** A call whose load fails answers that failure, or that its own input is invalid, and writes nothing more. */
  lemma FailedLoadEnds(hashes: Hashes, state: State, operation: Operation, env: Env)
    requires LoadOutcome(hashes, state, env).reply.Failure?
    ensures var loaded := LoadOutcome(hashes, state, env);
      OperationOutcome(hashes, state, operation, env) ==
        if (operation.Upsert? && !ValidDraft(operation.draft))
          || (operation.SetEligible? && !ValidKey(operation.key)) || !ValidNames(operation)
        then Outcome([], Failure(InvalidInput))
        else Outcome(loaded.writes, Failure(loaded.reply.error))
  {
    hide LoadOutcome, ValidDraft, ValidKey, ValidSubjectId;
  }

  // ----- ordered projection -----

  ghost predicate Projects(before: seq<Item>, after: seq<Item>, change: Change) {
    match change
    case UpsertCondition(draft) => Shows(before, after, Card(draft, draft.createdAtMs, true))
    case ClearCondition(key) => forall item :: item in after <==> item in before && item.key != key
    case ClearSubject(kind, id) =>
      forall item :: item in after <==> item in before && !(item.key.subjectKind == kind && item.key.subjectId == id)
  }

  /** After a successful load the next entry in order stores its change, its sequence and its digest as one
      new generation, an earlier or repeated one stores what was there, and each succeeds exactly when that
      store completes. A projected condition is eligible and dated by its draft. */
  lemma ProjectMeans(hashes: Hashes, state: State, inbox: map<Key, Item>, projection: Projection, env: Env)
    requires Represents(state, inbox) && LoadOutcome(hashes, state, env).reply.Success?
    requires ValidProjection(projection)
    ensures var current := LoadOutcome(hashes, state, env).reply.value;
      var outcome := ProjectOutcome(hashes, state, projection, env);
      var cursor := Cursor(projection.sequence, LowerHex(hashes.projectionDigest(projection)));
      var stale := projection.sequence < state.Sequence() || state.cursor == Some(cursor);
      var next := projection.sequence == state.Sequence() + 1 && state.Sequence() != MAX_U64 && current.generation < MAX_U64;
      && (outcome.reply.Success? <==> (stale || next) && env.fault == Synced)
      && (stale || next ==>
          && outcome.writes != []
          && var last := outcome.writes[|outcome.writes| - 1];
             && last.fault == env.fault
             && (stale ==> last.state == current)
             && (next ==>
                 && last.state.cursor == Some(cursor)
                 && last.state.generation == current.generation + 1
                 && Projects(current.items, last.state.items, projection.change)))
      && (!stale && !next ==> outcome.writes == LoadOutcome(hashes, state, env).writes)
      && ((stale || next) && outcome.reply.Failure? ==> outcome.reply == Failure(Storage))
  {
    hide LoadOutcome, Represents, ValidProjection, ApplyChange, SortItems, Projects, KeyUnique, Sorted;
    LoadedUnique(hashes, state, inbox, env);
    LoadRefines(hashes, state, inbox, env);
    LoadedCursor(hashes, state, inbox, env.facts, LoadOutcome(hashes, state, env));
    CursorStarts(state, inbox, projection);
    hide Loaded;
    var loaded := LoadOutcome(hashes, state, env);
    ChangeProjects(loaded.reply.value.items, projection.change);
    SequencesMean(state, loaded.reply.value, projection, DigestText(hashes, projection));
    if projection.sequence <= state.Sequence() {
      StaleMeans(hashes, state, projection, env);
    } else {
      NextMeans(hashes, state, projection, env);
    }
  }

  lemma SequencesMean(state: State, current: State, projection: Projection, digest: string)
    requires current.cursor == state.cursor && 0 < projection.sequence
    ensures current.Sequence() == state.Sequence()
    ensures state.cursor == Some(Cursor(projection.sequence, digest)) <==>
      projection.sequence == state.Sequence() && state.cursor.value.digest == digest
  {
  }

  lemma StaleMeans(hashes: Hashes, state: State, projection: Projection, env: Env)
    requires LoadOutcome(hashes, state, env).reply.Success? && ValidProjection(projection)
    requires var current := LoadOutcome(hashes, state, env).reply.value;
      current.Sequence() == state.Sequence() && current.cursor == state.cursor
    requires projection.sequence <= state.Sequence()
    ensures var loaded := LoadOutcome(hashes, state, env);
      var outcome := ProjectOutcome(hashes, state, projection, env);
      if projection.sequence == state.Sequence() && state.cursor.Some?
         && state.cursor.value.digest != LowerHex(hashes.projectionDigest(projection))
      then outcome.writes == loaded.writes && outcome.reply.Failure?
      else
        && outcome.writes == loaded.writes + [Write(loaded.reply.value, Reaffirmed, env.fault)]
        && (outcome.reply.Success? <==> env.fault == Synced)
        && (outcome.reply.Failure? ==> outcome.reply == Failure(Storage))
  {
    hide LoadOutcome, ValidProjection, ApplyChange, SortItems, State.Sequence;
  }

  lemma NextMeans(hashes: Hashes, state: State, projection: Projection, env: Env)
    requires LoadOutcome(hashes, state, env).reply.Success? && ValidProjection(projection)
    requires var current := LoadOutcome(hashes, state, env).reply.value;
      current.Sequence() == state.Sequence() && current.cursor == state.cursor && current.generation <= MAX_U64
    requires state.Sequence() < projection.sequence
    ensures var loaded := LoadOutcome(hashes, state, env);
      var current := loaded.reply.value;
      var outcome := ProjectOutcome(hashes, state, projection, env);
      if projection.sequence == state.Sequence() + 1 && state.Sequence() != MAX_U64 && current.generation < MAX_U64
      then
        && outcome.writes == loaded.writes + [Write(State(
             current.schemaVersion, current.generation + 1, SortItems(ApplyChange(current.items, projection.change)),
             Some(Cursor(projection.sequence, LowerHex(hashes.projectionDigest(projection))))),
             Projected(projection), env.fault)]
        && (outcome.reply.Success? <==> env.fault == Synced)
        && (outcome.reply.Failure? ==> outcome.reply == Failure(Storage))
      else outcome.writes == loaded.writes && outcome.reply.Failure?
  {
    hide LoadOutcome, ValidProjection, ApplyChange, SortItems, State.Sequence;
    var loaded := LoadOutcome(hashes, state, env);
    assert loaded.writes + [] == loaded.writes;
  }

  /** A valid entry whose load fails is answered that failure, with nothing written for itself. */
  lemma FailedLoadEndsProjection(hashes: Hashes, state: State, projection: Projection, env: Env)
    requires LoadOutcome(hashes, state, env).reply.Failure? && ValidProjection(projection)
    ensures var loaded := LoadOutcome(hashes, state, env);
      ProjectOutcome(hashes, state, projection, env) == Outcome(loaded.writes, Failure(loaded.reply.error))
  {
    hide LoadOutcome, ValidProjection;
  }

  lemma CursorStarts(state: State, inbox: map<Key, Item>, projection: Projection)
    requires Represents(state, inbox) && ValidProjection(projection)
    ensures 0 < projection.sequence && (state.cursor.Some? ==> 0 < state.cursor.value.sequence)
    ensures 0 < state.Sequence() <==> state.cursor.Some?
  {
    hide Lists, ListingAccepted, ValidItem, ValidDraft, ValidKey, ValidSubjectId, IsDigestText;
  }

  lemma ChangeProjects(items: seq<Item>, change: Change)
    requires KeyUnique(items)
    ensures Projects(items, SortItems(ApplyChange(items, change)), change)
  {
    hide KeyUnique, Shows;
    SortMembers(ApplyChange(items, change));
    if change.UpsertCondition? {
      var draft := change.attention;
      var card := Card(draft, draft.createdAtMs, true);
      var index := IndexOf(items, draft.key);
      if 0 <= index { ReplacedShows(items, index, card); } else { AppendedShows(items, card); }
      SortedShows(items, ApplyChange(items, change), card);
    }
  }

  // ----- order -----

  /** A listing shows earlier conditions first; those of one time go by subject kind, then by subject. */
  lemma ListingOrder(items: seq<Item>, i: nat, j: nat)
    requires Sorted(items) && i < j < |items|
    ensures items[i].createdAtMs <= items[j].createdAtMs
    ensures items[i].createdAtMs == items[j].createdAtMs ==>
      && items[i].key.subjectKind.Rank() <= items[j].key.subjectKind.Rank()
      && (items[i].key.subjectKind == items[j].key.subjectKind && items[i].key.subjectId == items[j].key.subjectId ==>
          items[i].key.kind.Rank() <= items[j].key.kind.Rank())
  {
    assert !CompareItems(items[i], items[j]).Greater?;
    CompareTextLaws(items[i].key.subjectId, items[j].key.subjectId, items[i].key.subjectId);
  }
}
