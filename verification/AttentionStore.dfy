/**
 The store itself: calls that load, edit and replace the file in place.

 Each method is proved against its outcome in `AttentionOps`, so the refinement and run
 theorems are about these bodies.
 */
module AttentionStores {
  import opened Integers
  import opened Results
  import opened Disk
  import opened Hex
  import opened AttentionModel
  import opened AttentionListing
  import opened AttentionOps

  class AttentionStore {
    const hashes: Hashes
    var disk: Disk<State>

    constructor (hashes: Hashes)
      ensures this.hashes == hashes && disk == Disk(EMPTY, [])
    {
      this.hashes := hashes;
      disk := Disk(EMPTY, []);
    }

    /** Rename over the file, then sync the directory. */
    method Persist(state: State, fault: PersistFault) returns (done: bool)
      modifies this
      ensures disk == old(disk).Persist(state, fault)
      ensures done <==> fault == Synced
    {
      if fault == RenameFailed {
        return false;
      }
      disk := Disk(disk.durable, disk.renamed + [state]);
      if fault == SyncFailed {
        return false;
      }
      disk := Disk(disk.Visible(), []);
      return true;
    }

    /** Drain the items, keeping those whose Run is not resolved; any failed lookup stops here. */
    method DrainResolved(items: seq<Item>, facts: RunFacts) returns (result: Result<seq<Item>, AttentionError>)
      ensures result == if LookupsSucceed(hashes, facts, items) then Success(Retain(items, Unsettled(hashes, facts)))
                        else Failure(RunUnavailable)
    {
      hide LocalParkResolution;
      var retained := [];
      for i := 0 to |items|
        invariant retained == Retain(items[..i], Unsettled(hashes, facts))
        invariant LookupsSucceed(hashes, facts, items[..i])
      {
        var resolution := LocalParkResolution(hashes, facts, items[i].key);
        if resolution == Unknown {
          assert items[i] in items;
          return Failure(RunUnavailable);
        }
        assert items[..i + 1][..i] == items[..i];
        if resolution != Resolved {
          retained := retained + [items[i]];
        }
      }
      assert items[..|items|] == items;
      result := Success(retained);
    }

    method ReconcileLocalParks(state: State, env: Env) returns (result: Result<State, AttentionError>)
      requires ValidState(state)
      modifies this
      ensures var outcome := LoadOutcome(hashes, state, env);
        disk == PersistAll(old(disk), outcome.writes) && result == outcome.reply
    {
      hide ListingAccepted, ValidItem, LookupsSucceed, Retain, Commit;
      var previous := |state.items|;
      var drained := DrainResolved(state.items, env.facts);
      if drained.Failure? {
        return Failure(drained.error);
      }
      var next := state.(items := drained.value);
      if |next.items| == previous {
        return Success(next);
      }
      result := Advance(next, Reconciled(env.facts), env.loadFault);
    }

    /** Count one change and replace the file. */
    method Advance(state: State, ghost cause: Cause, fault: PersistFault) returns (result: Result<State, AttentionError>)
      modifies this
      ensures var outcome := Commit(state, cause, fault);
        disk == PersistAll(old(disk), outcome.writes) && result == outcome.reply
    {
      if state.generation == MAX_U64 {
        return Failure(GenerationOverflow);
      }
      var next := state.(generation := state.generation + 1);
      ghost var writes: seq<AttentionWrite> := [Write(next, cause, fault)];
      assert writes[1..] == [];
      assert PersistAll(disk, writes) == disk.Persist(next, fault);
      var done := Persist(next, fault);
      result := if done then Success(next) else Failure(Storage);
    }

    method Load(env: Env) returns (result: Result<State, AttentionError>)
      modifies this
      ensures var outcome := LoadOutcome(hashes, old(disk).Visible(), env);
        disk == PersistAll(old(disk), outcome.writes) && result == outcome.reply
    {
      var state := disk.Visible();
      if !ValidState(state) {
        return Failure(InvalidStored);
      }
      result := ReconcileLocalParks(state, env);
    }

    method FindItem(items: seq<Item>, key: Key) returns (index: int)
      ensures index == IndexOf(items, key)
    {
      index := 0;
      while index < |items| && items[index].key != key
        invariant 0 <= index <= |items|
        invariant forall i :: 0 <= i < index ==> items[i].key != key
      {
        index := index + 1;
      }
      if index == |items| {
        index := -1;
      }
    }

    method Read(env: Env) returns (reply: Result<Snapshot, AttentionError>)
      modifies this
      ensures var outcome := OperationOutcome(hashes, old(disk).Visible(), Operation.Read, env);
        disk == PersistAll(old(disk), outcome.writes) && reply == outcome.reply
    {
      var loaded := Load(env);
      reply := SnapshotOf(loaded);
    }

    method Upsert(draft: Draft, env: Env) returns (reply: Result<Snapshot, AttentionError>)
      modifies this
      ensures var outcome := OperationOutcome(hashes, old(disk).Visible(), Operation.Upsert(draft), env);
        disk == PersistAll(old(disk), outcome.writes) && reply == outcome.reply
    {
      if !ValidDraft(draft) {
        return Failure(InvalidInput);
      }
      var loaded := Load(env);
      if loaded.Failure? {
        return Failure(loaded.error);
      }
      var state := loaded.value;
      var resolution := LocalParkResolution(hashes, env.check, draft.key);
      if resolution == Unknown {
        return Failure(RunUnavailable);
      }
      if resolution == Resolved {
        return SnapshotOf(loaded);
      }
      var item := ItemOf(draft, draft.createdAtMs, false);
      var index := FindItem(state.items, draft.key);
      if index == -1 {
        state := state.(items := state.items + [item]);
      } else {
        var current := state.items[index];
        if IsLocalPark(hashes, draft.key) {
          item := item.(createdAtMs := current.createdAtMs);
        }
        if SameContent(current, item) {
          return SnapshotOf(loaded);
        }
        state := state.(items := state.items[index := item.(eligible := current.eligible)]);
      }
      ghost var first := LoadOutcome(hashes, old(disk).Visible(), env).writes;
      state := state.(items := SortItems(state.items));
      ghost var second := Commit(state, Upserted(draft), env.fault).writes;
      PersistAllAppend(old(disk), first, second);
      var saved := Advance(state, Upserted(draft), env.fault);
      reply := SnapshotOf(saved);
    }

    method SetEligible(key: Key, eligible: bool, env: Env) returns (reply: Result<Snapshot, AttentionError>)
      modifies this
      ensures var outcome := OperationOutcome(hashes, old(disk).Visible(), Operation.SetEligible(key, eligible), env);
        disk == PersistAll(old(disk), outcome.writes) && reply == outcome.reply
    {
      if !ValidKey(key) {
        return Failure(InvalidInput);
      }
      var loaded := Load(env);
      if loaded.Failure? {
        return Failure(loaded.error);
      }
      var state := loaded.value;
      var index := FindItem(state.items, key);
      if index == -1 {
        return Failure(NotFound);
      }
      if state.items[index].eligible == eligible {
        return SnapshotOf(loaded);
      }
      ghost var first := LoadOutcome(hashes, old(disk).Visible(), env).writes;
      state := state.(items := state.items[index := state.items[index].(eligible := eligible)]);
      ghost var cause := EligibilitySet(key, eligible);
      PersistAllAppend(old(disk), first, Commit(state, cause, env.fault).writes);
      var saved := Advance(state, cause, env.fault);
      reply := SnapshotOf(saved);
    }

    /** The three clears differ only in what they keep. */
    method Remove(valid: bool, keep: Item -> bool, ghost cause: Cause, env: Env) returns (reply: Result<Snapshot, AttentionError>)
      modifies this
      ensures var outcome := RemoveOutcome(hashes, old(disk).Visible(), valid, keep, cause, env);
        disk == PersistAll(old(disk), outcome.writes) && reply == outcome.reply
    {
      if !valid {
        return Failure(InvalidInput);
      }
      var loaded := Load(env);
      if loaded.Failure? {
        return Failure(loaded.error);
      }
      var state := loaded.value;
      var previous := |state.items|;
      state := state.(items := Retain(state.items, keep));
      if |state.items| == previous {
        return SnapshotOf(loaded);
      }
      ghost var first := LoadOutcome(hashes, old(disk).Visible(), env).writes;
      PersistAllAppend(old(disk), first, Commit(state, cause, env.fault).writes);
      var saved := Advance(state, cause, env.fault);
      reply := SnapshotOf(saved);
    }

    method Clear(key: Key, env: Env) returns (reply: Result<Snapshot, AttentionError>)
      modifies this
      ensures var outcome := OperationOutcome(hashes, old(disk).Visible(), Operation.Clear(key), env);
        disk == PersistAll(old(disk), outcome.writes) && reply == outcome.reply
    {
      reply := Remove(ValidKey(key), NotKeyed(key), Cleared(key), env);
    }

    method ClearSessionKind(sessionId: string, kind: Kind, env: Env) returns (reply: Result<Snapshot, AttentionError>)
      modifies this
      ensures var outcome := OperationOutcome(hashes, old(disk).Visible(), Operation.ClearSessionKind(sessionId, kind), env);
        disk == PersistAll(old(disk), outcome.writes) && reply == outcome.reply
    {
      reply := Remove(ValidSubjectId(sessionId), NotSessionKind(sessionId, kind), SessionKindCleared(sessionId, kind), env);
    }

    method ClearSession(sessionId: string, env: Env) returns (reply: Result<Snapshot, AttentionError>)
      modifies this
      ensures var outcome := OperationOutcome(hashes, old(disk).Visible(), Operation.ClearSession(sessionId), env);
        disk == PersistAll(old(disk), outcome.writes) && reply == outcome.reply
    {
      reply := Remove(ValidSubjectId(sessionId), NotSubject(Session, sessionId), SessionCleared(sessionId), env);
    }

    /** Edit the item vector in place as one outbox entry asks. */
    method Apply(items: seq<Item>, change: Change) returns (result: seq<Item>)
      ensures result == ApplyChange(items, change)
    {
      match change {
        case UpsertCondition(attention) =>
          var item := ItemOf(attention, attention.createdAtMs, true);
          var index := FindItem(items, item.key);
          result := if index != -1 then items[index := item] else items + [item];
        case ClearCondition(key) => result := Retain(items, NotKeyed(key));
        case ClearSubject(subjectKind, subjectId) => result := Retain(items, NotSubject(subjectKind, subjectId));
      }
    }

    /** Apply one outbox entry together with the cursor, or re-establish durability for a stale one. */
    method Project(projection: Projection, env: Env) returns (reply: Result<ProjectionResult, AttentionError>)
      modifies this
      ensures var outcome := ProjectOutcome(hashes, old(disk).Visible(), projection, env);
        disk == PersistAll(old(disk), outcome.writes) && reply == outcome.reply
    {
      if !ValidProjection(projection) {
        return Failure(InvalidInput);
      }
      var digest := EncodeLowerHex(hashes.projectionDigest(projection));
      var loaded := Load(env);
      if loaded.Failure? {
        return Failure(loaded.error);
      }
      var state := loaded.value;
      ghost var first := LoadOutcome(hashes, old(disk).Visible(), env).writes;
      var previous := state.Sequence();
      if projection.sequence <= previous {
        if projection.sequence == previous && state.cursor.Some? && state.cursor.value.digest != digest {
          return Failure(SequenceConflict);
        }
        ghost var second := Save(state, Reaffirmed, env.fault).writes;
        PersistAllAppend(old(disk), first, second);
        assert second[1..] == [];
        assert PersistAll(disk, second) == disk.Persist(state, env.fault);
        var done := Persist(state, env.fault);
        return if done then Success(ProjectionResult(projection.sequence, digest, false)) else Failure(Storage);
      }
      if previous == MAX_U64 || previous + 1 != projection.sequence {
        return Failure(SequenceGap);
      }
      var items := Apply(state.items, projection.change);
      state := state.(items := SortItems(items), cursor := Some(Cursor(projection.sequence, digest)));
      PersistAllAppend(old(disk), first, Commit(state, Projected(projection), env.fault).writes);
      var saved := Advance(state, Projected(projection), env.fault);
      reply := Acknowledge(saved, ProjectionResult(projection.sequence, digest, true));
    }
  }
}
