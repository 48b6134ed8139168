/**
 Whole runs of the Attention store: an at-least-once broker, local callers, faults and power loss.

 The broker always offers its lowest unacknowledged outbox entry. Copies of an offer may be
 delivered any number of times, in any order, at any later moment, and a reply may be lost or
 arrive late. A process crash is a call whose write fails and whose reply is lost.
 */
module AttentionRuns {
  import opened Integers
  import opened Results
  import opened Disk
  import opened AttentionModel
  import opened AttentionListing
  import opened AttentionOps
  import opened AttentionRefinement

  /** A stored state with the causes that produced it. */
  datatype Traced = Traced(state: State, history: seq<Cause>)

  type TracedDisk = Disk<Traced>

  function Record(disk: TracedDisk, writes: seq<AttentionWrite>): TracedDisk
    decreases |writes|
  {
    if writes == [] then disk
    else
      var next := Traced(writes[0].state, disk.Visible().history + [writes[0].cause]);
      Record(disk.Persist(next, writes[0].fault), writes[1..])
  }

  function StatesOf(traced: seq<Traced>): seq<State> {
    seq(|traced|, i requires 0 <= i < |traced| => traced[i].state)
  }

  /** The traced disk without its histories. */
  function Plain(disk: TracedDisk): Disk<State> {
    Disk(disk.durable.state, StatesOf(disk.renamed))
  }

  /** Tracing observes the disk without changing it. */
  lemma {:induction false} RecordIsPersist(disk: TracedDisk, writes: seq<AttentionWrite>)
    ensures Plain(Record(disk, writes)) == PersistAll(Plain(disk), writes)
    ensures Plain(disk).Visible() == disk.Visible().state
    decreases |writes|
  {
    if writes != [] {
      var next := Traced(writes[0].state, disk.Visible().history + [writes[0].cause]);
      var stored := disk.Persist(next, writes[0].fault);
      assert Plain(stored) == Plain(disk).Persist(writes[0].state, writes[0].fault);
      RecordIsPersist(stored, writes[1..]);
    }
  }

  // ----- the system -----

  datatype System = System(disk: TracedDisk, sent: set<nat>, replies: set<nat>, acked: nat)

  datatype Action =
    | Offer
    | Deliver(sequence: nat, env: Env)
    | ReceiveReply(sequence: nat)
    | Local(operation: Operation, env: Env)
    | LosePower(choice: nat)

  const INITIAL := System(Disk(Traced(EMPTY, []), []), {}, {}, 0)

  function Step(hashes: Hashes, outbox: nat -> Change, system: System, action: Action): System {
    match action
    case Offer =>
      if system.acked < MAX_U64 then system.(sent := system.sent + {system.acked + 1}) else system
    case Deliver(sequence, env) =>
      if sequence !in system.sent then system
      else
        var outcome := ProjectOutcome(hashes, system.disk.Visible().state, Projection(sequence, outbox(sequence)), env);
        system.(disk := Record(system.disk, outcome.writes),
                replies := if outcome.reply.Success? then system.replies + {outcome.reply.value.sequence}
                           else system.replies)
    case ReceiveReply(sequence) =>
      if sequence in system.replies && system.acked < sequence then system.(acked := sequence) else system
    case Local(operation, env) =>
      var outcome := OperationOutcome(hashes, system.disk.Visible().state, operation, env);
      system.(disk := Record(system.disk, outcome.writes))
    case LosePower(choice) => system.(disk := system.disk.AfterPowerLoss(choice))
  }

  function Run(hashes: Hashes, outbox: nat -> Change, system: System, actions: seq<Action>): System
    decreases |actions|
  {
    if actions == [] then system
    else Run(hashes, outbox, Step(hashes, outbox, system, actions[0]), actions[1..])
  }

  // ----- invariant -----

  function Entries(history: seq<Cause>): seq<Projection> {
    if history == [] then []
    else
      var last := history[|history| - 1];
      Entries(history[..|history| - 1]) + (if last.Projected? then [last.projection] else [])
  }

  /** The history holds outbox entries 1..cursor, each once and in order, and nothing else of the broker's. */
  ghost predicate FollowsOutbox(hashes: Hashes, outbox: nat -> Change, traced: Traced) {
    var entries := Entries(traced.history);
    && |entries| == traced.state.Sequence()
    && (forall i :: 0 <= i < |entries| ==> entries[i] == Projection(i + 1, outbox(i + 1)))
    && (traced.state.cursor.Some? ==>
        traced.state.cursor.value.digest ==
        DigestText(hashes, Projection(traced.state.Sequence(), outbox(traced.state.Sequence()))))
  }

  /** The items are the canonical listing of the replayed history. */
  ghost predicate Faithful(hashes: Hashes, outbox: nat -> Change, traced: Traced) {
    Represents(traced.state, Replay(hashes, traced.history)) && FollowsOutbox(hashes, outbox, traced)
  }

  /** Later replacements carry a later generation, or are the same state again. */
  predicate NoOlder(earlier: State, later: State) {
    && earlier.generation <= later.generation
    && earlier.Sequence() <= later.Sequence()
    && (earlier.generation == later.generation ==> earlier == later)
  }

  ghost predicate GoodDisk(hashes: Hashes, outbox: nat -> Change, disk: TracedDisk, bound: nat) {
    var states := disk.Candidates();
    && (forall i :: 0 <= i < |states| ==> Faithful(hashes, outbox, states[i]))
    && (forall i, j :: 0 <= i < j < |states| ==> NoOlder(states[i].state, states[j].state))
    && (forall i :: 0 <= i < |states| ==> states[i].state.Sequence() <= bound)
  }

  ghost predicate Inv(hashes: Hashes, outbox: nat -> Change, system: System) {
    && GoodDisk(hashes, outbox, system.disk, system.acked + 1)
    && system.acked <= system.disk.durable.state.Sequence()
    && (forall reply :: reply in system.replies ==> reply <= system.disk.durable.state.Sequence())
    && (forall sequence :: sequence in system.sent ==> 0 < sequence <= system.acked + 1 && sequence <= MAX_U64)
  }

  lemma VisibleIsCandidate(disk: TracedDisk)
    ensures disk.Visible() == disk.Candidates()[|disk.Candidates()| - 1]
  {
  }

  lemma ReplayAppend(hashes: Hashes, history: seq<Cause>, cause: Cause)
    ensures Replay(hashes, history + [cause]) == Replay1(hashes, Replay(hashes, history), cause)
    ensures Entries(history + [cause]) == Entries(history) + (if cause.Projected? then [cause.projection] else [])
  {
    assert (history + [cause])[..|history|] == history;
  }

  /** A successor of a faithful state is faithful. */
  lemma SuccessorIsFaithful(hashes: Hashes, outbox: nat -> Change, traced: Traced, write: AttentionWrite)
    requires Faithful(hashes, outbox, traced)
    requires Successor(hashes, traced.state, Replay(hashes, traced.history), write)
    requires write.cause.Projected? ==>
      write.cause.projection == Projection(write.cause.projection.sequence, outbox(write.cause.projection.sequence))
    ensures Faithful(hashes, outbox, Traced(write.state, traced.history + [write.cause]))
    ensures NoOlder(traced.state, write.state)
    ensures !write.cause.Projected? ==> write.state.Sequence() == traced.state.Sequence()
    ensures write.cause.Projected? ==> write.state.Sequence() == write.cause.projection.sequence
  {
    hide Represents, Replay1, Replay, Entries, DigestText;
    ReplayAppend(hashes, traced.history, write.cause);
  }

  /** One replacement keeps every state a power loss could leave good. */
  lemma RecordOne(hashes: Hashes, outbox: nat -> Change, disk: TracedDisk, bound: nat, write: AttentionWrite)
    requires GoodDisk(hashes, outbox, disk, bound)
    requires var visible := disk.Visible(); Successor(hashes, visible.state, Replay(hashes, visible.history), write)
    requires write.cause.Projected? ==>
      && write.cause.projection.sequence <= bound
      && write.cause.projection == Projection(write.cause.projection.sequence, outbox(write.cause.projection.sequence))
    ensures var next := Record(disk, [write]);
      && GoodDisk(hashes, outbox, next, bound)
      && NoOlder(disk.durable.state, next.durable.state)
      && NoOlder(disk.Visible().state, next.Visible().state)
      && next.Visible().state.generation <= disk.Visible().state.generation + 1
      && (write.fault == Synced ==> next.durable == next.Visible() && next.Visible().state == write.state)
  {
    hide Faithful, Replay, Successor;
    var visible := disk.Visible();
    var traced := Traced(write.state, visible.history + [write.cause]);
    VisibleIsCandidate(disk);
    assert Faithful(hashes, outbox, visible);
    SuccessorIsFaithful(hashes, outbox, visible, write);
    SuccessorGeneration(hashes, visible.state, Replay(hashes, visible.history), write);
    var states := disk.Candidates();
    var next := disk.Persist(traced, write.fault);
    assert Record(disk, [write]) == next by { assert [write][1..] == []; }
    if write.fault == SyncFailed {
      assert next.Candidates() == states + [traced];
      forall i | 0 <= i < |states| ensures NoOlder(states[i].state, write.state) {
        if i < |states| - 1 { assert NoOlder(states[i].state, states[|states| - 1].state); }
      }
    } else if write.fault == Synced {
      if |states| > 1 { assert NoOlder(states[0].state, states[|states| - 1].state); }
    }
  }

  lemma SuccessorGeneration(hashes: Hashes, state: State, inbox: map<Key, Item>, write: AttentionWrite)
    requires Successor(hashes, state, inbox, write)
    ensures write.state.generation <= state.generation + 1
  {
    hide Represents, Replay1;
  }

  /** A call's whole chain keeps the disk good, and advances the visible generation at most once a write. */
  lemma {:induction false} RecordChain(hashes: Hashes, outbox: nat -> Change, disk: TracedDisk, bound: nat, writes: seq<AttentionWrite>)
    requires GoodDisk(hashes, outbox, disk, bound)
    requires Chain(hashes, disk.Visible().state, Replay(hashes, disk.Visible().history), writes)
    requires forall write :: write in writes && write.cause.Projected? ==>
      && write.cause.projection.sequence <= bound
      && write.cause.projection == Projection(write.cause.projection.sequence, outbox(write.cause.projection.sequence))
    ensures var next := Record(disk, writes);
      && GoodDisk(hashes, outbox, next, bound)
      && NoOlder(disk.durable.state, next.durable.state)
      && NoOlder(disk.Visible().state, next.Visible().state)
      && next.Visible().state.generation <= disk.Visible().state.generation + |writes|
      && (writes != [] && writes[|writes| - 1].fault == Synced ==>
          next.durable == next.Visible() && next.Visible().state == writes[|writes| - 1].state)
    decreases |writes|
  {
    hide GoodDisk, Successor, Replay1, Replay;
    if writes != [] {
      assert writes[0] in writes;
      RecordOne(hashes, outbox, disk, bound, writes[0]);
      var visible := disk.Visible();
      var traced := Traced(writes[0].state, visible.history + [writes[0].cause]);
      var next := disk.Persist(traced, writes[0].fault);
      assert Record(disk, [writes[0]]) == next by { assert [writes[0]][1..] == []; }
      ReplayAppend(hashes, visible.history, writes[0].cause);
      if |writes| == 1 {
        assert writes == [writes[0]];
      } else {
        RecordChain(hashes, outbox, next, bound, writes[1..]);
        NoOlderTransitive(disk.durable.state, next.durable.state, Record(disk, writes).durable.state);
        NoOlderTransitive(visible.state, next.Visible().state, Record(disk, writes).Visible().state);
      }
    }
  }

  lemma NoOlderTransitive(a: State, b: State, c: State)
    requires NoOlder(a, b) && NoOlder(b, c)
    ensures NoOlder(a, c)
  {
  }

  // ----- steps -----

  lemma DeliverStep(hashes: Hashes, outbox: nat -> Change, system: System, sequence: nat, env: Env)
    requires Inv(hashes, outbox, system) && sequence in system.sent
    ensures var outcome := ProjectOutcome(hashes, system.disk.Visible().state, Projection(sequence, outbox(sequence)), env);
      var next := Record(system.disk, outcome.writes);
      && GoodDisk(hashes, outbox, next, system.acked + 1)
      && NoOlder(system.disk.durable.state, next.durable.state)
      && NoOlder(system.disk.Visible().state, next.Visible().state)
      && next.Visible().state.generation <= system.disk.Visible().state.generation + 2
      && (outcome.reply.Success? ==>
          outcome.reply.value.sequence == sequence && sequence <= next.durable.state.Sequence())
      && outcome.reply != Failure(SequenceGap) && outcome.reply != Failure(SequenceConflict)
      && outcome.reply != Failure(InvalidStored)
  {
    hide Represents, Chain, Replay, Replay1, Record, ProjectOutcome, DigestText, Entries;
    var visible := system.disk.Visible();
    var projection := Projection(sequence, outbox(sequence));
    VisibleIsCandidate(system.disk);
    var states := system.disk.Candidates();
    assert Faithful(hashes, outbox, states[|states| - 1]);
    assert visible.state.Sequence() <= system.acked + 1;
    if |states| > 1 { assert NoOlder(states[0].state, states[|states| - 1].state); }
    ProjectRefines(hashes, visible.state, Replay(hashes, visible.history), projection, env);
    ProjectRefusals(hashes, visible.state, Replay(hashes, visible.history), projection, env);
    var outcome := ProjectOutcome(hashes, visible.state, projection, env);
    RecordChain(hashes, outbox, system.disk, system.acked + 1, outcome.writes);
  }

  lemma LocalStep(hashes: Hashes, outbox: nat -> Change, disk: TracedDisk, bound: nat, operation: Operation, env: Env)
    requires GoodDisk(hashes, outbox, disk, bound)
    ensures var outcome := OperationOutcome(hashes, disk.Visible().state, operation, env);
      var next := Record(disk, outcome.writes);
      && GoodDisk(hashes, outbox, next, bound)
      && NoOlder(disk.durable.state, next.durable.state)
      && NoOlder(disk.Visible().state, next.Visible().state)
      && next.Visible().state.generation <= disk.Visible().state.generation + 2
      && outcome.reply != Failure(InvalidStored)
      && (outcome.reply.Success? ==>
          outcome.reply.value == Snapshot(next.Visible().state.generation, next.Visible().state.items))
  {
    hide Represents, Chain, Replay, Replay1, OperationOutcome, FollowsOutbox;
    var visible := disk.Visible();
    VisibleIsCandidate(disk);
    var states := disk.Candidates();
    assert Faithful(hashes, outbox, states[|states| - 1]);
    CallRefines(hashes, visible.state, Replay(hashes, visible.history), operation, env);
    RecordChain(hashes, outbox, disk, bound, OperationOutcome(hashes, visible.state, operation, env).writes);
  }

  lemma PowerLossStep(hashes: Hashes, outbox: nat -> Change, disk: TracedDisk, bound: nat, choice: nat)
    requires GoodDisk(hashes, outbox, disk, bound)
    ensures var next := disk.AfterPowerLoss(choice);
      && GoodDisk(hashes, outbox, next, bound)
      && NoOlder(disk.durable.state, next.durable.state)
      && NoOlder(next.Visible().state, disk.Visible().state)
  {
    hide Faithful;
    VisibleIsCandidate(disk);
    var states := disk.Candidates();
    if choice < |states| {
      if 0 < choice { assert NoOlder(states[0].state, states[choice].state); }
      if choice < |states| - 1 { assert NoOlder(states[choice].state, states[|states| - 1].state); }
    }
  }

  lemma StepKeepsInv(hashes: Hashes, outbox: nat -> Change, system: System, action: Action)
    requires Inv(hashes, outbox, system)
    ensures var next := Step(hashes, outbox, system, action);
      && Inv(hashes, outbox, next)
      && NoOlder(system.disk.durable.state, next.disk.durable.state)
      && (!action.LosePower? ==> NoOlder(system.disk.Visible().state, next.disk.Visible().state))
      && (!action.LosePower? ==>
          next.disk.Visible().state.generation <= system.disk.Visible().state.generation + 2)
      && system.replies <= next.replies && system.acked <= next.acked
  {
    hide Faithful, NoOlder, ProjectOutcome, OperationOutcome, Record;
    match action {
      case Offer =>
      case Deliver(sequence, env) =>
        if sequence in system.sent {
          DeliverStep(hashes, outbox, system, sequence, env);
          SequencesAscend(system, Step(hashes, outbox, system, action));
        }
      case ReceiveReply(sequence) =>
        WidenBound(hashes, outbox, system.disk, system.acked + 1, Step(hashes, outbox, system, action).acked + 1);
      case Local(operation, env) =>
        LocalStep(hashes, outbox, system.disk, system.acked + 1, operation, env);
        SequencesAscend(system, Step(hashes, outbox, system, action));
      case LosePower(choice) =>
        PowerLossStep(hashes, outbox, system.disk, system.acked + 1, choice);
        SequencesAscend(system, Step(hashes, outbox, system, action));
    }
    SelfNoOlder(system.disk.durable.state);
    SelfNoOlder(system.disk.Visible().state);
  }

  lemma SelfNoOlder(state: State)
    ensures NoOlder(state, state)
  {
  }

  lemma SequencesAscend(system: System, next: System)
    requires NoOlder(system.disk.durable.state, next.disk.durable.state)
    ensures system.disk.durable.state.Sequence() <= next.disk.durable.state.Sequence()
  {
  }

  lemma WidenBound(hashes: Hashes, outbox: nat -> Change, disk: TracedDisk, bound: nat, wider: nat)
    requires GoodDisk(hashes, outbox, disk, bound) && bound <= wider
    ensures GoodDisk(hashes, outbox, disk, wider)
  {
    hide Faithful;
  }

  lemma InitialInv(hashes: Hashes, outbox: nat -> Change)
    ensures Inv(hashes, outbox, INITIAL)
  {
    assert SortItems([]) == [];
    assert INITIAL.disk.Candidates() == [Traced(EMPTY, [])];
  }

  lemma {:induction false} RunKeepsInv(hashes: Hashes, outbox: nat -> Change, system: System, actions: seq<Action>)
    requires Inv(hashes, outbox, system)
    ensures var final := Run(hashes, outbox, system, actions);
      && Inv(hashes, outbox, final)
      && NoOlder(system.disk.durable.state, final.disk.durable.state)
      && system.replies <= final.replies && system.acked <= final.acked
    decreases |actions|
  {
    hide Inv, Step;
    if actions == [] {
      SelfNoOlder(system.disk.durable.state);
    } else {
      StepKeepsInv(hashes, outbox, system, actions[0]);
      var next := Step(hashes, outbox, system, actions[0]);
      RunKeepsInv(hashes, outbox, next, actions[1..]);
      NoOlderTransitive(system.disk.durable.state, next.disk.durable.state,
                        Run(hashes, outbox, next, actions[1..]).disk.durable.state);
    }
  }

  // ----- exactly once, in order -----

  function OutboxPrefix(outbox: nat -> Change, length: nat): seq<Projection> {
    seq(length, i requires 0 <= i < length => Projection(i + 1, outbox(i + 1)))
  }

  lemma Reachable(hashes: Hashes, outbox: nat -> Change, actions: seq<Action>)
    ensures Inv(hashes, outbox, Run(hashes, outbox, INITIAL, actions))
  {
    hide Inv, Run, INITIAL;
    InitialInv(hashes, outbox);
    RunKeepsInv(hashes, outbox, INITIAL, actions);
  }

  /** In every run the cursor is `acked` or `acked + 1`, and every state a power loss could leave
      lists exactly a history in which outbox entries 1..cursor each appear once, in order. */
  lemma ExactlyOnceInOrder(hashes: Hashes, outbox: nat -> Change, actions: seq<Action>)
    ensures var system := Run(hashes, outbox, INITIAL, actions);
      && system.acked <= system.disk.Visible().state.Sequence() <= system.acked + 1
      && forall traced :: traced in system.disk.Candidates() ==>
          && Lists(traced.state.items, Replay(hashes, traced.history))
          && ValidState(traced.state)
          && system.acked <= traced.state.Sequence()
          && Entries(traced.history) == OutboxPrefix(outbox, traced.state.Sequence())
  {
    Reachable(hashes, outbox, actions);
    hide Run, INITIAL;
    InvMeansInOrder(hashes, outbox, Run(hashes, outbox, INITIAL, actions));
  }

  lemma InvMeansInOrder(hashes: Hashes, outbox: nat -> Change, system: System)
    requires Inv(hashes, outbox, system)
    ensures system.acked <= system.disk.Visible().state.Sequence() <= system.acked + 1
    ensures forall traced :: traced in system.disk.Candidates() ==>
      && Lists(traced.state.items, Replay(hashes, traced.history))
      && ValidState(traced.state)
      && system.acked <= traced.state.Sequence()
      && Entries(traced.history) == OutboxPrefix(outbox, traced.state.Sequence())
  {
    hide Lists, ValidState, Replay, Entries, DigestText;
    var states := system.disk.Candidates();
    VisibleIsCandidate(system.disk);
    forall i | 0 <= i < |states| ensures system.acked <= states[i].state.Sequence() {
      if 0 < i { assert NoOlder(states[0].state, states[i].state); }
    }
    forall traced | traced in states
      ensures Entries(traced.history) == OutboxPrefix(outbox, traced.state.Sequence())
    {
      assert Faithful(hashes, outbox, traced);
    }
  }

  /** The broker's offers are never refused as a gap or a conflict, however often and late they
      arrive, and the stored state is never rejected by the load check. */
  lemma OffersAreNeverRefused(hashes: Hashes, outbox: nat -> Change, actions: seq<Action>, sequence: nat, env: Env)
    requires sequence in Run(hashes, outbox, INITIAL, actions).sent
    ensures var system := Run(hashes, outbox, INITIAL, actions);
      var reply := ProjectOutcome(hashes, system.disk.Visible().state, Projection(sequence, outbox(sequence)), env).reply;
      reply.Failure? ==> reply.error !in {SequenceGap, SequenceConflict, InvalidStored}
  {
    Reachable(hashes, outbox, actions);
    hide Run, INITIAL, ProjectOutcome, Inv, GoodDisk, NoOlder, Record;
    DeliverStep(hashes, outbox, Run(hashes, outbox, INITIAL, actions), sequence, env);
  }

  /** What one success reply acknowledges stays durable in every later state, whatever fails next;
      the durable cursor never moves back. */
  lemma AcknowledgedIsDurable(hashes: Hashes, outbox: nat -> Change, actions: seq<Action>, later: seq<Action>, reply: nat)
    ensures var system := Run(hashes, outbox, INITIAL, actions);
      var final := Run(hashes, outbox, system, later);
      && system.disk.durable.state.Sequence() <= final.disk.durable.state.Sequence()
      && (reply in system.replies ==>
          reply <= system.disk.durable.state.Sequence() &&
          forall traced :: traced in final.disk.Candidates() ==> reply <= traced.state.Sequence())
  {
    Reachable(hashes, outbox, actions);
    hide Run, Faithful;
    var system := Run(hashes, outbox, INITIAL, actions);
    RunKeepsInv(hashes, outbox, system, later);
    var states := Run(hashes, outbox, system, later).disk.Candidates();
    forall i | 0 < i < |states| ensures states[0].state.Sequence() <= states[i].state.Sequence() {
      assert NoOlder(states[0].state, states[i].state);
    }
  }

  /** From any reachable state, one undisturbed exchange of a valid entry is acknowledged, whatever Parks
      the load resolves on the way. */
  lemma CleanExchangeAdvances(hashes: Hashes, outbox: nat -> Change, actions: seq<Action>, facts: RunFacts)
    requires var system := Run(hashes, outbox, INITIAL, actions);
      && system.acked < MAX_U64
      && system.disk.Visible().state.generation + 2 <= MAX_U64
      && LookupsSucceed(hashes, facts, system.disk.Visible().state.items)
      && ValidProjection(Projection(system.acked + 1, outbox(system.acked + 1)))
    ensures var system := Run(hashes, outbox, INITIAL, actions);
      var sequence := system.acked + 1;
      Run(hashes, outbox, system, [Offer, Deliver(sequence, Env(facts, facts, Synced, Synced)), ReceiveReply(sequence)])
        .acked == sequence
  {
    Reachable(hashes, outbox, actions);
    var system := Run(hashes, outbox, INITIAL, actions);
    hide Run, INITIAL, ProjectOutcome, ValidProjection, LookupsSucceed;
    var sequence := system.acked + 1;
    var env := Env(facts, facts, Synced, Synced);
    ExchangeSteps(hashes, outbox, system, env);
    StepKeepsInv(hashes, outbox, system, Offer);
    var offered := Step(hashes, outbox, system, Offer);
    hide Inv, GoodDisk, NoOlder, Record;
    DeliverStep(hashes, outbox, offered, sequence, env);
    VisibleFacts(hashes, outbox, offered);
    CleanReply(hashes, offered.disk.Visible().state, Projection(sequence, outbox(sequence)), env);
  }

  lemma ExchangeSteps(hashes: Hashes, outbox: nat -> Change, system: System, env: Env)
    requires system.acked < MAX_U64
    ensures var sequence := system.acked + 1;
      var reply := ProjectOutcome(hashes, system.disk.Visible().state, Projection(sequence, outbox(sequence)), env).reply;
      reply.Success? && reply.value.sequence == sequence ==>
        Run(hashes, outbox, system, [Offer, Deliver(sequence, env), ReceiveReply(sequence)]).acked == sequence
  {
    hide ProjectOutcome, Record;
    var sequence := system.acked + 1;
    var steps := [Offer, Deliver(sequence, env), ReceiveReply(sequence)];
    var offered := Step(hashes, outbox, system, Offer);
    var delivered := Step(hashes, outbox, offered, Deliver(sequence, env));
    assert steps[1..] == [Deliver(sequence, env), ReceiveReply(sequence)];
    assert steps[1..][1..] == [ReceiveReply(sequence)];
    assert Run(hashes, outbox, delivered, steps[1..][1..]) ==
      Step(hashes, outbox, delivered, ReceiveReply(sequence)) by { assert steps[1..][1..][1..] == []; }
  }

  lemma VisibleFacts(hashes: Hashes, outbox: nat -> Change, system: System)
    requires Inv(hashes, outbox, system)
    ensures var state := system.disk.Visible().state;
      && ValidState(state)
      && state.Sequence() <= system.acked + 1
      && system.acked <= state.Sequence()
  {
    hide ValidState, Lists, Replay, FollowsOutbox;
    VisibleIsCandidate(system.disk);
    var states := system.disk.Candidates();
    assert Faithful(hashes, outbox, states[|states| - 1]);
    if |states| > 1 { assert NoOlder(states[0].state, states[|states| - 1].state); }
  }

  lemma CleanReply(hashes: Hashes, state: State, projection: Projection, env: Env)
    requires ValidState(state) && ValidProjection(projection)
    requires LookupsSucceed(hashes, env.facts, state.items) && env.loadFault == Synced && env.fault == Synced
    requires state.generation + 2 <= MAX_U64
    requires var reply := ProjectOutcome(hashes, state, projection, env).reply;
      reply != Failure(SequenceGap) && reply != Failure(SequenceConflict)
    ensures ProjectOutcome(hashes, state, projection, env).reply.Success?
  {
    hide ValidState, ValidProjection, ApplyChange, SortItems, DigestText, LookupsSucceed, Retain;
  }

  // ----- the generation is a version number -----

  /** No power loss along the run brings back an older generation. */
  ghost predicate NothingLost(hashes: Hashes, outbox: nat -> Change, system: System, actions: seq<Action>)
    decreases |actions|
  {
    actions != [] ==>
      var next := Step(hashes, outbox, system, actions[0]);
      && (actions[0].LosePower? ==>
          system.disk.Visible().state.generation <= next.disk.Visible().state.generation)
      && NothingLost(hashes, outbox, next, actions[1..])
  }

  /** Between any two moments of a run that lost nothing, the generation never decreases, an equal
      generation means the identical stored state, and one action advances it by at most two. */
  lemma GenerationIsVersion(hashes: Hashes, outbox: nat -> Change, actions: seq<Action>, later: seq<Action>)
    requires NothingLost(hashes, outbox, Run(hashes, outbox, INITIAL, actions), later)
    ensures var before := Run(hashes, outbox, INITIAL, actions);
      var earlier, final := before.disk.Visible().state, Run(hashes, outbox, before, later).disk.Visible().state;
      && earlier.generation <= final.generation <= earlier.generation + 2 * |later|
      && (earlier.generation == final.generation ==> earlier.items == final.items)
  {
    Reachable(hashes, outbox, actions);
    hide Inv, Run, INITIAL, NothingLost;
    VersionFrom(hashes, outbox, Run(hashes, outbox, INITIAL, actions), later);
  }

  lemma {:induction false} VersionFrom(hashes: Hashes, outbox: nat -> Change, system: System, actions: seq<Action>)
    requires Inv(hashes, outbox, system) && NothingLost(hashes, outbox, system, actions)
    ensures var earlier, final := system.disk.Visible().state, Run(hashes, outbox, system, actions).disk.Visible().state;
      NoOlder(earlier, final) && final.generation <= earlier.generation + 2 * |actions|
    decreases |actions|
  {
    hide Inv, Step;
    var earlier := system.disk.Visible().state;
    if actions == [] {
      SelfNoOlder(earlier);
    } else {
      var next := Step(hashes, outbox, system, actions[0]);
      StepKeepsInv(hashes, outbox, system, actions[0]);
      if actions[0].LosePower? { PowerLossRecoversOlder(hashes, outbox, system, actions[0].choice); }
      VersionFrom(hashes, outbox, next, actions[1..]);
      NoOlderTransitive(earlier, next.disk.Visible().state, Run(hashes, outbox, next, actions[1..]).disk.Visible().state);
    }
  }

  lemma PowerLossRecoversOlder(hashes: Hashes, outbox: nat -> Change, system: System, choice: nat)
    requires Inv(hashes, outbox, system)
    ensures var earlier := system.disk.Visible().state;
      var recovered := Step(hashes, outbox, system, LosePower(choice)).disk.Visible().state;
      && recovered.generation <= earlier.generation
      && (earlier.generation <= recovered.generation <==> recovered == earlier)
  {
    hide GoodDisk;
    PowerLossStep(hashes, outbox, system.disk, system.acked + 1, choice);
  }

  /** Whatever comes back, a power loss keeps the generation exactly while the durable state is the one
      readers see. */
  lemma PowerLossIsVersionIff(hashes: Hashes, outbox: nat -> Change, system: System)
    requires Inv(hashes, outbox, system)
    ensures (forall choice: nat ::
        system.disk.Visible().state.generation <= system.disk.AfterPowerLoss(choice).Visible().state.generation)
      <==> system.disk.durable.state == system.disk.Visible().state
  {
    hide Faithful;
    var states := system.disk.Candidates();
    VisibleIsCandidate(system.disk);
    if |states| > 1 { assert NoOlder(states[0].state, states[|states| - 1].state); }
    assert system.disk.AfterPowerLoss(0).Visible() == system.disk.durable;
    forall choice: nat ensures system.disk.durable.state.generation <= system.disk.AfterPowerLoss(choice).Visible().state.generation {
      if 0 < choice < |states| { assert NoOlder(states[0].state, states[choice].state); }
    }
  }

  /** Otherwise a generation can come to name two different inboxes: from every reachable state whose
      durable state lags behind, a power loss followed by calls about any condition new to both states
      leads back to the generation readers saw, with other items. */
  lemma PowerLossReusesGeneration(hashes: Hashes, outbox: nat -> Change, system: System, draft: Draft, facts: RunFacts)
      returns (actions: seq<Action>)
    requires Inv(hashes, outbox, system) && system.disk.durable.state != system.disk.Visible().state
    requires ValidDraft(draft) && !facts.supported
    requires IndexOf(system.disk.durable.state.items, draft.key) == -1
    requires IndexOf(system.disk.Visible().state.items, draft.key) == -1
    ensures var before := system.disk.Visible().state;
      var after := Run(hashes, outbox, system, [LosePower(0)] + actions).disk.Visible().state;
      before.generation == after.generation && before.items != after.items
  {
    var seen, kept := system.disk.Visible().state, system.disk.durable.state;
    var lost := Step(hashes, outbox, system, LosePower(0));
    var env := Env(facts, facts, Synced, Synced);
    LostState(hashes, outbox, system);
    StepKeepsInv(hashes, outbox, system, LosePower(0));
    hide Inv, Run, ValidDraft, IndexOf;
    UpsertNew(hashes, outbox, lost, draft, env);
    var upsert := Local(Upsert(draft), env);
    var changed := Step(hashes, outbox, lost, upsert);
    StepKeepsInv(hashes, outbox, lost, upsert);
    var rest := Climb(hashes, outbox, changed, draft.key, env, seen.generation - kept.generation - 1);
    actions := [upsert] + rest;
    RunFirst(hashes, outbox, lost, upsert, rest);
    RunFirst(hashes, outbox, system, LosePower(0), actions);
  }

  lemma RunFirst(hashes: Hashes, outbox: nat -> Change, system: System, action: Action, rest: seq<Action>)
    ensures Run(hashes, outbox, system, [action] + rest) == Run(hashes, outbox, Step(hashes, outbox, system, action), rest)
  {
    hide Step;
    assert ([action] + rest)[1..] == rest;
  }

  lemma LostState(hashes: Hashes, outbox: nat -> Change, system: System)
    requires Inv(hashes, outbox, system) && system.disk.durable.state != system.disk.Visible().state
    ensures Step(hashes, outbox, system, LosePower(0)).disk == Disk(system.disk.durable, [])
    ensures system.disk.durable.state.generation < system.disk.Visible().state.generation <= MAX_U64
  {
    hide Faithful, Lists, ValidState;
    VisibleRepresents(hashes, outbox, system);
    var states := system.disk.Candidates();
    VisibleIsCandidate(system.disk);
    if |states| > 1 { assert NoOlder(states[0].state, states[|states| - 1].state); }
  }

  lemma SilentLoad(hashes: Hashes, outbox: nat -> Change, system: System, env: Env)
    requires Inv(hashes, outbox, system) && !env.facts.supported
    ensures LoadOutcome(hashes, system.disk.Visible().state, env) == Outcome([], Success(system.disk.Visible().state))
  {
    VisibleRepresents(hashes, outbox, system);
    hide Inv, ValidState, Lists;
    RetainEverything(system.disk.Visible().state.items, Unsettled(hashes, env.facts));
  }

  /** A new condition is one generation, and listed. */
  lemma UpsertNew(hashes: Hashes, outbox: nat -> Change, system: System, draft: Draft, env: Env)
    requires Inv(hashes, outbox, system) && ValidDraft(draft) && env == Env(env.facts, env.facts, Synced, Synced) && !env.facts.supported
    requires IndexOf(system.disk.Visible().state.items, draft.key) == -1 && system.disk.Visible().state.generation < MAX_U64
    ensures var after := Step(hashes, outbox, system, Local(Upsert(draft), env)).disk.Visible().state;
      after.generation == system.disk.Visible().state.generation + 1 && IndexOf(after.items, draft.key) != -1
  {
    hide Inv, ValidDraft, LoadOutcome, Record, IndexOf;
    SilentLoad(hashes, outbox, system, env);
    var state := system.disk.Visible().state;
    var item := ItemOf(draft, draft.createdAtMs, false);
    var next := state.(generation := state.generation + 1, items := SortItems(state.items + [item]));
    var write := Write(next, Upserted(draft), Synced);
    assert OperationOutcome(hashes, state, Upsert(draft), env).writes == [write] by { assert [] + [write] == [write]; }
    RecordSingle(system.disk, write);
    assert item in multiset(state.items + [item]);
    assert item in next.items;
  }

  /** Changing a listed condition's eligibility is one generation, and keeps it listed. */
  lemma ToggleListed(hashes: Hashes, outbox: nat -> Change, system: System, key: Key, env: Env) returns (eligible: bool)
    requires Inv(hashes, outbox, system) && env == Env(env.facts, env.facts, Synced, Synced) && !env.facts.supported
    requires IndexOf(system.disk.Visible().state.items, key) != -1 && system.disk.Visible().state.generation < MAX_U64
    ensures var after := Step(hashes, outbox, system, Local(SetEligible(key, eligible), env)).disk.Visible().state;
      after.generation == system.disk.Visible().state.generation + 1 && IndexOf(after.items, key) != -1
  {
    hide Inv, ValidKey, LoadOutcome, OperationOutcome, Record, IndexOf;
    SilentLoad(hashes, outbox, system, env);
    ListedKeyIsValid(hashes, outbox, system, key);
    var state := system.disk.Visible().state;
    var index := IndexOf(state.items, key);
    eligible := !state.items[index].eligible;
    ToggleWrites(hashes, state, key, env);
    var next := state.(generation := state.generation + 1, items := state.items[index := state.items[index].(eligible := eligible)]);
    RecordSingle(system.disk, Write(next, EligibilitySet(key, eligible), Synced));
    assert next.items[index].key == key;
  }

  lemma ToggleWrites(hashes: Hashes, state: State, key: Key, env: Env)
    requires LoadOutcome(hashes, state, env) == Outcome([], Success(state)) && ValidKey(key) && env.fault == Synced
    requires IndexOf(state.items, key) != -1 && state.generation < MAX_U64
    ensures var index := IndexOf(state.items, key);
      var eligible := !state.items[index].eligible;
      OperationOutcome(hashes, state, SetEligible(key, eligible), env).writes ==
        [Write(state.(generation := state.generation + 1,
                      items := state.items[index := state.items[index].(eligible := eligible)]),
               EligibilitySet(key, eligible), Synced)]
  {
    hide ValidKey, LoadOutcome, IndexOf;
  }

  lemma ListedKeyIsValid(hashes: Hashes, outbox: nat -> Change, system: System, key: Key)
    requires Inv(hashes, outbox, system) && IndexOf(system.disk.Visible().state.items, key) != -1
    ensures ValidKey(key)
  {
    VisibleRepresents(hashes, outbox, system);
    hide Inv, Lists, ListingAccepted, ValidKey;
    var items := system.disk.Visible().state.items;
    assert ValidItem(items[IndexOf(items, key)]);
  }

  lemma {:induction false} Climb(hashes: Hashes, outbox: nat -> Change, system: System, key: Key, env: Env, steps: nat)
      returns (actions: seq<Action>)
    requires Inv(hashes, outbox, system) && env == Env(env.facts, env.facts, Synced, Synced) && !env.facts.supported
    requires IndexOf(system.disk.Visible().state.items, key) != -1
    requires system.disk.Visible().state.generation + steps <= MAX_U64
    ensures var after := Run(hashes, outbox, system, actions).disk.Visible().state;
      after.generation == system.disk.Visible().state.generation + steps && IndexOf(after.items, key) != -1
    decreases steps
  {
    hide Inv, Step, IndexOf;
    actions := [];
    if steps != 0 {
      var eligible := ToggleListed(hashes, outbox, system, key, env);
      var action := Local(SetEligible(key, eligible), env);
      StepKeepsInv(hashes, outbox, system, action);
      var rest := Climb(hashes, outbox, Step(hashes, outbox, system, action), key, env, steps - 1);
      RunFirst(hashes, outbox, system, action, rest);
      actions := [action] + rest;
    }
  }

  lemma RecordSingle(disk: TracedDisk, write: AttentionWrite)
    ensures Record(disk, [write]) ==
      disk.Persist(Traced(write.state, disk.Visible().history + [write.cause]), write.fault)
  {
    assert [write][1..] == [];
  }

  // ----- local Parks -----

  /** Reconciliation writes nothing when a lookup fails; otherwise it keeps exactly the unresolved
      items, in order, and repeating it with the same facts writes nothing. */
  lemma ReconciliationExact(hashes: Hashes, state: State, inbox: map<Key, Item>, env: Env)
    requires Represents(state, inbox)
    ensures var loaded := LoadOutcome(hashes, state, env);
      && (!LookupsSucceed(hashes, env.facts, state.items) ==> loaded.writes == [] && loaded.reply == Failure(RunUnavailable))
      && (loaded.reply.Success? ==>
          && loaded.reply.value.items == Retain(state.items, Unsettled(hashes, env.facts))
          && (loaded.writes == [] <==> loaded.reply.value == state)
          && LoadOutcome(hashes, loaded.reply.value, env) == Outcome([], Success(loaded.reply.value)))
  {
    hide Lists, ValidState, LocalParkResolution, Chain, Replay1, InboxAfter;
    LoadRefines(hashes, state, inbox, env);
    var loaded := LoadOutcome(hashes, state, env);
    var keep := Unsettled(hashes, env.facts);
    if |Retain(state.items, keep)| == |state.items| { RetainSameLength(state.items, keep); }
    if loaded.reply.Success? {
      assert loaded.reply.value.items == Retain(state.items, keep);
      RetainEverything(loaded.reply.value.items, keep);
      assert ValidState(loaded.reply.value);
      hide Loaded;
    }
  }

  /** An upsert that only rediscovers a listed local Park, at whatever date, writes nothing of its own. */
  lemma RediscoveryIsSilent(hashes: Hashes, state: State, inbox: map<Key, Item>, draft: Draft, env: Env)
    requires Represents(state, inbox) && ValidDraft(draft)
    requires IsLocalPark(hashes, draft.key) && draft.key in inbox
    requires SameContent(inbox[draft.key], ItemOf(draft, inbox[draft.key].createdAtMs, false))
    requires env.check == env.facts
    ensures OperationOutcome(hashes, state, Upsert(draft), env).writes == LoadOutcome(hashes, state, env).writes
  {
    hide ValidDraft, Represents, IsLocalPark, LoadOutcome, LocalParkResolution, UpsertChange, SameContent;
    var loaded := LoadOutcome(hashes, state, env);
    if loaded.reply.Success? && LocalParkResolution(hashes, env.check, draft.key) == Unresolved {
      LoadKeepsUnresolved(hashes, state, inbox, env, draft.key);
      RediscoveryChangesNothing(hashes, loaded.reply.value, InboxAfter(hashes, inbox, loaded.writes), draft);
    }
  }

  lemma LoadKeepsUnresolved(hashes: Hashes, state: State, inbox: map<Key, Item>, env: Env, key: Key)
    requires Represents(state, inbox) && LoadOutcome(hashes, state, env).reply.Success?
    requires key in inbox && LocalParkResolution(hashes, env.facts, key) != Resolved
    ensures var loaded := LoadOutcome(hashes, state, env);
      var after := InboxAfter(hashes, inbox, loaded.writes);
      Represents(loaded.reply.value, after) && key in after && after[key] == inbox[key]
  {
    hide Represents, Chain, LoadOutcome, LocalParkResolution;
    LoadRefines(hashes, state, inbox, env);
    var loaded := LoadOutcome(hashes, state, env);
    if loaded.writes != [] {
      assert loaded.writes[..0] == [];
      assert InboxAfter(hashes, inbox, loaded.writes) == Replay1(hashes, inbox, Reconciled(env.facts));
    }
  }

  lemma RediscoveryChangesNothing(hashes: Hashes, state: State, inbox: map<Key, Item>, draft: Draft)
    requires Represents(state, inbox)
    requires IsLocalPark(hashes, draft.key) && draft.key in inbox
    requires SameContent(inbox[draft.key], ItemOf(draft, inbox[draft.key].createdAtMs, false))
    ensures UpsertChange(hashes, state, draft).None?
  {
    hide ValidState, Sorted, KeyUnique, IsLocalPark;
    IndexOfContents(state.items, inbox, draft.key);
  }

  /** A run of operator calls during which Run facts hold still within each call and `key` stays listed. */
  ghost predicate StaysListed(hashes: Hashes, outbox: nat -> Change, system: System, actions: seq<Action>, key: Key)
    decreases |actions|
  {
    && IndexOf(system.disk.Visible().state.items, key) != -1
    && (actions != [] ==>
        && actions[0].Local? && actions[0].env.check == actions[0].env.facts
        && StaysListed(hashes, outbox, Step(hashes, outbox, system, actions[0]), actions[1..], key))
  }

  function CreatedAt(state: State, key: Key): nat {
    var index := IndexOf(state.items, key);
    if index == -1 then 0 else state.items[index].createdAtMs
  }

  /** Over any run of operator calls, a surviving local Park keeps its first creation time. */
  lemma ParkKeepsFirstDate(hashes: Hashes, outbox: nat -> Change, actions: seq<Action>, later: seq<Action>, key: Key)
    requires IsLocalPark(hashes, key)
    requires StaysListed(hashes, outbox, Run(hashes, outbox, INITIAL, actions), later, key)
    ensures var before := Run(hashes, outbox, INITIAL, actions);
      CreatedAt(Run(hashes, outbox, before, later).disk.Visible().state, key) ==
      CreatedAt(before.disk.Visible().state, key)
  {
    Reachable(hashes, outbox, actions);
    hide Inv, Run, INITIAL, StaysListed, IsLocalPark;
    ParkDateFrom(hashes, outbox, Run(hashes, outbox, INITIAL, actions), later, key);
  }

  lemma {:induction false} ParkDateFrom(hashes: Hashes, outbox: nat -> Change, system: System, actions: seq<Action>, key: Key)
    requires Inv(hashes, outbox, system) && IsLocalPark(hashes, key)
    requires StaysListed(hashes, outbox, system, actions, key)
    ensures CreatedAt(Run(hashes, outbox, system, actions).disk.Visible().state, key) ==
      CreatedAt(system.disk.Visible().state, key)
    decreases |actions|
  {
    hide Inv, IsLocalPark, Step, CreatedAt, IndexOf;
    if actions != [] {
      StepKeepsInv(hashes, outbox, system, actions[0]);
      ParkDateFrom(hashes, outbox, Step(hashes, outbox, system, actions[0]), actions[1..], key);
      ParkDateStep(hashes, outbox, system, actions[0], key);
    }
  }

  lemma ParkDateStep(hashes: Hashes, outbox: nat -> Change, system: System, action: Action, key: Key)
    requires Inv(hashes, outbox, system) && IsLocalPark(hashes, key)
    requires action.Local? && action.env.check == action.env.facts
    requires IndexOf(system.disk.Visible().state.items, key) != -1
    requires IndexOf(Step(hashes, outbox, system, action).disk.Visible().state.items, key) != -1
    ensures CreatedAt(Step(hashes, outbox, system, action).disk.Visible().state, key) ==
      CreatedAt(system.disk.Visible().state, key)
  {
    hide Inv, Represents, Replay, OperationOutcome, IsLocalPark, Record, IndexOf, CreatedAt;
    VisibleRepresents(hashes, outbox, system);
    ParkDateRecord(hashes, system.disk, Replay(hashes, system.disk.Visible().history), action.operation, action.env, key);
  }

  lemma VisibleRepresents(hashes: Hashes, outbox: nat -> Change, system: System)
    requires Inv(hashes, outbox, system)
    ensures Represents(system.disk.Visible().state, Replay(hashes, system.disk.Visible().history))
  {
    hide Represents, Replay, FollowsOutbox, NoOlder;
    VisibleIsCandidate(system.disk);
    assert Faithful(hashes, outbox, system.disk.Candidates()[|system.disk.Candidates()| - 1]);
  }

  lemma ParkDateRecord(hashes: Hashes, disk: TracedDisk, inbox: map<Key, Item>, operation: Operation, env: Env, key: Key)
    requires Represents(disk.Visible().state, inbox) && IsLocalPark(hashes, key) && env.check == env.facts
    requires IndexOf(disk.Visible().state.items, key) != -1
    requires var writes := OperationOutcome(hashes, disk.Visible().state, operation, env).writes;
      IndexOf(Record(disk, writes).Visible().state.items, key) != -1
    ensures var writes := OperationOutcome(hashes, disk.Visible().state, operation, env).writes;
      CreatedAt(Record(disk, writes).Visible().state, key) == CreatedAt(disk.Visible().state, key)
  {
    hide Represents, IsLocalPark, OperationOutcome, Replay1, IndexOf, CreatedAt, LocalParkResolution;
    var state := disk.Visible().state;
    var writes := OperationOutcome(hashes, state, operation, env).writes;
    CallRefines(hashes, state, inbox, operation, env);
    SecondWriteKnows(hashes, state, operation, env);
    DateOf(state, inbox, key);
    if writes != [] {
      var after := Replay1(hashes, inbox, writes[0].cause);
      DateOf(writes[0].state, after, key);
      if key in after { CauseKeepsDate(hashes, inbox, writes[0].cause, key); }
      if |writes| == 2 {
        ChainOfTwo(hashes, state, inbox, writes);
        assert writes[1..] == [writes[1]];
        RecordSingle(disk.Persist(Traced(writes[0].state, disk.Visible().history + [writes[0].cause]), Synced), writes[1]);
        var last := Replay1(hashes, after, writes[1].cause);
        DateOf(writes[1].state, last, key);
        if key !in after {
          DroppedStaysDropped(hashes, inbox, env.facts, writes[1].cause, key);
        } else if key in last {
          CauseKeepsDate(hashes, after, writes[1].cause, key);
        }
      } else {
        assert writes[1..] == [];
      }
    }
  }

  lemma ChainOfTwo(hashes: Hashes, state: State, inbox: map<Key, Item>, writes: seq<AttentionWrite>)
    requires Chain(hashes, state, inbox, writes) && |writes| == 2
    ensures writes[0].fault == Synced
    ensures Represents(writes[1].state, Replay1(hashes, Replay1(hashes, inbox, writes[0].cause), writes[1].cause))
  {
    hide Represents, Replay1;
    assert writes[1..][0] == writes[1];
  }

  lemma DateOf(state: State, inbox: map<Key, Item>, key: Key)
    requires Represents(state, inbox)
    ensures IndexOf(state.items, key) != -1 <==> key in inbox
    ensures key in inbox ==> CreatedAt(state, key) == inbox[key].createdAtMs
  {
    hide ValidState, Sorted, KeyUnique;
    IndexOfContents(state.items, inbox, key);
  }

  /** A second write follows a reconciliation, and an upsert's only while its own Park is unresolved. */
  lemma SecondWriteKnows(hashes: Hashes, state: State, operation: Operation, env: Env)
    ensures var writes := OperationOutcome(hashes, state, operation, env).writes;
      |writes| == 2 ==>
        && writes[0].cause == Reconciled(env.facts)
        && writes[1].cause == CauseOf(operation)
        && (operation.Upsert? ==> LocalParkResolution(hashes, env.check, operation.draft.key) == Unresolved)
  {
    LoadShape(hashes, state, env);
    hide LoadOutcome, ValidDraft, ValidKey, ValidSubjectId, LocalParkResolution, UpsertChange, Retain, IndexOf;
    match operation {
      case Read =>
      case Upsert(draft) =>
      case SetEligible(key, eligible) =>
      case Clear(key) =>
      case ClearSessionKind(id, kind) =>
      case ClearSession(id) =>
    }
  }

  lemma LoadShape(hashes: Hashes, state: State, env: Env)
    ensures var writes := LoadOutcome(hashes, state, env).writes;
      |writes| <= 1 && (writes != [] ==> writes[0].cause == Reconciled(env.facts))
  {
    hide ValidState, LookupsSucceed, Retain;
  }

  lemma CauseKeepsDate(hashes: Hashes, inbox: map<Key, Item>, cause: Cause, key: Key)
    requires IsLocalPark(hashes, key) && !cause.Projected?
    requires key in inbox && key in Replay1(hashes, inbox, cause)
    ensures Replay1(hashes, inbox, cause)[key].createdAtMs == inbox[key].createdAtMs
  {
    hide IsLocalPark, LocalParkResolution;
  }

  lemma DroppedStaysDropped(hashes: Hashes, inbox: map<Key, Item>, facts: RunFacts, cause: Cause, key: Key)
    requires key in inbox && key !in Replay1(hashes, inbox, Reconciled(facts)) && !cause.Projected?
    requires cause.Upserted? ==> LocalParkResolution(hashes, facts, cause.draft.key) == Unresolved
    ensures key !in Replay1(hashes, Replay1(hashes, inbox, Reconciled(facts)), cause)
  {
    hide IsLocalPark, LocalParkResolution;
  }
}
