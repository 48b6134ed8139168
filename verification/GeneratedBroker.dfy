/** One uninterrupted `generate`, as it runs: proved to be a run of the concurrent model. */
module GeneratedBrokers {
  import opened Integers
  import opened Results
  import opened Disk
  import opened GeneratedLedger
  import opened GeneratedArguments
  import opened GeneratedWork

  datatype GenerationError = Refused | Unavailable | IsExhausted | IsPending | NotRun | Ambiguous | LedgerFailed

  /** What one call meets outside. */
  datatype Env = Env(
    lists: bool, confirmFault: nat -> PersistFault, reserveFault: PersistFault, execution: Execution, finishFault: PersistFault)

  function Reconciles(n: nat, from: nat, env: Env): (steps: seq<Action>)
    ensures |steps| == n
  {
    if n == 0 then [] else [Reconcile(0, env.confirmFault(from))] + Reconciles(n - 1, from + 1, env)
  }

  /** The steps one call takes when nothing comes between them. */
  function GenerateSteps(system: System, request: Request, env: Env): seq<Action> {
    [Begin(0, request), ListIssues(0, env.lists)] + Reconciles(|system.disk.Visible().pending|, 0, env)
    + LastSteps(env)
  }

  function LastSteps(env: Env): seq<Action> {
    [ReserveUnit(0, env.reserveFault), Execute(0, env.execution), Finish(0, env.finishFault)]
  }

  lemma {:induction false} RunAppend(broker: Broker, system: System, first: seq<Action>, second: seq<Action>)
    ensures Run(broker, system, first + second) == Run(broker, Run(broker, system, first), second)
    decreases |first|
  {
    hide Step;
    if first == [] {
      assert first + second == second;
    } else {
      assert (first + second)[1..] == first[1..] + second;
      RunAppend(broker, Step(broker, system, first[0]), first[1..], second);
    }
  }

  lemma RunOne(broker: Broker, system: System, action: Action, rest: seq<Action>)
    ensures Run(broker, system, [action] + rest) == Run(broker, Step(broker, system, action), rest)
  {
    hide Step;
    assert ([action] + rest)[1..] == rest;
  }

  predicate OfCall(action: Action) {
    action.ListIssues? || action.Reconcile? || action.ReserveUnit? || action.Execute? || action.Finish?
  }

  /** A call that has ended takes no further step. */
  lemma {:induction false} EndedStays(broker: Broker, system: System, actions: seq<Action>)
    requires system.calls == map[] && forall i :: 0 <= i < |actions| ==> OfCall(actions[i])
    ensures Run(broker, system, actions) == system
    decreases |actions|
  {
    if actions != [] {
      assert OfCall(actions[0]);
      EndedStays(broker, system, actions[1..]);
    }
  }

  lemma {:induction false} ReconcilesAreOfCall(n: nat, from: nat, env: Env)
    ensures forall i :: 0 <= i < n ==> OfCall(Reconciles(n, from, env)[i])
  {
    if n != 0 { ReconcilesAreOfCall(n - 1, from + 1, env); }
  }

  // ----- what a caller is told -----

  /** The answer of a call that holds a unit, by what its create led to. */
  ghost predicate CreateAnswered(broker: Broker, request: Request, held: Ledger, env: Env, reply: Result<string, GenerationError>) {
    if Arguments(broker, request).None? then reply == Failure(Refused)
    else if !env.execution.Started? then
      reply == if Release(held, request.mutation).next.None? || env.finishFault == Synced then Failure(NotRun)
               else Failure(LedgerFailed)
    else if !Printed(env.execution) then reply == Failure(Ambiguous)
    else
      var change := Confirm(held, request.mutation, env.execution.printed.value);
      reply == if change.reply.Success? && (change.next.None? || env.finishFault == Synced)
               then Success(env.execution.printed.value) else Failure(LedgerFailed)
  }

  /** A ledger with the mutation's new unit on it gives that unit back, or turns it into an output. */
  lemma NewUnit(ledger: Ledger, mutation: string, issue: string)
    requires New(ledger, mutation) && issue != ""
    ensures var held := ledger.(reserved := ledger.reserved + 1, pending := ledger.pending + [Reservation(mutation, 1)]);
      && Release(held, mutation).next.Some?
      && Confirm(held, mutation, issue).next.Some? && Confirm(held, mutation, issue).reply.Success?
  {
    var held := ledger.(reserved := ledger.reserved + 1, pending := ledger.pending + [Reservation(mutation, 1)]);
    assert held.pending[|ledger.pending|].mutation == mutation;
    UnitsOfNew(ledger.pending, mutation);
    IssueOfIsFirst(ledger.outputs, mutation);
    if IssueOf(ledger.outputs, mutation).Some? {
      var k :| 0 <= k < |ledger.outputs| && ledger.outputs[k].mutation == mutation;
      assert false;
    }
  }

  lemma {:induction false} UnitsOfNew(pending: seq<Reservation>, mutation: string)
    requires forall k :: 0 <= k < |pending| ==> pending[k].mutation != mutation
    ensures UnitsOf(pending + [Reservation(mutation, 1)], mutation) == 1
  {
    if pending == [] {
      assert pending + [Reservation(mutation, 1)] == [Reservation(mutation, 1)];
    } else {
      assert (pending + [Reservation(mutation, 1)])[1..] == pending[1..] + [Reservation(mutation, 1)];
      UnitsOfNew(pending[1..], mutation);
    }
  }

  /** What reserving one unit answers, by what the ledger holds. */
  lemma ReserveAnswers(ledger: Ledger, mutation: string)
    ensures var change := Reserve(ledger, mutation, 1);
      var isNew := New(ledger, mutation);
      && (change.reply == Success(Consumed) <==> exists k :: 0 <= k < |ledger.outputs| && ledger.outputs[k].mutation == mutation)
      && (change.reply == Success(Pending) <==>
          && (forall k :: 0 <= k < |ledger.outputs| ==> ledger.outputs[k].mutation != mutation)
          && exists k :: 0 <= k < |ledger.pending| && ledger.pending[k].mutation == mutation)
      && (change.reply == Success(Exhausted) <==>
          && isNew
          && (|| ledger.state == "parked"
              || (ledger.state == "active" && ledger.ceiling < ledger.consumed + ledger.reserved + 1 <= MAX_U64)))
      && (change.reply == Success(Exhausted) ==>
          change.next == if ledger.state == "parked" then None else Some(ledger.(state := "parked")))
      && (change.reply == Success(Reserved) <==> isNew && ledger.state == "active" && Room(ledger))
      && (change.reply == Success(Reserved) ==>
          change.next == Some(ledger.(reserved := ledger.reserved + 1, pending := ledger.pending + [Reservation(mutation, 1)])))
      && (change.reply.Failure? || change.reply.value.Consumed? || change.reply.value.Pending? ==> change.next.None?)
  {
  }

  /** The first issue recorded for a mutation. */
  ghost predicate FirstRecorded(outputs: seq<Output>, mutation: string, issue: string) {
    exists k :: 0 <= k < |outputs| && outputs[k] == Output(mutation, issue)
      && forall j :: 0 <= j < k ==> outputs[j].mutation != mutation
  }

  lemma {:induction false} IssueOfIsFirst(outputs: seq<Output>, mutation: string)
    ensures match IssueOf(outputs, mutation)
      case Some(issue) => FirstRecorded(outputs, mutation, issue)
      case None => forall k :: 0 <= k < |outputs| ==> outputs[k].mutation != mutation
  {
    if outputs != [] {
      var rest := outputs[1..];
      IssueOfIsFirst(rest, mutation);
      if outputs[0].mutation == mutation {
        assert outputs[0] == Output(mutation, outputs[0].issue);
      } else if IssueOf(rest, mutation).Some? {
        var k :| 0 <= k < |rest| && rest[k] == Output(mutation, IssueOf(rest, mutation).value)
          && forall j :: 0 <= j < k ==> rest[j].mutation != mutation;
        assert outputs[k + 1] == rest[k];
        forall j | 0 <= j < k + 1 ensures outputs[j].mutation != mutation {
          if 0 < j { assert outputs[j] == rest[j - 1]; }
        }
      } else {
        forall k | 0 <= k < |outputs| ensures outputs[k].mutation != mutation {
          if 0 < k { assert outputs[k] == rest[k - 1]; }
        }
      }
    }
  }

  lemma RecordedOnce(outputs: seq<Output>, mutation: string, issue: string)
    requires FirstRecorded(outputs, mutation, issue)
    ensures IssueOf(outputs, mutation) == Some(issue)
  {
    IssueOfIsFirst(outputs, mutation);
    var k :| 0 <= k < |outputs| && outputs[k] == Output(mutation, issue)
      && forall j :: 0 <= j < k ==> outputs[j].mutation != mutation;
    assert outputs[k].mutation == mutation;
    var other := IssueOf(outputs, mutation).value;
    var i :| 0 <= i < |outputs| && outputs[i] == Output(mutation, other)
      && forall j :: 0 <= j < i ==> outputs[j].mutation != mutation;
    assert i == k;
  }

  /** Nothing is recorded or reserved for the mutation yet. */
  predicate New(ledger: Ledger, mutation: string) {
    && (forall k :: 0 <= k < |ledger.outputs| ==> ledger.outputs[k].mutation != mutation)
    && (forall k :: 0 <= k < |ledger.pending| ==> ledger.pending[k].mutation != mutation)
  }

  /** There is room for one more unit. */
  predicate Room(ledger: Ledger) {
    ledger.consumed + ledger.reserved + 1 <= ledger.ceiling && ledger.consumed + ledger.reserved + 1 <= MAX_U64
  }

  /** The call gets its own unit, durably, and its arguments pass: its create is run. */
  predicate Creates(broker: Broker, request: Request, ledger: Ledger, env: Env) {
    && New(ledger, request.mutation) && ledger.state == "active" && Room(ledger)
    && env.reserveFault == Synced && Arguments(broker, request).Some?
  }

  /** The create reported success and a usable id. */
  predicate Printed(execution: Execution) {
    execution.Started? && execution.succeeded && execution.printed.Some? && execution.printed.value != ""
  }

  /** The answer of a call that found `ledger` once it had reconciled: success with the issue already
      recorded, or with the one its own create printed and the ledger durably confirmed; and each refusal
      exactly under its own condition, a ledger failure under none of the others. */
  ghost predicate Decided(broker: Broker, request: Request, ledger: Ledger, env: Env, reply: Result<string, GenerationError>) {
    var mutation := request.mutation;
    var creates := Creates(broker, request, ledger, env);
    && (forall id :: reply == Success(id) <==>
        || FirstRecorded(ledger.outputs, mutation, id)
        || (creates && Printed(env.execution) && env.execution.printed == Some(id) && env.finishFault == Synced))
    && (reply == Failure(IsPending) <==>
        && (forall k :: 0 <= k < |ledger.outputs| ==> ledger.outputs[k].mutation != mutation)
        && exists k :: 0 <= k < |ledger.pending| && ledger.pending[k].mutation == mutation)
    && (reply == Failure(IsExhausted) <==>
        && New(ledger, mutation)
        && (|| ledger.state == "parked"
            || (ledger.state == "active" && ledger.ceiling < ledger.consumed + ledger.reserved + 1 <= MAX_U64
                && env.reserveFault == Synced)))
    && (reply == Failure(Refused) <==>
        && New(ledger, mutation) && ledger.state == "active" && Room(ledger) && env.reserveFault == Synced
        && Arguments(broker, request).None?)
    && (reply == Failure(NotRun) <==> creates && !env.execution.Started? && env.finishFault == Synced)
    && (reply == Failure(Ambiguous) <==> creates && env.execution.Started? && !Printed(env.execution))
    && reply != Failure(Unavailable)
  }

  /** A call that gets no unit of its own runs no create. */
  lemma HeldBackDecided(broker: Broker, request: Request, ledger: Ledger, env: Env, reply: Result<string, GenerationError>)
    requires var change := Reserve(ledger, request.mutation, 1);
      var saved := change.next.None? || env.reserveFault == Synced;
      && (change.reply != Success(Reserved) || !saved)
      && reply ==
         if change.reply.Failure? || !saved then Failure(LedgerFailed)
         else
           match change.reply.value
           case Exhausted => Failure(IsExhausted)
           case Pending => Failure(IsPending)
           case Consumed =>
             var issue := IssueOf(ledger.outputs, request.mutation);
             if issue.Some? then Success(issue.value) else Failure(Refused)
           case Reserved => Failure(LedgerFailed)
    ensures Decided(broker, request, ledger, env, reply)
  {
    hide Reserve, Arguments;
    var mutation := request.mutation;
    ReserveAnswers(ledger, mutation);
    IssueOfIsFirst(ledger.outputs, mutation);
    forall id ensures FirstRecorded(ledger.outputs, mutation, id) ==> IssueOf(ledger.outputs, mutation) == Some(id) {
      if FirstRecorded(ledger.outputs, mutation, id) { RecordedOnce(ledger.outputs, mutation, id); }
    }
    if New(ledger, mutation) { NewUnrecorded(ledger, mutation); }
    hide FirstRecorded;
  }

  lemma NewUnrecorded(ledger: Ledger, mutation: string)
    requires New(ledger, mutation)
    ensures forall id :: !FirstRecorded(ledger.outputs, mutation, id)
  {
  }

  /** A call with its own durable unit is decided by its create. */
  lemma CreatedDecided(broker: Broker, request: Request, ledger: Ledger, env: Env, reply: Result<string, GenerationError>)
    requires Reserve(ledger, request.mutation, 1).reply == Success(Reserved) && env.reserveFault == Synced
    requires CreateAnswered(broker, request, Reserve(ledger, request.mutation, 1).next.value, env, reply)
    ensures Decided(broker, request, ledger, env, reply)
  {
    hide Reserve, Arguments, Release, Confirm;
    var mutation := request.mutation;
    ReserveAnswers(ledger, mutation);
    NewUnrecorded(ledger, mutation);
    NewUnit(ledger, mutation, if Printed(env.execution) then env.execution.printed.value else "any");
    hide FirstRecorded;
  }

  /** The steps of a call up to where its pending mutations are reconciled. */
  function Reconciled(broker: Broker, system: System, request: Request, env: Env): System {
    Run(broker, Step(broker, Step(broker, system, Begin(0, request)), ListIssues(0, env.lists)),
        Reconciles(|system.disk.Visible().pending|, 0, env))
  }

  /** The answer of a whole call: an unknown command is refused, a failed listing and a failed reconciliation
      end it, and otherwise it is decided on the reconciled ledger. */
  ghost predicate Answered(broker: Broker, request: Request, system: System, env: Env, reply: Result<string, GenerationError>) {
    if request.command != "create" && request.command != "q" then reply == Failure(Refused)
    else if system.disk.Visible().pending != [] && !env.lists then reply == Failure(Unavailable)
    else
      var middle := Reconciled(broker, system, request, env);
      if 0 in middle.calls then Decided(broker, request, middle.disk.Visible(), env, reply)
      else reply == Failure(LedgerFailed)
  }

  class BeadsGenerator {
    const broker: Broker
    var disk: Disk<Ledger>
    /** The tracker's issues; changed by the creates it runs. */
    var issues: seq<Issue>
    ghost var starts: seq<string>
    ghost var reported: set<Output>
    ghost var vouched: set<Output>
    ghost var forfeited: set<string>

    constructor (broker: Broker, state: string, ceiling: nat)
      ensures this.broker == broker && Alone() == Admitted(state, ceiling)
    {
      this.broker := broker;
      disk := Disk(Ledger(state, ceiling, 0, 0, [], []), []);
      issues, starts, reported, vouched, forfeited := [], [], {}, {}, {};
    }

    ghost function Alone(): System
      reads this
    {
      System(disk, issues, starts, reported, vouched, forfeited, map[])
    }

    ghost function With(phase: Phase): System
      reads this
    {
      System(disk, issues, starts, reported, vouched, forfeited, map[0 := phase])
    }

    method Persist(next: Option<Ledger>, fault: PersistFault) returns (done: bool)
      modifies this`disk
      ensures disk == Stored(old(disk), next, fault)
      ensures done <==> next.None? || fault == Synced
    {
      if next.None? {
        return true;
      }
      if fault == RenameFailed {
        return false;
      }
      disk := Disk(disk.durable, disk.renamed + [next.value]);
      if fault == SyncFailed {
        return false;
      }
      disk := Disk(disk.Visible(), []);
      done := true;
    }

    /** Confirm what the listing shows for each mutation that was pending; the first failure stops. */
    method ReconcileWith(request: Request, pending: seq<string>, listed: seq<Issue>, env: Env) returns (done: bool)
      modifies this`disk
      ensures Run(broker, old(With(Reconciling(request, pending, listed))), Reconciles(|pending|, 0, env))
              == if done then With(Reconciling(request, [], listed)) else Alone()
    {
      hide Confirm, FindIssue;
      ghost var start := With(Reconciling(request, pending, listed));
      ghost var all := Reconciles(|pending|, 0, env);
      assert pending[0..] == pending;
      for i := 0 to |pending|
        invariant Run(broker, start, all) ==
          Run(broker, With(Reconciling(request, pending[i..], listed)), Reconciles(|pending| - i, i, env))
      {
        ghost var phase := Reconciling(request, pending[i..], listed);
        ghost var rest := Reconciles(|pending| - i - 1, i + 1, env);
        RunOne(broker, With(phase), Reconcile(0, env.confirmFault(i)), rest);
        assert pending[i..][1..] == pending[i + 1..];
        ReconcileAlone(broker, With(phase), phase, env.confirmFault(i));
        hide Run, Reconciles, ReconcileStep;
        var found := FindIssue(listed, ExternalRef(broker, pending[i]));
        if found.Some? {
          var change := Confirm(disk.Visible(), pending[i], found.value);
          var saved := Persist(change.next, env.confirmFault(i));
          if change.reply.Failure? || !saved {
            ReconcilesAreOfCall(|pending| - i - 1, i + 1, env);
            EndedStays(broker, Alone(), rest);
            return false;
          }
        }
      }
      assert pending[|pending|..] == [];
      NoStepsLeft(broker, With(Reconciling(request, [], listed)), |pending|, env);
      done := true;
    }

    /** Reconcile, reserve, run the tracker and confirm. The answer says what happened, and success names an
        issue then recorded for the mutation. */
    method Generate(request: Request, env: Env) returns (reply: Result<string, GenerationError>)
      modifies this
      ensures Alone() == Run(broker, old(Alone()), GenerateSteps(old(Alone()), request, env))
      ensures Answered(broker, request, old(Alone()), env, reply)
      ensures reply.Success? ==> Output(request.mutation, reply.value) in disk.Visible().outputs
    {
      hide Run, Reserve, Reconciles, Arguments, FinishStep, ExecuteStep;
      ghost var start := Alone();
      ghost var n := |start.disk.Visible().pending|;
      ghost var middle := Reconciles(n, 0, env);
      Split(broker, start, request, env);
      if !ValidCommand(request) {
        NeverBegun(broker, start, request, env);
        return Failure(Refused);
      }
      var pending := PendingIds(disk.Visible().pending);
      ghost var listed: seq<Issue> := [];
      var reconciled := true;
      Opening(broker, start, request, env);
      if pending != [] {
        if !env.lists {
          Unlisted(broker, start, request, env);
          return Failure(Unavailable);
        }
        listed := issues;
        reconciled := ReconcileWith(request, pending, issues, env);
      } else {
        NoStepsLeft(broker, With(Reconciling(request, [], [])), 0, env);
      }
      if !reconciled {
        EndedStays(broker, Alone(), LastSteps(env));
        return Failure(LedgerFailed);
      }
      reply := ReserveAndCreate(request, listed, env);
    }

    /** From a reconciled ledger: reserve one unit, run the create, record what it printed. */
    method ReserveAndCreate(request: Request, ghost listed: seq<Issue>, env: Env) returns (reply: Result<string, GenerationError>)
      modifies this
      ensures Alone() == Run(broker, old(With(Reconciling(request, [], listed))), LastSteps(env))
      ensures Decided(broker, request, old(disk).Visible(), env, reply)
      ensures reply.Success? ==> Output(request.mutation, reply.value) in disk.Visible().outputs
    {
      hide Reserve, Arguments, Release, Confirm;
      ghost var phase := Reconciling(request, [], listed);
      ThreeSteps(broker, With(phase), LastSteps(env));
      hide Run;
      var change := Reserve(disk.Visible(), request.mutation, 1);
      ReserveStores(disk.Visible(), request.mutation);
      ghost var found := disk.Visible();
      var saved := Persist(change.next, env.reserveFault);
      ReservedAlone(broker, old(With(phase)), phase, env.reserveFault);
      hide Decided, CreateAnswered;
      if change.reply != Success(Reserved) || !saved {
        EndedStays(broker, Alone(), LastSteps(env)[1..]);
        ThreeSteps(broker, old(With(phase)), LastSteps(env));
        if change.reply.Failure? || !saved {
          reply := Failure(LedgerFailed);
        } else {
          match change.reply.value {
            case Exhausted => reply := Failure(IsExhausted);
            case Pending => reply := Failure(IsPending);
            case Consumed =>
              var issue := IssueOf(disk.Visible().outputs, request.mutation);
              IssueOfOutput(disk.Visible().outputs, request.mutation);
              reply := if issue.Some? then Success(issue.value) else Failure(Refused);
            case Reserved => reply := Failure(LedgerFailed);
          }
        }
        HeldBackDecided(broker, request, found, env, reply);
        return;
      }
      reply := RunCreate(request, env);
      CreatedDecided(broker, request, found, env, reply);
    }

    method GiveBack(request: Request, fault: PersistFault) returns (reply: Result<string, GenerationError>)
      modifies this
      ensures Alone() == FinishStep(old(With(Releasing(request))), 0, fault)
      ensures reply == if Release(old(disk).Visible(), request.mutation).next.None? || fault == Synced
                       then Failure(NotRun) else Failure(LedgerFailed)
    {
      hide Release;
      var change := Release(disk.Visible(), request.mutation);
      if request.mutation in starts && change.next.Some? && fault != RenameFailed {
        forfeited := forfeited + {request.mutation};
      }
      var released := Persist(change.next, fault);
      assert map[0 := Releasing(request)] - {0} == map[];
      reply := if released then Failure(NotRun) else Failure(LedgerFailed);
    }

    method RecordIssue(request: Request, issue: string, fault: PersistFault) returns (reply: Result<string, GenerationError>)
      modifies this`disk
      ensures Alone() == FinishStep(old(With(Confirming(request, issue))), 0, fault)
      ensures var change := Confirm(old(disk).Visible(), request.mutation, issue);
        reply == if change.reply.Success? && (change.next.None? || fault == Synced) then Success(issue) else Failure(LedgerFailed)
      ensures reply.Success? ==> Output(request.mutation, issue) in disk.Visible().outputs
    {
      hide Confirm;
      var change := Confirm(disk.Visible(), request.mutation, issue);
      ConfirmedRecords(disk.Visible(), request.mutation, issue);
      assert map[0 := Confirming(request, issue)] - {0} == map[];
      var confirmed := Persist(change.next, fault);
      reply := if change.reply.Success? && confirmed then Success(issue) else Failure(LedgerFailed);
    }

    /** With a durable reservation: start the create, then confirm its issue or give the unit back. */
    method RunCreate(request: Request, env: Env) returns (reply: Result<string, GenerationError>)
      modifies this
      ensures Alone() == Step(broker, Step(broker, old(With(Holding(request))), Execute(0, env.execution)), GeneratedWork.Finish(0, env.finishFault))
      ensures CreateAnswered(broker, request, old(disk).Visible(), env, reply)
      ensures reply.Success? ==> Output(request.mutation, reply.value) in disk.Visible().outputs
    {
      hide Arguments, Release, Confirm, FinishStep;
      assert map[0 := Holding(request)] - {0} == map[];
      assert map[0 := Holding(request)][0 := Releasing(request)] == map[0 := Releasing(request)];
      var arguments := Arguments(broker, request);
      if arguments.None? {
        NothingToFinish(Alone(), env.finishFault);
        return Failure(Refused);
      }
      match env.execution {
        case NotStarted => reply := GiveBack(request, env.finishFault);
        case StartedThenFailed(created) =>
          starts := starts + [request.mutation];
          issues := issues + if created.Some? then [Issue(ExternalRef(broker, request.mutation), created.value)] else [];
          // The same branch: an error of execution does not say whether the create started.
          reply := GiveBack(request, env.finishFault);
        case Started(created, succeeded, printed) =>
          starts := starts + [request.mutation];
          issues := issues + if created.Some? then [Issue(ExternalRef(broker, request.mutation), created.value)] else [];
          if !succeeded || printed.None? || printed.value == "" {
            NothingToFinish(Alone(), env.finishFault);
            return Failure(Ambiguous);
          }
          reported := reported + {Output(request.mutation, printed.value)};
          assert map[0 := Holding(request)][0 := Confirming(request, printed.value)] == map[0 := Confirming(request, printed.value)];
          reply := RecordIssue(request, printed.value, env.finishFault);
      }
    }
  }

  lemma NothingToFinish(system: System, fault: PersistFault)
    requires system.calls == map[]
    ensures FinishStep(system, 0, fault) == system
  {
  }

  lemma ConfirmedRecords(ledger: Ledger, mutation: string, issue: string)
    ensures var change := Confirm(ledger, mutation, issue);
      change.reply.Success? ==> Output(mutation, issue) in (if change.next.Some? then change.next.value else ledger).outputs
  {
    IssueOfOutput(ledger.outputs, mutation);
  }

  lemma ReserveStores(ledger: Ledger, mutation: string)
    ensures var change := Reserve(ledger, mutation, 1);
      && (change.reply == Success(Reserved) ==> change.next.Some?)
      && (change.reply in {Success(Pending), Success(Consumed)} ==> change.next.None?)
  {
  }

  /** Reserving, as the only call. */
  lemma ReservedAlone(broker: Broker, system: System, phase: Phase, fault: PersistFault)
    requires phase.Reconciling? && phase.pending == [] && system.calls == map[0 := phase]
    ensures var change := Reserve(system.disk.Visible(), phase.request.mutation, 1);
      var next := system.(disk := Stored(system.disk, change.next, fault));
      Step(broker, system, ReserveUnit(0, fault)) ==
        if change.reply == Success(Reserved) && fault == Synced then next.(calls := map[0 := Holding(phase.request)])
        else next.(calls := map[])
  {
    hide Reserve;
    assert system.calls - {0} == map[];
    assert system.calls[0 := Holding(phase.request)] == map[0 := Holding(phase.request)];
  }

  /** Confirming the next pending mutation, as the only call. */
  lemma ReconcileAlone(broker: Broker, system: System, phase: Phase, fault: PersistFault)
    requires phase.Reconciling? && phase.pending != [] && system.calls == map[0 := phase]
    ensures var rest := phase.(pending := phase.pending[1..]);
      var found := FindIssue(phase.issues, ExternalRef(broker, phase.pending[0]));
      Step(broker, system, Reconcile(0, fault)) ==
        if found.None? then system.(calls := map[0 := rest])
        else
          var change := Confirm(system.disk.Visible(), phase.pending[0], found.value);
          var next := system.(disk := Stored(system.disk, change.next, fault));
          if Done(change, fault) then next.(calls := map[0 := rest]) else next.(calls := map[])
  {
    hide Confirm, FindIssue;
    var rest := phase.(pending := phase.pending[1..]);
    assert system.calls - {0} == map[];
    assert system.calls[0 := rest] == map[0 := rest];
  }

  lemma NoStepsLeft(broker: Broker, system: System, from: nat, env: Env)
    ensures Run(broker, system, Reconciles(0, from, env)) == system
  {
  }

  lemma ThreeSteps(broker: Broker, system: System, steps: seq<Action>)
    requires |steps| == 3
    ensures Run(broker, system, steps) == Run(broker, Step(broker, system, steps[0]), steps[1..])
    ensures Run(broker, Step(broker, system, steps[0]), steps[1..]) ==
      Step(broker, Step(broker, Step(broker, system, steps[0]), steps[1]), steps[2])
  {
    hide Step;
    assert steps[1..] == [steps[1], steps[2]];
    TwoSteps(broker, Step(broker, system, steps[0]), steps[1], steps[2]);
  }

  /** A whole call, split where its parts meet. */
  lemma Split(broker: Broker, system: System, request: Request, env: Env)
    ensures var n := |system.disk.Visible().pending|;
      var first := Step(broker, Step(broker, system, Begin(0, request)), ListIssues(0, env.lists));
      Run(broker, system, GenerateSteps(system, request, env)) ==
        Run(broker, Run(broker, first, Reconciles(n, 0, env)), LastSteps(env))
  {
    hide Step;
    var n := |system.disk.Visible().pending|;
    var opening := [Begin(0, request), ListIssues(0, env.lists)];
    var middle := Reconciles(n, 0, env);
    TwoSteps(broker, system, opening[0], opening[1]);
    RunAppend(broker, system, opening, middle);
    RunAppend(broker, system, opening + middle, LastSteps(env));
  }

  /** How a call begins, as the only call. */
  lemma Opening(broker: Broker, system: System, request: Request, env: Env)
    requires system.calls == map[] && ValidCommand(request)
    ensures var pending := PendingIds(system.disk.Visible().pending);
      Step(broker, Step(broker, system, Begin(0, request)), ListIssues(0, env.lists)) ==
        if pending == [] then system.(calls := map[0 := Reconciling(request, [], [])])
        else if env.lists then system.(calls := map[0 := Reconciling(request, pending, system.issues)])
        else system
  {
    var begun := Step(broker, system, Begin(0, request));
    assert begun.calls - {0} == map[];
  }

  lemma Unlisted(broker: Broker, system: System, request: Request, env: Env)
    requires system.calls == map[] && ValidCommand(request) && !env.lists && system.disk.Visible().pending != []
    ensures Run(broker, system, GenerateSteps(system, request, env)) == system
  {
    hide Step;
    var n := |system.disk.Visible().pending|;
    Opening(broker, system, request, env);
    Split(broker, system, request, env);
    ReconcilesAreOfCall(n, 0, env);
    EndedStays(broker, system, Reconciles(n, 0, env));
    EndedStays(broker, system, LastSteps(env));
  }

  lemma NeverBegun(broker: Broker, system: System, request: Request, env: Env)
    requires system.calls == map[] && !ValidCommand(request)
    ensures Run(broker, system, GenerateSteps(system, request, env)) == system
  {
    var n := |system.disk.Visible().pending|;
    assert Step(broker, Step(broker, system, Begin(0, request)), ListIssues(0, env.lists)) == system;
    hide Step;
    Split(broker, system, request, env);
    ReconcilesAreOfCall(n, 0, env);
    EndedStays(broker, system, Reconciles(n, 0, env));
    EndedStays(broker, system, LastSteps(env));
  }
}
