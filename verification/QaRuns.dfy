/** Whole runs of the QA coordinator: processes come and go, crash anywhere, and power may fail. */
module QaRuns {
  import opened Results
  import opened Disk
  import opened QaModel

  datatype System =
    | Idle(disk: Journal, log: seq<Event>, started: nat)
    | Busy(machine: Machine, started: nat)
  {
    function History(): seq<Event> { if Idle? then log else machine.log }
    function Journal(): Journal { if Idle? then disk else machine.disk }
  }

  /** `Leave` is a crash, a kill, `quit` or the end of input. The lock admits one process at a time. */
  datatype Action =
    | Enter(selection: string, env: Env)
    | ResolveRetained(selection: string, env: Env)
    | Do(verb: Verb, env: Env)
    | Leave
    | LosePower(choice: nat)

  const INITIAL := Idle(Disk(None, []), [], 0)

  function Step(system: System, action: Action): System {
    match action
    case Enter(selection, env) =>
      if system.Busy? then system
      else
        var flow := Begin(system.disk, system.log, system.started, selection, env);
        if flow.status == Fine then Busy(flow.machine, system.started + 1)
        else Idle(flow.machine.disk, flow.machine.log, system.started + 1)
    case ResolveRetained(selection, env) =>
      if system.Busy? then system
      else
        var flow := Resolve(system.disk, system.log, system.started, selection, env);
        Idle(flow.machine.disk, flow.machine.log, system.started + 1)
    case Do(verb, env) =>
      if system.Idle? then system
      else
        var flow := Perform(system.machine, verb, env);
        if Survives(system.machine, flow) then system.(machine := flow.machine)
        else Idle(flow.machine.disk, flow.machine.log, system.started)
    case Leave => Idle(system.Journal(), system.History(), system.started)
    case LosePower(choice) => Idle(system.Journal().AfterPowerLoss(choice), system.History(), system.started)
  }

  function Run(system: System, actions: seq<Action>): System
    decreases |actions|
  {
    if actions == [] then system else Run(Step(system, actions[0]), actions[1..])
  }

  // ----- what a log may hold -----

  function Deliveries(log: seq<Event>, session: nat): nat {
    if log == [] then 0
    else
      var last := log[|log| - 1];
      Deliveries(log[..|log| - 1], session) + if last.Delivered? && last.session == session then 1 else 0
  }

  ghost predicate AuthorizedBy(log: seq<Event>, session: nat, owner: nat) {
    exists selection :: Authorized(session, selection, owner) in log
  }

  /** The journal on disk, and whatever a power loss would leave of it, names this effect on the active Session. */
  predicate Recorded(ahead: Journal, session: nat, pending: Pending) {
    && ahead.renamed == [] && ahead.durable.Some?
    && ahead.durable.value.active == Some(session) && ahead.durable.value.pending == pending
  }

  /** `event` may follow `past`. */
  ghost predicate Allowed(past: seq<Event>, event: Event) {
    match event
    case Authorized(session, selection, owner) =>
      && session < SESSIONS && selection.Some?
      && (forall earlier :: 0 <= earlier < session ==> DisposalConfirmed(earlier) in past)
      && (forall other :: other in past && other.Authorized? ==> other.session < session && other.selection == selection)
    case Launched(session, ahead) => DisposalConfirmed(session) !in past && Recorded(ahead, session, Launch)
    case LifecycleSent(session, action, ahead) => Recorded(ahead, session, Operation(action, session))
    case Delivered(session, sequence, owner, ahead) =>
      && AuthorizedBy(past, session, owner) && DisposalConfirmed(session) !in past
      && sequence == Deliveries(past, session) + 1 && sequence <= COMMANDS
      && Recorded(ahead, session, Tool(sequence)) && ahead.durable.value.spent == sequence
    case _ => true
  }

  ghost predicate Lawful(log: seq<Event>) {
    forall k :: 0 <= k < |log| ==> Allowed(log[..k], log[k])
  }

  // ----- the journal agrees with the log -----

  ghost predicate Agrees(log: seq<Event>, value: Value) {
    && WellFormed(value)
    && (forall event :: event in log && event.Authorized? ==>
        event.session < value.next && event.selection.Some? && value.selection == event.selection)
    && (forall event :: event in log && event.DisposalConfirmed? ==> event.session < value.next)
    && (forall session :: 0 <= session < value.next ==> value.active == Some(session) || DisposalConfirmed(session) in log)
    && (value.active.Some? ==>
        value.active.value + 1 == value.next && Deliveries(log, value.active.value) <= value.spent)
  }

  ghost predicate Holds(log: seq<Event>, stored: Option<Value>) {
    match stored
    case None => forall event :: event in log ==> !event.Authorized? && !event.DisposalConfirmed?
    case Some(value) => Agrees(log, value)
  }

  /** Whatever a power loss brings back agrees with everything that may have happened. */
  ghost predicate Safe(disk: Journal, log: seq<Event>) {
    Lawful(log) && forall stored :: stored in disk.Candidates() ==> Holds(log, stored)
  }

  ghost predicate Steady(m: Machine) {
    m.disk == Disk(Some(m.value), []) && Agrees(m.log, m.value) && Lawful(m.log)
  }

  /** The process authorized `session` itself and has not seen it disposed. */
  ghost predicate Owns(m: Machine, session: nat) {
    && m.value.active == Some(session)
    && Authorized(session, m.value.selection, m.owner) in m.log
    && DisposalConfirmed(session) !in m.log
    && Deliveries(m.log, session) == m.value.spent
  }

  ghost predicate Between(m: Machine) {
    && Steady(m) && m.value.selection.Some?
    && m.value.pending in {Settled, Authorization}
    && m.request == m.value.active
    && (m.request.Some? ==> Owns(m, m.request.value))
    && (m.child ==> m.request.Some?)
  }

  /** The log only grew, and only by this owner's authorizations and commands. */
  ghost predicate Grew(before: Machine, after: Machine) {
    before.owner == after.owner && Extends(before.log, after.log, before.owner)
  }

  ghost predicate Extends(before: seq<Event>, after: seq<Event>, owner: nat) {
    && before <= after
    && forall k :: |before| <= k < |after| && (after[k].Authorized? || after[k].Delivered?) ==> after[k].owner == owner
  }

  ghost predicate Inv(system: System) {
    && Safe(system.Journal(), system.History())
    && (forall event :: event in system.History() && event.Authorized? ==> event.owner < system.started)
    && (system.Busy? ==> Between(system.machine) && system.machine.owner < system.started)
  }

  // ----- extending the log -----

  lemma LawfulAppend(log: seq<Event>, event: Event)
    requires Lawful(log) && Allowed(log, event)
    ensures Lawful(log + [event])
  {
    hide Allowed;
    var longer := log + [event];
    forall k | 0 <= k < |longer| ensures Allowed(longer[..k], longer[k]) {
      if k == |log| { assert longer[..k] == log; } else { assert longer[..k] == log[..k]; }
    }
  }

  lemma DeliveriesAppend(log: seq<Event>, event: Event, session: nat)
    ensures Deliveries(log + [event], session) ==
      Deliveries(log, session) + if event.Delivered? && event.session == session then 1 else 0
  {
    assert (log + [event])[..|log|] == log;
  }

  lemma AgreesAppend(log: seq<Event>, event: Event, value: Value)
    requires Agrees(log, value)
    requires event.Authorized? ==> event.session < value.next && event.selection.Some? && value.selection == event.selection
    requires event.DisposalConfirmed? ==> event.session < value.next
    requires event.Delivered? && value.active == Some(event.session) ==> Deliveries(log, event.session) < value.spent
    ensures Agrees(log + [event], value)
  {
    if value.active.Some? { DeliveriesAppend(log, event, value.active.value); }
  }

  /** Logging an allowed event keeps a steady machine steady. */
  lemma LogKeeps(m: Machine, event: Event)
    requires Steady(m) && Allowed(m.log, event)
    requires event.Authorized? ==>
      event.session < m.value.next && event.selection.Some? && m.value.selection == event.selection
    requires event.DisposalConfirmed? ==> event.session < m.value.next
    requires event.Delivered? && m.value.active == Some(event.session) ==> Deliveries(m.log, event.session) < m.value.spent
    requires event.Authorized? || event.Delivered? ==> event.owner == m.owner
    ensures Steady(Log(m, event)) && Grew(m, Log(m, event))
  {
    LawfulAppend(m.log, event);
    AgreesAppend(m.log, event, m.value);
    hide Agrees, Lawful, Allowed;
  }

  lemma SteadyIsSafe(m: Machine)
    requires Steady(m)
    ensures Safe(m.disk, m.log)
  {
    hide Agrees, Lawful;
  }

  /** Saving a value that agrees leaves the disk safe, and steady when the save completed. */
  lemma SaveKeeps(m: Machine, value: Value, fault: PersistFault)
    requires Steady(m) && Agrees(m.log, value)
    ensures var flow := Save(m.(value := value), fault);
      && Safe(flow.machine.disk, flow.machine.log)
      && flow.machine == m.(value := value, disk := flow.machine.disk)
      && (flow.status == Fine <==> fault == Synced)
      && flow.status != Refusal
      && (flow.status == Fine ==> Steady(flow.machine))
  {
    hide Agrees, Lawful;
  }

  lemma GrewTransitive(a: Machine, b: Machine, c: Machine)
    requires Grew(a, b) && Grew(b, c)
    ensures Grew(a, c)
  {
  }

  lemma GrewReflexive(m: Machine)
    ensures forall other: Machine :: other.log == m.log && other.owner == m.owner ==> Grew(m, other) && Grew(other, m)
  {
  }

  /** Changing only the pending marker keeps agreement. */
  lemma PendAgrees(log: seq<Event>, value: Value, pending: Pending)
    requires Agrees(log, value)
    ensures Agrees(log, value.(pending := pending)) && Agrees(log, value.(approved := true))
  {
  }

  // ----- verbs -----

  /** What every flow owes: a safe disk and a log that only grew. */
  ghost predicate Owes(m: Machine, flow: Flow) {
    Safe(flow.machine.disk, flow.machine.log) && Grew(m, flow.machine)
  }

  lemma ReserveKeeps(m: Machine, env: Env)
    requires Steady(m)
    ensures var flow := Reserve(m, env);
      && Owes(m, flow)
      && (flow.status == Refusal ==> flow.machine == m)
      && (flow.status == Fine ==>
          && Steady(flow.machine) && m.value.next < SESSIONS && m.value.active.None?
          && flow.machine == m.(disk := flow.machine.disk, value := m.value.(
               next := m.value.next + 1, active := Some(m.value.next), spent := 0, pending := Authorization)))
  {
    SteadyIsSafe(m);
    GrewReflexive(m);
    if m.value.next < SESSIONS && m.value.active.None? {
      var value := m.value.(next := m.value.next + 1, active := Some(m.value.next), spent := 0, pending := Authorization);
      NothingDeliveredYet(m.log, m.value.next) by { NextIsUnauthorized(m); }
      assert Agrees(m.log, value);
      SaveKeeps(m, value, env.fault(Reserving));
    }
    hide Agrees, Safe, Steady, Grew;
  }

  lemma NextIsUnauthorized(m: Machine)
    requires Steady(m)
    ensures Lawful(m.log) && forall event :: event in m.log && event.Authorized? ==> event.session != m.value.next
  {
  }

  lemma {:induction false} NothingDeliveredYet(log: seq<Event>, session: nat)
    requires Lawful(log) && forall event :: event in log && event.Authorized? ==> event.session != session
    ensures Deliveries(log, session) == 0
  {
    if log != [] {
      var n := |log| - 1;
      LawfulPrefix(log, n);
      NothingDeliveredYet(log[..n], session);
      assert Allowed(log[..n], log[n]);
    }
  }

  lemma LawfulPrefix(log: seq<Event>, n: nat)
    requires Lawful(log) && n <= |log|
    ensures Lawful(log[..n])
  {
    hide Allowed;
    forall k | 0 <= k < n ensures Allowed(log[..n][..k], log[..n][k]) {
      assert log[..n][..k] == log[..k];
    }
  }

  predicate Quiet(event: Event) {
    event.RunApproved? || event.LifecycleSent?
  }

  lemma QuietKeeps(m: Machine, event: Event)
    requires Steady(m) && Quiet(event) && Allowed(m.log, event)
    ensures Steady(Log(m, event)) && Grew(m, Log(m, event)) && Safe(m.disk, m.log + [event])
    ensures forall session :: Owns(m, session) ==> Owns(Log(m, event), session)
  {
    LogKeeps(m, event);
    SteadyIsSafe(Log(m, event));
    forall session | Owns(m, session) ensures Owns(Log(m, event), session) { OwnsKept(m, event, session); }
  }

  lemma OwnsKept(m: Machine, event: Event, session: nat)
    requires Owns(m, session) && !event.Delivered? && !event.DisposalConfirmed?
    ensures Owns(Log(m, event), session)
  {
    DeliveriesAppend(m.log, event, session);
  }

  lemma ApproveKeeps(m: Machine, env: Env)
    requires Steady(m)
    ensures var flow := ApproveRun(m, env);
      && Owes(m, flow) && flow.machine.value.next == m.value.next
      && (flow.status == Fine ==>
          && Steady(flow.machine)
          && flow.machine == m.(disk := flow.machine.disk, log := flow.machine.log, value := m.value.(approved := true))
          && (flow.machine.log == m.log || flow.machine.log == m.log + [RunApproved]))
  {
    SteadyIsSafe(m);
    GrewReflexive(m);
    if !m.value.approved {
      var asked := Log(m, RunApproved);
      QuietKeeps(m, RunApproved);
      PendAgrees(asked.log, m.value, Settled);
      hide Agrees, Safe, Owns;
      SaveKeeps(asked, m.value.(approved := true), env.fault(Approving));
    }
  }

  lemma AuthorizeKeeps(m: Machine, env: Env)
    requires Between(m) && m.request.None?
    ensures var flow := Authorize(m, env);
      && Owes(m, flow)
      && (flow.status == Refusal && flow.machine.value == m.value ==> flow.machine == m)
      && (flow.status == Fine ==>
          && Steady(flow.machine) && flow.machine.request == Some(m.value.next)
          && Owns(flow.machine, m.value.next)
          && flow.machine.value.active == flow.machine.request
          && flow.machine.value.selection.Some? && flow.machine.value.pending == Authorization
          && flow.machine.child == m.child)
  {
    hide Steady, Safe, Reserve, ApproveRun, Owns;
    ReserveKeeps(m, env);
    var reserved := Reserve(m, env);
    if env.answer(Release) == Fine && reserved.status == Fine {
      ApproveKeeps(reserved.machine, env);
      var approved := ApproveRun(reserved.machine, env);
      GrewTransitive(m, reserved.machine, approved.machine);
      if approved.status == Fine && env.answer(Inputs) == Fine {
        NewSession(m, approved.machine);
        var event := Authorized(m.value.next, approved.machine.value.selection, m.owner);
        GrewTransitive(m, approved.machine, Log(approved.machine, event));
        SteadyIsSafe(Log(approved.machine, event));
        RenamedOwns(Log(approved.machine, event), m.value.next);
      }
    }
    SteadyIsSafe(m);
    GrewReflexive(m);
  }

  lemma RenamedOwns(m: Machine, session: nat)
    requires Steady(m) && Owns(m, session)
    ensures Steady(m.(request := Some(session))) && Owns(m.(request := Some(session)), session)
  {
  }

  lemma NextIsAllowed(before: seq<Event>, log: seq<Event>, value: Value, owner: nat)
    requires Agrees(before, value) && value.active.None? && value.next < SESSIONS && value.selection.Some?
    requires log == before || log == before + [RunApproved]
    ensures Allowed(log, Authorized(value.next, value.selection, owner))
    ensures DisposalConfirmed(value.next) !in log
    ensures forall event :: event in log && event.Authorized? ==> event.session != value.next
  {
    assert forall other :: other in log && (other.Authorized? || other.DisposalConfirmed?) ==> other in before;
  }

  /** The reserved Session may be authorized, and belongs to this process once it is. */
  lemma NewSession(before: Machine, m: Machine)
    requires Steady(before) && before.value.active.None? && before.value.next < SESSIONS && before.value.selection.Some?
    requires Steady(m) && m.owner == before.owner
    requires m.log == before.log || m.log == before.log + [RunApproved]
    requires m.value == before.value.(next := before.value.next + 1, active := Some(before.value.next), spent := 0,
                                      pending := Authorization, approved := true)
    ensures var event := Authorized(before.value.next, m.value.selection, before.owner);
      && Steady(Log(m, event)) && Grew(m, Log(m, event)) && Owns(Log(m, event), before.value.next)
  {
    var session := before.value.next;
    var event := Authorized(session, m.value.selection, before.owner);
    NextIsAllowed(before.log, m.log, before.value, before.owner);
    NothingDeliveredYet(m.log, session);
    DeliveriesAppend(m.log, event, session);
    hide Agrees, Lawful, Allowed, Deliveries;
    LogKeeps(m, event);
  }

  /** Changing only the pending marker of a steady machine, durably. */
  lemma PendKeeps(m: Machine, pending: Pending, fault: PersistFault)
    requires Steady(m)
    ensures var flow := Save(Pend(m, pending), fault);
      && Owes(m, flow) && flow.status != Refusal
      && flow.machine == m.(value := m.value.(pending := pending), disk := flow.machine.disk)
      && (flow.status == Fine ==> Steady(flow.machine) && forall session :: Owns(m, session) ==> Owns(flow.machine, session))
  {
    PendAgrees(m.log, m.value, pending);
    SaveKeeps(m, m.value.(pending := pending), fault);
    GrewReflexive(m);
    hide Agrees, Lawful, Safe;
  }

  lemma LaunchKeeps(m: Machine, env: Env)
    requires Steady(m) && m.request.Some? && Owns(m, m.request.value)
    ensures var flow := LaunchSession(m, env);
      && Owes(m, flow)
      && (flow.status == Refusal ==> flow.machine.value.pending == Launch)
      && (flow.status == Fine ==>
          && Steady(flow.machine) && Owns(flow.machine, m.request.value)
          && flow.machine.request == m.request && flow.machine.child && flow.machine.value.pending == Settled
          && flow.machine.value == m.value.(pending := Settled))
  {
    var session := m.request.value;
    assert DisposalConfirmed(session) !in m.log && m.value.active == Some(session);
    hide Steady, Safe, Owns, Grew;
    PendKeeps(m, Launch, env.fault(Launching));
    var saved := Save(Pend(m, Launch), env.fault(Launching));
    var event := Launched(session, saved.machine.disk);
    if saved.status == Fine {
      LogKeeps(saved.machine, event);
      OwnsKept(saved.machine, event, session);
      var asked := Log(saved.machine, event);
      SteadyIsSafe(asked);
      PendKeeps(asked, Settled, env.fault(LaunchingDone));
      var done := Save(Pend(asked, Settled), env.fault(LaunchingDone));
      GrewTransitive(m, saved.machine, asked);
      GrewTransitive(m, asked, done.machine);
      ChildIrrelevant(m, done.machine, m.request);
    }
  }

  lemma ChildIrrelevant(m: Machine, next: Machine, request: Option<nat>)
    ensures forall child :: Steady(next) ==> Steady(next.(child := child, request := request))
    ensures forall child :: Grew(m, next) ==> Grew(m, next.(child := child, request := request))
    ensures forall child, session :: Owns(next, session) ==> Owns(next.(child := child, request := request), session)
  {
  }

  /** The request is durable before it is sent. */
  lemma RequestKeeps(m: Machine, session: nat, action: Lifecycle, fault: PersistFault)
    requires Steady(m) && m.value.active == Some(session)
    ensures var flow := Save(Pend(m, Operation(action, session)), fault);
      var sent := Log(flow.machine, LifecycleSent(session, action, flow.machine.disk));
      && Owes(m, flow) && flow.status != Refusal
      && flow.machine == m.(value := m.value.(pending := Operation(action, session)), disk := flow.machine.disk)
      && (flow.status == Fine ==>
          && Steady(sent) && Safe(sent.disk, sent.log) && Grew(m, sent)
          && (Owns(m, session) ==> Owns(sent, session)))
  {
    hide Steady, Safe, Owns, Grew;
    PendKeeps(m, Operation(action, session), fault);
    var saved := Save(Pend(m, Operation(action, session)), fault).machine;
    if fault == Synced {
      var event := LifecycleSent(session, action, saved.disk);
      QuietKeeps(saved, event);
      GrewTransitive(m, saved, Log(saved, event));
    }
  }

  lemma LifecycleKeeps(m: Machine, session: nat, action: Lifecycle, env: Env)
    requires Steady(m) && action != Disposal && m.value.active == Some(session)
    ensures var flow := RunLifecycle(m, session, action, env);
      && Owes(m, flow)
      && (flow.status == Refusal ==> flow.machine == m || flow.machine.value.pending.Operation?)
      && (flow.status == Fine ==>
          && Steady(flow.machine) && flow.machine.request == m.request && flow.machine.child == m.child
          && flow.machine.value == m.value.(pending := Settled)
          && (Owns(m, session) ==> Owns(flow.machine, session)))
  {
    hide Steady, Safe, Owns, Grew;
    SteadyIsSafe(m);
    GrewReflexive(m);
    RequestKeeps(m, session, action, env.fault(Requesting));
    var saved := Save(Pend(m, Operation(action, session)), env.fault(Requesting));
    if saved.status == Fine {
      var sent := Log(saved.machine, LifecycleSent(session, action, saved.machine.disk));
      PendKeeps(sent, Settled, env.fault(RequestingDone));
      GrewTransitive(m, sent, Save(Pend(sent, Settled), env.fault(RequestingDone)).machine);
    }
  }

  lemma DisposalKeeps(m: Machine, session: nat, env: Env)
    requires Steady(m) && m.value.active == Some(session)
    ensures var flow := RunLifecycle(m, session, Disposal, env);
      && Owes(m, flow)
      && (flow.status == Refusal ==> flow.machine == m || flow.machine.value.pending.Operation?)
      && (flow.status == Fine ==>
          && Steady(flow.machine) && flow.machine.request == m.request && flow.machine.child == m.child
          && flow.machine.value == m.value.(pending := Operation(Disposal, session))
          && DisposalConfirmed(session) in flow.machine.log)
  {
    assert session < m.value.next;
    hide Steady, Safe, Owns, Grew;
    SteadyIsSafe(m);
    GrewReflexive(m);
    RequestKeeps(m, session, Disposal, env.fault(Requesting));
    var saved := Save(Pend(m, Operation(Disposal, session)), env.fault(Requesting));
    if saved.status == Fine {
      var sent := Log(saved.machine, LifecycleSent(session, Disposal, saved.machine.disk));
      ConfirmKeeps(m, sent, session);
      var confirmed := Log(sent, DisposalConfirmed(session));
      assert RunLifecycle(m, session, Disposal, env) ==
        if env.answer(StatusReply) != Fine then Flow(m, env.answer(StatusReply))
        else if env.answer(LifecycleReply) != Fine then Flow(sent, env.answer(LifecycleReply))
        else Flow(confirmed, env.answer(LifecycleEvidence));
      hide *;
    }
  }

  lemma ConfirmKeeps(before: Machine, m: Machine, session: nat)
    requires Steady(m) && session < m.value.next && Grew(before, m)
    ensures var confirmed := Log(m, DisposalConfirmed(session));
      && Steady(confirmed) && Safe(confirmed.disk, confirmed.log) && Grew(before, confirmed)
      && DisposalConfirmed(session) in confirmed.log
  {
    LogKeeps(m, DisposalConfirmed(session));
    SteadyIsSafe(Log(m, DisposalConfirmed(session)));
    GrewTransitive(before, m, Log(m, DisposalConfirmed(session)));
  }

  lemma TerminalKeeps(m: Machine, env: Env)
    requires Steady(m)
    requires m.value.active.Some? ==> DisposalConfirmed(m.value.active.value) in m.log
    ensures var flow := Terminal(m, env);
      && Owes(m, flow)
      && (flow.status == Refusal ==> flow.machine == m && m.value.active.None?)
      && (flow.status == Fine ==>
          && Steady(flow.machine)
          && flow.machine == m.(disk := flow.machine.disk, value := m.value.(active := None, pending := Settled, spent := 0)))
  {
    SteadyIsSafe(m);
    GrewReflexive(m);
    var value := m.value.(active := None, pending := Settled, spent := 0);
    assert Agrees(m.log, value);
    SaveKeeps(m, value, env.fault(Freeing));
    hide Agrees, Safe, Steady;
  }

  lemma DisposeKeeps(m: Machine, env: Env)
    requires Between(m) && m.request.Some?
    ensures var flow := Dispose(m, env);
      && Owes(m, flow)
      && (flow.status == Refusal && flow.machine.value == m.value ==> flow.machine == m)
      && (flow.status == Fine ==> Between(flow.machine))
  {
    hide Steady, Safe, Owns, Grew, RunLifecycle, Terminal;
    var session := m.request.value;
    assert m.value.active == Some(session);
    DisposalKeeps(m, session, env);
    var disposed := RunLifecycle(m, session, Disposal, env).machine;
    if RunLifecycle(m, session, Disposal, env).status == Fine {
      TerminalKeeps(disposed, env);
      SteadyIsSafe(disposed);
      GrewTransitive(m, disposed, Terminal(disposed, env).machine);
      ChildIrrelevant(m, Terminal(disposed, env).machine, None);
    }
  }

  lemma ResumeKeeps(m: Machine, env: Env)
    requires Between(m) && m.request.Some?
    ensures var flow := ResumeSession(m, env);
      && Owes(m, flow)
      && (Survives(m, flow) ==> Between(flow.machine))
  {
    hide Steady, Safe, Owns, Grew, RunLifecycle;
    LifecycleKeeps(m, m.request.value, Resume, env);
  }

  lemma ParkKeeps(m: Machine, env: Env)
    requires Between(m) && m.request.Some?
    ensures var flow := RunLifecycle(m, m.request.value, Park, env);
      && Owes(m, flow)
      && (Survives(m, flow) ==> Between(flow.machine))
  {
    hide Steady, Safe, Owns, Grew, RunLifecycle;
    LifecycleKeeps(m, m.request.value, Park, env);
  }

  lemma SpendAgrees(log: seq<Event>, value: Value)
    requires Agrees(log, value) && value.spent < COMMANDS
    ensures Agrees(log, value.(spent := value.spent + 1, pending := Tool(value.spent + 1)))
  {
  }

  lemma CommandKeeps(m: Machine, env: Env)
    requires Between(m) && m.request.Some? && m.child
    ensures var flow := Command(m, env);
      && Owes(m, flow)
      && (Survives(m, flow) ==> Between(flow.machine))
  {
    hide Safe, Agrees, Grew, Lawful, Owns;
    SteadyIsSafe(m);
    GrewReflexive(m);
    if m.value.spent < COMMANDS {
      var value := m.value.(spent := m.value.spent + 1, pending := Tool(m.value.spent + 1));
      SpendAgrees(m.log, m.value);
      SaveKeeps(m, value, env.fault(Spending));
      var saved := Save(m.(value := value), env.fault(Spending)).machine;
      GrewReflexive(saved);
      if env.fault(Spending) == Synced {
        CommandDelivered(m, saved, env);
      }
    }
  }

  /** The active Session's next command is lawful, and after it everything spent is delivered. */
  lemma NextCommand(m: Machine, session: nat, ahead: Journal)
    requires Owns(m, session) && m.value.spent < COMMANDS
    requires Recorded(ahead, session, Tool(m.value.spent + 1)) && ahead.durable.value.spent == m.value.spent + 1
    ensures var event := Delivered(session, m.value.spent + 1, m.owner, ahead);
      && Allowed(m.log, event) && Deliveries(m.log, session) == m.value.spent
      && Deliveries(m.log + [event], session) == m.value.spent + 1
      && DisposalConfirmed(session) !in m.log + [event]
      && Authorized(session, m.value.selection, m.owner) in m.log + [event]
  {
    assert AuthorizedBy(m.log, session, m.owner);
    DeliveriesAppend(m.log, Delivered(session, m.value.spent + 1, m.owner, ahead), session);
  }

  /** Once a command is durably spent, delivering it is lawful, and a good reply returns to the loop. */
  lemma CommandDelivered(m: Machine, saved: Machine, env: Env)
    requires Between(m) && m.request.Some? && m.child && m.value.spent < COMMANDS
    requires Steady(saved) && saved.disk == Disk(Some(saved.value), [])
    requires saved == m.(disk := saved.disk, value := m.value.(spent := m.value.spent + 1, pending := Tool(m.value.spent + 1)))
    ensures var replied := Log(saved, Delivered(m.request.value, m.value.spent + 1, m.owner, saved.disk));
      var flow := Save(Pend(replied, Settled), env.fault(SpendingDone));
      && Safe(replied.disk, replied.log) && Grew(m, replied)
      && Safe(flow.machine.disk, flow.machine.log) && Grew(m, flow.machine)
      && (flow.status == Fine ==> Between(flow.machine))
  {
    var session := m.request.value;
    var event := Delivered(session, m.value.spent + 1, m.owner, saved.disk);
    NextCommand(m, session, saved.disk);
    var replied := Log(saved, event);
    assert Owns(replied, session);
    hide Agrees, Lawful, Allowed, Safe, Owns, Deliveries, AuthorizedBy;
    LogKeeps(saved, event);
    SteadyIsSafe(replied);
    hide Steady, Grew;
    GrewReflexive(m);
    GrewTransitive(m, saved, replied);
    PendKeeps(replied, Settled, env.fault(SpendingDone));
    GrewTransitive(m, replied, Save(Pend(replied, Settled), env.fault(SpendingDone)).machine);
  }

  /** Whatever a verb meets, the disk stays safe; a process that survives it is between verbs again. */
  lemma PerformKeeps(m: Machine, verb: Verb, env: Env)
    requires Between(m)
    ensures var flow := Perform(m, verb, env);
      && Owes(m, flow)
      && (Survives(m, flow) ==> Between(flow.machine))
  {
    hide Steady, Safe, Owns, Grew, Authorize, LaunchSession, Dispose, ResumeSession, RunLifecycle, Command;
    SteadyIsSafe(m);
    GrewReflexive(m);
    match verb {
      case Start =>
        if m.request.None? {
          AuthorizeKeeps(m, env);
          var authorized := Authorize(m, env);
          if authorized.status == Fine {
            LaunchKeeps(authorized.machine, env);
            GrewTransitive(m, authorized.machine, LaunchSession(authorized.machine, env).machine);
            SteadyIsSafe(authorized.machine);
          }
        }
      case AuthorizeOnly => if m.request.None? { AuthorizeKeeps(m, env); }
      case LaunchOnly => if m.request.Some? && !m.child { LaunchKeeps(m, env); }
      case ShowStatus =>
      case RunCommand => if m.child { CommandKeeps(m, env); }
      case ParkVerb => if m.request.Some? { ParkKeeps(m, env); }
      case ResumeVerb => if m.request.Some? { ResumeKeeps(m, env); }
      case DisposeVerb => if m.request.Some? { DisposeKeeps(m, env); }
      case Unknown =>
    }
  }

  // ----- processes -----

  lemma SafeSave(m: Machine, fault: PersistFault)
    requires Safe(m.disk, m.log) && Agrees(m.log, m.value)
    ensures var flow := Save(m, fault);
      && Owes(m, flow) && flow.machine == m.(disk := flow.machine.disk)
      && (flow.status == Fine ==> Steady(flow.machine))
  {
    hide Agrees, Lawful;
    GrewReflexive(m);
  }

  lemma SelectionAgrees(log: seq<Event>, value: Value, selection: string)
    requires Agrees(log, value) && value.selection in {None, Some(selection)}
    ensures Agrees(log, value.(selection := Some(selection)))
  {
  }

  lemma LoadKeeps(m: Machine, env: Env)
    requires Safe(m.disk, m.log) && m.value == FRESH
    ensures var flow := Load(m, env);
      && Owes(m, flow)
      && flow.machine == m.(disk := flow.machine.disk, value := flow.machine.value)
      && (flow.status == Fine ==> Agrees(flow.machine.log, flow.machine.value))
  {
    GrewReflexive(m);
    var visible := m.disk.Visible();
    assert visible in m.disk.Candidates();
    hide Lawful;
    if visible.None? {
      assert Agrees(m.log, FRESH);
      SafeSave(m, env.fault(Creating));
    }
  }

  lemma OpenKeeps(disk: Journal, log: seq<Event>, owner: nat, selection: string, env: Env)
    requires Safe(disk, log)
    ensures var flow := Open(disk, log, owner, selection, env);
      var m := flow.machine;
      && Safe(m.disk, m.log) && m.log == log && m.owner == owner && m.request.None? && !m.child
      && (flow.status == Fine ==> Steady(m) && m.value.selection == Some(selection))
  {
    hide Agrees, Safe, Steady, WellFormed;
    var m := Machine(disk, FRESH, log, owner, None, false);
    LoadKeeps(m, env);
    var loaded := Load(m, env).machine;
    if Load(m, env).status == Fine && loaded.value.selection in {None, Some(selection)} {
      SelectionAgrees(log, loaded.value, selection);
      SafeSave(loaded.(value := loaded.value.(selection := Some(selection))), env.fault(Selecting));
    }
  }

  lemma ResolveKeeps(disk: Journal, log: seq<Event>, owner: nat, selection: string, env: Env)
    requires Safe(disk, log)
    ensures var flow := Resolve(disk, log, owner, selection, env);
      Safe(flow.machine.disk, flow.machine.log) && Extends(log, flow.machine.log, owner)
  {
    OpenKeeps(disk, log, owner, selection, env);
    var m := Open(disk, log, owner, selection, env).machine;
    hide Safe, Steady, Open, RunLifecycle, Terminal, ResolveDisposal;
    assert Extends(log, log, owner);
    if Open(disk, log, owner, selection, env).status == Fine && m.value.active.Some? {
      RetainedKeeps(m, m.value.active.value, env);
      var disposed := ResolveDisposal(m, m.value.active.value, env);
      if disposed.status == Fine {
        TerminalKeeps(disposed.machine, env);
        GrewTransitive(m, disposed.machine, Terminal(disposed.machine, env).machine);
      }
    }
  }

  lemma RetainedSent(m: Machine, session: nat)
    requires Steady(m) && m.value.active == Some(session) && m.value.pending == Operation(Disposal, session)
    ensures var sent := Log(m, LifecycleSent(session, Disposal, m.disk));
      Steady(sent) && Grew(m, sent) && Safe(sent.disk, sent.log)
  {
    QuietKeeps(m, LifecycleSent(session, Disposal, m.disk));
  }

  lemma RetainedKeeps(m: Machine, session: nat, env: Env)
    requires Steady(m) && m.value.active == Some(session)
    ensures var flow := ResolveDisposal(m, session, env);
      && Owes(m, flow)
      && (flow.status == Fine ==>
          Steady(flow.machine) && DisposalConfirmed(session) in flow.machine.log && flow.machine.value.active == Some(session))
  {
    assert session < m.value.next;
    hide Steady, Safe, Owns, Grew, RunLifecycle;
    SteadyIsSafe(m);
    GrewReflexive(m);
    if m.value.pending.Operation? && m.value.pending.action == Disposal {
      var sent := Log(m, LifecycleSent(session, Disposal, m.disk));
      if m.value.pending.session == session { RetainedSent(m, session); }
      if m.value.pending.session == session { ConfirmKeeps(m, sent, session); }
      assert ResolveDisposal(m, session, env) ==
        if m.value.pending.session != session then Flow(m, Refusal)
        else if env.answer(LifecycleReply) != Fine then Flow(sent, env.answer(LifecycleReply))
        else Flow(Log(sent, DisposalConfirmed(session)), env.answer(LifecycleEvidence));
      hide *;
    } else {
      DisposalKeeps(m, session, env);
    }
  }

  /** Every step keeps the journal in agreement with the log, and extends the log only by its own process. */
  lemma StepKeepsInv(system: System, action: Action)
    requires Inv(system)
    ensures Inv(Step(system, action))
    ensures system.started <= Step(system, action).started
    ensures var owner := if system.Busy? then system.machine.owner else system.started;
      Extends(system.History(), Step(system, action).History(), owner)
    ensures system.Idle? && Step(system, action).Busy? ==> Step(system, action).machine.owner == system.started
    ensures system.Busy? && Step(system, action).Busy? ==> Step(system, action).machine.owner == system.machine.owner
  {
    hide Safe, Between, Begin, Resolve, Perform, Survives, Extends;
    match action {
      case Enter(selection, env) => if system.Idle? { EnterKeeps(system, selection, env); }
      case ResolveRetained(selection, env) =>
        if system.Idle? {
          ResolveKeeps(system.disk, system.log, system.started, selection, env);
          OwnersStay(system.log, Step(system, action).log, system.started, system.started + 1);
        }
      case Do(verb, env) =>
        if system.Busy? {
          PerformKeeps(system.machine, verb, env);
          OwnersStay(system.machine.log, Step(system, action).History(), system.machine.owner, system.started);
        }
      case Leave =>
      case LosePower(choice) => PowerLossKeeps(system.Journal(), system.History(), choice);
    }
    ExtendsReflexive(system.History());
  }

  lemma EnterKeeps(system: System, selection: string, env: Env)
    requires Inv(system) && system.Idle?
    ensures var next := Step(system, Enter(selection, env));
      Inv(next) && next.History() == system.log && (next.Busy? ==> next.machine.owner == system.started)
  {
    hide Safe, Steady, Open, Owns;
    OpenKeeps(system.disk, system.log, system.started, selection, env);
  }

  lemma PowerLossKeeps(disk: Journal, log: seq<Event>, choice: nat)
    requires Safe(disk, log)
    ensures Safe(disk.AfterPowerLoss(choice), log)
  {
    hide Agrees, Lawful;
  }

  lemma ExtendsReflexive(log: seq<Event>)
    ensures forall owner :: Extends(log, log, owner)
  {
  }

  lemma OwnersStay(before: seq<Event>, after: seq<Event>, owner: nat, started: nat)
    requires Extends(before, after, owner) && owner < started
    requires forall event :: event in before && event.Authorized? ==> event.owner < started
    ensures forall event :: event in after && event.Authorized? ==> event.owner < started
  {
    forall event | event in after && event.Authorized? ensures event.owner < started {
      var k :| 0 <= k < |after| && after[k] == event;
      if k < |before| { assert before[k] == event; }
    }
  }

  lemma {:induction false} RunKeepsInv(system: System, actions: seq<Action>)
    requires Inv(system)
    ensures Inv(Run(system, actions))
    ensures system.started <= Run(system, actions).started
    ensures system.History() <= Run(system, actions).History()
    decreases |actions|
  {
    hide Inv, Step;
    if actions != [] {
      StepKeepsInv(system, actions[0]);
      RunKeepsInv(Step(system, actions[0]), actions[1..]);
    }
  }

  lemma Reachable(actions: seq<Action>)
    ensures Inv(Run(INITIAL, actions))
  {
    assert Inv(INITIAL);
    hide Inv, Run, INITIAL;
    RunKeepsInv(INITIAL, actions);
  }

  // ----- what every run guarantees -----

  /** Each of the twelve indexes is authorized at most once, in increasing order, under one selection,
      and only after every earlier Session's disposal was confirmed. */
  lemma AuthorizedOnceInTurn(actions: seq<Action>, i: nat, j: nat)
    requires var log := Run(INITIAL, actions).History();
      i < j < |log| && log[i].Authorized? && log[j].Authorized?
    ensures var log := Run(INITIAL, actions).History();
      && log[i].session < log[j].session < SESSIONS
      && log[i].selection == log[j].selection
      && DisposalConfirmed(log[i].session) in log[..j]
  {
    Reachable(actions);
    hide Run, INITIAL, Between;
    var log := Run(INITIAL, actions).History();
    assert Allowed(log[..j], log[j]);
    assert log[i] in log[..j];
  }

  /** At most two commands ever reach a Session, each numbered by its place, all from the process that
      authorized it, and none after its disposal was confirmed. */
  lemma CommandsBounded(actions: seq<Action>, session: nat, k: nat)
    ensures var log := Run(INITIAL, actions).History();
      && Deliveries(log, session) <= COMMANDS
      && (k < |log| && log[k].Delivered? && log[k].session == session ==>
          && log[k].sequence == Deliveries(log[..k], session) + 1
          && AuthorizedBy(log[..k], session, log[k].owner)
          && DisposalConfirmed(session) !in log[..k])
  {
    Reachable(actions);
    hide Run, INITIAL, Between;
    var log := Run(INITIAL, actions).History();
    AtMostTwo(log, session);
    if k < |log| { assert Allowed(log[..k], log[k]); }
  }

  lemma {:induction false} AtMostTwo(log: seq<Event>, session: nat)
    requires Lawful(log)
    ensures Deliveries(log, session) <= COMMANDS
  {
    if log != [] {
      var n := |log| - 1;
      LawfulPrefix(log, n);
      assert Allowed(log[..n], log[n]);
      hide Lawful, Allowed;
      AtMostTwo(log[..n], session);
    }
  }

  /** What is durably spent covers every command that may have been delivered, whatever a power loss
      brings back; Park and Resume cannot lower it. */
  lemma SpendingIsDurable(actions: seq<Action>, stored: Value)
    requires Some(stored) in Run(INITIAL, actions).Journal().Candidates() && stored.active.Some?
    ensures Deliveries(Run(INITIAL, actions).History(), stored.active.value) <= stored.spent <= COMMANDS
  {
    Reachable(actions);
    hide Run, INITIAL, Between;
    assert Holds(Run(INITIAL, actions).History(), Some(stored));
  }

  /** In every state a power loss could leave, each Session reserved so far is either the active one or
      has a confirmed disposal: only such a receipt frees the slot. */
  lemma SlotFreedOnlyByDisposal(actions: seq<Action>, stored: Value, session: nat)
    requires Some(stored) in Run(INITIAL, actions).Journal().Candidates() && session < stored.next
    ensures stored.active == Some(session) || DisposalConfirmed(session) in Run(INITIAL, actions).History()
    ensures stored.next <= SESSIONS
  {
    Reachable(actions);
    hide Run, INITIAL, Between;
    assert Holds(Run(INITIAL, actions).History(), Some(stored));
  }

  /** Once the process that authorized a Session is gone, no command ever reaches that Session again. */
  lemma NoCommandAfterOwnerIsGone(actions: seq<Action>, later: seq<Action>, session: nat, owner: nat)
    requires Run(INITIAL, actions).Idle? && AuthorizedBy(Run(INITIAL, actions).History(), session, owner)
    ensures Deliveries(Run(Run(INITIAL, actions), later).History(), session) ==
      Deliveries(Run(INITIAL, actions).History(), session)
  {
    Reachable(actions);
    var system := Run(INITIAL, actions);
    hide Run, INITIAL, Between;
    assert owner < system.started by { OwnerIsPast(system, session, owner); }
    LaterOwners(system, later, system.started);
    RunKeepsInv(system, later);
    OthersDoNotDeliver(system.History(), Run(system, later).History(), session, owner, system.started);
  }

  lemma OwnerIsPast(system: System, session: nat, owner: nat)
    requires Inv(system) && AuthorizedBy(system.History(), session, owner)
    ensures owner < system.started && Lawful(system.History())
  {
    hide Between;
    var selection :| Authorized(session, selection, owner) in system.History();
  }

  ghost predicate NewerOwners(before: seq<Event>, after: seq<Event>, bound: nat) {
    before <= after && forall k :: |before| <= k < |after| && after[k].Delivered? ==> bound <= after[k].owner
  }

  lemma {:induction false} LaterOwners(system: System, actions: seq<Action>, bound: nat)
    requires Inv(system) && bound <= system.started && (system.Busy? ==> bound <= system.machine.owner)
    ensures NewerOwners(system.History(), Run(system, actions).History(), bound)
    decreases |actions|
  {
    hide Inv, Step;
    if actions != [] {
      StepKeepsInv(system, actions[0]);
      var next := Step(system, actions[0]);
      LaterOwners(next, actions[1..], bound);
    }
  }

  lemma {:induction false} OthersDoNotDeliver(before: seq<Event>, after: seq<Event>, session: nat, owner: nat, bound: nat)
    requires NewerOwners(before, after, bound) && Lawful(after)
    requires AuthorizedBy(before, session, owner) && owner < bound
    ensures Deliveries(after, session) == Deliveries(before, session)
    decreases |after|
  {
    hide Lawful, AuthorizedBy;
    if |before| < |after| {
      var n := |after| - 1;
      LawfulPrefix(after, n);
      FewerNewer(before, after, bound);
      OthersDoNotDeliver(before, after[..n], session, owner, bound);
      if after[n].Delivered? && after[n].session == session {
        DeliveredByOwner(after, n);
        OneOwner(after[..n], session, owner, after[n].owner, before);
      }
    } else {
      assert before == after;
    }
  }

  lemma FewerNewer(before: seq<Event>, after: seq<Event>, bound: nat)
    requires NewerOwners(before, after, bound) && |before| < |after|
    ensures NewerOwners(before, after[..|after| - 1], bound)
  {
    assert before == after[..|after| - 1][..|before|];
  }

  lemma DeliveredByOwner(log: seq<Event>, k: nat)
    requires Lawful(log) && k < |log| && log[k].Delivered?
    ensures AuthorizedBy(log[..k], log[k].session, log[k].owner)
  {
    assert Allowed(log[..k], log[k]);
  }

  lemma OneOwner(log: seq<Event>, session: nat, first: nat, second: nat, before: seq<Event>)
    requires Lawful(log) && before <= log && AuthorizedBy(before, session, first) && AuthorizedBy(log, session, second)
    ensures first == second
  {
    var a :| Authorized(session, a, first) in before;
    var b :| Authorized(session, b, second) in log;
    var i :| 0 <= i < |before| && before[i] == Authorized(session, a, first);
    var j :| 0 <= j < |log| && log[j] == Authorized(session, b, second);
    assert log[i] == before[i];
    hide Lawful;
    if i < j { AuthorizedApart(log, i, j); }
    if j < i { AuthorizedApart(log, j, i); }
  }

  lemma AuthorizedApart(log: seq<Event>, i: nat, j: nat)
    requires Lawful(log) && i < j < |log| && log[i].Authorized? && log[j].Authorized?
    ensures log[i].session != log[j].session
  {
    assert Allowed(log[..j], log[j]);
    assert log[i] in log[..j];
  }

  /** A process that has not ended holds a synced journal equal to its memory, so nothing it did can be lost. */
  lemma LivingProcessIsDurable(actions: seq<Action>)
    ensures var system := Run(INITIAL, actions);
      system.Busy? ==> && system.machine.disk == Disk(Some(system.machine.value), [])
                       && system.machine.request == system.machine.value.active
                       && system.machine.value.pending in {Settled, Authorization}
  {
    Reachable(actions);
    hide Run, INITIAL, Safe, Agrees, Lawful, Owns;
  }

  function DoAll(lines: seq<(Verb, Env)>): seq<Action> {
    seq(|lines|, i requires 0 <= i < |lines| => Do(lines[i].0, lines[i].1))
  }

  /** The foreground loop is one of these runs, until the process ends. */
  lemma {:induction false} LoopIsRun(m: Machine, started: nat, lines: seq<(Verb, Env)>, last: Machine, alive: bool)
    requires Looped(m, lines, last, alive)
    ensures Run(Busy(m, started), DoAll(lines)) == if alive then Busy(last, started) else Idle(last.disk, last.log, started)
    decreases |lines|
  {
    hide Perform;
    if lines != [] {
      assert DoAll(lines)[1..] == DoAll(lines[1..]);
      var flow := Perform(m, lines[0].0, lines[0].1);
      if Survives(m, flow) {
        LoopIsRun(flow.machine, started, lines[1..], last, alive);
      } else {
        NothingRunsWhenIdle(Idle(last.disk, last.log, started), lines[1..]);
      }
    }
  }

  lemma {:induction false} NothingRunsWhenIdle(system: System, lines: seq<(Verb, Env)>)
    requires system.Idle?
    ensures Run(system, DoAll(lines)) == system
    decreases |lines|
  {
    if lines != [] {
      assert DoAll(lines)[1..] == DoAll(lines[1..]);
      NothingRunsWhenIdle(system, lines[1..]);
    }
  }
}
