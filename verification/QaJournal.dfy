/**
 The conformance-QA coordinator: one journal on disk, one foreground process at a time, and outside
 effects that are each recorded before they are attempted.

 A verb is written as a flow of outside answers, journal saves and logged effects. An answer may be
 good, raise a refusal, or end the process; a crash anywhere is an answer or a save that ends it.
 Reaching an outside call logs its effect, so the log holds everything that may have happened.
 */
module QaModel {
  import opened Results
  import opened Disk

  const SESSIONS := 12
  const COMMANDS := 2

  datatype Lifecycle = Park | Resume | Disposal

  datatype Pending = Settled | Authorization | Launch | Tool(sequence: nat) | Operation(action: Lifecycle, session: nat)

  datatype Value = Value(
    next: nat, active: Option<nat>, spent: nat, pending: Pending, approved: bool, selection: Option<string>)

  const FRESH := Value(0, None, 0, Settled, false, None)

  predicate WellFormed(value: Value) {
    && value.next <= SESSIONS
    && (value.active.Some? ==> value.active.value < value.next)
    && value.spent <= COMMANDS
  }

  type Journal = Disk<Option<Value>>

  /** What the coordinator asked the outside world to do, and the disposals it saw confirmed. `ahead` is the
      journal on disk when the effect was attempted. */
  datatype Event =
    | RunApproved
    | Authorized(session: nat, selection: Option<string>, owner: nat)
    | Launched(session: nat, ahead: Journal)
    | Delivered(session: nat, sequence: nat, owner: nat, ahead: Journal)
    | LifecycleSent(session: nat, action: Lifecycle, ahead: Journal)
    | DisposalConfirmed(session: nat)

  /** One process: the journal file, its value in memory, and what the foreground loop holds. */
  datatype Machine = Machine(
    disk: Journal, value: Value, log: seq<Event>, owner: nat, request: Option<nat>, child: bool)

  datatype Status = Fine | Refusal | Death {
    predicate IsFailure() { this != Fine }
    function PropagateFailure(): Status { this }
  }

  datatype Flow = Flow(machine: Machine, status: Status) {
    predicate IsFailure() { status != Fine }
    function PropagateFailure(): Flow { this }
    function Extract(): Machine { machine }
  }

  /** Outside answers and journal faults, by the place in the verb that meets them. */
  datatype Env = Env(nowMs: nat, expiresMs: nat, answer: Place -> Status, fault: Place -> PersistFault)

  datatype Place =
    | Release | RunReply | RunEvidence | Inputs | ChildReply | ChildEvidence
    | LaunchReply | StatusReply | LifecycleReply | LifecycleEvidence | Exit | Reconnect
    | CommandStatus | CommandReply | Reports | Evidence | Settlement
    | Creating | Selecting | Reserving | Approving | Launching | LaunchingDone | Requesting | RequestingDone
    | Spending | SpendingDone | Freeing

  // ----- steps shared by the verbs -----

  function Ask(m: Machine, answer: Status): Flow {
    Flow(m, answer)
  }

  function Require(m: Machine, condition: bool): Flow {
    Flow(m, if condition then Fine else Refusal)
  }

  /** A failed save ends the process. */
  function Save(m: Machine, fault: PersistFault): Flow {
    Flow(m.(disk := m.disk.Persist(Some(m.value), fault)), if fault == Synced then Fine else Death)
  }

  function Log(m: Machine, event: Event): Machine {
    m.(log := m.log + [event])
  }

  function Pend(m: Machine, pending: Pending): Machine {
    m.(value := m.value.(pending := pending))
  }

  function Reserve(m: Machine, env: Env): Flow {
    var free :- Require(m, env.nowMs < env.expiresMs && m.value.next < SESSIONS && m.value.active.None? && m.value.pending == Settled);
    Save(free.(value := free.value.(next := free.value.next + 1, active := Some(free.value.next), spent := 0, pending := Authorization)),
         env.fault(Reserving))
  }

  function ApproveRun(m: Machine, env: Env): Flow {
    if m.value.approved then Flow(m, Fine)
    else
      var asked :- Ask(Log(m, RunApproved), env.answer(RunReply));
      var saved :- Save(asked.(value := asked.value.(approved := true)), env.fault(Approving));
      Ask(saved, env.answer(RunEvidence))
  }

  function Authorize(m: Machine, env: Env): Flow {
    var released :- Ask(m, env.answer(Release));
    var reserved :- Reserve(released, env);
    var approved :- ApproveRun(reserved, env);
    var staged :- Ask(approved, env.answer(Inputs));
    var index := m.value.next;
    var asked :- Ask(Log(staged, Authorized(index, staged.value.selection, m.owner)), env.answer(ChildReply));
    var kept :- Ask(asked, env.answer(ChildEvidence));
    Flow(kept.(request := Some(index)), Fine)
  }

  function LaunchSession(m: Machine, env: Env): Flow
    requires m.request.Some?
  {
    var saved :- Save(Pend(m, Launch), env.fault(Launching));
    var asked :- Ask(Log(saved, Launched(m.request.value, saved.disk)), env.answer(LaunchReply));
    var done :- Save(Pend(asked, Settled), env.fault(LaunchingDone));
    Flow(done.(child := true), Fine)
  }

  function RunLifecycle(m: Machine, session: nat, action: Lifecycle, env: Env): Flow {
    var ready :- Ask(m, env.answer(StatusReply));
    var saved :- Save(Pend(ready, Operation(action, session)), env.fault(Requesting));
    var replied :- Ask(Log(saved, LifecycleSent(session, action, saved.disk)), env.answer(LifecycleReply));
    var confirmed := if action == Disposal then Log(replied, DisposalConfirmed(session)) else replied;
    var kept :- Ask(confirmed, env.answer(LifecycleEvidence));
    if action == Disposal then Flow(kept, Fine) else Save(Pend(kept, Settled), env.fault(RequestingDone))
  }

  /** Free the slot on a confirmed disposal. */
  function Terminal(m: Machine, env: Env): Flow {
    var active :- Require(m, m.value.active.Some?);
    Save(active.(value := active.value.(active := None, pending := Settled, spent := 0)), env.fault(Freeing))
  }

  function Dispose(m: Machine, env: Env): Flow
    requires m.request.Some?
  {
    var disposed :- RunLifecycle(m, m.request.value, Disposal, env);
    // Waiting for a process that was never launched ends this one.
    var waited :- Ask(disposed, if disposed.child then env.answer(Exit) else Death);
    var freed :- Terminal(waited, env);
    Flow(freed.(request := None, child := false), Fine)
  }

  function ResumeSession(m: Machine, env: Env): Flow
    requires m.request.Some?
  {
    var resumed :- RunLifecycle(m, m.request.value, Resume, env);
    Ask(resumed, if resumed.child then env.answer(Reconnect) else Death)
  }

  function Command(m: Machine, env: Env): Flow
    requires m.request.Some?
  {
    var due :- Require(m, env.nowMs < env.expiresMs && m.value.spent < COMMANDS && m.value.pending == Settled);
    var running :- Ask(due, env.answer(CommandStatus));
    var sequence := running.value.spent + 1;
    var spent :- Save(running.(value := running.value.(spent := sequence, pending := Tool(sequence))), env.fault(Spending));
    var replied :- Ask(Log(spent, Delivered(m.request.value, sequence, m.owner, spent.disk)), env.answer(CommandReply));
    Save(Pend(replied, Settled), env.fault(SpendingDone))
  }

  // ----- the foreground loop -----

  datatype Verb = Start | AuthorizeOnly | LaunchOnly | ShowStatus | RunCommand | ParkVerb | ResumeVerb | DisposeVerb | Unknown

  function Perform(m: Machine, verb: Verb, env: Env): Flow {
    match verb
    case Start =>
      var free :- Require(m, m.request.None?);
      var authorized :- Authorize(free, env);
      var held :- Require(authorized, authorized.request.Some? && !authorized.child);
      LaunchSession(held, env)
    case AuthorizeOnly =>
      var free :- Require(m, m.request.None?);
      Authorize(free, env)
    case LaunchOnly =>
      var held :- Require(m, m.request.Some? && !m.child);
      LaunchSession(held, env)
    case ShowStatus =>
      var held :- Require(m, m.request.Some?);
      Ask(held, env.answer(Reports))
    case RunCommand =>
      var held :- Require(m, m.child && m.request.Some?);
      Command(held, env)
    case ParkVerb =>
      var held :- Require(m, m.request.Some?);
      RunLifecycle(held, held.request.value, Park, env)
    case ResumeVerb =>
      var held :- Require(m, m.request.Some?);
      ResumeSession(held, env)
    case DisposeVerb =>
      var held :- Require(m, m.request.Some?);
      Dispose(held, env)
    case Unknown => Flow(m, Refusal)
  }

  /** A refusal that changed nothing in the journal leaves the process running; anything else ends it. */
  predicate Survives(before: Machine, flow: Flow) {
    flow.status == Fine || (flow.status == Refusal && flow.machine.value == before.value)
  }

  /** `last` is where the loop stands after `lines`, still alive or ended on the way. */
  ghost predicate Looped(m: Machine, lines: seq<(Verb, Env)>, last: Machine, alive: bool)
    decreases |lines|
  {
    if lines == [] then last == m && alive
    else
      var flow := Perform(m, lines[0].0, lines[0].1);
      if Survives(m, flow) then Looped(flow.machine, lines[1..], last, alive)
      else last == flow.machine && !alive
  }

  // ----- opening the journal -----

  /** Load or create the journal and bind it to the reviewed selection. */
  function Open(disk: Journal, log: seq<Event>, owner: nat, selection: string, env: Env): Flow {
    var loaded :- Load(Machine(disk, FRESH, log, owner, None, false), env);
    var same :- Require(loaded, loaded.value.selection in {None, Some(selection)});
    var saved :- Save(same.(value := same.value.(selection := Some(selection))), env.fault(Selecting));
    Ask(saved, env.answer(Evidence))
  }

  function Load(m: Machine, env: Env): Flow {
    match m.disk.Visible()
    case None => Save(m, env.fault(Creating))
    case Some(value) =>
      var read :- Require(m, WellFormed(value));
      Flow(read.(value := value), Fine)
  }

  function Begin(disk: Journal, log: seq<Event>, owner: nat, selection: string, env: Env): Flow {
    var m :- Open(disk, log, owner, selection, env);
    Require(m, m.value.active.None? && m.value.pending == Settled)
  }

  /** Finish a retained disposal, or dispose now; the slot is freed only once disposal is settled. */
  function Resolve(disk: Journal, log: seq<Event>, owner: nat, selection: string, env: Env): Flow {
    var m :- Open(disk, log, owner, selection, env);
    var active :- Require(m, m.value.active.Some?);
    var disposed :- ResolveDisposal(active, active.value.active.value, env);
    var settled :- Ask(disposed, env.answer(Settlement));
    Terminal(settled, env)
  }

  function ResolveDisposal(m: Machine, session: nat, env: Env): Flow {
    if m.value.pending.Operation? && m.value.pending.action == Disposal then
      var bound :- Require(m, m.value.pending.session == session);
      var replied :- Ask(Log(bound, LifecycleSent(session, Disposal, bound.disk)), env.answer(LifecycleReply));
      Ask(Log(replied, DisposalConfirmed(session)), env.answer(LifecycleEvidence))
    else RunLifecycle(m, session, Disposal, env)
  }
}
