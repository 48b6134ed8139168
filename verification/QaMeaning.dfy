/**
 What each line of the QA coordinator's foreground loop does: the effects it may have had, in order, with the
 journal each was recorded in first, and the journal a line that succeeds leaves.
 */
module QaMeaning {
  import opened Results
  import opened Disk
  import opened QaModel
  import opened QaRuns

  /** The journal that only holds `value`, synced. */
  function OnDisk(value: Value): Journal {
    Disk(Some(value), [])
  }

  function Approval(value: Value): seq<Event> {
    if value.approved then [] else [RunApproved]
  }

  /** The value once the next Session is authorized. */
  function AuthorizedValue(value: Value): Value {
    Value(value.next + 1, Some(value.next), 0, Authorization, true, value.selection)
  }

  /** Whether the process can take up the line at all. */
  predicate Accepts(m: Machine, verb: Verb) {
    match verb
    case Start => m.request.None?
    case AuthorizeOnly => m.request.None?
    case LaunchOnly => m.request.Some? && !m.child
    case ShowStatus => m.request.Some?
    case RunCommand => m.request.Some? && m.child
    case ParkVerb => m.request.Some?
    case ResumeVerb => m.request.Some?
    case DisposeVerb => m.request.Some?
    case Unknown => false
  }

  /** Everything a line does when nothing stops it. Every effect but an approval and an authorization is first
      recorded in the journal as exactly that effect on the held Session. */
  function Effects(m: Machine, verb: Verb): seq<Event>
    requires Accepts(m, verb)
  {
    match verb
    case Start =>
      Approval(m.value)
      + [Authorized(m.value.next, m.value.selection, m.owner),
         Launched(m.value.next, OnDisk(AuthorizedValue(m.value).(pending := Launch)))]
    case AuthorizeOnly => Approval(m.value) + [Authorized(m.value.next, m.value.selection, m.owner)]
    case LaunchOnly => [Launched(m.request.value, OnDisk(m.value.(pending := Launch)))]
    case ShowStatus => []
    case RunCommand =>
      [Delivered(m.request.value, m.value.spent + 1, m.owner,
                 OnDisk(m.value.(spent := m.value.spent + 1, pending := Tool(m.value.spent + 1))))]
    case ParkVerb => [LifecycleSent(m.request.value, Park, OnDisk(m.value.(pending := Operation(Park, m.request.value))))]
    case ResumeVerb =>
      [LifecycleSent(m.request.value, Resume, OnDisk(m.value.(pending := Operation(Resume, m.request.value))))]
    case DisposeVerb =>
      [LifecycleSent(m.request.value, Disposal, OnDisk(m.value.(pending := Operation(Disposal, m.request.value)))),
       DisposalConfirmed(m.request.value)]
  }

  /** The value a line leaves when nothing stops it. */
  function Outcome(m: Machine, verb: Verb): Value
    requires Accepts(m, verb)
  {
    match verb
    case Start => AuthorizedValue(m.value).(pending := Settled)
    case AuthorizeOnly => AuthorizedValue(m.value)
    case LaunchOnly => m.value.(pending := Settled)
    case ShowStatus => m.value
    case RunCommand => m.value.(spent := m.value.spent + 1, pending := Settled)
    case ParkVerb => m.value.(pending := Settled)
    case ResumeVerb => m.value.(pending := Settled)
    case DisposeVerb => m.value.(active := None, spent := 0, pending := Settled)
  }

  /** The Session the process holds afterwards, and whether its child runs. */
  function HeldAfter(m: Machine, verb: Verb): (Option<nat>, bool)
    requires Accepts(m, verb)
  {
    match verb
    case Start => (Some(m.value.next), true)
    case AuthorizeOnly => (Some(m.value.next), m.child)
    case LaunchOnly => (m.request, true)
    case DisposeVerb => (None, false)
    case _ => (m.request, m.child)
  }

  /** Every answer the line asks for is good and every save it makes is synced. */
  predicate AllGood(m: Machine, verb: Verb, env: Env) {
    var authorizes := verb == Start || verb == AuthorizeOnly;
    var launches := verb == Start || verb == LaunchOnly;
    var requests := verb == ParkVerb || verb == ResumeVerb || verb == DisposeVerb;
    && (authorizes ==>
        && env.answer(Release) == Fine && env.fault(Reserving) == Synced
        && (!m.value.approved ==>
            env.answer(RunReply) == Fine && env.fault(Approving) == Synced && env.answer(RunEvidence) == Fine)
        && env.answer(Inputs) == Fine && env.answer(ChildReply) == Fine && env.answer(ChildEvidence) == Fine)
    && (launches ==>
        env.fault(Launching) == Synced && env.answer(LaunchReply) == Fine && env.fault(LaunchingDone) == Synced)
    && (verb == ShowStatus ==> env.answer(Reports) == Fine)
    && (verb == RunCommand ==>
        && env.answer(CommandStatus) == Fine && env.fault(Spending) == Synced
        && env.answer(CommandReply) == Fine && env.fault(SpendingDone) == Synced)
    && (requests ==>
        && env.answer(StatusReply) == Fine && env.fault(Requesting) == Synced
        && env.answer(LifecycleReply) == Fine && env.answer(LifecycleEvidence) == Fine)
    && (verb == ParkVerb || verb == ResumeVerb ==> env.fault(RequestingDone) == Synced)
    && (verb == ResumeVerb ==> m.child && env.answer(Reconnect) == Fine)
    && (verb == DisposeVerb ==> m.child && env.answer(Exit) == Fine && env.fault(Freeing) == Synced)
  }

  /** What the journal and the clock must allow. */
  predicate Permitted(m: Machine, verb: Verb, env: Env) {
    && (verb == Start || verb == AuthorizeOnly ==>
        env.nowMs < env.expiresMs && m.value.next < SESSIONS && m.value.pending == Settled)
    && (verb == Start ==> !m.child)
    && (verb == RunCommand ==> env.nowMs < env.expiresMs && m.value.spent < COMMANDS && m.value.pending == Settled)
  }

  /** The line's effects are a prefix of what it does when nothing stops it, and when it succeeds all of that
      and the journal it then leaves. It succeeds exactly when it is accepted, permitted and meets nothing bad. */
  ghost predicate Does(m: Machine, verb: Verb, env: Env, flow: Flow) {
    && (flow.status == Fine <==> Accepts(m, verb) && Permitted(m, verb, env) && AllGood(m, verb, env))
    && (Accepts(m, verb) ==> m.log <= flow.machine.log <= m.log + Effects(m, verb))
    && (!Accepts(m, verb) ==> flow == Flow(m, Refusal))
    && (flow.status == Fine ==>
        && flow.machine.log == m.log + Effects(m, verb)
        && flow.machine.value == Outcome(m, verb)
        && (flow.machine.request, flow.machine.child) == HeldAfter(m, verb)
        && flow.machine.disk == OnDisk(flow.machine.value) && flow.machine.owner == m.owner)
  }

  // ----- the parts of a line -----

  lemma RequestDoes(m: Machine, session: nat, action: Lifecycle, env: Env)
    ensures var flow := RunLifecycle(m, session, action, env);
      var sent := LifecycleSent(session, action, OnDisk(m.value.(pending := Operation(action, session))));
      var effects := if action == Disposal then [sent, DisposalConfirmed(session)] else [sent];
      && m.log <= flow.machine.log <= m.log + effects
      && (flow.status == Fine <==>
          && env.answer(StatusReply) == Fine && env.fault(Requesting) == Synced
          && env.answer(LifecycleReply) == Fine && env.answer(LifecycleEvidence) == Fine
          && (action != Disposal ==> env.fault(RequestingDone) == Synced))
      && (flow.status == Fine ==>
          var value := m.value.(pending := if action == Disposal then Operation(action, session) else Settled);
          flow.machine == m.(value := value, disk := OnDisk(value), log := m.log + effects))
  {
    var saved := Save(Pend(m, Operation(action, session)), env.fault(Requesting)).machine;
    var sent := LifecycleSent(session, action, saved.disk);
    assert m.log + [sent] + [DisposalConfirmed(session)] == m.log + [sent, DisposalConfirmed(session)];
  }

  lemma LaunchDoes(m: Machine, env: Env)
    requires m.request.Some?
    ensures var flow := LaunchSession(m, env);
      var effects := [Launched(m.request.value, OnDisk(m.value.(pending := Launch)))];
      && m.log <= flow.machine.log <= m.log + effects
      && (flow.status == Fine <==>
          env.fault(Launching) == Synced && env.answer(LaunchReply) == Fine && env.fault(LaunchingDone) == Synced)
      && (flow.status == Fine ==>
          var value := m.value.(pending := Settled);
          flow.machine == m.(value := value, disk := OnDisk(value), log := m.log + effects, child := true))
  {
  }

  lemma AuthorizeDoes(m: Machine, env: Env)
    requires Between(m) && m.request.None?
    ensures var flow := Authorize(m, env);
      var effects := Approval(m.value) + [Authorized(m.value.next, m.value.selection, m.owner)];
      && m.log <= flow.machine.log <= m.log + effects
      && (flow.status == Fine <==>
          && env.answer(Release) == Fine
          && env.nowMs < env.expiresMs && m.value.next < SESSIONS && m.value.pending == Settled
          && env.fault(Reserving) == Synced
          && (!m.value.approved ==>
              env.answer(RunReply) == Fine && env.fault(Approving) == Synced && env.answer(RunEvidence) == Fine)
          && env.answer(Inputs) == Fine && env.answer(ChildReply) == Fine && env.answer(ChildEvidence) == Fine)
      && (flow.status == Fine ==>
          flow.machine == m.(value := AuthorizedValue(m.value), disk := OnDisk(AuthorizedValue(m.value)),
                             log := m.log + effects, request := Some(m.value.next)))
  {
    assert m.value.active.None?;
    hide Between;
    ReserveDoes(m, env);
    var reserved := Reserve(m, env).machine;
    ApproveDoes(reserved, env);
    var approved := ApproveRun(reserved, env).machine;
    var event := Authorized(m.value.next, m.value.selection, m.owner);
    assert m.log + Approval(m.value) + [event] == m.log + (Approval(m.value) + [event]);
    hide Reserve, ApproveRun;
  }

  lemma ReserveDoes(m: Machine, env: Env)
    requires m.value.active.None?
    ensures var flow := Reserve(m, env);
      && flow.machine.log == m.log
      && (flow.status == Fine <==>
          env.nowMs < env.expiresMs && m.value.next < SESSIONS && m.value.pending == Settled && env.fault(Reserving) == Synced)
      && (flow.status == Fine ==>
          var value := AuthorizedValue(m.value).(approved := m.value.approved);
          flow.machine == m.(value := value, disk := OnDisk(value)))
  {
  }

  lemma ApproveDoes(m: Machine, env: Env)
    ensures var flow := ApproveRun(m, env);
      && m.log <= flow.machine.log <= m.log + Approval(m.value)
      && (flow.status == Fine <==>
          (!m.value.approved ==>
              env.answer(RunReply) == Fine && env.fault(Approving) == Synced && env.answer(RunEvidence) == Fine))
      && (flow.status == Fine ==>
          flow.machine == m.(value := m.value.(approved := true), log := m.log + Approval(m.value),
                             disk := if m.value.approved then m.disk else OnDisk(m.value.(approved := true))))
  {
  }

  lemma CommandDoes(m: Machine, env: Env)
    requires m.request.Some?
    ensures var flow := Command(m, env);
      var sequence := m.value.spent + 1;
      var effects := [Delivered(m.request.value, sequence, m.owner,
                                OnDisk(m.value.(spent := sequence, pending := Tool(sequence))))];
      && m.log <= flow.machine.log <= m.log + effects
      && (flow.status == Fine <==>
          && env.nowMs < env.expiresMs && m.value.spent < COMMANDS && m.value.pending == Settled
          && env.answer(CommandStatus) == Fine && env.fault(Spending) == Synced
          && env.answer(CommandReply) == Fine && env.fault(SpendingDone) == Synced)
      && (flow.status == Fine ==>
          var value := m.value.(spent := sequence, pending := Settled);
          flow.machine == m.(value := value, disk := OnDisk(value), log := m.log + effects))
  {
  }

  lemma DisposeDoes(m: Machine, env: Env)
    requires Between(m) && m.request.Some?
    ensures Does(m, DisposeVerb, env, Dispose(m, env))
  {
    assert m.value.active.Some?;
    hide Between;
    RequestDoes(m, m.request.value, Disposal, env);
    hide RunLifecycle;
  }

  // ----- one line -----

  /** What a line does is what its verb says, on the held Session: park, resume and dispose each send their own
      request, recorded first, and no other; no other verb sends any; a command is spent before it is delivered. */
  lemma LineMeans(m: Machine, verb: Verb, env: Env)
    requires Between(m)
    ensures Does(m, verb, env, Perform(m, verb, env))
  {
    hide *;
    match verb {
      case Start => if m.request.None? { StartDoes(m, env); } else { RefusedDoes(m, verb, env); }
      case AuthorizeOnly => if m.request.None? { AuthorizeOnlyDoes(m, env); } else { RefusedDoes(m, verb, env); }
      case LaunchOnly => if m.request.Some? && !m.child { LaunchOnlyDoes(m, env); } else { RefusedDoes(m, verb, env); }
      case ShowStatus => if m.request.Some? { ShowDoes(m, env); } else { RefusedDoes(m, verb, env); }
      case RunCommand => if m.request.Some? && m.child { RunCommandDoes(m, env); } else { RefusedDoes(m, verb, env); }
      case ParkVerb => if m.request.Some? { ParkDoes(m, env); } else { RefusedDoes(m, verb, env); }
      case ResumeVerb => if m.request.Some? { ResumeDoes(m, env); } else { RefusedDoes(m, verb, env); }
      case DisposeVerb => if m.request.Some? { DisposeVerbDoes(m, env); } else { RefusedDoes(m, verb, env); }
      case Unknown => RefusedDoes(m, verb, env);
    }
  }

  lemma RefusedDoes(m: Machine, verb: Verb, env: Env)
    requires match verb
      case Start => m.request.Some?
      case AuthorizeOnly => m.request.Some?
      case LaunchOnly => m.request.None? || m.child
      case RunCommand => m.request.None? || !m.child
      case Unknown => true
      case _ => m.request.None?
    ensures Does(m, verb, env, Perform(m, verb, env))
  {
    hide Authorize, LaunchSession, RunLifecycle, Command, Dispose, ResumeSession, Effects, Outcome, Permitted, AllGood;
  }

  lemma AuthorizeOnlyDoes(m: Machine, env: Env)
    requires Between(m) && m.request.None?
    ensures Does(m, AuthorizeOnly, env, Perform(m, AuthorizeOnly, env))
  {
    AuthorizeDoes(m, env);
    hide Between, Authorize;
  }

  lemma LaunchOnlyDoes(m: Machine, env: Env)
    requires m.request.Some? && !m.child
    ensures Does(m, LaunchOnly, env, Perform(m, LaunchOnly, env))
  {
    LaunchDoes(m, env);
    hide LaunchSession;
  }

  lemma ShowDoes(m: Machine, env: Env)
    requires Between(m) && m.request.Some?
    ensures Does(m, ShowStatus, env, Perform(m, ShowStatus, env))
  {
    BetweenFacts(m);
    hide Between;
    assert m.log + [] == m.log;
  }

  lemma RunCommandDoes(m: Machine, env: Env)
    requires m.request.Some? && m.child
    ensures Does(m, RunCommand, env, Perform(m, RunCommand, env))
  {
    CommandDoes(m, env);
    hide Command;
  }

  lemma ParkDoes(m: Machine, env: Env)
    requires m.request.Some?
    ensures Does(m, ParkVerb, env, Perform(m, ParkVerb, env))
  {
    RequestDoes(m, m.request.value, Park, env);
    hide RunLifecycle;
  }

  lemma ResumeDoes(m: Machine, env: Env)
    requires m.request.Some?
    ensures Does(m, ResumeVerb, env, Perform(m, ResumeVerb, env))
  {
    RequestDoes(m, m.request.value, Resume, env);
    hide RunLifecycle;
  }

  lemma DisposeVerbDoes(m: Machine, env: Env)
    requires Between(m) && m.request.Some?
    ensures Does(m, DisposeVerb, env, Perform(m, DisposeVerb, env))
  {
    DisposeDoes(m, env);
    hide Dispose, Does;
  }

  lemma BetweenFacts(m: Machine)
    requires Between(m)
    ensures m.disk == OnDisk(m.value) && m.request == m.value.active && (m.child ==> m.request.Some?)
  {
    hide Agrees, Lawful, Owns;
  }

  lemma StartDoes(m: Machine, env: Env)
    requires Between(m) && m.request.None?
    ensures Does(m, Start, env, Perform(m, Start, env))
  {
    BetweenFacts(m);
    AuthorizeDoes(m, env);
    hide Between;
    var authorized := Authorize(m, env);
    var approval := Approval(m.value) + [Authorized(m.value.next, m.value.selection, m.owner)];
    var launched := [Launched(m.value.next, OnDisk(AuthorizedValue(m.value).(pending := Launch)))];
    assert m.log + approval + launched == m.log + (approval + launched);
    assert approval + launched == Effects(m, Start);
    if authorized.status == Fine { LaunchDoes(authorized.machine, env); }
    hide Authorize, LaunchSession;
  }

  // ----- surviving a line -----

  /** The line is refused before anything is recorded or asked for. */
  predicate RefusedFirst(m: Machine, verb: Verb, env: Env) {
    !Accepts(m, verb) ||
    match verb
    case ShowStatus => env.answer(Reports) == Refusal
    case LaunchOnly => false
    case RunCommand => !Permitted(m, verb, env) || env.answer(CommandStatus) == Refusal
    case ParkVerb => env.answer(StatusReply) == Refusal
    case ResumeVerb => env.answer(StatusReply) == Refusal
    case DisposeVerb => env.answer(StatusReply) == Refusal
    case _ => env.answer(Release) == Refusal || (env.answer(Release) == Fine && !Permitted(m, verb, env))
  }

  /** A confirmed resume whose child refuses to reconnect, with nothing else recorded meanwhile. */
  predicate ReconnectRefused(m: Machine, verb: Verb, env: Env) {
    && verb == ResumeVerb && m.request.Some? && m.child && m.value.pending == Settled
    && env.answer(StatusReply) == Fine && env.fault(Requesting) == Synced && env.answer(LifecycleReply) == Fine
    && env.answer(LifecycleEvidence) == Fine && env.fault(RequestingDone) == Synced
    && env.answer(Reconnect) == Refusal
  }

  ghost predicate Outlives(m: Machine, verb: Verb, env: Env, flow: Flow) {
    && (Survives(m, flow) <==>
        flow.status == Fine || RefusedFirst(m, verb, env) || ReconnectRefused(m, verb, env))
    && (RefusedFirst(m, verb, env) ==> flow == Flow(m, Refusal))
  }

  /** The process outlives a line exactly when the line succeeds, is refused before anything is recorded, in
      which case nothing changes, or resumes a Session whose child then refuses to reconnect. */
  lemma OutlivesIff(m: Machine, verb: Verb, env: Env)
    requires Between(m)
    ensures Outlives(m, verb, env, Perform(m, verb, env))
  {
    BetweenPending(m);
    hide *;
    match verb {
      case Start => StartOutlives(m, env);
      case AuthorizeOnly => AuthorizeOutlives(m, env);
      case LaunchOnly => LaunchOutlives(m, env);
      case ShowStatus => ShowOutlives(m, env);
      case RunCommand => CommandOutlives(m, env);
      case ParkVerb => ParkOutlives(m, env);
      case ResumeVerb => ResumeOutlives(m, env);
      case DisposeVerb => DisposeOutlives(m, env);
      case Unknown => ShowOutlives(m, env);
    }
  }

  lemma BetweenPending(m: Machine)
    requires Between(m)
    ensures m.value.pending in {Settled, Authorization} && m.request == m.value.active && (m.child ==> m.request.Some?)
  {
    hide Agrees, Lawful, Owns;
  }

  /** Whatever happens once a Session is reserved leaves another journal. */
  lemma AuthorizeChanges(m: Machine, env: Env)
    ensures var flow := Authorize(m, env);
      var reserves := env.nowMs < env.expiresMs && m.value.next < SESSIONS && m.value.active.None? && m.value.pending == Settled;
      if env.answer(Release) != Fine then flow == Flow(m, env.answer(Release))
      else if !reserves then flow == Flow(m, Refusal)
      else m.value.next < flow.machine.value.next
  {
  }

  lemma AuthorizeOutlives(m: Machine, env: Env)
    requires m.request == m.value.active
    ensures Outlives(m, AuthorizeOnly, env, Perform(m, AuthorizeOnly, env))
  {
    AuthorizeChanges(m, env);
    hide Authorize;
  }

  lemma StartOutlives(m: Machine, env: Env)
    requires m.request == m.value.active && (m.child ==> m.request.Some?)
    ensures Outlives(m, Start, env, Perform(m, Start, env))
  {
    AuthorizeChanges(m, env);
    var authorized := Authorize(m, env).machine;
    if authorized.request.Some? { LaunchKeepsNext(authorized, env); }
    hide Authorize, LaunchSession;
  }

  lemma LaunchKeepsNext(m: Machine, env: Env)
    requires m.request.Some?
    ensures LaunchSession(m, env).machine.value.next == m.value.next
  {
  }

  lemma LaunchOutlives(m: Machine, env: Env)
    requires m.value.pending in {Settled, Authorization}
    ensures Outlives(m, LaunchOnly, env, Perform(m, LaunchOnly, env))
  {
  }

  lemma ShowOutlives(m: Machine, env: Env)
    ensures Outlives(m, ShowStatus, env, Perform(m, ShowStatus, env))
    ensures Outlives(m, Unknown, env, Perform(m, Unknown, env))
  {
  }

  lemma CommandOutlives(m: Machine, env: Env)
    ensures Outlives(m, RunCommand, env, Perform(m, RunCommand, env))
  {
  }

  /** A request that is refused once it is recorded leaves it pending. */
  lemma RequestChanges(m: Machine, session: nat, action: Lifecycle, env: Env)
    ensures var flow := RunLifecycle(m, session, action, env);
      if env.answer(StatusReply) != Fine then flow == Flow(m, env.answer(StatusReply))
      else
        && flow.machine.request == m.request && flow.machine.child == m.child
        && flow.machine.value.next == m.value.next && flow.machine.value.active == m.value.active
        && (flow.status == Refusal || (flow.status == Fine && action == Disposal) ==>
            flow.machine.value.pending == Operation(action, session))
        && (flow.status == Fine && action != Disposal ==> flow.machine.value == m.value.(pending := Settled))
  {
  }

  lemma ParkOutlives(m: Machine, env: Env)
    requires m.value.pending in {Settled, Authorization}
    ensures Outlives(m, ParkVerb, env, Perform(m, ParkVerb, env))
  {
    if m.request.Some? { RequestChanges(m, m.request.value, Park, env); }
    hide RunLifecycle;
  }

  lemma ResumeOutlives(m: Machine, env: Env)
    requires m.value.pending in {Settled, Authorization}
    ensures Outlives(m, ResumeVerb, env, Perform(m, ResumeVerb, env))
  {
    if m.request.Some? {
      RequestChanges(m, m.request.value, Resume, env);
      RequestDoes(m, m.request.value, Resume, env);
    }
    hide RunLifecycle;
  }

  lemma DisposeOutlives(m: Machine, env: Env)
    requires m.value.pending in {Settled, Authorization} && m.request == m.value.active
    ensures Outlives(m, DisposeVerb, env, Perform(m, DisposeVerb, env))
  {
    if m.request.Some? { RequestChanges(m, m.request.value, Disposal, env); }
    hide RunLifecycle;
  }

  // ----- opening and resolving -----

  /** What a process reads when it opens the journal. */
  function Stored(disk: Journal): Value {
    match disk.Visible() case None => FRESH case Some(value) => value
  }

  /** The journal opens exactly when what is stored is well formed, of this selection or none yet, and the saves
      and the evidence go through. */
  predicate Opens(disk: Journal, selection: string, env: Env) {
    && WellFormed(Stored(disk)) && Stored(disk).selection in {None, Some(selection)}
    && (disk.Visible().None? ==> env.fault(Creating) == Synced)
    && env.fault(Selecting) == Synced && env.answer(Evidence) == Fine
  }

  lemma OpenMeans(disk: Journal, log: seq<Event>, owner: nat, selection: string, env: Env)
    ensures var flow := Open(disk, log, owner, selection, env);
      var value := Stored(disk).(selection := Some(selection));
      && flow.machine.log == log
      && (flow.status == Fine <==> Opens(disk, selection, env))
      && (flow.status == Fine ==> flow.machine == Machine(OnDisk(value), value, log, owner, None, false))
  {
  }

  /** A foreground process begins exactly when the journal opens with no Session retained and nothing uncertain;
      beginning asks nothing of the outside world. */
  lemma BeginMeans(disk: Journal, log: seq<Event>, owner: nat, selection: string, env: Env)
    ensures var flow := Begin(disk, log, owner, selection, env);
      var value := Stored(disk).(selection := Some(selection));
      && flow.machine.log == log
      && (flow.status == Fine <==> Opens(disk, selection, env) && value.active.None? && value.pending == Settled)
      && (flow.status == Fine ==> flow.machine == Machine(OnDisk(value), value, log, owner, None, false))
  {
    OpenMeans(disk, log, owner, selection, env);
    hide Open, Opens;
  }

  /** Resolving sends at most one request: the disposal of the retained Session, recorded as exactly that. It
      succeeds exactly when the journal opens with a Session retained whose disposal, if one is recorded, is its
      own, and every answer and save is good; the slot is then free. */
  lemma ResolveMeans(disk: Journal, log: seq<Event>, owner: nat, selection: string, env: Env)
    ensures var flow := Resolve(disk, log, owner, selection, env);
      var value := Stored(disk).(selection := Some(selection));
      if !Opens(disk, selection, env) || value.active.None? then flow.machine.log == log && flow.status != Fine
      else
        var session := value.active.value;
        var retained := value.pending.Operation? && value.pending.action == Disposal;
        var effects := [LifecycleSent(session, Disposal, OnDisk(value.(pending := Operation(Disposal, session)))),
                        DisposalConfirmed(session)];
        && log <= flow.machine.log <= log + effects
        && (flow.status == Fine <==>
            && (if retained then value.pending.session == session
                else env.answer(StatusReply) == Fine && env.fault(Requesting) == Synced)
            && env.answer(LifecycleReply) == Fine && env.answer(LifecycleEvidence) == Fine
            && env.answer(Settlement) == Fine && env.fault(Freeing) == Synced)
        && (flow.status == Fine ==>
            var freed := value.(active := None, pending := Settled, spent := 0);
            flow.machine == Machine(OnDisk(freed), freed, log + effects, owner, None, false))
  {
    OpenMeans(disk, log, owner, selection, env);
    var value := Stored(disk).(selection := Some(selection));
    hide Open, Opens, Stored, WellFormed;
    if Opens(disk, selection, env) && value.active.Some? {
      DisposalDoes(Machine(OnDisk(value), value, log, owner, None, false), value.active.value, env);
      hide ResolveDisposal;
    }
  }

  lemma DisposalDoes(m: Machine, session: nat, env: Env)
    requires m.disk == OnDisk(m.value)
    ensures var flow := ResolveDisposal(m, session, env);
      var retained := m.value.pending.Operation? && m.value.pending.action == Disposal;
      var value := m.value.(pending := Operation(Disposal, session));
      var effects := [LifecycleSent(session, Disposal, OnDisk(value)), DisposalConfirmed(session)];
      && m.log <= flow.machine.log <= m.log + effects
      && (flow.status == Fine <==>
          && (if retained then m.value.pending.session == session
              else env.answer(StatusReply) == Fine && env.fault(Requesting) == Synced)
          && env.answer(LifecycleReply) == Fine && env.answer(LifecycleEvidence) == Fine)
      && (flow.status == Fine ==> flow.machine == m.(value := value, disk := OnDisk(value), log := m.log + effects))
  {
    RequestDoes(m, session, Disposal, env);
    hide RunLifecycle;
    var sent := LifecycleSent(session, Disposal, m.disk);
    assert m.log + [sent] + [DisposalConfirmed(session)] == m.log + [sent, DisposalConfirmed(session)];
  }

  // ----- whole runs -----

  /** In every run, a line the process takes up has a prefix of its verb's effects, and all of them and the
      verb's outcome when it is permitted and meets nothing bad; a line it does not take up changes nothing. */
  lemma LinesMean(actions: seq<Action>, verb: Verb, env: Env)
    requires Run(INITIAL, actions).Busy?
    ensures var system := Run(INITIAL, actions);
      var m := system.machine;
      var next := Step(system, Do(verb, env));
      && (!Accepts(m, verb) ==> next == system)
      && (Accepts(m, verb) ==>
          && m.log <= next.History() <= m.log + Effects(m, verb)
          && (Permitted(m, verb, env) && AllGood(m, verb, env) ==>
              next == Busy(Machine(OnDisk(Outcome(m, verb)), Outcome(m, verb), m.log + Effects(m, verb), m.owner,
                                   HeldAfter(m, verb).0, HeldAfter(m, verb).1), system.started)))
  {
    Reachable(actions);
    hide Run, INITIAL, Between, Perform, Safe, Effects, Outcome, HeldAfter, Permitted, AllGood, Accepts;
    LineMeans(Run(INITIAL, actions).machine, verb, env);
  }

  /** The foreground verb that sends a request of this kind. */
  function VerbOf(action: Lifecycle): Verb {
    match action case Park => ParkVerb case Resume => ResumeVerb case Disposal => DisposeVerb
  }

  /** In every run, each request was sent by a line of its own verb for the Session the process held, or, if a
      disposal, by a resolution; and just that request on that Session was then the one thing any power loss
      could have left pending. */
  lemma RequestsHaveTheirVerb(actions: seq<Action>, k: nat) returns (i: nat)
    requires k < |Run(INITIAL, actions).History()| && Run(INITIAL, actions).History()[k].LifecycleSent?
    ensures i < |actions|
    ensures var before := Run(INITIAL, actions[..i]);
      var event := Run(INITIAL, actions).History()[k];
      && |before.History()| <= k < |Step(before, actions[i]).History()|
      && SendsOwn(before, actions[i], event)
      && Recorded(event.ahead, event.session, Operation(event.action, event.session))
  {
    Reachable(actions);
    var log := Run(INITIAL, actions).History();
    assert Recorded(log[k].ahead, log[k].session, Operation(log[k].action, log[k].session)) by { IsRecorded(log, k); }
    hide Inv, Step, Recorded, SendsOwn;
    assert Inv(INITIAL) && INITIAL.History() == [] by { assert [] == actions[..0]; Reachable([]); }
    i := AddedBySome(INITIAL, actions, k);
    StepSendsOwn(Run(INITIAL, actions[..i]), actions[i], k);
  }

  ghost predicate SendsOwn(before: System, action: Action, event: Event)
    requires event.LifecycleSent?
  {
    || (before.Busy? && action.Do? && action.verb == VerbOf(event.action) && before.machine.request == Some(event.session))
    || (before.Idle? && action.ResolveRetained? && event.action == Disposal)
  }

  lemma IsRecorded(log: seq<Event>, k: nat)
    requires k < |log| && log[k].LifecycleSent? && Lawful(log)
    ensures Recorded(log[k].ahead, log[k].session, Operation(log[k].action, log[k].session))
  {
    assert Allowed(log[..k], log[k]);
  }

  /** The step that logged an event. */
  lemma {:induction false} AddedBySome(system: System, actions: seq<Action>, k: nat) returns (i: nat)
    requires Inv(system) && |system.History()| <= k < |Run(system, actions).History()|
    ensures i < |actions|
    ensures var before := Run(system, actions[..i]);
      && Inv(before)
      && |before.History()| <= k < |Step(before, actions[i]).History()|
      && Step(before, actions[i]).History() <= Run(system, actions).History()
    decreases |actions|
  {
    hide Inv, Step;
    var next := Step(system, actions[0]);
    StepKeepsInv(system, actions[0]);
    RunKeepsInv(next, actions[1..]);
    if k < |next.History()| {
      i := 0;
      assert actions[..0] == [];
    } else {
      var later := AddedBySome(next, actions[1..], k);
      i := later + 1;
      assert actions[..i][1..] == actions[1..][..later];
    }
  }

  lemma StepSendsOwn(before: System, action: Action, k: nat)
    requires Inv(before) && |before.History()| <= k < |Step(before, action).History()|
    requires Step(before, action).History()[k].LifecycleSent?
    ensures SendsOwn(before, action, Step(before, action).History()[k])
  {
    match action {
      case Enter(selection, env) => if before.Idle? { BeginMeans(before.disk, before.log, before.started, selection, env); }
      case ResolveRetained(selection, env) =>
        if before.Idle? {
          ResolveMeans(before.disk, before.log, before.started, selection, env);
          hide Resolve, Opens, Safe;
        }
      case Do(verb, env) =>
        if before.Busy? {
          LineSendsOwn(before.machine, verb, env, k);
          hide Perform, Survives, Safe;
        }
      case Leave =>
      case LosePower(choice) =>
    }
  }

  lemma LineSendsOwn(m: Machine, verb: Verb, env: Env, k: nat)
    requires Between(m)
    requires |m.log| <= k < |Perform(m, verb, env).machine.log| && Perform(m, verb, env).machine.log[k].LifecycleSent?
    ensures var event := Perform(m, verb, env).machine.log[k];
      verb == VerbOf(event.action) && m.request == Some(event.session)
  {
    LineMeans(m, verb, env);
    hide Perform, Between, Permitted, AllGood;
    var log := Perform(m, verb, env).machine.log;
    assert log[k] == (m.log + Effects(m, verb))[k];
    assert log[k] == Effects(m, verb)[k - |m.log|];
  }
}
