/**
 The coordinator itself: it updates its value in place, saves it, and only then acts.

 Each method is proved against its flow in `QaModel`, so the run theorems are about these bodies.
 */
module QaCoordinators {
  import opened Results
  import opened Disk
  import opened QaModel

  class Coordinator {
    const owner: nat
    var disk: Journal
    var value: Value
    var request: Option<nat>
    var child: bool
    /** What was asked of the outside world. */
    ghost var log: seq<Event>

    constructor (disk: Journal, ghost log: seq<Event>, owner: nat)
      ensures State() == Machine(disk, FRESH, log, owner, None, false)
    {
      this.disk, this.value, this.log, this.owner, this.request, this.child := disk, FRESH, log, owner, None, false;
    }

    ghost function State(): Machine
      reads this
    {
      Machine(disk, value, log, owner, request, child)
    }

    /** Write a temporary file, rename it over the journal, sync the directory. */
    method WritePrivate(fault: PersistFault) returns (status: Status)
      modifies this
      ensures Flow(State(), status) == Save(old(State()), fault)
    {
      if fault == RenameFailed {
        return Death;
      }
      disk := Disk(disk.durable, disk.renamed + [Some(value)]);
      if fault == SyncFailed {
        return Death;
      }
      disk := Disk(disk.Visible(), []);
      return Fine;
    }

    method ReserveSlot(env: Env) returns (status: Status)
      modifies this
      ensures Flow(State(), status) == Reserve(old(State()), env)
    {
      if !(env.nowMs < env.expiresMs && value.next < SESSIONS && value.active.None? && value.pending == Settled) {
        return Refusal;
      }
      var index := value.next;
      value := value.(next := index + 1, active := Some(index), spent := 0, pending := Authorization);
      status := WritePrivate(env.fault(Reserving));
    }

    method FreeSlot(env: Env) returns (status: Status)
      modifies this
      ensures Flow(State(), status) == Terminal(old(State()), env)
    {
      if value.active.None? {
        return Refusal;
      }
      value := value.(active := None, pending := Settled, spent := 0);
      status := WritePrivate(env.fault(Freeing));
    }

    method AuthorizeSession(env: Env) returns (status: Status)
      modifies this
      ensures Flow(State(), status) == Authorize(old(State()), env)
    {
      status := Fine;
      :- env.answer(Release);
      var index := value.next;
      :- ReserveSlot(env);
      if !value.approved {
        log := log + [RunApproved];
        :- env.answer(RunReply);
        value := value.(approved := true);
        :- WritePrivate(env.fault(Approving));
        :- env.answer(RunEvidence);
      }
      :- env.answer(Inputs);
      log := log + [Authorized(index, value.selection, owner)];
      :- env.answer(ChildReply);
      :- env.answer(ChildEvidence);
      request := Some(index);
      return Fine;
    }

    method LaunchProcess(env: Env) returns (status: Status)
      requires request.Some?
      modifies this
      ensures Flow(State(), status) == LaunchSession(old(State()), env)
    {
      value := value.(pending := Launch);
      :- WritePrivate(env.fault(Launching));
      log := log + [Launched(request.value, disk)];
      :- env.answer(LaunchReply);
      value := value.(pending := Settled);
      :- WritePrivate(env.fault(LaunchingDone));
      child := true;
      return Fine;
    }

    method ChangeLifecycle(session: nat, action: Lifecycle, env: Env) returns (status: Status)
      modifies this
      ensures Flow(State(), status) == RunLifecycle(old(State()), session, action, env)
    {
      status := Fine;
      :- env.answer(StatusReply);
      value := value.(pending := Operation(action, session));
      :- WritePrivate(env.fault(Requesting));
      log := log + [LifecycleSent(session, action, disk)];
      :- env.answer(LifecycleReply);
      if action == Disposal {
        log := log + [DisposalConfirmed(session)];
      }
      :- env.answer(LifecycleEvidence);
      if action != Disposal {
        value := value.(pending := Settled);
        :- WritePrivate(env.fault(RequestingDone));
      }
      return Fine;
    }

    method SendCommand(env: Env) returns (status: Status)
      requires request.Some?
      modifies this
      ensures Flow(State(), status) == Command(old(State()), env)
    {
      if !(env.nowMs < env.expiresMs && value.spent < COMMANDS && value.pending == Settled) {
        return Refusal;
      }
      :- env.answer(CommandStatus);
      value := value.(spent := value.spent + 1);
      var sequence := value.spent;
      value := value.(pending := Tool(sequence));
      // Spent on disk first, delivered second.
      :- WritePrivate(env.fault(Spending));
      log := log + [Delivered(request.value, sequence, owner, disk)];
      :- env.answer(CommandReply);
      value := value.(pending := Settled);
      status := WritePrivate(env.fault(SpendingDone));
    }

    method DisposeSession(env: Env) returns (status: Status)
      requires request.Some?
      modifies this
      ensures Flow(State(), status) == Dispose(old(State()), env)
    {
      status := Fine;
      :- ChangeLifecycle(request.value, Disposal, env);
      if !child {
        return Death;
      }
      :- env.answer(Exit);
      :- FreeSlot(env);
      request, child := None, false;
      return Fine;
    }

    /** One line of the foreground loop. */
    method Attempt(verb: Verb, env: Env) returns (status: Status)
      modifies this
      ensures Flow(State(), status) == Perform(old(State()), verb, env)
    {
      hide Authorize, LaunchSession, RunLifecycle, Command, Dispose;
      match verb {
        case Start =>
          if request.Some? {
            return Refusal;
          }
          :- AuthorizeSession(env);
          if request.None? || child {
            return Refusal;
          }
          status := LaunchProcess(env);
        case AuthorizeOnly =>
          if request.Some? {
            return Refusal;
          }
          status := AuthorizeSession(env);
        case LaunchOnly =>
          if request.None? || child {
            return Refusal;
          }
          status := LaunchProcess(env);
        case ShowStatus =>
          if request.None? {
            return Refusal;
          }
          status := env.answer(Reports);
        case RunCommand =>
          if !child || request.None? {
            return Refusal;
          }
          status := SendCommand(env);
        case ParkVerb =>
          if request.None? {
            return Refusal;
          }
          status := ChangeLifecycle(request.value, Park, env);
        case ResumeVerb =>
          if request.None? {
            return Refusal;
          }
          :- ChangeLifecycle(request.value, Resume, env);
          status := if child then env.answer(Reconnect) else Death;
        case DisposeVerb =>
          if request.None? {
            return Refusal;
          }
          status := DisposeSession(env);
        case Unknown => status := Refusal;
      }
    }

    /** The loop over input lines: a refusal that changed nothing is printed, anything else ends it. */
    method Interact(lines: seq<(Verb, Env)>) returns (alive: bool)
      modifies this
      ensures Looped(old(State()), lines, State(), alive)
    {
      ghost var start := State();
      for i := 0 to |lines|
        invariant forall last, living :: Looped(State(), lines[i..], last, living) ==> Looped(start, lines, last, living)
      {
        var before := value;
        ghost var machine := State();
        var status := Attempt(lines[i].0, lines[i].1);
        assert lines[i..][1..] == lines[i + 1..];
        if !(status == Fine || (status == Refusal && value == before)) {
          assert Looped(machine, lines[i..], State(), false);
          return false;
        }
      }
      alive := true;
    }

    method LoadJournal(env: Env) returns (status: Status)
      requires value == FRESH
      modifies this
      ensures Flow(State(), status) == Load(old(State()), env)
    {
      match disk.Visible() {
        case None => status := WritePrivate(env.fault(Creating));
        case Some(stored) =>
          if !WellFormed(stored) {
            return Refusal;
          }
          value := stored;
          status := Fine;
      }
    }

    method OpenJournal(selection: string, env: Env) returns (status: Status)
      requires value == FRESH && request.None? && !child
      modifies this
      ensures Flow(State(), status) == Open(old(disk), old(log), owner, selection, env)
    {
      status := Fine;
      :- LoadJournal(env);
      if !(value.selection in {None, Some(selection)}) {
        return Refusal;
      }
      value := value.(selection := Some(selection));
      :- WritePrivate(env.fault(Selecting));
      status := env.answer(Evidence);
    }

    method ResolveActive(selection: string, env: Env) returns (status: Status)
      requires value == FRESH && request.None? && !child
      modifies this
      ensures Flow(State(), status) == Resolve(old(disk), old(log), owner, selection, env)
    {
      hide Open, RunLifecycle, Terminal;
      :- OpenJournal(selection, env);
      if value.active.None? {
        return Refusal;
      }
      var session := value.active.value;
      if value.pending.Operation? && value.pending.action == Disposal {
        if value.pending.session != session {
          return Refusal;
        }
        // A retained disposal is the one request that may be sent again.
        log := log + [LifecycleSent(session, Disposal, disk)];
        :- env.answer(LifecycleReply);
        log := log + [DisposalConfirmed(session)];
        :- env.answer(LifecycleEvidence);
      } else {
        :- ChangeLifecycle(session, Disposal, env);
      }
      :- env.answer(Settlement);
      status := FreeSlot(env);
    }
  }
}
