/**
 The push worker between the two stores: each delivery asks Attention for the current generation
 while it holds the pairing lock, and hands that generation to the provider.
 */
module PushWorker {
  import opened Integers
  import opened Results
  import opened Disk
  import AttentionModel
  import AttentionOps
  import A = AttentionRuns
  import opened PairingModel
  import opened PairingOps
  import P = PairingRuns
  import M = PairingMeaning

  datatype World = World(hashes: AttentionOps.Hashes, outbox: nat -> AttentionModel.Change, hash: string -> string)

  datatype System = System(attention: A.System, pairing: P.System)

  /** Anything either store may do on its own, or one device's delivery. */
  datatype Action =
    | Attention(attention: A.Action)
    | Pairing(pairing: P.Action)
    | Push(deviceId: string, nowMs: nat, cancelled: bool, env: AttentionOps.Env, result: SendResult, faults: Faults)

  /** Attention is consulted only after the registry loads and its sender is ready. */
  predicate Consults(system: System, action: Action)
    requires action.Push?
  {
    var loaded := LoadOutcome(system.pairing.disk.Visible(), action.faults.load).reply;
    action.nowMs != 0 && loaded.Success? && loaded.value.health == Ready && !action.cancelled
  }

  function ReadReply(world: World, system: System, env: AttentionOps.Env): Result<AttentionModel.Snapshot, AttentionModel.AttentionError> {
    AttentionOps.OperationOutcome(world.hashes, system.attention.disk.Visible().state, AttentionOps.Read, env).reply
  }

  predicate AnyEligible(items: seq<AttentionModel.Item>) {
    exists item :: item in items && item.eligible
  }

  function LatestOf(reply: Result<AttentionModel.Snapshot, AttentionModel.AttentionError>): Latest {
    match reply
    case Failure(_) => Unavailable
    case Success(snapshot) => if AnyEligible(snapshot.items) then Generation(snapshot.generation) else Nothing
  }

  function Answer(world: World, system: System, action: Action): Latest
    requires action.Push?
  {
    if Consults(system, action) then LatestOf(ReadReply(world, system, action.env)) else Nothing
  }

  function PairingAction(world: World, system: System, action: Action): P.Action
    requires action.Push?
  {
    P.Invoke(Deliver(action.deviceId, Answer(world, system, action), action.nowMs, action.result), action.faults)
  }

  function Step(world: World, system: System, action: Action): System {
    match action
    case Attention(own) => system.(attention := A.Step(world.hashes, world.outbox, system.attention, own))
    case Pairing(own) =>
      // Only a push delivers.
      if own.Invoke? && own.call.Deliver? then system
      else system.(pairing := P.Step(world.hash, system.pairing, own))
    case Push(_, _, _, env, _, _) =>
      var attention := if Consults(system, action)
                       then A.Step(world.hashes, world.outbox, system.attention, A.Local(AttentionOps.Read, env))
                       else system.attention;
      System(attention, P.Step(world.hash, system.pairing, PairingAction(world, system, action)))
  }

  function Run(world: World, system: System, actions: seq<Action>): System
    decreases |actions|
  {
    if actions == [] then system else Run(world, Step(world, system, actions[0]), actions[1..])
  }

  function VisibleGeneration(system: System): nat {
    system.attention.disk.Visible().state.generation
  }

  ghost predicate Inv(world: World, system: System) {
    && A.Inv(world.hashes, world.outbox, system.attention)
    && P.Inv(system.pairing)
  }

  function SentBy(world: World, system: System, action: Action): Option<Sent> {
    if action.Push? then P.SentBy(world.hash, system.pairing, PairingAction(world, system, action)) else None
  }

  predicate ConfirmedBy(world: World, system: System, action: Action, deviceId: string) {
    && action.Push? && SentBy(world, system, action).Some?
    && P.ConfirmedBy(world.hash, system.pairing, PairingAction(world, system, action), deviceId,
                     SentBy(world, system, action).value.generation)
  }

  lemma StepKeepsInv(world: World, system: System, action: Action)
    requires Inv(world, system)
    ensures Inv(world, Step(world, system, action))
    ensures VisibleGeneration(Step(world, system, action)) <= VisibleGeneration(system) + 2
  {
    hide A.Inv, A.Step, P.Inv, P.Step, A.NoOlder, Consults;
    match action {
      case Attention(own) =>
        A.StepKeepsInv(world.hashes, world.outbox, system.attention, own);
        if own.LosePower? { A.PowerLossRecoversOlder(world.hashes, world.outbox, system.attention, own.choice); }
      case Pairing(own) => P.StepKeepsInv(world.hash, system.pairing, own);
      case Push(_, _, _, env, _, _) =>
        A.StepKeepsInv(world.hashes, world.outbox, system.attention, A.Local(AttentionOps.Read, env));
        P.StepKeepsInv(world.hash, system.pairing, PairingAction(world, system, action));
    }
  }

  /** Two new stores are a good start. */
  lemma InitialInv(world: World)
    ensures Inv(world, System(A.INITIAL, P.System(Disk(Current(EMPTY), []), {}, {})))
  {
    A.InitialInv(world.hashes, world.outbox);
    P.GoodStarts(world.hash, Current(EMPTY), {}, {});
    hide A.Inv, P.Inv;
  }

  lemma {:induction false} RunKeepsInv(world: World, system: System, actions: seq<Action>)
    requires Inv(world, system)
    ensures Inv(world, Run(world, system, actions))
    decreases |actions|
  {
    hide Inv, Step;
    if actions != [] {
      StepKeepsInv(world, system, actions[0]);
      RunKeepsInv(world, Step(world, system, actions[0]), actions[1..]);
    }
  }

  // ----- what a submission carries -----

  /** A submission carries the generation readers see once it is done, and only while something
      listed is eligible and delivery was not cancelled. */
  lemma SendCarriesVisibleGeneration(world: World, system: System, action: Action)
    requires Inv(world, system) && SentBy(world, system, action).Some?
    ensures action.Push? && !action.cancelled && SentBy(world, system, action).value.deviceId == action.deviceId
    ensures var after := Step(world, system, action).attention.disk.Visible().state;
      SentBy(world, system, action).value.generation == after.generation && AnyEligible(after.items)
  {
    hide A.Inv, A.Faithful, A.NoOlder, A.GoodDisk, A.Record, P.Step, P.Inv, AttentionOps.OperationOutcome, AnyEligible, Consults;
    SentFromAttention(world, system, action);
    ConsultsUncancelled(system, action);
    A.LocalStep(world.hashes, world.outbox, system.attention.disk, system.attention.acked + 1, AttentionOps.Read, action.env)
      by { InvGivesGoodDisk(world, system); }
  }

  lemma InvGivesGoodDisk(world: World, system: System)
    requires A.Inv(world.hashes, world.outbox, system.attention)
    ensures A.GoodDisk(world.hashes, world.outbox, system.attention.disk, system.attention.acked + 1)
  {
    hide A.GoodDisk;
  }

  lemma ConsultsUncancelled(system: System, action: Action)
    requires action.Push? && Consults(system, action)
    ensures !action.cancelled
  {
    hide LoadOutcome;
  }

  lemma SentFromAttention(world: World, system: System, action: Action)
    requires P.Inv(system.pairing) && SentBy(world, system, action).Some?
    ensures action.Push? && Consults(system, action)
    ensures SentBy(world, system, action).value.deviceId == action.deviceId
    ensures Answer(world, system, action) == Generation(SentBy(world, system, action).value.generation)
  {
    hide P.Inv, P.OutcomeOf, P.Found, P.DevicesSound, Consults;
    P.AfterSend(world.hash, system.pairing, PairingAction(world, system, action));
  }

  /** And a push leaves whenever it is not cancelled, something listed is eligible, and the device is ready
      for the generation Attention shows. */
  lemma EligiblePushIsSent(world: World, system: System, action: Action, index: nat)
    requires Inv(world, system) && action.Push? && !action.cancelled && 0 < action.nowMs <= MAX_U64
    requires var registry := P.Found(system.pairing);
      index < |registry.devices| && registry.devices[index].id == action.deviceId && registry.health == Ready
    requires LoadOutcome(system.pairing.disk.Visible(), action.faults.load).reply.Success? && action.faults.first == Synced
    requires var snapshot := ReadReply(world, system, action.env);
      && snapshot.Success? && AnyEligible(snapshot.value.items) && snapshot.value.generation != 0
      && M.ReadyFor(P.Found(system.pairing).devices[index], snapshot.value.generation, action.nowMs)
    ensures var generation := ReadReply(world, system, action.env).value.generation;
      SentBy(world, system, action) ==
        Some(Sent(action.deviceId, P.Found(system.pairing).devices[index].notification.value.fid.value, generation, action.nowMs))
    ensures Step(world, system, action).attention ==
      A.Step(world.hashes, world.outbox, system.attention, A.Local(AttentionOps.Read, action.env))
  {
    P.VisibleIsCandidate(system.pairing.disk);
    P.LoadWrites(system.pairing.disk.Visible(), action.faults.load);
    hide A.Inv, A.Step, P.Step, P.Inv, P.OutcomeOf, AttentionOps.OperationOutcome, AnyEligible, LoadOutcome, M.ReadyFor, Decode;
    M.SendsWhenReady(world.hash, system.pairing, PairingAction(world, system, action).call, action.faults, index);
    ReadyHasFid(P.Found(system.pairing).devices[index], ReadReply(world, system, action.env).value.generation, action.nowMs);
  }

  lemma ReadyHasFid(device: Device, generation: nat, nowMs: nat)
    requires M.ReadyFor(device, generation, nowMs)
    ensures device.notification.Some? && device.notification.value.fid.Some?
  {
  }

  // ----- no reminder without a change -----

  /** The pairing half of a run is a run of the registry. */
  lemma {:induction false} PairingProjects(world: World, system: System, actions: seq<Action>) returns (own: seq<P.Action>)
    ensures Run(world, system, actions).pairing == P.Run(world.hash, system.pairing, own)
    decreases |actions|
  {
    hide A.Step, P.Step, Consults;
    own := [];
    if actions != [] {
      var next := Step(world, system, actions[0]);
      var rest := PairingProjects(world, next, actions[1..]);
      match actions[0] {
        case Attention(_) => own := rest;
        case Pairing(action) => own := if action.Invoke? && action.call.Deliver? then rest else [action] + rest;
        case Push(_, _, _, _, _, _) => own := [PairingAction(world, system, actions[0])] + rest;
      }
      assert own == rest || own[1..] == rest;
    }
  }

  /** A rising generation rose in some step. */
  lemma {:induction false} RisesSomewhere(world: World, system: System, actions: seq<Action>) returns (k: nat)
    requires VisibleGeneration(system) < VisibleGeneration(Run(world, system, actions))
    ensures k < |actions|
    ensures VisibleGeneration(Run(world, system, actions[..k])) < VisibleGeneration(Run(world, system, actions[..k + 1]))
    ensures Run(world, system, actions[..k + 1]) == Step(world, Run(world, system, actions[..k]), actions[k])
    decreases |actions|
  {
    hide Step;
    var next := Step(world, system, actions[0]);
    if VisibleGeneration(system) < VisibleGeneration(next) {
      k := 0;
      assert actions[..1] == [actions[0]] && [actions[0]][1..] == [];
    } else {
      var later := RisesSomewhere(world, next, actions[1..]);
      k := later + 1;
      assert actions[..k][1..] == actions[1..][..later];
      assert actions[..k + 1][1..] == actions[1..][..later + 1];
    }
  }

  /** Recording writes only ever extends the visible history. */
  lemma {:induction false} RecordExtends(disk: A.TracedDisk, writes: seq<AttentionOps.AttentionWrite>)
    ensures disk.Visible().history <= A.Record(disk, writes).Visible().history
    ensures A.Record(disk, writes).Visible() == disk.Visible() || disk.Visible().history < A.Record(disk, writes).Visible().history
    decreases |writes|
  {
    if writes != [] {
      var next := disk.Persist(A.Traced(writes[0].state, disk.Visible().history + [writes[0].cause]), writes[0].fault);
      RecordExtends(next, writes[1..]);
    }
  }

  /** Only an Attention call raises the generation, and it leaves a longer history of changes;
      a power loss never does. */
  lemma RiseIsChange(world: World, system: System, action: Action)
    requires Inv(world, system) && VisibleGeneration(system) < VisibleGeneration(Step(world, system, action))
    ensures action.Push? || (action.Attention? && (action.attention.Deliver? || action.attention.Local?))
    ensures system.attention.disk.Visible().history < Step(world, system, action).attention.disk.Visible().history
  {
    hide A.Inv, A.Record, P.Step, P.Inv, AttentionOps.OperationOutcome, AttentionOps.ProjectOutcome, Consults;
    var attention := system.attention;
    var own := if action.Attention? then action.attention else if action.Push? then A.Local(AttentionOps.Read, action.env) else A.Offer;
    match own {
      case Deliver(sequence, env) =>
        var projection := AttentionModel.Projection(sequence, world.outbox(sequence));
        RecordExtends(attention.disk, AttentionOps.ProjectOutcome(world.hashes, attention.disk.Visible().state, projection, env).writes);
      case Local(operation, env) =>
        RecordExtends(attention.disk, AttentionOps.OperationOutcome(world.hashes, attention.disk.Visible().state, operation, env).writes);
      case LosePower(choice) => A.PowerLossRecoversOlder(world.hashes, world.outbox, attention, choice);
      case _ =>
    }
  }

  /** Once a device confirmed a generation, nothing is sent to it again until Attention recorded a change:
      the next submission carries a later generation, and some step since then extended the inbox's history. */
  lemma NoReminderWithoutChange(world: World, system: System, first: Action, between: seq<Action>, second: Action, deviceId: string)
      returns (k: nat)
    requires Inv(world, system) && ConfirmedBy(world, system, first, deviceId)
    requires var later := Run(world, Step(world, system, first), between);
      SentBy(world, later, second).Some? && SentBy(world, later, second).value.deviceId == deviceId
    ensures var later := Run(world, Step(world, system, first), between);
      SentBy(world, system, first).value.generation < SentBy(world, later, second).value.generation
    ensures k <= |between|
    ensures var before := Run(world, Step(world, system, first), (between + [second])[..k]);
      var after := Step(world, before, (between + [second])[k]);
      && VisibleGeneration(before) < VisibleGeneration(after)
      && before.attention.disk.Visible().history < after.attention.disk.Visible().history
  {
    var next := Step(world, system, first);
    var all := between + [second];
    StepKeepsInv(world, system, first);
    var later := Run(world, next, between);
    RunKeepsInv(world, next, between);
    ConfirmedCarries(world, system, first, deviceId);
    SendCarriesVisibleGeneration(world, later, second);
    RunAppend(world, next, between, second);
    GenerationsIncrease(world, system, first, between, second, deviceId);
    hide *;
    k := RisesSomewhere(world, next, all);
    RunKeepsInv(world, next, all[..k]);
    RiseIsChange(world, Run(world, next, all[..k]), all[k]);
  }

  lemma ConfirmedCarries(world: World, system: System, action: Action, deviceId: string)
    requires Inv(world, system) && ConfirmedBy(world, system, action, deviceId)
    ensures SentBy(world, system, action).value.generation == VisibleGeneration(Step(world, system, action))
  {
    hide Inv, Step, P.ConfirmedBy, SentBy;
    SendCarriesVisibleGeneration(world, system, action);
  }

  lemma {:induction false} RunAppend(world: World, system: System, actions: seq<Action>, last: Action)
    ensures Run(world, system, actions + [last]) == Step(world, Run(world, system, actions), last)
    decreases |actions|
  {
    hide Step;
    if actions == [] {
      assert [last][1..] == [];
    } else {
      assert (actions + [last])[1..] == actions[1..] + [last];
      RunAppend(world, Step(world, system, actions[0]), actions[1..], last);
    }
  }

  lemma GenerationsIncrease(world: World, system: System, first: Action, between: seq<Action>, second: Action, deviceId: string)
    requires Inv(world, system) && ConfirmedBy(world, system, first, deviceId)
    requires var later := Run(world, Step(world, system, first), between);
      SentBy(world, later, second).Some? && SentBy(world, later, second).value.deviceId == deviceId
    ensures var later := Run(world, Step(world, system, first), between);
      SentBy(world, system, first).value.generation < SentBy(world, later, second).value.generation
  {
    hide A.Inv, P.Inv, A.Step, P.Step, P.Run, P.OutcomeOf, P.SentBy, Run, Consults, Answer;
    var next := Step(world, system, first);
    var own := PairingProjects(world, next, between);
    P.ConfirmedGenerationsIncrease(world.hash, system.pairing, PairingAction(world, system, first), own,
                                   PairingAction(world, Run(world, next, between), second), deviceId,
                                   SentBy(world, system, first).value.generation);
  }
}
