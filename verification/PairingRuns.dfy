/**
 Whole runs of the pairing registry: pairing, revocation, registration and push delivery, in any
 interleaving, with faults at every replacement and power loss.

 The worker reads the device list outside the lock and then takes each device in its own locked
 step, so a delivery here may name any device at any moment.
 */
module PairingRuns {
  import opened Integers
  import opened Results
  import opened Disk
  import opened PairingModel
  import opened PairingOps

  // ----- what one call may write -----

  function DeviceIndex(registry: Registry, deviceId: string): int {
    Position(registry.devices, HasId(deviceId))
  }

  ghost predicate MayDeliver(registry: Registry, call: Call) {
    && call.Deliver? && call.nowMs != 0 && call.latest.Generation? && call.latest.value != 0
    && registry.health == Ready
    && var index := DeviceIndex(registry, call.deviceId);
    && index != -1 && registry.devices[index].notification.Some?
    && Due(registry.devices[index].notification.value, call.latest.value, call.nowMs)
    && registry.devices[index].notification.value.fid.Some?
  }

  /** The registration that is durable when a delivery's request leaves. */
  ghost function Ahead(registry: Registry, call: Call): Registration
    requires MayDeliver(registry, call)
  {
    WriteAhead(registry.devices[DeviceIndex(registry, call.deviceId)].notification.value, call.nowMs)
  }

  ghost function Pending(registry: Registry, call: Call): Registry
    requires MayDeliver(registry, call)
  {
    WithRegistration(registry, DeviceIndex(registry, call.deviceId), Ahead(registry, call))
  }

  ghost function Settled(registry: Registry, call: Call): Registry
    requires MayDeliver(registry, call)
  {
    var settled := Settle(Ahead(registry, call), call.latest.value, call.nowMs, call.result);
    WithRegistration(Pending(registry, call), DeviceIndex(registry, call.deviceId), settled)
    .(health := SettleHealth(registry.health, call.result))
  }

  /** `next` is a registry that `call` may store when it finds `registry`. */
  ghost predicate MayWrite(hash: string -> string, registry: Registry, call: Call, next: Registry) {
    || next == registry
    || match call
       case Issue(_, nowMs, ttlMs, token) => next == IssueChange(registry, hash(token), nowMs, ttlMs)
       case Consume(token, name, nowMs, deviceId, secret) =>
         var index := MatchOffer(registry.pending, hash(token), nowMs);
         && index != -1
         && next == ConsumeChange(registry, index, nowMs,
                                  Device(deviceId, TrimEnd(TrimStart(name)), nowMs, None, hash(secret), None))
       case RecordDelivery(deviceId, nowMs) =>
         var index := DeviceIndex(registry, deviceId);
         && index != -1
         && next == registry.(devices := registry.devices[index :=
                                registry.devices[index].(lastDeliveryAtMs := Some(nowMs))])
       case Revoke(deviceId) => next == registry.(devices := Without(registry.devices, deviceId))
       case Register(credential, fid) =>
         exists index :: 0 <= index < |registry.devices|
           && ValidFid(fid) && !FidTakenElsewhere(registry.devices, index, fid)
           && registry.devices[index].credentialHash == hash(credential)
           && next == RegisterChange(registry, index, fid)
       case Configure(health) =>
         && next == registry.(health := health)
         && (health != Ready || registry.health == Unconfigured)
       case RetryNotifications => next == registry.(health := Ready)
       case Deliver(_, _, _, _) =>
         MayDeliver(registry, call) && (next == Pending(registry, call) || next == Settled(registry, call))
       case Status => false
  }

  lemma ChangeWrites(hash: string -> string, writes: seq<PairingWrite>, registry: Registry, call: Call, fault: PersistFault)
    requires !call.Deliver? && ValidArguments(call)
    ensures var outcome := ChangeOutcome(hash, writes, registry, call, fault);
      outcome.writes == writes ||
      (exists next :: MayWrite(hash, registry, call, next) && outcome.writes == writes + [Write(Current(next), Changing, fault)])
  {
    match call {
      case Issue(_, nowMs, ttlMs, token) =>
        assert MayWrite(hash, registry, call, IssueChange(registry, hash(token), nowMs, ttlMs));
      case Consume(token, name, nowMs, deviceId, secret) =>
        var index := MatchOffer(registry.pending, hash(token), nowMs);
        if index != -1 {
          var device := Device(deviceId, TrimEnd(TrimStart(name)), nowMs, None, hash(secret), None);
          assert MayWrite(hash, registry, call, ConsumeChange(registry, index, nowMs, device));
        }
      case RecordDelivery(deviceId, nowMs) =>
        var index := DeviceIndex(registry, deviceId);
        if index != -1 {
          var device := registry.devices[index].(lastDeliveryAtMs := Some(nowMs));
          assert MayWrite(hash, registry, call, registry.(devices := registry.devices[index := device]));
        }
      case Revoke(deviceId) =>
        assert MayWrite(hash, registry, call, registry.(devices := Without(registry.devices, deviceId)));
      case Register(credential, fid) =>
        var credentialHash := hash(credential);
        var index := Position(registry.devices, (device: Device) => device.credentialHash == credentialHash);
        if index != -1 && !FidTakenElsewhere(registry.devices, index, fid) {
          assert MayWrite(hash, registry, call, RegisterChange(registry, index, fid));
        }
      case Configure(health) => assert MayWrite(hash, registry, call, registry.(health := health)) || health == Ready;
      case RetryNotifications => assert MayWrite(hash, registry, call, registry.(health := Ready));
      case Status =>
    }
  }

  lemma StayingIsAllowed(hash: string -> string, registry: Registry, call: Call)
    ensures MayWrite(hash, registry, call, registry)
  {
  }

  lemma LoadWrites(file: File, fault: PersistFault)
    requires Decode(file).Some?
    ensures var loaded := LoadOutcome(file, fault);
      && (forall write :: write in loaded.writes ==> write.state == Current(Decode(file).value))
      && (loaded.reply.Success? ==> loaded.reply.value == Decode(file).value)
      && (loaded.reply.Success? ==> forall write :: write in loaded.writes ==> write.fault == Synced)
      && loaded.sent.None?
  {
    hide Decode;
  }

  lemma DeliverWrites(file: File, call: Call, faults: Faults)
    requires Decode(file).Some? && call.Deliver? && call.nowMs != 0
    ensures var outcome := DeliverOutcome(file, call.deviceId, call.latest, call.nowMs, call.result, faults);
      var registry := Decode(file).value;
      var loaded := LoadOutcome(file, faults.load).writes;
      if outcome.sent.Some? then
        && MayDeliver(registry, call)
        && outcome.sent.value == Sent(call.deviceId, outcome.sent.value.fid, call.latest.value, call.nowMs)
        && UsesFid(registry.devices[DeviceIndex(registry, call.deviceId)], outcome.sent.value.fid)
        && outcome.writes == loaded + [Write(Current(Pending(registry, call)), WritingAhead, Synced),
                                       Write(Current(Settled(registry, call)), Settling, faults.second)]
        && outcome.reply == (if faults.second == Synced then Success(call.result.Accepted?) else Failure(Storage))
      else
        && outcome.reply != Success(true)
        && (outcome.writes == loaded
            || (MayDeliver(registry, call) &&
                outcome.writes == loaded + [Write(Current(Pending(registry, call)), WritingAhead, faults.first)]))
  {
    hide Decode, WriteAhead, Settle, SettleHealth, Due;
    LoadWrites(file, faults.load);
  }

  /** Every replacement a call attempts is one it may make from the registry it found. */
  lemma WritesAreChanges(hash: string -> string, file: File, call: Call, faults: Faults)
    requires Decode(file).Some?
    ensures forall write :: write in CallOutcome(hash, file, call, faults).writes ==>
      write.state.Current? && MayWrite(hash, Decode(file).value, call, write.state.registry)
  {
    var registry := Decode(file).value;
    var loaded := LoadOutcome(file, faults.load);
    LoadWrites(file, faults.load);
    StayingIsAllowed(hash, registry, call);
    if call.Deliver? {
      if call.nowMs != 0 {
        DeliverWrites(file, call, faults);
        hide Decode, LoadOutcome, DeliverOutcome, MayDeliver, Pending, Settled;
      }
    } else if ValidArguments(call) && loaded.reply.Success? {
      ChangeWrites(hash, loaded.writes, registry, call, faults.first);
      hide Decode, LoadOutcome, ChangeOutcome, MayWrite;
    }
  }

  // ----- sending -----

  /** A send leaves only for a device that is paired, enabled and using that address at that moment,
      while the sender is ready, above everything confirmed, and only once its deadline is durable. */
  lemma SendIsAuthorized(hash: string -> string, file: File, call: Call, faults: Faults)
    requires Decode(file).Some?
    ensures var outcome := CallOutcome(hash, file, call, faults);
      var registry := Decode(file).value;
      (outcome.sent.Some? ==>
        && MayDeliver(registry, call)
        && outcome.sent.value == Sent(call.deviceId, outcome.sent.value.fid, call.latest.value, call.nowMs)
        && UsesFid(registry.devices[DeviceIndex(registry, call.deviceId)], outcome.sent.value.fid)
        && outcome.writes == LoadOutcome(file, faults.load).writes
             + [Write(Current(Pending(registry, call)), WritingAhead, Synced),
                Write(Current(Settled(registry, call)), Settling, faults.second)]
        && (outcome.reply == Success(Confirmed) <==> faults.second == Synced && call.result.Accepted?)
        && (outcome.reply.Success? <==> faults.second == Synced))
      && (outcome.reply == Success(Confirmed) ==> outcome.sent.Some?)
  {
    hide Decode, LoadOutcome, DeliverOutcome, ValidArguments, ChangeOutcome, MayDeliver, Pending, Settled, UsesFid;
    if call.Deliver? {
      if call.nowMs != 0 { DeliverWrites(file, call, faults); }
    } else {
      LoadWrites(file, faults.load);
      var loaded := LoadOutcome(file, faults.load);
      if loaded.reply.Success? { ChangesSendNothing(hash, loaded.writes, loaded.reply.value, call, faults.first); }
    }
  }

  /** And it leaves whenever all of that holds, the file loads, and the deadline was stored durably. */
  lemma SendsExactlyWhenDue(hash: string -> string, file: File, call: Call, faults: Faults)
    requires Decode(file).Some?
    ensures CallOutcome(hash, file, call, faults).sent.Some? <==>
      MayDeliver(Decode(file).value, call) && LoadOutcome(file, faults.load).reply.Success? && faults.first == Synced
  {
    hide Decode, WriteAhead, Settle, SettleHealth, Due, ValidArguments, ChangeOutcome;
    LoadWrites(file, faults.load);
    if !call.Deliver? {
      var loaded := LoadOutcome(file, faults.load);
      if loaded.reply.Success? { ChangesSendNothing(hash, loaded.writes, loaded.reply.value, call, faults.first); }
    }
  }

  lemma ChangesSendNothing(hash: string -> string, writes: seq<PairingWrite>, registry: Registry, call: Call, fault: PersistFault)
    requires !call.Deliver?
    ensures var outcome := ChangeOutcome(hash, writes, registry, call, fault);
      outcome.sent.None? && outcome.reply != Success(Confirmed)
  {
    hide IssueChange, ConsumeChange, RegisterChange, FidTakenElsewhere;
  }

  // ----- the system -----

  /** The disk, with every device id and secret ever drawn. */
  datatype System = System(disk: Disk<File>, usedIds: set<string>, usedSecrets: set<string>)

  datatype Action = Invoke(call: Call, faults: Faults) | LosePower(choice: nat)

  /** UUIDs and secrets are drawn fresh; times are u64. */
  predicate Possible(system: System, call: Call) {
    && (call.Issue? ==> call.token !in system.usedSecrets)
    && (call.Consume? ==> call.deviceId !in system.usedIds && call.secret !in system.usedSecrets)
    && (call.Issue? || call.Consume? || call.RecordDelivery? || call.Deliver? ==> call.nowMs <= MAX_U64)
  }

  function OutcomeOf(hash: string -> string, system: System, action: Action): Outcome<Reply> {
    if action.Invoke? && Possible(system, action.call) then
      CallOutcome(hash, system.disk.Visible(), action.call, action.faults)
    else Outcome([], Failure(Rejected), None)
  }

  function Step(hash: string -> string, system: System, action: Action): System {
    match action
    case LosePower(choice) => system.(disk := system.disk.AfterPowerLoss(choice))
    case Invoke(call, _) =>
      if !Possible(system, call) then system
      else
        System(PersistAll(system.disk, OutcomeOf(hash, system, action).writes),
               system.usedIds + DrawnIds(call), system.usedSecrets + DrawnSecrets(call))
  }

  function DrawnIds(call: Call): set<string> {
    if call.Consume? then {call.deviceId} else {}
  }

  function DrawnSecrets(call: Call): set<string> {
    if call.Issue? then {call.token} else if call.Consume? then {call.secret} else {}
  }

  function Run(hash: string -> string, system: System, actions: seq<Action>): System
    decreases |actions|
  {
    if actions == [] then system else Run(hash, Step(hash, system, actions[0]), actions[1..])
  }

  // ----- properties of every state a power loss could leave -----

  ghost predicate Everywhere(disk: Disk<File>, holds: Registry -> bool) {
    forall file :: file in disk.Candidates() ==> Decode(file).Some? && holds(Decode(file).value)
  }

  /** A state on disk after some writes was there before, or reached the rename. */
  lemma {:induction false} WrittenCandidates(disk: Disk<File>, writes: seq<PairingWrite>, file: File)
    requires file in PersistAll(disk, writes).Candidates()
    ensures file in disk.Candidates() || exists write :: write in writes && write.fault != RenameFailed && write.state == file
    decreases |writes|
  {
    if writes != [] {
      var next := disk.Persist(writes[0].state, writes[0].fault);
      WrittenCandidates(next, writes[1..], file);
      assert writes[0] in writes;
      if file in next.Candidates() {
        assert file in disk.Candidates() || (file == writes[0].state && writes[0].fault != RenameFailed);
      }
    }
  }

  /** The step replaces the file by `next`, as far as the rename at least. */
  ghost predicate Installs(hash: string -> string, system: System, action: Action, next: Registry) {
    exists write :: write in OutcomeOf(hash, system, action).writes && write.fault != RenameFailed && write.state == Current(next)
  }

  /** What is left after a call whose last two replacements are known. */
  lemma AfterWriteAhead(disk: Disk<File>, before: seq<PairingWrite>, ahead: PairingWrite, last: PairingWrite)
    requires ahead.fault == Synced
    ensures var next := PersistAll(disk, before + [ahead, last]);
      && (forall file :: file in next.Candidates() ==> file == ahead.state || file == last.state)
      && (last.fault == Synced ==> next == Disk(last.state, []))
      && (last.fault == RenameFailed ==> next == Disk(ahead.state, []))
  {
    PersistAllAppend(disk, before, [ahead, last]);
    assert [ahead, last][1..] == [last];
    assert [last][1..] == [];
    var middle := PersistAll(disk, before).Persist(ahead.state, ahead.fault);
    assert PersistAll(middle, [last]) == middle.Persist(last.state, last.fault);
  }

  lemma VisibleIsCandidate(disk: Disk<File>)
    ensures disk.Visible() in disk.Candidates()
  {
  }

  /** What a step installs is a change its call may make. */
  lemma InstallsAreChanges(hash: string -> string, system: System, action: Action, next: Registry)
    requires Decode(system.disk.Visible()).Some? && Installs(hash, system, action, next)
    ensures action.Invoke? && Possible(system, action.call)
    ensures MayWrite(hash, Found(system), action.call, next)
  {
    hide MayWrite, CallOutcome, Decode;
    if action.Invoke? { WritesAreChanges(hash, system.disk.Visible(), action.call, action.faults); }
  }

  /** A property of everything a step installs holds everywhere after it. */
  lemma StepKeeps(hash: string -> string, system: System, action: Action, holds: Registry -> bool)
    requires Everywhere(system.disk, holds)
    requires forall next :: Installs(hash, system, action, next) ==> ValidRegistry(next) && holds(next)
    ensures Everywhere(Step(hash, system, action).disk, holds)
  {
    hide MayWrite, CallOutcome, ValidRegistry;
    VisibleIsCandidate(system.disk);
    if action.Invoke? && Possible(system, action.call) {
      var writes := CallOutcome(hash, system.disk.Visible(), action.call, action.faults).writes;
      WritesAreChanges(hash, system.disk.Visible(), action.call, action.faults);
      forall file | file in PersistAll(system.disk, writes).Candidates() ensures Decode(file).Some? && holds(Decode(file).value) {
        WrittenCandidates(system.disk, writes, file);
        if file !in system.disk.Candidates() { assert Installs(hash, system, action, file.registry); }
      }
    }
  }

  // ----- every stored file reloads -----

  predicate DistinctIds(devices: seq<Device>) {
    forall i, j :: 0 <= i < j < |devices| ==> devices[i].id != devices[j].id
  }

  predicate DistinctOffers(offers: seq<Offer>) {
    forall i, j :: 0 <= i < j < |offers| ==> offers[i].tokenHash != offers[j].tokenHash
  }

  predicate DevicesSound(usedIds: set<string>, registry: Registry) {
    && ValidRegistry(registry)
    && DistinctIds(registry.devices)
    && forall device :: device in registry.devices ==> device.id in usedIds
  }

  /** Every offer's token was drawn, and no two offers share one. */
  ghost predicate OffersSound(hash: string -> string, usedSecrets: set<string>, registry: Registry) {
    && DistinctOffers(registry.pending)
    && forall offer :: offer in registry.pending ==> exists token :: token in usedSecrets && offer.tokenHash == hash(token)
  }

  ghost predicate Inv(system: System) {
    Everywhere(system.disk, registry => DevicesSound(system.usedIds, registry))
  }

  ghost predicate OffersInv(hash: string -> string, system: System) {
    Everywhere(system.disk, registry => OffersSound(hash, system.usedSecrets, registry))
  }

  /** No two of these secrets collide. */
  ghost predicate CollisionFree(hash: string -> string, secrets: set<string>) {
    forall a, b :: a in secrets && b in secrets && hash(a) == hash(b) ==> a == b
  }

  lemma {:induction false} UnexpiredDistinct(offers: seq<Offer>, keep: Offer -> bool)
    requires DistinctOffers(offers)
    ensures DistinctOffers(Unexpired(offers, keep))
  {
    if offers != [] {
      var n := |offers| - 1;
      UnexpiredDistinct(offers[..n], keep);
      var front := Unexpired(offers[..n], keep);
      forall i | 0 <= i < |front| ensures front[i].tokenHash != offers[n].tokenHash {
        assert front[i] in offers[..n];
      }
    }
  }

  lemma {:induction false} WithoutDistinctIds(devices: seq<Device>, id: string)
    requires DistinctIds(devices)
    ensures DistinctIds(Without(devices, id))
  {
    if devices != [] {
      var n := |devices| - 1;
      WithoutDistinctIds(devices[..n], id);
      var front := Without(devices[..n], id);
      forall i | 0 <= i < |front| ensures front[i].id != devices[n].id {
        assert front[i] in devices[..n];
      }
    }
  }

  lemma {:induction false} WithoutDistinctFids(devices: seq<Device>, id: string)
    requires DistinctFids(devices)
    ensures DistinctFids(Without(devices, id))
  {
    if devices != [] {
      hide UsesFid;
      var n := |devices| - 1;
      WithoutDistinctFids(devices[..n], id);
      var front := Without(devices[..n], id);
      forall i | 0 <= i < |front| && front[i].notification.Some? && front[i].notification.value.fid.Some?
        ensures !UsesFid(devices[n], front[i].notification.value.fid.value)
      {
        assert front[i] in devices[..n];
      }
    }
  }

  /** Replacing one device's registration keeps the file valid when the address stays, or is free. */
  lemma ReplacementValid(registry: Registry, index: nat, registration: Registration)
    requires ValidRegistry(registry) && index < |registry.devices| && ValidRegistration(registration)
    requires registration.fid.Some? ==>
      || UsesFid(registry.devices[index], registration.fid.value)
      || !FidTakenElsewhere(registry.devices, index, registration.fid.value)
    ensures ValidRegistry(WithRegistration(registry, index, registration))
  {
    hide ValidRegistration;
    var devices := registry.devices;
    var updated := WithRegistration(registry, index, registration).devices;
    forall i, j | 0 <= i < j < |updated| && updated[i].notification.Some? && updated[i].notification.value.fid.Some?
      ensures !UsesFid(updated[j], updated[i].notification.value.fid.value)
    {
      if i == index { assert devices[j] == updated[j]; }
      if j == index { assert devices[i] == updated[i]; }
    }
  }

  lemma DeliveryValid(registry: Registry, call: Call)
    requires ValidRegistry(registry) && MayDeliver(registry, call)
    ensures ValidRegistry(Pending(registry, call)) && ValidRegistry(Settled(registry, call))
  {
    var index := DeviceIndex(registry, call.deviceId);
    var registration := registry.devices[index].notification.value;
    assert registry.devices[index] in registry.devices;
    var ahead := WriteAhead(registration, call.nowMs);
    DelayBounds(ahead.attempts, ahead.attempts);
    assert ValidRegistration(ahead);
    ReplacementValid(registry, index, ahead);
    var settled := Settle(ahead, call.latest.value, call.nowMs, call.result);
    assert ValidRegistration(settled);
    ReplacementValid(Pending(registry, call), index, settled);
  }

  lemma ConsumeIsValid(registry: Registry, index: nat, nowMs: nat, device: Device)
    requires ValidRegistry(registry) && index < |registry.pending| && device.notification.None?
    ensures ValidRegistry(ConsumeChange(registry, index, nowMs, device))
  {
    hide ValidRegistration, Unexpired;
    assert (registry.devices + [device])[..|registry.devices|] == registry.devices;
  }

  lemma RecordIsValid(registry: Registry, index: nat, nowMs: nat)
    requires ValidRegistry(registry) && index < |registry.devices|
    ensures ValidRegistry(registry.(devices := registry.devices[index :=
                            registry.devices[index].(lastDeliveryAtMs := Some(nowMs))]))
  {
    hide ValidRegistration;
    var devices := registry.devices[index := registry.devices[index].(lastDeliveryAtMs := Some(nowMs))];
    forall device | device in devices && device.notification.Some? ensures ValidRegistration(device.notification.value) {
      var i :| 0 <= i < |devices| && devices[i] == device;
      assert registry.devices[i] in registry.devices;
    }
  }

  lemma RegisterIsValid(registry: Registry, index: nat, fid: string)
    requires ValidRegistry(registry) && index < |registry.devices|
    requires ValidFid(fid) && !FidTakenElsewhere(registry.devices, index, fid)
    ensures ValidRegistry(RegisterChange(registry, index, fid))
  {
    assert registry.devices[index] in registry.devices;
    var current := registry.devices[index].notification;
    var submitted := if current.Some? then current.value.submitted else None;
    var registration := Registration(Some(fid), true, submitted, 0, 0);
    assert ValidRegistration(registration) by { hide FidTakenElsewhere, ValidFid, DistinctFids; }
    hide ValidFid, ValidRegistry, ValidRegistration, FidTakenElsewhere, WithRegistration;
    ReplacementValid(registry, index, registration);
  }

  /** No call can store a registry its own load would refuse. */
  lemma WriteIsValid(hash: string -> string, registry: Registry, call: Call, next: Registry)
    requires ValidRegistry(registry) && MayWrite(hash, registry, call, next)
    ensures ValidRegistry(next)
  {
    hide ValidRegistration, UsesFid, ValidFid, FidTakenElsewhere, RegisterChange, ConsumeChange, MayDeliver, Pending, Settled,
      Unexpired, Without, WithRegistration;
    match call {
      case Consume(token, name, nowMs, deviceId, secret) =>
        var index := MatchOffer(registry.pending, hash(token), nowMs);
        if index != -1 {
          ConsumeIsValid(registry, index, nowMs,
                         Device(deviceId, TrimEnd(TrimStart(name)), nowMs, None, hash(secret), None));
        }
      case RecordDelivery(deviceId, nowMs) =>
        var index := DeviceIndex(registry, deviceId);
        if index != -1 { RecordIsValid(registry, index, nowMs); }
      case Revoke(deviceId) => WithoutDistinctFids(registry.devices, deviceId);
      case Register(credential, fid) =>
        if next != registry {
          var index :| 0 <= index < |registry.devices| && ValidFid(fid) && !FidTakenElsewhere(registry.devices, index, fid)
            && registry.devices[index].credentialHash == hash(credential) && next == RegisterChange(registry, index, fid);
          RegisterIsValid(registry, index, fid);
        }
      case Deliver(_, _, _, _) => if next != registry { DeliveryValid(registry, call); }
      case _ =>
    }
  }

  lemma WriteKeepsOffers(hash: string -> string, system: System, call: Call, registry: Registry, next: Registry)
    requires OffersSound(hash, system.usedSecrets, registry)
    requires Possible(system, call) && MayWrite(hash, registry, call, next)
    requires CollisionFree(hash, system.usedSecrets + DrawnSecrets(call))
    ensures OffersSound(hash, system.usedSecrets + DrawnSecrets(call), next)
  {
    if call.Issue? && next != registry {
      IssueKeepsOffers(hash, system.usedSecrets, registry.pending, call.token, call.nowMs, Saturate(call.nowMs + call.ttlMs));
    } else if call.Consume? && next != registry {
      ConsumeKeepsOffers(hash, system.usedSecrets, registry, call, next);
      hide DistinctOffers, MayWrite;
    } else {
      OthersKeepOffers(hash, call, registry, next);
      hide DistinctOffers, MayWrite;
    }
  }

  lemma OthersKeepOffers(hash: string -> string, call: Call, registry: Registry, next: Registry)
    requires MayWrite(hash, registry, call, next) && (next == registry || !(call.Issue? || call.Consume?))
    ensures next.pending == registry.pending
  {
    hide MayDeliver, ValidFid, FidTakenElsewhere, Ahead, Settle, SettleHealth;
  }

  /** Only pairing adds a device, under the id it drew; nothing else gives a device another id. */
  lemma WriteKeepsIds(hash: string -> string, usedIds: set<string>, call: Call, registry: Registry, next: Registry)
    requires MayWrite(hash, registry, call, next) && (call.Consume? ==> call.deviceId !in usedIds)
    requires DistinctIds(registry.devices) && forall device :: device in registry.devices ==> device.id in usedIds
    ensures DistinctIds(next.devices)
    ensures forall device :: device in next.devices ==> device.id in usedIds + DrawnIds(call)
  {
    if next != registry {
      match call {
        case Revoke(deviceId) => WithoutDistinctIds(registry.devices, deviceId);
        case Consume(token, name, nowMs, deviceId, secret) =>
          hide Unexpired, TrimEnd, TrimStart;
          forall i | 0 <= i < |registry.devices| ensures next.devices[i].id != deviceId {
            assert registry.devices[i] in registry.devices;
          }
        case RecordDelivery(deviceId, _) => SameIds(registry.devices, next.devices, usedIds);
        case Register(credential, fid) => hide ValidFid, FidTakenElsewhere; SameIds(registry.devices, next.devices, usedIds);
        case Deliver(_, _, _, _) => hide Ahead, Settle, SettleHealth; SameIds(registry.devices, next.devices, usedIds);
        case _ =>
      }
    }
  }

  lemma IssueKeepsOffers(hash: string -> string, secrets: set<string>, offers: seq<Offer>, token: string, nowMs: nat, expiry: nat)
    requires DistinctOffers(offers) && token !in secrets && CollisionFree(hash, secrets + {token})
    requires forall offer :: offer in offers ==> exists t :: t in secrets && offer.tokenHash == hash(t)
    ensures DistinctOffers(Unexpired(offers, (offer: Offer) => nowMs < offer.expiresAtMs) + [Offer(hash(token), expiry)])
  {
    var keep := (offer: Offer) => nowMs < offer.expiresAtMs;
    UnexpiredDistinct(offers, keep);
    var kept := Unexpired(offers, keep);
    forall i | 0 <= i < |kept| ensures kept[i].tokenHash != hash(token) {
      assert kept[i] in offers;
    }
  }

  lemma ConsumeKeepsOffers(hash: string -> string, secrets: set<string>, registry: Registry, call: Call, next: Registry)
    requires call.Consume? && MayWrite(hash, registry, call, next) && next != registry
    requires DistinctOffers(registry.pending)
    requires forall offer :: offer in registry.pending ==> exists t :: t in secrets && offer.tokenHash == hash(t)
    ensures DistinctOffers(next.pending)
    ensures forall offer :: offer in next.pending ==> exists t :: t in secrets && offer.tokenHash == hash(t)
  {
    hide TrimEnd, TrimStart;
    var index := MatchOffer(registry.pending, hash(call.token), call.nowMs);
    var remaining := registry.pending[..index] + registry.pending[index + 1..];
    UnexpiredDistinct(remaining, (offer: Offer) => call.nowMs <= offer.expiresAtMs);
    forall offer | offer in next.pending ensures offer in registry.pending {
      assert offer in remaining;
    }
  }

  lemma SameIds(before: seq<Device>, after: seq<Device>, usedIds: set<string>)
    requires |before| == |after| && forall i :: 0 <= i < |before| ==> before[i].id == after[i].id
    requires DistinctIds(before) && forall device :: device in before ==> device.id in usedIds
    ensures DistinctIds(after) && forall device :: device in after ==> device.id in usedIds
  {
    forall device | device in after ensures device.id in usedIds {
      var i :| 0 <= i < |after| && after[i] == device;
      assert before[i] in before;
    }
  }

  /** Every step leaves every candidate file loadable, with unique device ids and push addresses. */
  lemma StepKeepsInv(hash: string -> string, system: System, action: Action)
    requires Inv(system)
    ensures Inv(Step(hash, system, action))
    ensures system.usedIds <= Step(hash, system, action).usedIds
    ensures system.usedSecrets <= Step(hash, system, action).usedSecrets
  {
    hide MayWrite, CallOutcome, ValidRegistry, DistinctIds;
    VisibleIsCandidate(system.disk);
    var ids := Step(hash, system, action).usedIds;
    forall next | Installs(hash, system, action, next) ensures ValidRegistry(next) && DevicesSound(ids, next) {
      InstallsAreChanges(hash, system, action, next);
      WriteIsValid(hash, Found(system), action.call, next);
      WriteKeepsIds(hash, system.usedIds, action.call, Found(system), next);
    }
    StepKeeps(hash, system, action, r => DevicesSound(ids, r)) by { Widened(system, ids); }
  }

  lemma Widened(system: System, ids: set<string>)
    requires Inv(system) && system.usedIds <= ids
    ensures Everywhere(system.disk, r => DevicesSound(ids, r))
  {
    hide ValidRegistry, DistinctIds;
  }

  lemma {:induction false} RunKeepsInv(hash: string -> string, system: System, actions: seq<Action>)
    requires Inv(system)
    ensures Inv(Run(hash, system, actions))
    ensures system.usedIds <= Run(hash, system, actions).usedIds
    ensures system.usedSecrets <= Run(hash, system, actions).usedSecrets
    decreases |actions|
  {
    hide Inv, Step;
    if actions != [] {
      StepKeepsInv(hash, system, actions[0]);
      RunKeepsInv(hash, Step(hash, system, actions[0]), actions[1..]);
    }
  }

  /** While no two drawn secrets collide, every step keeps offers unique and drawn. */
  lemma StepKeepsOffers(hash: string -> string, system: System, action: Action)
    requires Inv(system) && OffersInv(hash, system) && CollisionFree(hash, Step(hash, system, action).usedSecrets)
    ensures OffersInv(hash, Step(hash, system, action))
  {
    hide MayWrite, CallOutcome, ValidRegistry, DistinctIds, DistinctOffers;
    VisibleIsCandidate(system.disk);
    var secrets := Step(hash, system, action).usedSecrets;
    forall next | Installs(hash, system, action, next) ensures ValidRegistry(next) && OffersSound(hash, secrets, next) {
      InstallsAreChanges(hash, system, action, next);
      WriteIsValid(hash, Found(system), action.call, next);
      WriteKeepsOffers(hash, system, action.call, Found(system), next);
    }
    StepKeeps(hash, system, action, r => OffersSound(hash, secrets, r));
  }

  lemma FewerCollide(hash: string -> string, fewer: set<string>, more: set<string>)
    requires CollisionFree(hash, more) && fewer <= more
    ensures CollisionFree(hash, fewer)
  {
  }

  /** In every run, no call ever finds a file its own load refuses. */
  lemma EveryFileReloads(hash: string -> string, system: System, actions: seq<Action>, fault: PersistFault)
    requires Inv(system)
    ensures forall file :: file in Run(hash, system, actions).disk.Candidates() ==>
      LoadOutcome(file, fault).reply != Failure(InvalidStored)
  {
    RunKeepsInv(hash, system, actions);
    hide DistinctIds, Run;
  }

  /** A new registry, and any well-formed file with distinct ids, are good starts. */
  lemma GoodStarts(hash: string -> string, file: File, usedIds: set<string>, usedSecrets: set<string>)
    requires file == Current(EMPTY) ||
      (Decode(file).Some? && DevicesSound(usedIds, Decode(file).value) && OffersSound(hash, usedSecrets, Decode(file).value))
    ensures Inv(System(Disk(file, []), usedIds, usedSecrets))
    ensures OffersInv(hash, System(Disk(file, []), usedIds, usedSecrets))
  {
  }

  // ----- claims that outlive faults -----

  /** Something true of a registry that later steps may not undo. */
  datatype Claim =
    | GenerationConfirmed(deviceId: string, generation: nat)
    | Retired(deviceId: string)
    | Stopped
    | NotBefore(deviceId: string, atMs: nat)
    | Disabled(deviceId: string)
    | Spent(token: string)
    | ExpiresAt(token: string, atMs: nat)

  ghost predicate Holds(hash: string -> string, claim: Claim, registry: Registry) {
    match claim
    case GenerationConfirmed(deviceId, generation) =>
      forall device :: device in registry.devices && device.id == deviceId ==>
        && device.notification.Some? && device.notification.value.submitted.Some?
        && generation <= device.notification.value.submitted.value
    case Retired(deviceId) => forall device :: device in registry.devices ==> device.id != deviceId
    case Stopped => registry.health == ConfigurationError || registry.health == AuthenticationError
    case NotBefore(deviceId, atMs) =>
      forall device :: device in registry.devices && device.id == deviceId ==>
        device.notification.Some? && atMs <= device.notification.value.retryAtMs
    case Disabled(deviceId) =>
      forall device :: device in registry.devices && device.id == deviceId && device.notification.Some? ==>
        !device.notification.value.enabled
    case Spent(token) => forall offer :: offer in registry.pending ==> offer.tokenHash != hash(token)
    case ExpiresAt(token, atMs) =>
      forall offer :: offer in registry.pending && offer.tokenHash == hash(token) ==> offer.expiresAtMs == atMs
  }

  /** The id or secret a claim speaks of was drawn already. */
  predicate Drawn(claim: Claim, system: System) {
    match claim
    case GenerationConfirmed(deviceId, _) => deviceId in system.usedIds
    case Retired(deviceId) => deviceId in system.usedIds
    case Stopped => true
    case NotBefore(deviceId, _) => deviceId in system.usedIds
    case Disabled(deviceId) => deviceId in system.usedIds
    case Spent(token) => token in system.usedSecrets
    case ExpiresAt(token, _) => token in system.usedSecrets
  }

  predicate Bears(hash: string -> string, registry: Registry, deviceId: string, credential: string) {
    exists index :: 0 <= index < |registry.devices|
      && registry.devices[index].id == deviceId && registry.devices[index].credentialHash == hash(credential)
  }

  /** The replacements that end a claim: an operator's release of a stop; for a deadline, a recorded
      acceptance or a new registration of that device; for a disabled address, a new registration. Nothing
      ends the others. */
  ghost predicate Ends(hash: string -> string, claim: Claim, registry: Registry, call: Call, next: Registry) {
    && next != registry
    && match claim
       case Stopped => call.RetryNotifications? || call == Configure(Unconfigured)
       case NotBefore(deviceId, _) =>
         || (call.Deliver? && call.deviceId == deviceId && call.result.Accepted?
             && MayDeliver(registry, call) && next == Settled(registry, call))
         || (call.Register? && Bears(hash, registry, deviceId, call.credential))
       case Disabled(deviceId) => call.Register? && Bears(hash, registry, deviceId, call.credential)
       case _ => false
  }

  /** No replacement of this step that reaches the rename ends the claim. */
  ghost predicate Respects(hash: string -> string, claim: Claim, system: System, action: Action) {
    forall next :: Installs(hash, system, action, next) ==> !Ends(hash, claim, Found(system), action.call, next)
  }

  /** The registry the next call will find. */
  function Found(system: System): Registry {
    var decoded := Decode(system.disk.Visible());
    if decoded.Some? then decoded.value else EMPTY
  }

  ghost predicate RunRespects(hash: string -> string, claim: Claim, system: System, actions: seq<Action>)
    decreases |actions|
  {
    actions != [] ==>
      && Respects(hash, claim, system, actions[0])
      && RunRespects(hash, claim, Step(hash, system, actions[0]), actions[1..])
  }

  lemma DeviceClaimKept(hash: string -> string, claim: Claim, system: System, call: Call, registry: Registry, next: Registry)
    requires claim.GenerationConfirmed? || claim.Retired? || claim.NotBefore? || claim.Disabled?
    requires Holds(hash, claim, registry) && Drawn(claim, system) && !Ends(hash, claim, registry, call, next)
    requires Possible(system, call) && MayWrite(hash, registry, call, next)
    ensures Holds(hash, claim, next)
  {
    hide ValidFid, FidTakenElsewhere, Unexpired, TrimEnd, TrimStart, Delay, ValidRegistration;
    forall device | device in next.devices && device.id == claim.deviceId
      ensures claim.GenerationConfirmed? ==>
        && device.notification.Some? && device.notification.value.submitted.Some?
        && claim.generation <= device.notification.value.submitted.value
      ensures claim.NotBefore? ==> device.notification.Some? && claim.atMs <= device.notification.value.retryAtMs
      ensures claim.Disabled? && device.notification.Some? ==> !device.notification.value.enabled
      ensures !claim.Retired?
    {
      if device !in registry.devices {
        var i :| 0 <= i < |next.devices| && next.devices[i] == device;
        if i < |registry.devices| { assert registry.devices[i] in registry.devices; }
      }
    }
  }

  lemma ClaimKept(hash: string -> string, claim: Claim, system: System, call: Call, registry: Registry, next: Registry)
    requires Holds(hash, claim, registry) && Drawn(claim, system) && !Ends(hash, claim, registry, call, next)
    requires Possible(system, call) && MayWrite(hash, registry, call, next)
    requires claim.Spent? || claim.ExpiresAt? ==> CollisionFree(hash, system.usedSecrets + DrawnSecrets(call))
    ensures Holds(hash, claim, next)
  {
    if claim.GenerationConfirmed? || claim.Retired? || claim.NotBefore? || claim.Disabled? {
      DeviceClaimKept(hash, claim, system, call, registry, next);
    } else {
      hide ValidFid, FidTakenElsewhere, TrimEnd, TrimStart, Ahead, Settle, Due;
    }
  }

  /** A claim made of every state a power loss could leave stays true of every later one. */
  lemma {:induction false} RunKeepsClaim(hash: string -> string, claim: Claim, system: System, actions: seq<Action>)
    requires Inv(system)
    requires Everywhere(system.disk, r => Holds(hash, claim, r)) && Drawn(claim, system)
    requires RunRespects(hash, claim, system, actions)
    requires claim.Spent? || claim.ExpiresAt? ==> CollisionFree(hash, Run(hash, system, actions).usedSecrets)
    ensures Everywhere(Run(hash, system, actions).disk, r => Holds(hash, claim, r))
    ensures Inv(Run(hash, system, actions))
    decreases |actions|
  {
    hide Holds, Respects, DevicesSound, MayWrite, Step, CollisionFree;
    if actions != [] {
      var next := Step(hash, system, actions[0]);
      StepKeepsInv(hash, system, actions[0]);
      RunKeepsInv(hash, next, actions[1..]);
      if claim.Spent? || claim.ExpiresAt? {
        FewerCollide(hash, next.usedSecrets, Run(hash, system, actions).usedSecrets);
      }
      StepKeepsClaim(hash, claim, system, actions[0]);
      hide Everywhere, Inv;
      RunKeepsClaim(hash, claim, next, actions[1..]);
    }
  }

  lemma StepKeepsClaim(hash: string -> string, claim: Claim, system: System, action: Action)
    requires Everywhere(system.disk, r => Holds(hash, claim, r)) && Drawn(claim, system) && Inv(system)
    requires Respects(hash, claim, system, action)
    requires claim.Spent? || claim.ExpiresAt? ==> CollisionFree(hash, Step(hash, system, action).usedSecrets)
    ensures Everywhere(Step(hash, system, action).disk, r => Holds(hash, claim, r))
    ensures Drawn(claim, Step(hash, system, action))
  {
    hide Holds, Ends, MayWrite, CallOutcome, ValidRegistry, CollisionFree, Installs;
    VisibleIsCandidate(system.disk);
    var registry := Found(system);
    forall next | Installs(hash, system, action, next) ensures ValidRegistry(next) && Holds(hash, claim, next) {
      InstallsAreChanges(hash, system, action, next);
      WriteIsValid(hash, registry, action.call, next);
      ClaimKept(hash, claim, system, action.call, registry, next);
    }
    StepKeeps(hash, system, action, r => Holds(hash, claim, r));
  }

  /** A claim no call can end is respected by every run. */
  lemma {:induction false} AlwaysRespected(hash: string -> string, claim: Claim, system: System, actions: seq<Action>)
    requires !claim.Stopped? && !claim.NotBefore? && !claim.Disabled?
    ensures RunRespects(hash, claim, system, actions)
    decreases |actions|
  {
    hide Step;
    if actions != [] { AlwaysRespected(hash, claim, Step(hash, system, actions[0]), actions[1..]); }
  }

  lemma VisibleHolds(hash: string -> string, claim: Claim, system: System)
    requires Everywhere(system.disk, r => Holds(hash, claim, r))
    ensures Decode(system.disk.Visible()).Some? && Holds(hash, claim, Decode(system.disk.Visible()).value)
  {
    hide Holds;
    VisibleIsCandidate(system.disk);
  }

  // ----- delivery -----

  function SentBy(hash: string -> string, system: System, action: Action): Option<Sent> {
    OutcomeOf(hash, system, action).sent
  }

  /** A step that told its caller the generation was accepted and recorded. */
  predicate ConfirmedBy(hash: string -> string, system: System, action: Action, deviceId: string, generation: nat) {
    && OutcomeOf(hash, system, action).reply == Success(Confirmed)
    && SentBy(hash, system, action).Some?
    && SentBy(hash, system, action).value.deviceId == deviceId
    && SentBy(hash, system, action).value.generation == generation
  }

  lemma SoundIsValid(usedIds: set<string>, registry: Registry)
    requires DevicesSound(usedIds, registry)
    ensures ValidRegistry(registry)
  {
  }

  lemma InvokeStep(hash: string -> string, system: System, action: Action)
    requires action.Invoke? && Possible(system, action.call)
    ensures var outcome := CallOutcome(hash, system.disk.Visible(), action.call, action.faults);
      && OutcomeOf(hash, system, action) == outcome
      && Step(hash, system, action).disk == PersistAll(system.disk, outcome.writes)
  {
    hide CallOutcome, PersistAll, Possible;
  }

  lemma AfterSend(hash: string -> string, system: System, action: Action)
    requires Inv(system) && SentBy(hash, system, action).Some?
    ensures var registry := Found(system);
      && action.Invoke? && Possible(system, action.call) && MayDeliver(registry, action.call)
      && SentBy(hash, system, action).value.deviceId == action.call.deviceId
      && SentBy(hash, system, action).value.generation == action.call.latest.value
      && SentBy(hash, system, action).value.atMs == action.call.nowMs
      && DevicesSound(system.usedIds, registry)
      && ValidRegistry(Pending(registry, action.call)) && ValidRegistry(Settled(registry, action.call))
  {
    hide DevicesSound, CallOutcome, Pending, Settled, Decode, ValidRegistry, UsesFid, Step, MayDeliver, Possible;
    VisibleIsCandidate(system.disk);
    var registry := Found(system);
    SendIsAuthorized(hash, system.disk.Visible(), action.call, action.faults);
    SoundIsValid(system.usedIds, registry);
    DeliveryValid(registry, action.call);
  }

  /** After a send the disk can only hold the write-ahead record or the settled one, and which of them
      is certain when the settling replacement completed or never happened. */
  lemma DiskAfterSend(hash: string -> string, system: System, action: Action)
    requires Inv(system) && SentBy(hash, system, action).Some?
    requires action.Invoke? && MayDeliver(Found(system), action.call)
    ensures var pending, settled := Current(Pending(Found(system), action.call)), Current(Settled(Found(system), action.call));
      var next := Step(hash, system, action);
      && next.usedIds == system.usedIds
      && (forall file :: file in next.disk.Candidates() ==> file == pending || file == settled)
      && (OutcomeOf(hash, system, action).reply.Success? ==> next.disk == Disk(settled, []))
      && (action.faults.second == RenameFailed ==> next.disk == Disk(pending, []))
  {
    VisibleIsCandidate(system.disk);
    var registry, call, faults := Found(system), action.call, action.faults;
    assert call.Deliver?;
    hide DevicesSound, CallOutcome, Pending, Settled, Decode, ValidRegistry, PersistAll, UsesFid, MayDeliver;
    assert Possible(system, call);
    SendsDrawNothing(hash, system, action);
    SendIsAuthorized(hash, system.disk.Visible(), call, faults);
    AfterWriteAhead(system.disk, LoadOutcome(system.disk.Visible(), faults.load).writes,
                    Write(Current(Pending(registry, call)), WritingAhead, Synced),
                    Write(Current(Settled(registry, call)), Settling, faults.second));
    InvokeStep(hash, system, action);
  }

  lemma SendsDrawNothing(hash: string -> string, system: System, action: Action)
    requires action.Invoke? && action.call.Deliver?
    ensures Step(hash, system, action).usedIds == system.usedIds
  {
    hide CallOutcome, PersistAll, Possible;
  }

  /** A claim true of what a delivery may leave on disk holds after it. */
  lemma ClaimAfterSend(hash: string -> string, system: System, action: Action, claim: Claim)
    requires Inv(system) && SentBy(hash, system, action).Some?
    requires action.Invoke? && MayDeliver(Found(system), action.call)
    requires (action.faults.second == RenameFailed && OutcomeOf(hash, system, action).reply.Failure?)
      || Holds(hash, claim, Settled(Found(system), action.call))
    requires OutcomeOf(hash, system, action).reply.Success? || Holds(hash, claim, Pending(Found(system), action.call))
    ensures Everywhere(Step(hash, system, action).disk, r => Holds(hash, claim, r))
  {
    hide Holds, Inv, OutcomeOf, Step, MayDeliver, Pending, Settled, ValidRegistry, DevicesSound;
    AfterSend(hash, system, action);
    DiskAfterSend(hash, system, action);
  }

  /** The one device a delivery names, before and after its registration changes. */
  lemma OnlyThatDevice(registry: Registry, deviceId: string, registration: Registration, device: Device)
    requires DistinctIds(registry.devices) && DeviceIndex(registry, deviceId) != -1
    requires device in WithRegistration(registry, DeviceIndex(registry, deviceId), registration).devices
    requires device.id == deviceId
    ensures device.notification == Some(registration)
  {
    var index := DeviceIndex(registry, deviceId);
    var devices := WithRegistration(registry, index, registration).devices;
    var i :| 0 <= i < |devices| && devices[i] == device;
    assert registry.devices[i].id == registry.devices[index].id;
  }

  lemma PendingKeepsIndex(registry: Registry, deviceId: string, registration: Registration)
    requires DistinctIds(registry.devices) && DeviceIndex(registry, deviceId) != -1
    ensures var index := DeviceIndex(registry, deviceId);
      var changed := WithRegistration(registry, index, registration);
      DistinctIds(changed.devices) && DeviceIndex(changed, deviceId) == index
  {
    var index := DeviceIndex(registry, deviceId);
    var changed := WithRegistration(registry, index, registration);
    assert changed.devices[index] in changed.devices;
    var found := DeviceIndex(changed, deviceId);
    assert registry.devices[found].id == deviceId;
  }

  lemma SettledDevice(registry: Registry, call: Call, device: Device)
    requires MayDeliver(registry, call) && DistinctIds(registry.devices)
    requires device.id == call.deviceId
    ensures device in Pending(registry, call).devices ==> device.notification == Some(Ahead(registry, call))
    ensures device in Settled(registry, call).devices ==>
      device.notification == Some(Settle(Ahead(registry, call), call.latest.value, call.nowMs, call.result))
  {
    hide Ahead, Settle, Due, WithRegistration;
    var ahead := Ahead(registry, call);
    PendingKeepsIndex(registry, call.deviceId, ahead);
    if device in Pending(registry, call).devices { OnlyThatDevice(registry, call.deviceId, ahead, device); }
    if device in Settled(registry, call).devices {
      OnlyThatDevice(Pending(registry, call), call.deviceId, Settle(ahead, call.latest.value, call.nowMs, call.result), device);
    }
  }

  lemma ConfirmationHolds(hash: string -> string, system: System, action: Action, deviceId: string, generation: nat)
    requires Inv(system) && ConfirmedBy(hash, system, action, deviceId, generation)
    ensures var next := Step(hash, system, action);
      && Everywhere(next.disk, r => Holds(hash, GenerationConfirmed(deviceId, generation), r))
      && Drawn(GenerationConfirmed(deviceId, generation), next)
  {
    hide CallOutcome, Due, Pending, Settled, ValidRegistry, Step, Everywhere, Ahead;
    AfterSend(hash, system, action);
    DiskAfterSend(hash, system, action);
    VisibleIsCandidate(system.disk);
    var registry, claim := Found(system), GenerationConfirmed(deviceId, generation);
    SendIsAuthorized(hash, system.disk.Visible(), action.call, action.faults);
    assert registry.devices[DeviceIndex(registry, deviceId)] in registry.devices;
    forall device | device in Settled(registry, action.call).devices && device.id == deviceId
      ensures device.notification.Some? && device.notification.value.submitted == Some(generation)
    {
      SettledDevice(registry, action.call, device);
    }
    ClaimAfterSend(hash, system, action, claim);
  }

  /** Confirmed generations of one device strictly increase, and no later send carries one at or below
      a confirmed one, across every interleaving of rotations, registrations, faults and power losses. */
  lemma ConfirmedGenerationsIncrease(hash: string -> string, system: System, first: Action, between: seq<Action>,
                                     second: Action, deviceId: string, generation: nat)
    requires Inv(system)
    requires ConfirmedBy(hash, system, first, deviceId, generation)
    ensures var later := Run(hash, Step(hash, system, first), between);
      && (SentBy(hash, later, second).Some? && SentBy(hash, later, second).value.deviceId == deviceId ==>
          generation < SentBy(hash, later, second).value.generation)
      && forall other :: ConfirmedBy(hash, later, second, deviceId, other) ==> generation < other
  {
    var claim := GenerationConfirmed(deviceId, generation);
    ConfirmationHolds(hash, system, first, deviceId, generation);
    StepKeepsInv(hash, system, first);
    hide Step, Run, Inv, Everywhere, ConfirmedBy, OutcomeOf;
    SentIsAbove(hash, Step(hash, system, first), between, second, claim);
    ConfirmedIsSent(hash, Run(hash, Step(hash, system, first), between), second);
  }

  lemma ConfirmedIsSent(hash: string -> string, system: System, action: Action)
    ensures forall deviceId, generation :: ConfirmedBy(hash, system, action, deviceId, generation) ==>
      && SentBy(hash, system, action).Some?
      && SentBy(hash, system, action).value.deviceId == deviceId
      && SentBy(hash, system, action).value.generation == generation
  {
    hide OutcomeOf;
  }

  lemma SentIsAbove(hash: string -> string, system: System, actions: seq<Action>, action: Action, claim: Claim)
    requires Inv(system) && claim.GenerationConfirmed? && Drawn(claim, system)
    requires Everywhere(system.disk, r => Holds(hash, claim, r))
    ensures var later := Run(hash, system, actions);
      SentBy(hash, later, action).Some? && SentBy(hash, later, action).value.deviceId == claim.deviceId ==>
        claim.generation < SentBy(hash, later, action).value.generation
  {
    AlwaysRespected(hash, claim, system, actions);
    RunKeepsClaim(hash, claim, system, actions);
    hide Run, Inv, CallOutcome, Step;
    var later := Run(hash, system, actions);
    VisibleHolds(hash, claim, later);
    if SentBy(hash, later, action).Some? {
      SendIsAuthorized(hash, later.disk.Visible(), action.call, action.faults);
      var registry := Decode(later.disk.Visible()).value;
      var index := DeviceIndex(registry, action.call.deviceId);
      assert registry.devices[index] in registry.devices;
    }
  }

  /** What a send makes true of its device until it is confirmed or registered anew. */
  ghost function Spacing(system: System, action: Action): Claim
    requires action.Invoke? && MayDeliver(Found(system), action.call)
  {
    NotBefore(action.call.deviceId, Ahead(Found(system), action.call).retryAtMs)
  }

  /** Two sends to one device with no confirmation or registration change between them are at least the
      first one's backoff apart, whatever fails and whatever a power loss takes back. An acceptance whose
      record never reached the rename, of the first send or of one between, is no confirmation. */
  lemma SendsAreSpaced(hash: string -> string, system: System, first: Action, between: seq<Action>, second: Action)
    requires Inv(system)
    requires SentBy(hash, system, first).Some? && first.Invoke? && MayDeliver(Found(system), first.call)
    requires !first.call.result.Accepted? || first.faults.second == RenameFailed
    requires RunRespects(hash, Spacing(system, first), Step(hash, system, first), between)
    ensures var later := Run(hash, Step(hash, system, first), between);
      SentBy(hash, later, second).Some? && SentBy(hash, later, second).value.deviceId == first.call.deviceId ==>
        Saturate(first.call.nowMs + Delay(Ahead(Found(system), first.call).attempts)) <= SentBy(hash, later, second).value.atMs
  {
    hide Step, Run, Inv, Everywhere, RunRespects, SentBy, MayDeliver, Found, Delay;
    var claim := Spacing(system, first);
    DeadlineHolds(hash, system, first);
    StepKeepsInv(hash, system, first);
    RunKeepsClaim(hash, claim, Step(hash, system, first), between);
    SentIsNotBefore(hash, Run(hash, Step(hash, system, first), between), second, claim);
    AheadDeadline(Found(system), first.call);
  }

  lemma AheadDeadline(registry: Registry, call: Call)
    requires MayDeliver(registry, call)
    ensures Ahead(registry, call).retryAtMs == Saturate(call.nowMs + Delay(Ahead(registry, call).attempts))
  {
    hide MayDeliver, Delay;
  }

  lemma DeadlineHolds(hash: string -> string, system: System, action: Action)
    requires Inv(system) && SentBy(hash, system, action).Some?
    requires action.Invoke? && MayDeliver(Found(system), action.call)
    requires !action.call.result.Accepted? || action.faults.second == RenameFailed
    ensures Everywhere(Step(hash, system, action).disk, r => Holds(hash, Spacing(system, action), r))
    ensures Drawn(Spacing(system, action), Step(hash, system, action))
  {
    AfterSend(hash, system, action);
    DiskAfterSend(hash, system, action);
    var claim := Spacing(system, action);
    DeadlineStored(hash, system, action);
    if action.faults.second == RenameFailed { LostAcceptance(hash, system, action); }
    SenderIsKnown(hash, system, action.call);
    hide *;
    ClaimAfterSend(hash, system, action, claim);
  }

  lemma SenderIsKnown(hash: string -> string, system: System, call: Call)
    requires MayDeliver(Found(system), call) && DevicesSound(system.usedIds, Found(system))
    ensures call.deviceId in system.usedIds
  {
    hide ValidRegistry, DistinctIds, DistinctOffers, Due, Found;
    var registry := Found(system);
    assert registry.devices[DeviceIndex(registry, call.deviceId)] in registry.devices;
  }

  lemma LostAcceptance(hash: string -> string, system: System, action: Action)
    requires Inv(system) && SentBy(hash, system, action).Some?
    requires action.Invoke? && action.faults.second == RenameFailed
    ensures OutcomeOf(hash, system, action).reply.Failure?
  {
    hide CallOutcome, Found, Decode, DevicesSound;
    VisibleIsCandidate(system.disk);
    SendIsAuthorized(hash, system.disk.Visible(), action.call, action.faults);
  }

  lemma DeadlineStored(hash: string -> string, system: System, action: Action)
    requires action.Invoke? && MayDeliver(Found(system), action.call) && DistinctIds(Found(system).devices)
    ensures Holds(hash, Spacing(system, action), Pending(Found(system), action.call))
    ensures !action.call.result.Accepted? ==> Holds(hash, Spacing(system, action), Settled(Found(system), action.call))
  {
    var registry, call := Found(system), action.call;
    assert call.Deliver? && call.latest.Generation?;
    hide MayDeliver, Found, Pending, Settled, Ahead, DistinctIds;
    forall device: Device | device.id == call.deviceId
      ensures device in Pending(registry, call).devices ==> device.notification == Some(Ahead(registry, call))
      ensures device in Settled(registry, call).devices ==>
        device.notification == Some(Settle(Ahead(registry, call), call.latest.value, call.nowMs, call.result))
    {
      SettledDevice(registry, call, device);
    }
  }

  lemma SentIsNotBefore(hash: string -> string, system: System, action: Action, claim: Claim)
    requires claim.NotBefore? && Everywhere(system.disk, r => Holds(hash, claim, r))
    ensures SentBy(hash, system, action).Some? && SentBy(hash, system, action).value.deviceId == claim.deviceId ==>
      claim.atMs <= SentBy(hash, system, action).value.atMs
  {
    hide CallOutcome;
    VisibleHolds(hash, claim, system);
    if SentBy(hash, system, action).Some? {
      SendIsAuthorized(hash, system.disk.Visible(), action.call, action.faults);
      var registry := Decode(system.disk.Visible()).value;
      assert registry.devices[DeviceIndex(registry, action.call.deviceId)] in registry.devices;
    }
  }

  /** After `revoke` returns, no later send uses that device, even one whose id the worker read before. */
  lemma RevokedIsNeverSent(hash: string -> string, system: System, faults: Faults, deviceId: string, between: seq<Action>, action: Action)
    requires Inv(system)
    requires OutcomeOf(hash, system, Invoke(Revoke(deviceId), faults)).reply.Success?
    ensures var later := Run(hash, Step(hash, system, Invoke(Revoke(deviceId), faults)), between);
      SentBy(hash, later, action).Some? ==> SentBy(hash, later, action).value.deviceId != deviceId
  {
    var revoke := Invoke(Revoke(deviceId), faults);
    RevokeHolds(hash, system, faults, deviceId);
    StepKeepsInv(hash, system, revoke);
    var claim := Retired(deviceId);
    var next := Step(hash, system, revoke);
    hide Step, Inv, OutcomeOf, Everywhere, Holds;
    AlwaysRespected(hash, claim, next, between);
    RunKeepsClaim(hash, claim, next, between);
    SentIsPaired(hash, Run(hash, next, between), action, deviceId);
  }

  lemma RevokeWrites(hash: string -> string, system: System, faults: Faults, deviceId: string)
    requires Inv(system) && OutcomeOf(hash, system, Invoke(Revoke(deviceId), faults)).reply.Success?
    ensures var registry := Found(system);
      var changed := registry.(devices := Without(registry.devices, deviceId));
      && |changed.devices| != |registry.devices|
      && Step(hash, system, Invoke(Revoke(deviceId), faults)).disk == Disk(Current(changed), [])
  {
    hide DevicesSound, Without;
    VisibleIsCandidate(system.disk);
    var file := system.disk.Visible();
    var registry := Found(system);
    LoadWrites(file, faults.load);
    hide Decode, LoadOutcome, Everywhere, ValidArguments;
    InvokeStep(hash, system, Invoke(Revoke(deviceId), faults));
    var changed := registry.(devices := Without(registry.devices, deviceId));
    SyncedLast(system.disk, LoadOutcome(file, faults.load).writes, Write(Current(changed), Changing, faults.first));
  }

  lemma RevokeHolds(hash: string -> string, system: System, faults: Faults, deviceId: string)
    requires Inv(system) && OutcomeOf(hash, system, Invoke(Revoke(deviceId), faults)).reply.Success?
    ensures var next := Step(hash, system, Invoke(Revoke(deviceId), faults));
      Everywhere(next.disk, r => Holds(hash, Retired(deviceId), r)) && Drawn(Retired(deviceId), next)
  {
    hide ValidRegistry, DistinctOffers, DistinctIds, OutcomeOf, Without;
    VisibleIsCandidate(system.disk);
    var registry := Found(system);
    var changed := registry.(devices := Without(registry.devices, deviceId));
    RevokeWrites(hash, system, faults, deviceId);
    WriteIsValid(hash, registry, Revoke(deviceId), changed);
    RevokedWasPaired(registry.devices, deviceId);
  }

  lemma RevokedWasPaired(devices: seq<Device>, id: string)
    ensures |Without(devices, id)| != |devices| ==> exists device :: device in devices && device.id == id
  {
    if forall device :: device in devices ==> device.id != id { WithoutNothing(devices, id); }
  }

  lemma {:induction false} WithoutNothing(devices: seq<Device>, id: string)
    requires forall device :: device in devices ==> device.id != id
    ensures |Without(devices, id)| == |devices|
  {
    if devices != [] { WithoutNothing(devices[..|devices| - 1], id); }
  }

  lemma SyncedLast(disk: Disk<File>, before: seq<PairingWrite>, last: PairingWrite)
    requires last.fault == Synced
    ensures PersistAll(disk, before + [last]) == Disk(last.state, [])
  {
    PersistAllAppend(disk, before, [last]);
    assert [last][1..] == [];
  }

  lemma SentIsPaired(hash: string -> string, system: System, action: Action, deviceId: string)
    requires Everywhere(system.disk, r => Holds(hash, Retired(deviceId), r))
    ensures SentBy(hash, system, action).Some? ==> SentBy(hash, system, action).value.deviceId != deviceId
  {
    hide CallOutcome;
    VisibleHolds(hash, Retired(deviceId), system);
    if SentBy(hash, system, action).Some? {
      SendIsAuthorized(hash, system.disk.Visible(), action.call, action.faults);
      var registry := Decode(system.disk.Visible()).value;
      assert registry.devices[DeviceIndex(registry, action.call.deviceId)] in registry.devices;
    }
  }

  /** After a recorded permanent failure nothing is sent to any device until `retry_notifications`, or
      a start without credentials. */
  lemma PermanentFailureStops(hash: string -> string, system: System, failed: Action, between: seq<Action>, action: Action)
    requires Inv(system)
    requires SentBy(hash, system, failed).Some? && OutcomeOf(hash, system, failed).reply.Success?
    requires failed.Invoke? && failed.call.Deliver?
    requires failed.call.result.Authentication? || failed.call.result.Configuration?
    requires RunRespects(hash, Stopped, Step(hash, system, failed), between)
    ensures SentBy(hash, Run(hash, Step(hash, system, failed), between), action).None?
  {
    hide Step, Run, Inv, OutcomeOf, Everywhere, RunRespects, SentBy, Found;
    StopHolds(hash, system, failed);
    StepKeepsInv(hash, system, failed);
    var next := Step(hash, system, failed);
    RunKeepsClaim(hash, Stopped, next, between);
    StoppedSendsNothing(hash, Run(hash, next, between), action);
  }

  lemma StopHolds(hash: string -> string, system: System, action: Action)
    requires Inv(system)
    requires SentBy(hash, system, action).Some? && OutcomeOf(hash, system, action).reply.Success?
    requires action.Invoke? && action.call.Deliver?
    requires action.call.result.Authentication? || action.call.result.Configuration?
    ensures Everywhere(Step(hash, system, action).disk, r => Holds(hash, Stopped, r))
  {
    AfterSend(hash, system, action);
    SettledStops(hash, Found(system), action.call);
    hide *;
    ClaimAfterSend(hash, system, action, Stopped);
  }

  lemma SettledStops(hash: string -> string, registry: Registry, call: Call)
    requires MayDeliver(registry, call) && (call.result.Authentication? || call.result.Configuration?)
    ensures Holds(hash, Stopped, Settled(registry, call))
  {
    hide MayDeliver, WithRegistration, Ahead, Settle, Pending;
  }

  lemma StoppedSendsNothing(hash: string -> string, system: System, action: Action)
    requires Everywhere(system.disk, r => Holds(hash, Stopped, r))
    ensures SentBy(hash, system, action).None?
  {
    hide CallOutcome;
    VisibleHolds(hash, Stopped, system);
    if SentBy(hash, system, action).Some? {
      SendIsAuthorized(hash, system.disk.Visible(), action.call, action.faults);
    }
  }

  // ----- pairing tokens -----

  predicate PairedBy(hash: string -> string, system: System, action: Action, token: string) {
    && action.Invoke? && action.call.Consume? && action.call.token == token
    && OutcomeOf(hash, system, action).reply.Success?
  }

  /** Consuming an offer leaves none under its token. */
  lemma ConsumeSpends(hash: string -> string, registry: Registry, index: nat, nowMs: nat, device: Device, token: string)
    requires DistinctOffers(registry.pending) && index < |registry.pending|
    requires registry.pending[index].tokenHash == hash(token)
    ensures Holds(hash, Spent(token), ConsumeChange(registry, index, nowMs, device))
  {
    var changed := ConsumeChange(registry, index, nowMs, device);
    forall offer | offer in changed.pending ensures offer.tokenHash != hash(token) {
      var i :| 0 <= i < |registry.pending| && i != index && registry.pending[i] == offer;
    }
  }

  /** What a successful pairing wrote. */
  lemma PairingWrites(hash: string -> string, system: System, action: Action, token: string) returns (index: nat, device: Device)
    requires Inv(system) && PairedBy(hash, system, action, token)
    ensures var registry := Found(system);
      && index < |registry.pending| && registry.pending[index].tokenHash == hash(token)
      && action.call.nowMs <= registry.pending[index].expiresAtMs
      && var changed := ConsumeChange(registry, index, action.call.nowMs, device);
      && MayWrite(hash, registry, action.call, changed)
      && Step(hash, system, action).disk == Disk(Current(changed), [])
  {
    hide DevicesSound, ConsumeChange, TrimEnd, TrimStart;
    VisibleIsCandidate(system.disk);
    var file := system.disk.Visible();
    var registry := Found(system);
    LoadWrites(file, action.faults.load);
    hide Decode, LoadOutcome, Everywhere, ValidArguments;
    var call := action.call;
    InvokeStep(hash, system, action);
    index := MatchOffer(registry.pending, hash(token), call.nowMs);
    device := Device(call.deviceId, TrimEnd(TrimStart(call.name)), call.nowMs, None, hash(call.secret), None);
    var changed := ConsumeChange(registry, index, call.nowMs, device);
    SyncedLast(system.disk, LoadOutcome(file, action.faults.load).writes, Write(Current(changed), Changing, action.faults.first));
  }

  lemma PairingMatches(hash: string -> string, system: System, action: Action, token: string)
    requires Inv(system) && OffersInv(hash, system) && PairedBy(hash, system, action, token)
    requires CollisionFree(hash, system.usedSecrets + {token})
    ensures (exists offer :: offer in Found(system).pending && offer.tokenHash == hash(token)
                             && action.call.nowMs <= offer.expiresAtMs)
    ensures Everywhere(Step(hash, system, action).disk, r => Holds(hash, Spent(token), r))
    ensures Drawn(Spent(token), Step(hash, system, action))
  {
    hide MayWrite, ValidRegistry, DistinctIds, ConsumeChange, TrimEnd, TrimStart, OutcomeOf;
    VisibleIsCandidate(system.disk);
    var index, device := PairingWrites(hash, system, action, token);
    var registry := Found(system);
    var changed := ConsumeChange(registry, index, action.call.nowMs, device);
    var matched := registry.pending[index];
    assert matched in registry.pending;
    assert OffersSound(hash, system.usedSecrets, registry);
    WriteIsValid(hash, registry, action.call, changed);
    ConsumeSpends(hash, registry, index, action.call.nowMs, device, token);
    var secret :| secret in system.usedSecrets && matched.tokenHash == hash(secret);
    assert secret == token;
    StepKeepsInv(hash, system, action);
  }

  /** Each pairing token yields at most one device credential, if it and the secrets drawn so far do not
      collide. */
  lemma TokenPairsOnce(hash: string -> string, system: System, first: Action, between: seq<Action>, second: Action, token: string)
    requires Inv(system) && OffersInv(hash, system) && PairedBy(hash, system, first, token)
    requires CollisionFree(hash, Run(hash, Step(hash, system, first), between).usedSecrets + {token})
    ensures !PairedBy(hash, Run(hash, Step(hash, system, first), between), second, token)
  {
    var next, claim := Step(hash, system, first), Spent(token);
    var later := Run(hash, next, between);
    StepKeepsInv(hash, system, first);
    RunKeepsInv(hash, next, between);
    RunKeepsOffersFrom(hash, system, first, between, token);
    hide Step, Run, Everywhere, Inv, PairedBy, OffersInv, CollisionFree;
    FewerCollide(hash, system.usedSecrets + {token}, later.usedSecrets + {token});
    FewerCollide(hash, later.usedSecrets, later.usedSecrets + {token});
    PairingMatches(hash, system, first, token);
    AlwaysRespected(hash, claim, next, between);
    RunKeepsClaim(hash, claim, next, between);
    SpentPairsNothing(hash, later, second, token);
  }

  lemma {:induction false} RunKeepsOffers(hash: string -> string, system: System, actions: seq<Action>)
    requires Inv(system) && OffersInv(hash, system) && CollisionFree(hash, Run(hash, system, actions).usedSecrets)
    ensures OffersInv(hash, Run(hash, system, actions))
    decreases |actions|
  {
    hide Inv, OffersInv, Step, CollisionFree;
    if actions != [] {
      var next := Step(hash, system, actions[0]);
      StepKeepsInv(hash, system, actions[0]);
      RunKeepsInv(hash, next, actions[1..]);
      FewerCollide(hash, next.usedSecrets, Run(hash, system, actions).usedSecrets);
      StepKeepsOffers(hash, system, actions[0]);
      RunKeepsOffers(hash, next, actions[1..]);
    }
  }

  lemma RunKeepsOffersFrom(hash: string -> string, system: System, first: Action, between: seq<Action>, token: string)
    requires Inv(system) && OffersInv(hash, system)
    requires CollisionFree(hash, Run(hash, Step(hash, system, first), between).usedSecrets + {token})
    ensures OffersInv(hash, Run(hash, Step(hash, system, first), between))
  {
    var next := Step(hash, system, first);
    var later := Run(hash, next, between);
    StepKeepsInv(hash, system, first);
    RunKeepsInv(hash, next, between);
    hide Step, Run, Inv, OffersInv, CollisionFree;
    FewerCollide(hash, later.usedSecrets, later.usedSecrets + {token});
    FewerCollide(hash, next.usedSecrets, later.usedSecrets);
    StepKeepsOffers(hash, system, first);
    RunKeepsOffers(hash, next, between);
  }

  lemma SpentPairsNothing(hash: string -> string, system: System, action: Action, token: string)
    requires Inv(system) && OffersInv(hash, system) && Everywhere(system.disk, r => Holds(hash, Spent(token), r))
    requires CollisionFree(hash, system.usedSecrets + {token})
    ensures !PairedBy(hash, system, action, token)
  {
    hide Inv, OffersInv, PairedBy, Step, Decode, CollisionFree;
    VisibleHolds(hash, Spent(token), system);
    if PairedBy(hash, system, action, token) { PairingMatches(hash, system, action, token); }
  }

  /** A token pairs nothing after the expiry it was offered with, if the secrets drawn so far do not collide. */
  lemma TokenExpires(hash: string -> string, system: System, issue: Action, between: seq<Action>, pairing: Action)
    requires Inv(system) && OffersInv(hash, system)
    requires issue.Invoke? && issue.call.Issue? && OutcomeOf(hash, system, issue).reply.Success?
    requires CollisionFree(hash, Run(hash, Step(hash, system, issue), between).usedSecrets)
    ensures var later := Run(hash, Step(hash, system, issue), between);
      PairedBy(hash, later, pairing, issue.call.token) ==>
        pairing.call.nowMs <= OutcomeOf(hash, system, issue).reply.value.expiresAtMs
  {
    var token := issue.call.token;
    var claim := ExpiresAt(token, Saturate(issue.call.nowMs + issue.call.ttlMs));
    var next := Step(hash, system, issue);
    var later := Run(hash, next, between);
    StepKeepsInv(hash, system, issue);
    RunKeepsInv(hash, next, between);
    assert token in next.usedSecrets by { IssueDraws(hash, system, issue); }
    assert later.usedSecrets + {token} == later.usedSecrets;
    RunKeepsOffersFrom(hash, system, issue, between, token);
    hide Step, Run, Everywhere, Inv, OffersInv, PairedBy, OutcomeOf, Decode, CollisionFree;
    FewerCollide(hash, next.usedSecrets, later.usedSecrets);
    IssueHolds(hash, system, issue);
    AlwaysRespected(hash, claim, next, between);
    RunKeepsClaim(hash, claim, next, between);
    VisibleHolds(hash, claim, later);
    if PairedBy(hash, later, pairing, token) { PairingMatches(hash, later, pairing, token); }
  }

  lemma IssueDraws(hash: string -> string, system: System, action: Action)
    requires action.Invoke? && action.call.Issue? && OutcomeOf(hash, system, action).reply.Success?
    ensures action.call.token in Step(hash, system, action).usedSecrets && action.call.token !in system.usedSecrets
  {
    hide CallOutcome, PersistAll;
  }

  lemma IssueHolds(hash: string -> string, system: System, action: Action)
    requires Inv(system) && OffersInv(hash, system)
    requires action.Invoke? && action.call.Issue? && OutcomeOf(hash, system, action).reply.Success?
    requires CollisionFree(hash, Step(hash, system, action).usedSecrets)
    ensures var claim := ExpiresAt(action.call.token, Saturate(action.call.nowMs + action.call.ttlMs));
      && OutcomeOf(hash, system, action).reply == Success(Offered(action.call.token, claim.atMs))
      && Everywhere(Step(hash, system, action).disk, r => Holds(hash, claim, r))
      && Drawn(claim, Step(hash, system, action))
  {
    hide ValidRegistration, ValidFid, DistinctIds, DistinctFids;
    VisibleIsCandidate(system.disk);
    var file := system.disk.Visible();
    var registry := Decode(file).value;
    LoadWrites(file, action.faults.load);
    var call := action.call;
    IssueDraws(hash, system, action);
    var changed := IssueChange(registry, hash(call.token), call.nowMs, call.ttlMs);
    SyncedLast(system.disk, LoadOutcome(file, action.faults.load).writes, Write(Current(changed), Changing, action.faults.first));
    forall offer | offer in registry.pending ensures offer.tokenHash != hash(call.token) {
      assert OffersSound(hash, system.usedSecrets, registry);
      var secret :| secret in system.usedSecrets && offer.tokenHash == hash(secret);
    }
  }

  /** Pruning while pairing drops only offers pairing itself would refuse; pruning while issuing also
      drops an offer at the very millisecond it expires, which pairing would still have accepted. */
  lemma PruningExact(registry: Registry, tokenHash: string, nowMs: nat, ttlMs: nat, offer: Offer, index: nat, device: Device)
    requires offer in registry.pending && nowMs <= offer.expiresAtMs
    requires DistinctOffers(registry.pending) && index < |registry.pending|
    ensures offer in ConsumeChange(registry, index, nowMs, device).pending <==> offer != registry.pending[index]
    ensures offer.tokenHash != tokenHash ==>
      (offer in IssueChange(registry, tokenHash, nowMs, ttlMs).pending <==> offer.expiresAtMs != nowMs)
  {
    var i :| 0 <= i < |registry.pending| && registry.pending[i] == offer;
    var remaining := registry.pending[..index] + registry.pending[index + 1..];
    if i < index { assert remaining[i] == offer; }
    if index < i { assert remaining[i - 1] == offer; }
    forall other | other in remaining ensures other != registry.pending[index] {
      var j :| 0 <= j < |registry.pending| && j != index && registry.pending[j] == other;
    }
  }
}
