/** One pass of the push worker over the device list it read, and the registry's own calls. */
module PairingPass {
  import opened Integers
  import opened Sequences
  import opened Results
  import opened Disk
  import opened TextOrder
  import opened PairingModel
  import opened PairingOps
  import PairingRuns

  // ----- the device list -----

  function InsertId(id: string, ids: seq<string>): seq<string> {
    if ids == [] then [id]
    else if CompareText(id, ids[0]).Greater? then [ids[0]] + InsertId(id, ids[1..])
    else [id] + ids
  }

  /** The library sort of the listed ids. */
  function SortIds(ids: seq<string>): (sorted: seq<string>)
    ensures |sorted| == |ids|
  {
    if ids == [] then []
    else
      var rest := SortIds(ids[1..]);
      assert |InsertId(ids[0], rest)| == |rest| + 1 by { InsertKeeps(ids[0], rest); }
      InsertId(ids[0], rest)
  }

  lemma {:induction false} InsertKeeps(id: string, ids: seq<string>)
    ensures |InsertId(id, ids)| == |ids| + 1
    ensures multiset(InsertId(id, ids)) == multiset(ids) + multiset{id}
  {
    if ids != [] {
      assert ids == [ids[0]] + ids[1..];
      InsertKeeps(id, ids[1..]);
    }
  }

  lemma {:induction false} SortKeeps(ids: seq<string>)
    ensures multiset(SortIds(ids)) == multiset(ids)
  {
    if ids != [] {
      assert ids == [ids[0]] + ids[1..];
      SortKeeps(ids[1..]);
      InsertKeeps(ids[0], SortIds(ids[1..]));
    }
  }

  predicate Ascending(ids: seq<string>) {
    forall i, j :: 0 <= i < j < |ids| ==> !CompareText(ids[i], ids[j]).Greater?
  }

  /** The list is visited in the order of the ids. */
  lemma {:induction false} SortOrders(ids: seq<string>)
    ensures Ascending(SortIds(ids))
  {
    hide Ascending;
    if ids == [] {
      NothingAscends();
    } else {
      SortOrders(ids[1..]);
      InsertOrders(ids[0], SortIds(ids[1..]));
    }
  }

  lemma NothingAscends()
    ensures Ascending([])
  {
  }

  lemma {:induction false} InsertOrders(id: string, ids: seq<string>)
    requires Ascending(ids)
    ensures Ascending(InsertId(id, ids))
  {
    hide CompareText;
    if ids == [] {
    } else if CompareText(id, ids[0]).Greater? {
      CompareTextLaws(id, ids[0], id);
      InsertOrders(id, ids[1..]);
      InsertKeeps(id, ids[1..]);
      var rest := InsertId(id, ids[1..]);
      forall j | 0 <= j < |rest| ensures !CompareText(ids[0], rest[j]).Greater? {
        assert rest[j] in multiset(rest);
        assert rest[j] == id || rest[j] in ids[1..];
      }
    } else {
      forall j | 0 <= j < |ids| ensures !CompareText(id, ids[j]).Greater? {
        CompareTextLaws(id, ids[0], ids[j]);
      }
    }
  }

  function IdsOf(devices: seq<Device>): (ids: seq<string>)
    ensures |ids| == |devices| && forall i :: 0 <= i < |devices| ==> ids[i] == devices[i].id
  {
    seq(|devices|, i requires 0 <= i < |devices| => devices[i].id)
  }

  // ----- the pass -----

  /** What one device's step meets: Attention's answer, the provider's, and the disk's. */
  datatype Visit = Visit(latest: Latest, result: SendResult, faults: Faults)

  datatype Pass = Pass(disk: Disk<File>, reply: Result<nat, PairingError>, sent: seq<Sent>)

  function VisitCall(deviceId: string, visit: Visit, nowMs: nat): Call {
    Deliver(deviceId, visit.latest, nowMs, visit.result)
  }

  /** Visit the listed devices in turn; the first error ends the pass. */
  function VisitAll(hash: string -> string, disk: Disk<File>, ids: seq<string>, visits: seq<Visit>, nowMs: nat): Pass
    requires |visits| == |ids|
    decreases |ids|
  {
    if ids == [] then Pass(disk, Success(0), [])
    else
      var outcome := CallOutcome(hash, disk.Visible(), VisitCall(ids[0], visits[0], nowMs), visits[0].faults);
      var next := PersistAll(disk, outcome.writes);
      var sent := if outcome.sent.Some? then [outcome.sent.value] else [];
      match outcome.reply
      case Failure(error) => Pass(next, Failure(error), sent)
      case Success(reply) =>
        var rest := VisitAll(hash, next, ids[1..], visits[1..], nowMs);
        Pass(rest.disk,
             if rest.reply.Success? then Success(rest.reply.value + if reply.Confirmed? then 1 else 0) else rest.reply,
             sent + rest.sent)
  }

  function Visits(count: nat, answers: nat -> Visit): (visits: seq<Visit>)
    ensures |visits| == count
  {
    seq(count, i requires 0 <= i => answers(i))
  }

  /** A whole pass: the list is read first, in its own locked step. */
  function PassOutcome(hash: string -> string, disk: Disk<File>, nowMs: nat, listFault: PersistFault, answers: nat -> Visit): Pass {
    if nowMs == 0 then Pass(disk, Failure(Rejected), [])
    else
      var listed := LoadOutcome(disk.Visible(), listFault);
      var start := PersistAll(disk, listed.writes);
      match listed.reply
      case Failure(error) => Pass(start, Failure(error), [])
      case Success(registry) =>
        var ids := SortIds(IdsOf(registry.devices));
        VisitAll(hash, start, ids, Visits(|ids|, answers), nowMs)
  }

  /** A pass reads the list once and then visits each listed device once, in the order of the ids; at time zero
      or with an unreadable file it visits none. */
  lemma PassVisitsListed(hash: string -> string, disk: Disk<File>, nowMs: nat, listFault: PersistFault, answers: nat -> Visit)
      returns (ids: seq<string>)
    ensures var pass := PassOutcome(hash, disk, nowMs, listFault, answers);
      var listed := LoadOutcome(disk.Visible(), listFault);
      var start := PersistAll(disk, listed.writes);
      if nowMs == 0 then pass == Pass(disk, Failure(Rejected), [])
      else if listed.reply.Failure? then pass == Pass(start, Failure(listed.reply.error), [])
      else
        && Ascending(ids) && multiset(ids) == multiset(IdsOf(listed.reply.value.devices))
        && pass == VisitAll(hash, start, ids, Visits(|ids|, answers), nowMs)
  {
    hide VisitAll, LoadOutcome, Ascending;
    ids := [];
    var listed := LoadOutcome(disk.Visible(), listFault);
    if listed.reply.Success? {
      ids := SortIds(IdsOf(listed.reply.value.devices));
      SortKeeps(IdsOf(listed.reply.value.devices));
      SortOrders(IdsOf(listed.reply.value.devices));
    }
  }

  /** The steps of a pass as actions of the whole system. */
  function VisitActions(ids: seq<string>, visits: seq<Visit>, nowMs: nat): seq<PairingRuns.Action>
    requires |visits| == |ids|
  {
    seq(|ids|, i requires 0 <= i < |ids| => PairingRuns.Invoke(VisitCall(ids[i], visits[i], nowMs), visits[i].faults))
  }

  /** How many of these steps told their caller that a submission was accepted and recorded. */
  function Confirmations(hash: string -> string, system: PairingRuns.System, actions: seq<PairingRuns.Action>): nat
    decreases |actions|
  {
    if actions == [] then 0
    else
      (if PairingRuns.OutcomeOf(hash, system, actions[0]).reply == Success(Confirmed) then 1 else 0)
      + Confirmations(hash, PairingRuns.Step(hash, system, actions[0]), actions[1..])
  }

  /** What these steps submitted, in order. */
  function SentIn(hash: string -> string, system: PairingRuns.System, actions: seq<PairingRuns.Action>): seq<Sent>
    decreases |actions|
  {
    if actions == [] then []
    else
      var sent := PairingRuns.SentBy(hash, system, actions[0]);
      (if sent.Some? then [sent.value] else []) + SentIn(hash, PairingRuns.Step(hash, system, actions[0]), actions[1..])
  }

  /** Every step but the last succeeded, and the last failed with this error. */
  predicate FailsLast(hash: string -> string, system: PairingRuns.System, actions: seq<PairingRuns.Action>, error: PairingError)
    decreases |actions|
  {
    && actions != []
    && var reply := PairingRuns.OutcomeOf(hash, system, actions[0]).reply;
    if |actions| == 1 then reply == Failure(error)
    else reply.Success? && FailsLast(hash, PairingRuns.Step(hash, system, actions[0]), actions[1..], error)
  }

  /** An uninterrupted pass is one of the runs the delivery theorems speak of: it takes all its steps and counts
      the confirmed ones, or stops at the first that fails with that step's error, and it submits what those
      steps do. */
  lemma {:induction false} PassIsRun(hash: string -> string, system: PairingRuns.System, ids: seq<string>, visits: seq<Visit>, nowMs: nat)
      returns (taken: nat)
    requires |visits| == |ids| && nowMs <= MAX_U64
    ensures taken <= |ids|
    ensures var pass := VisitAll(hash, system.disk, ids, visits, nowMs);
      var actions := VisitActions(ids[..taken], visits[..taken], nowMs);
      && PairingRuns.Run(hash, system, actions) == system.(disk := pass.disk)
      && pass.sent == SentIn(hash, system, actions)
      && match pass.reply
         case Success(count) => taken == |ids| && count == Confirmations(hash, system, actions)
         case Failure(error) => FailsLast(hash, system, actions, error)
    decreases |ids|
  {
    hide CallOutcome, PersistAll;
    if ids == [] {
      return 0;
    }
    var action := VisitActions(ids, visits, nowMs)[0];
    var next := PairingRuns.Step(hash, system, action);
    PairingRuns.InvokeStep(hash, system, action);
    var outcome := CallOutcome(hash, system.disk.Visible(), action.call, action.faults);
    assert next == system.(disk := PersistAll(system.disk, outcome.writes));
    if outcome.reply.Failure? {
      taken := 1;
      assert VisitActions(ids[..1], visits[..1], nowMs) == [action];
      assert [action][1..] == [];
    } else {
      var rest := PassIsRun(hash, next, ids[1..], visits[1..], nowMs);
      taken := rest + 1;
      assert ids[..taken][1..] == ids[1..][..rest] && visits[..taken][1..] == visits[1..][..rest];
      var actions := VisitActions(ids[..taken], visits[..taken], nowMs);
      assert actions[0] == action;
      assert actions[1..] == VisitActions(ids[1..][..rest], visits[1..][..rest], nowMs);
      DeliveriesReply(hash, system.disk.Visible(), action.call, action.faults);
    }
  }

  lemma DeliveriesReply(hash: string -> string, file: File, call: Call, faults: Faults)
    requires call.Deliver? && CallOutcome(hash, file, call, faults).reply.Success?
    ensures CallOutcome(hash, file, call, faults).reply.value in {Confirmed, NotConfirmed}
  {
    hide DeliverOutcome;
  }

  lemma UnreadableDoesNothing(hash: string -> string, file: File, call: Call, faults: Faults)
    requires Decode(file).None?
    ensures CallOutcome(hash, file, call, faults).reply.Failure? && CallOutcome(hash, file, call, faults).sent.None?
  {
    hide Decode;
  }

  lemma SentNamesDevice(hash: string -> string, file: File, call: Call, faults: Faults)
    requires call.Deliver?
    ensures CallOutcome(hash, file, call, faults).sent.Some? ==>
      CallOutcome(hash, file, call, faults).sent.value.deviceId == call.deviceId
  {
    hide Decode, DeliverOutcome, LoadOutcome;
    if Decode(file).Some? { PairingRuns.SendIsAuthorized(hash, file, call, faults); } else { UnreadableDoesNothing(hash, file, call, faults); }
  }

  function SentIds(sent: seq<Sent>): (ids: seq<string>)
    ensures |ids| == |sent| && forall i :: 0 <= i < |sent| ==> ids[i] == sent[i].deviceId
  {
    seq(|sent|, i requires 0 <= i < |sent| => sent[i].deviceId)
  }

  lemma {:induction false} EachVisitedOnce(hash: string -> string, disk: Disk<File>, ids: seq<string>, visits: seq<Visit>, nowMs: nat)
    requires |visits| == |ids| && Unrepeated(ids)
    ensures var sent := SentIds(VisitAll(hash, disk, ids, visits, nowMs).sent);
      Unrepeated(sent) && forall id :: id in sent ==> id in ids
    decreases |ids|
  {
    hide CallOutcome, PersistAll;
    if ids != [] {
      var call := VisitCall(ids[0], visits[0], nowMs);
      SentNamesDevice(hash, disk.Visible(), call, visits[0].faults);
      var outcome := CallOutcome(hash, disk.Visible(), call, visits[0].faults);
      var next := PersistAll(disk, outcome.writes);
      EachVisitedOnce(hash, next, ids[1..], visits[1..], nowMs);
      var rest := SentIds(VisitAll(hash, next, ids[1..], visits[1..], nowMs).sent);
      assert forall i :: 0 <= i < |rest| ==> rest[i] in ids[1..];
    }
  }

  /** One pass submits at most once to each listed device. */
  lemma PassSendsOnceEach(hash: string -> string, disk: Disk<File>, nowMs: nat, listFault: PersistFault, answers: nat -> Visit)
    requires Decode(disk.Visible()).Some? ==> PairingRuns.DistinctIds(Decode(disk.Visible()).value.devices)
    ensures Unrepeated(SentIds(PassOutcome(hash, disk, nowMs, listFault, answers).sent))
  {
    hide Decode, VisitAll;
    var listed := LoadOutcome(disk.Visible(), listFault);
    if nowMs != 0 && listed.reply.Success? {
      var ids := IdsOf(listed.reply.value.devices);
      SortKeeps(ids);
      RearrangedUnrepeated(ids, SortIds(ids));
      EachVisitedOnce(hash, PersistAll(disk, listed.writes), SortIds(ids), Visits(|ids|, answers), nowMs);
    }
  }
}

/**
 The registry: every call locks, loads, edits and replaces the file.

 Each method is proved against its outcome in `PairingOps`, so the run theorems are about these bodies.
 */
module PairingRegistries {
  import opened Integers
  import opened Results
  import opened Disk
  import opened PairingModel
  import opened PairingOps
  import opened PairingPass

  class PairingRegistry {
    const hash: string -> string
    var disk: Disk<File>

    constructor (hash: string -> string)
      ensures this.hash == hash && disk == Disk(Current(EMPTY), [])
    {
      this.hash := hash;
      disk := Disk(Current(EMPTY), []);
    }

    /** Rename over the file, then sync the directory. */
    method Persist(registry: Registry, fault: PersistFault) returns (done: bool)
      modifies this
      ensures disk == old(disk).Persist(Current(registry), fault)
      ensures done <==> fault == Synced
    {
      if fault == RenameFailed {
        return false;
      }
      disk := Disk(disk.durable, disk.renamed + [Current(registry)]);
      if fault == SyncFailed {
        return false;
      }
      disk := Disk(disk.Visible(), []);
      return true;
    }

    /** Replace the file as the last write of a call. */
    method PersistLast(ghost before: Disk<File>, ghost writes: seq<PairingWrite>, registry: Registry, ghost purpose: Purpose,
                       fault: PersistFault) returns (done: bool)
      requires disk == PersistAll(before, writes)
      modifies this
      ensures disk == PersistAll(before, writes + [Write(Current(registry), purpose, fault)])
      ensures done <==> fault == Synced
    {
      ghost var last: seq<PairingWrite> := [Write(Current(registry), purpose, fault)];
      PersistAllAppend(before, writes, last);
      assert last[1..] == [];
      assert PersistAll(disk, last) == disk.Persist(Current(registry), fault);
      done := Persist(registry, fault);
    }

    /** Retire each token address of a schema-2 file; one ill-formed registration refuses the file. */
    method UpgradeRecords(devices: seq<LegacyDevice>) returns (upgraded: Option<seq<Device>>)
      ensures upgraded ==
        if forall legacy :: legacy in devices && legacy.registration.Some? ==> UpgradableRegistration(legacy.registration.value)
        then Some(UpgradeDevices(devices)) else None
    {
      hide UpgradableRegistration;
      var result := [];
      for i := 0 to |devices|
        invariant result == UpgradeDevices(devices[..i])
        invariant forall legacy :: legacy in devices[..i] && legacy.registration.Some? ==>
          UpgradableRegistration(legacy.registration.value)
      {
        var legacy := devices[i];
        assert legacy in devices;
        if legacy.registration.Some? && !UpgradableRegistration(legacy.registration.value) {
          return None;
        }
        assert devices[..i + 1][..i] == devices[..i];
        result := result + [UpgradeDevice(legacy)];
      }
      assert devices[..|devices|] == devices;
      upgraded := Some(result);
    }

    /** One scan with the set of addresses seen so far. */
    method ValidateState(registry: Registry) returns (valid: bool)
      ensures valid <==> ValidRegistry(registry)
    {
      hide ValidFid;
      var devices := registry.devices;
      var installations: set<string> := {};
      for i := 0 to |devices|
        invariant forall device :: device in devices[..i] && device.notification.Some? ==>
          ValidRegistration(device.notification.value)
        invariant DistinctFids(devices[..i])
        invariant forall fid :: fid in installations <==> exists j :: 0 <= j < i && UsesFid(devices[j], fid)
      {
        var device := devices[i];
        assert device in devices;
        if device.notification.Some? {
          var registration := device.notification.value;
          if registration.fid.Some? {
            var fid := registration.fid.value;
            if !ValidFid(fid) {
              return false;
            }
            assert UsesFid(devices[i], fid);
            if fid in installations {
              return false;
            }
            installations := installations + {fid};
          }
          if (registration.fid.None? && registration.enabled) || registration.submitted == Some(0)
             || (registration.attempts == 0) != (registration.retryAtMs == 0) {
            return false;
          }
        }
      }
      assert devices[..|devices|] == devices;
      valid := true;
    }

    method Load(fault: PersistFault) returns (result: Result<Registry, PairingError>)
      modifies this
      ensures var outcome := LoadOutcome(old(disk).Visible(), fault);
        disk == PersistAll(old(disk), outcome.writes) && result == outcome.reply
    {
      hide ValidRegistry, UpgradableRegistration;
      var registry;
      var file := disk.Visible();
      match file {
        case Current(stored) => registry := stored;
        case Legacy(pending, devices, health) =>
          var upgraded := UpgradeRecords(devices);
          if upgraded.None? || exists legacy :: legacy in devices && legacy.registration.Some? && !legacy.registration.value.decodes {
            return Failure(InvalidStored);
          }
          registry := Registry(pending, upgraded.value, health);
        case Unreadable => return Failure(InvalidStored);
      }
      var valid := ValidateState(registry);
      if !valid {
        return Failure(InvalidStored);
      }
      assert Decode(file) == Some(registry);
      if file.Legacy? {
        ghost var none: seq<PairingWrite> := [];
        var done := PersistLast(disk, none, registry, Upgrading, fault);
        assert none + [Write(Current(registry), Upgrading, fault)] == LoadOutcome(file, fault).writes;
        if !done {
          return Failure(Storage);
        }
      }
      result := Success(registry);
    }

    method FindDevice(devices: seq<Device>, id: string) returns (index: int)
      ensures index == Position(devices, HasId(id))
    {
      index := 0;
      while index < |devices| && devices[index].id != id
        invariant 0 <= index <= |devices|
        invariant forall i :: 0 <= i < index ==> devices[i].id != id
      {
        index := index + 1;
      }
      FirstPosition(devices, HasId(id), index);
      if index == |devices| {
        index := -1;
      }
    }

    method Issue(addressValid: bool, nowMs: nat, ttlMs: nat, token: string, faults: Faults) returns (reply: Result<Reply, PairingError>)
      modifies this
      ensures var outcome := CallOutcome(hash, old(disk).Visible(), Call.Issue(addressValid, nowMs, ttlMs, token), faults);
        disk == PersistAll(old(disk), outcome.writes) && reply == outcome.reply
    {
      hide Decode;
      if !addressValid || nowMs == 0 || ttlMs == 0 {
        return Failure(Rejected);
      }
      var loaded := Load(faults.load);
      if loaded.Failure? {
        return Failure(loaded.error);
      }
      var state := loaded.value;
      var expires := Saturate(nowMs + ttlMs);
      state := state.(pending := Unexpired(state.pending, (offer: Offer) => nowMs < offer.expiresAtMs));
      state := state.(pending := state.pending + [Offer(hash(token), expires)]);
      assert state == IssueChange(loaded.value, hash(token), nowMs, ttlMs);
      var done := PersistLast(old(disk), LoadOutcome(old(disk).Visible(), faults.load).writes, state, Changing, faults.first);
      reply := if done then Success(Offered(token, expires)) else Failure(Storage);
    }

    method Consume(token: string, name: string, nowMs: nat, deviceId: string, secret: string, faults: Faults)
      returns (reply: Result<Reply, PairingError>)
      modifies this
      ensures var outcome := CallOutcome(hash, old(disk).Visible(), Call.Consume(token, name, nowMs, deviceId, secret), faults);
        disk == PersistAll(old(disk), outcome.writes) && reply == outcome.reply
    {
      hide Decode, TrimEnd, TrimStart, ValidDeviceName;
      var trimmed := TrimEnd(TrimStart(name));
      if !ValidDeviceName(trimmed) {
        return Failure(Rejected);
      }
      var loaded := Load(faults.load);
      if loaded.Failure? {
        return Failure(loaded.error);
      }
      var state := loaded.value;
      var matched := MatchOffer(state.pending, hash(token), nowMs);
      if matched == -1 {
        return Failure(Rejected);
      }
      state := state.(pending := state.pending[..matched] + state.pending[matched + 1..]);
      state := state.(pending := Unexpired(state.pending, (offer: Offer) => nowMs <= offer.expiresAtMs));
      state := state.(devices := state.devices + [Device(deviceId, trimmed, nowMs, None, hash(secret), None)]);
      assert state == ConsumeChange(loaded.value, matched, nowMs, Device(deviceId, trimmed, nowMs, None, hash(secret), None));
      var done := PersistLast(old(disk), LoadOutcome(old(disk).Visible(), faults.load).writes, state, Changing, faults.first);
      reply := if done then Success(Paired(Credential(deviceId, trimmed, secret))) else Failure(Storage);
    }

    method RecordDelivery(deviceId: string, nowMs: nat, faults: Faults) returns (reply: Result<Reply, PairingError>)
      modifies this
      ensures var outcome := CallOutcome(hash, old(disk).Visible(), Call.RecordDelivery(deviceId, nowMs), faults);
        disk == PersistAll(old(disk), outcome.writes) && reply == outcome.reply
    {
      hide Decode;
      if nowMs == 0 {
        return Failure(Rejected);
      }
      var loaded := Load(faults.load);
      if loaded.Failure? {
        return Failure(loaded.error);
      }
      var state := loaded.value;
      var index := FindDevice(state.devices, deviceId);
      if index == -1 {
        return Failure(Rejected);
      }
      state := state.(devices := state.devices[index := state.devices[index].(lastDeliveryAtMs := Some(nowMs))]);
      var done := PersistLast(old(disk), LoadOutcome(old(disk).Visible(), faults.load).writes, state, Changing, faults.first);
      reply := if done then Success(Done) else Failure(Storage);
    }

    method Revoke(deviceId: string, faults: Faults) returns (reply: Result<Reply, PairingError>)
      modifies this
      ensures var outcome := CallOutcome(hash, old(disk).Visible(), Call.Revoke(deviceId), faults);
        disk == PersistAll(old(disk), outcome.writes) && reply == outcome.reply
    {
      hide Decode;
      var loaded := Load(faults.load);
      if loaded.Failure? {
        return Failure(loaded.error);
      }
      var state := loaded.value;
      var previous := |state.devices|;
      state := state.(devices := Without(state.devices, deviceId));
      if previous == |state.devices| {
        return Failure(Rejected);
      }
      var done := PersistLast(old(disk), LoadOutcome(old(disk).Visible(), faults.load).writes, state, Changing, faults.first);
      reply := if done then Success(Done) else Failure(Storage);
    }

    method Register(credential: string, fid: string, faults: Faults) returns (reply: Result<Reply, PairingError>)
      modifies this
      ensures var outcome := CallOutcome(hash, old(disk).Visible(), Call.Register(credential, fid), faults);
        disk == PersistAll(old(disk), outcome.writes) && reply == outcome.reply
    {
      hide Decode, ValidFid;
      if !ValidFid(fid) {
        return Failure(Rejected);
      }
      var loaded := Load(faults.load);
      if loaded.Failure? {
        return Failure(loaded.error);
      }
      var state := loaded.value;
      var credentialHash := hash(credential);
      var index := 0;
      while index < |state.devices| && state.devices[index].credentialHash != credentialHash
        invariant 0 <= index <= |state.devices|
        invariant forall i :: 0 <= i < index ==> state.devices[i].credentialHash != credentialHash
      {
        index := index + 1;
      }
      FirstPosition(state.devices, (device: Device) => device.credentialHash == credentialHash, index);
      if index == |state.devices| {
        return Failure(Unauthorized);
      }
      if FidTakenElsewhere(state.devices, index, fid) {
        return Failure(Rejected);
      }
      var current := state.devices[index].notification;
      if !(current.Some? && current.value.fid == Some(fid) && current.value.enabled) {
        var submitted := if current.Some? then current.value.submitted else None;
        var device := state.devices[index].(notification := Some(Registration(Some(fid), true, submitted, 0, 0)));
        state := state.(devices := state.devices[index := device]);
      }
      assert state == RegisterChange(loaded.value, index, fid);
      var done := PersistLast(old(disk), LoadOutcome(old(disk).Visible(), faults.load).writes, state, Changing, faults.first);
      reply := if done then Success(Done) else Failure(Storage);
    }

    method ConfigureNotifications(health: Health, faults: Faults) returns (reply: Result<Reply, PairingError>)
      modifies this
      ensures var outcome := CallOutcome(hash, old(disk).Visible(), Configure(health), faults);
        disk == PersistAll(old(disk), outcome.writes) && reply == outcome.reply
    {
      hide Decode;
      var loaded := Load(faults.load);
      if loaded.Failure? {
        return Failure(loaded.error);
      }
      var state := loaded.value;
      if state.health != health && (health != Ready || state.health == Unconfigured) {
        state := state.(health := health);
        var done := PersistLast(old(disk), LoadOutcome(old(disk).Visible(), faults.load).writes, state, Changing, faults.first);
        if !done {
          return Failure(Storage);
        }
      }
      reply := Success(Done);
    }

    method Retry(faults: Faults) returns (reply: Result<Reply, PairingError>)
      modifies this
      ensures var outcome := CallOutcome(hash, old(disk).Visible(), RetryNotifications, faults);
        disk == PersistAll(old(disk), outcome.writes) && reply == outcome.reply
    {
      hide Decode;
      var loaded := Load(faults.load);
      if loaded.Failure? {
        return Failure(loaded.error);
      }
      var state := loaded.value;
      if state.health == Unconfigured {
        return Failure(Rejected);
      }
      state := state.(health := Ready);
      var done := PersistLast(old(disk), LoadOutcome(old(disk).Visible(), faults.load).writes, state, Changing, faults.first);
      reply := if done then Success(Done) else Failure(Storage);
    }

    /** What the provider's answer changes before the settling replacement. */
    method RecordAnswer(registry: Registry, index: nat, ahead: Registration, generation: nat, nowMs: nat, result: SendResult)
      returns (settled: Registry)
      requires index < |registry.devices|
      ensures settled == WithRegistration(registry, index, Settle(ahead, generation, nowMs, result))
                         .(health := SettleHealth(registry.health, result))
    {
      var registration, health := ahead, registry.health;
      match result {
        case Accepted => registration := registration.(submitted := Some(generation), retryAtMs := 0, attempts := 0);
        case Transient(after) =>
          registration := registration.(retryAtMs := Max(registration.retryAtMs, Saturate(nowMs + after)));
        case InvalidInstallation => registration := registration.(enabled := false);
        case Authentication => health := AuthenticationError;
        case Configuration => health := ConfigurationError;
      }
      settled := WithRegistration(registry, index, registration).(health := health);
    }

    /** One device's locked step: write ahead, send, settle. `visit` answers for Attention and the provider. */
    method DeliverTo(deviceId: string, nowMs: nat, visit: Visit) returns (reply: Result<bool, PairingError>, sent: Option<Sent>)
      modifies this
      ensures var outcome := DeliverOutcome(old(disk).Visible(), deviceId, visit.latest, nowMs, visit.result, visit.faults);
        disk == PersistAll(old(disk), outcome.writes) && reply == outcome.reply && sent == outcome.sent
    {
      hide Decode, Delay, Settle, SettleHealth, LoadOutcome, Position, WithRegistration;
      sent := None;
      var loaded := Load(visit.faults.load);
      if loaded.Failure? {
        return Failure(loaded.error), None;
      }
      var state := loaded.value;
      ghost var writes := LoadOutcome(old(disk).Visible(), visit.faults.load).writes;
      if state.health != Ready {
        return Success(false), None;
      }
      if visit.latest.Unavailable? {
        return Failure(AttentionFailed), None;
      }
      if visit.latest.Nothing? {
        return Success(false), None;
      }
      var generation := visit.latest.value;
      if generation == 0 {
        return Failure(Rejected), None;
      }
      var index := FindDevice(state.devices, deviceId);
      if index == -1 || state.devices[index].notification.None? {
        return Success(false), None;
      }
      var registration := state.devices[index].notification.value;
      if !registration.enabled || (registration.submitted.Some? && generation <= registration.submitted.value)
         || nowMs < registration.retryAtMs {
        return Success(false), None;
      }
      var attempts := if registration.attempts < MAX_U32 then registration.attempts + 1 else MAX_U32;
      registration := registration.(attempts := attempts, retryAtMs := Saturate(nowMs + Delay(attempts)));
      if registration.fid.None? {
        return Success(false), None;
      }
      ReplacementLength(state, index, registration);
      state := WithRegistration(state, index, registration);
      var done := PersistLast(old(disk), writes, state, WritingAhead, visit.faults.first);
      writes := writes + [Write(Current(state), WritingAhead, visit.faults.first)];
      if !done {
        return Failure(Storage), None;
      }
      sent := Some(Sent(deviceId, registration.fid.value, generation, nowMs));
      state := RecordAnswer(state, index, registration, generation, nowMs, visit.result);
      done := PersistLast(old(disk), writes, state, Settling, visit.faults.second);
      reply := if done then Success(visit.result.Accepted?) else Failure(Storage);
    }

    /** Take each device in its own locked step; the first error ends the pass. */
    method VisitDevices(ids: seq<string>, visits: seq<Visit>, nowMs: nat) returns (reply: Result<nat, PairingError>, sent: seq<Sent>)
      requires |visits| == |ids| && nowMs != 0
      modifies this
      ensures Pass(disk, reply, sent) == VisitAll(hash, old(disk), ids, visits, nowMs)
    {
      hide DeliverOutcome, PersistAll, VisitAll;
      sent := [];
      var submitted := 0;
      assert ids[0..] == ids && visits[0..] == visits;
      VisitNothing(hash, nowMs);
      for i := 0 to |ids|
        invariant ContinuesFrom(VisitAll(hash, old(disk), ids, visits, nowMs), submitted, sent,
                                VisitAll(hash, disk, ids[i..], visits[i..], nowMs))
      {
        assert ids[i..][1..] == ids[i + 1..] && visits[i..][1..] == visits[i + 1..];
        VisitFirst(hash, disk, ids[i..], visits[i..], nowMs);
        var confirmed, delivered := DeliverTo(ids[i], nowMs, visits[i]);
        sent := sent + if delivered.Some? then [delivered.value] else [];
        if confirmed.Failure? {
          return Failure(confirmed.error), sent;
        }
        submitted := submitted + if confirmed.value then 1 else 0;
      }
      reply := Success(submitted);
    }

    /** Read the device list outside the steps that follow, then visit each device on it. */
    method DeliverNotifications(nowMs: nat, listFault: PersistFault, answers: nat -> Visit)
      returns (reply: Result<nat, PairingError>, sent: seq<Sent>)
      modifies this
      ensures Pass(disk, reply, sent) == PassOutcome(hash, old(disk), nowMs, listFault, answers)
    {
      hide Decode, LoadOutcome, VisitAll;
      sent := [];
      if nowMs == 0 {
        return Failure(Rejected), [];
      }
      var listed := Load(listFault);
      if listed.Failure? {
        return Failure(listed.error), [];
      }
      var ids := SortIds(IdsOf(listed.value.devices));
      reply, sent := VisitDevices(ids, Visits(|ids|, answers), nowMs);
    }

    /** Any one call. */
    method Invoke(call: Call, faults: Faults) returns (reply: Result<Reply, PairingError>)
      modifies this
      ensures var outcome := CallOutcome(hash, old(disk).Visible(), call, faults);
        disk == PersistAll(old(disk), outcome.writes) && reply == outcome.reply
    {
      match call {
        case Issue(addressValid, nowMs, ttlMs, token) => reply := Issue(addressValid, nowMs, ttlMs, token, faults);
        case Consume(token, name, nowMs, deviceId, secret) => reply := Consume(token, name, nowMs, deviceId, secret, faults);
        case RecordDelivery(deviceId, nowMs) => reply := RecordDelivery(deviceId, nowMs, faults);
        case Revoke(deviceId) => reply := Revoke(deviceId, faults);
        case Register(credential, fid) => reply := Register(credential, fid, faults);
        case Configure(health) => reply := ConfigureNotifications(health, faults);
        case RetryNotifications => reply := Retry(faults);
        case Deliver(deviceId, latest, nowMs, result) =>
          hide DeliverOutcome;
          if nowMs == 0 {
            return Failure(Rejected);
          }
          var confirmed, sent := DeliverTo(deviceId, nowMs, Visit(latest, result, faults));
          reply := match confirmed
                   case Success(done) => Success(if done then Confirmed else NotConfirmed)
                   case Failure(error) => Failure(error);
        case Status =>
          hide Decode;
          var loaded := Load(faults.load);
          reply := if loaded.Success? then Success(Done) else Failure(loaded.error);
      }
    }
  }

  /** The whole pass is what was done so far followed by `rest`. */
  ghost predicate ContinuesFrom(whole: Pass, submitted: nat, sent: seq<Sent>, rest: Pass) {
    && whole.disk == rest.disk
    && whole.sent == sent + rest.sent
    && whole.reply == if rest.reply.Success? then Success(submitted + rest.reply.value) else rest.reply
  }

  lemma ReplacementLength(registry: Registry, index: nat, registration: Registration)
    requires index < |registry.devices|
    ensures |WithRegistration(registry, index, registration).devices| == |registry.devices|
  {
  }

  lemma VisitNothing(hash: string -> string, nowMs: nat)
    ensures forall disk :: VisitAll(hash, disk, [], [], nowMs) == Pass(disk, Success(0), [])
  {
  }

  lemma VisitFirst(hash: string -> string, disk: Disk<File>, ids: seq<string>, visits: seq<Visit>, nowMs: nat)
    requires |visits| == |ids| && ids != [] && nowMs != 0
    ensures var outcome := DeliverOutcome(disk.Visible(), ids[0], visits[0].latest, nowMs, visits[0].result, visits[0].faults);
      var next := PersistAll(disk, outcome.writes);
      var sent := if outcome.sent.Some? then [outcome.sent.value] else [];
      VisitAll(hash, disk, ids, visits, nowMs) ==
        match outcome.reply
        case Failure(error) => Pass(next, Failure(error), sent)
        case Success(confirmed) =>
          var rest := VisitAll(hash, next, ids[1..], visits[1..], nowMs);
          Pass(rest.disk,
               if rest.reply.Success? then Success(rest.reply.value + if confirmed then 1 else 0) else rest.reply,
               sent + rest.sent)
  {
    hide DeliverOutcome, PersistAll;
  }

  lemma {:induction false} FirstPosition(devices: seq<Device>, matches: Device -> bool, index: nat)
    requires index <= |devices| && forall i :: 0 <= i < index ==> !matches(devices[i])
    requires index < |devices| ==> matches(devices[index])
    ensures Position(devices, matches) == if index < |devices| then index else -1
  {
    if devices != [] && index < |devices| - 1 { FirstPosition(devices[..|devices| - 1], matches, index); }
  }
}
