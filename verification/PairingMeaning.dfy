/**
 What the pairing calls mean to the people who make them: what a successful call leaves stored and what a
 later delivery does about it, spelled out field by field with none of the calls' own helpers.
 */
module PairingMeaning {
  import opened Integers
  import opened Results
  import opened Disk
  import opened Text
  import opened PairingModel
  import opened PairingOps
  import opened PairingRuns

  // ----- positions -----

  lemma {:induction false} PositionIsFirst(devices: seq<Device>, matches: Device -> bool)
    ensures var index := Position(devices, matches);
      0 <= index ==> forall i :: 0 <= i < index ==> !matches(devices[i])
  {
    if devices != [] {
      var n := |devices| - 1;
      PositionIsFirst(devices[..n], matches);
      if Position(devices[..n], matches) == -1 {
        forall i | 0 <= i < n ensures !matches(devices[i]) { assert devices[i] in devices[..n]; }
      }
    }
  }

  lemma PositionOf(devices: seq<Device>, id: string, index: nat)
    requires DistinctIds(devices) && index < |devices| && devices[index].id == id
    ensures Position(devices, HasId(id)) == index
  {
    assert devices[index] in devices;
    assert devices[Position(devices, HasId(id))].id == id;
  }

  // ----- what a call leaves -----

  /** The call answered `reply` and left exactly `after`, durably. */
  ghost predicate Leaves(hash: string -> string, system: System, call: Call, faults: Faults, reply: Reply, after: Registry) {
    && OutcomeOf(hash, system, Invoke(call, faults)).reply == Success(reply)
    && Step(hash, system, Invoke(call, faults)).disk == Disk(Current(after), [])
  }

  /** Whether the call gets as far as deciding what to change. */
  ghost predicate Decides(system: System, call: Call, faults: Faults) {
    && !call.Deliver? && Possible(system, call) && ValidArguments(call)
    && LoadOutcome(system.disk.Visible(), faults.load).reply.Success?
  }

  lemma DecidedCall(hash: string -> string, system: System, call: Call, faults: Faults)
    requires Inv(system) && !call.Deliver?
    ensures Decides(system, call, faults) ==>
      var writes := LoadOutcome(system.disk.Visible(), faults.load).writes;
      OutcomeOf(hash, system, Invoke(call, faults)) == ChangeOutcome(hash, writes, Found(system), call, faults.first)
    ensures OutcomeOf(hash, system, Invoke(call, faults)).reply.Success? ==> Decides(system, call, faults)
  {
    hide DevicesSound, ChangeOutcome, ValidArguments, Possible, Decode;
    VisibleIsCandidate(system.disk);
    LoadWrites(system.disk.Visible(), faults.load);
  }

  /** A call that does not get that far writes nothing of its own: arguments it does not accept are rejected, a
      file that does not load is refused as such. */
  lemma UndecidedRefuses(hash: string -> string, system: System, call: Call, faults: Faults)
    requires Inv(system) && !call.Deliver? && Possible(system, call) && !Decides(system, call, faults)
    ensures OutcomeOf(hash, system, Invoke(call, faults)) ==
      if !ValidArguments(call) then Outcome([], Failure(Rejected), None)
      else Outcome(LoadOutcome(system.disk.Visible(), faults.load).writes, Failure(Storage), None)
  {
    hide DevicesSound, ChangeOutcome, ValidArguments, Possible, Decode;
    VisibleIsCandidate(system.disk);
  }

  /** A store that fails turns the answer of a call that changes something into a storage failure, and leaves
      every other answer as it is. */
  lemma FaultIsReported(hash: string -> string, writes: seq<PairingWrite>, registry: Registry, call: Call, fault: PersistFault)
    requires !call.Deliver? && fault != Synced
    ensures var clean := ChangeOutcome(hash, writes, registry, call, Synced);
      var outcome := ChangeOutcome(hash, writes, registry, call, fault);
      if |clean.writes| == |writes| then outcome == clean
      else
        && |clean.writes| == |writes| + 1 && clean.reply.Success?
        && outcome == Outcome(writes + [clean.writes[|writes|].(fault := fault)], Failure(Storage), None)
  {
    hide IssueChange, ConsumeChange, RegisterChange, Without, FidTakenElsewhere, TrimStart, TrimEnd, Position, MatchOffer;
  }

  /** A change saved as the last act of a call is what the call leaves, when the save completes. */
  lemma SavedIsLeft(hash: string -> string, system: System, call: Call, faults: Faults, after: Registry, reply: Reply)
    requires Inv(system) && Decides(system, call, faults) && faults.first == Synced
    requires var writes := LoadOutcome(system.disk.Visible(), faults.load).writes;
      ChangeOutcome(hash, writes, Found(system), call, faults.first) == Save(writes, after, Synced, reply)
    ensures Leaves(hash, system, call, faults, reply, after)
  {
    DecidedCall(hash, system, call, faults);
    hide Inv, ChangeOutcome, CallOutcome, LoadOutcome, OutcomeOf;
    InvokeStep(hash, system, Invoke(call, faults));
    var writes := LoadOutcome(system.disk.Visible(), faults.load).writes;
    SyncedLast(system.disk, writes, Write(Current(after), Changing, Synced));
  }

  // ----- pairing -----

  predicate Blank(text: string) {
    forall i :: 0 <= i < |text| ==> IsWhitespace(text[i])
  }

  /** `trimmed` is `text` without the white space around it. */
  ghost predicate Trims(text: string, trimmed: string) {
    && (exists before, after :: Blank(before) && Blank(after) && text == before + trimmed + after)
    && (trimmed != [] ==> !IsWhitespace(trimmed[0]) && !IsWhitespace(trimmed[|trimmed| - 1]))
  }

  lemma {:induction false} TrimStartTrims(text: string) returns (before: string)
    ensures Blank(before) && text == before + TrimStart(text)
    ensures TrimStart(text) != [] ==> !IsWhitespace(TrimStart(text)[0])
  {
    hide IsWhitespace;
    before := [];
    if text != [] && IsWhitespace(text[0]) {
      var rest := TrimStartTrims(text[1..]);
      before := [text[0]] + rest;
      assert text == [text[0]] + text[1..];
    }
  }

  lemma {:induction false} TrimEndTrims(text: string) returns (after: string)
    ensures Blank(after) && text == TrimEnd(text) + after
    ensures TrimEnd(text) != [] ==> !IsWhitespace(TrimEnd(text)[|TrimEnd(text)| - 1])
  {
    hide IsWhitespace;
    after := [];
    if text != [] && IsWhitespace(text[|text| - 1]) {
      var n := |text| - 1;
      var rest := TrimEndTrims(text[..n]);
      after := rest + [text[n]];
      assert text == text[..n] + [text[n]];
    }
  }

  lemma TrimMeans(text: string)
    ensures Trims(text, TrimEnd(TrimStart(text)))
  {
    hide IsWhitespace, Blank, TrimStart, TrimEnd;
    var before := TrimStartTrims(text);
    var inner := TrimStart(text);
    var after := TrimEndTrims(inner);
    var trimmed := TrimEnd(inner);
    assert text == before + trimmed + after;
    if trimmed != [] { assert inner[0] == trimmed[0]; }
  }

  predicate Usable(offer: Offer, tokenHash: string, nowMs: nat) {
    offer.tokenHash == tokenHash && nowMs <= offer.expiresAtMs
  }

  lemma {:induction false} MatchIsFirst(offers: seq<Offer>, tokenHash: string, nowMs: nat)
    ensures var index := MatchOffer(offers, tokenHash, nowMs);
      0 <= index ==> forall i :: 0 <= i < index ==> !Usable(offers[i], tokenHash, nowMs)
  {
    if offers != [] {
      var n := |offers| - 1;
      MatchIsFirst(offers[..n], tokenHash, nowMs);
      if MatchOffer(offers[..n], tokenHash, nowMs) == -1 {
        forall i | 0 <= i < n ensures !Usable(offers[i], tokenHash, nowMs) { assert offers[i] in offers[..n]; }
      }
    }
  }

  /** `after` holds exactly the unexpired offers of `before` other than the one at `used`. */
  ghost predicate Spends(before: seq<Offer>, after: seq<Offer>, used: nat, nowMs: nat) {
    forall offer :: offer in after <==>
      nowMs <= offer.expiresAtMs && exists i :: 0 <= i < |before| && i != used && before[i] == offer
  }

  /** Pairing with a usable offer's token uses up the first such offer and lists one more device, unregistered,
      under the returned id and trimmed name, that the returned credential opens. It succeeds exactly when the
      file loads, the name is valid, such an offer is pending and the change is stored. */
  lemma ConsumeMeans(hash: string -> string, system: System, call: Call, faults: Faults) returns (used: int, after: Registry)
    requires Inv(system) && call.Consume?
    ensures var registry := Found(system);
      var reply := OutcomeOf(hash, system, Invoke(call, faults)).reply;
      && (reply.Success? <==>
          && Decides(system, call, faults) && faults.first == Synced
          && exists offer :: offer in registry.pending && Usable(offer, hash(call.token), call.nowMs))
      && (Decides(system, call, faults) && (forall offer :: offer in registry.pending ==> !Usable(offer, hash(call.token), call.nowMs)) ==>
          reply == Failure(Rejected))
      && (reply.Success? ==>
          && 0 <= used < |registry.pending|
          && Usable(registry.pending[used], hash(call.token), call.nowMs)
          && (forall i :: 0 <= i < used ==> !Usable(registry.pending[i], hash(call.token), call.nowMs))
          && Spends(registry.pending, after.pending, used, call.nowMs)
          && after.health == registry.health
          && |after.devices| == |registry.devices| + 1
          && after.devices[..|registry.devices|] == registry.devices
          && var added := after.devices[|registry.devices|];
             && added.id == call.deviceId
             && Trims(call.name, added.name) && added.name != []
             && added.credentialHash == hash(call.secret)
             && added.pairedAtMs == call.nowMs
             && added.lastDeliveryAtMs.None? && added.notification.None?
             && Leaves(hash, system, call, faults, Paired(Credential(added.id, added.name, call.secret)), after))
  {
    var registry := Found(system);
    var index := MatchOffer(registry.pending, hash(call.token), call.nowMs);
    MatchIsFirst(registry.pending, hash(call.token), call.nowMs);
    TrimMeans(call.name);
    DecidedCall(hash, system, call, faults);
    var trimmed := TrimEnd(TrimStart(call.name));
    used, after := index, registry;
    if Decides(system, call, faults) {
      NamesAreNotEmpty(call);
      hide Inv, OutcomeOf, Step, TrimStart, TrimEnd, IsWhitespace, ValidArguments, Found, Trims, LoadOutcome, Possible, Unexpired;
      if index != -1 {
        assert registry.pending[index] in registry.pending;
        var device := Device(call.deviceId, trimmed, call.nowMs, None, hash(call.secret), None);
        after := ConsumeChange(registry, index, call.nowMs, device);
        ConsumeSpendsOne(registry, index, call.nowMs, device);
        if faults.first == Synced {
          SavedIsLeft(hash, system, call, faults, after, Paired(Credential(call.deviceId, trimmed, call.secret)));
        }
      }
    }
  }

  lemma NamesAreNotEmpty(call: Call)
    requires call.Consume? && ValidArguments(call)
    ensures TrimEnd(TrimStart(call.name)) != []
  {
    hide TrimStart, TrimEnd;
  }

  lemma ConsumeSpendsOne(registry: Registry, index: nat, nowMs: nat, device: Device)
    requires index < |registry.pending|
    ensures var after := ConsumeChange(registry, index, nowMs, device);
      && Spends(registry.pending, after.pending, index, nowMs)
      && after.devices == registry.devices + [device] && after.health == registry.health
  {
    var before := registry.pending;
    var remaining := before[..index] + before[index + 1..];
    forall offer ensures offer in remaining <==> exists i :: 0 <= i < |before| && i != index && before[i] == offer {
      if offer in remaining {
        var j :| 0 <= j < |remaining| && remaining[j] == offer;
        assert before[if j < index then j else j + 1] == offer;
      }
      if exists i :: 0 <= i < |before| && i != index && before[i] == offer {
        var i :| 0 <= i < |before| && i != index && before[i] == offer;
        assert remaining[if i < index then i else i - 1] == offer;
      }
    }
  }

  /** Issuing adds the new offer behind the unexpired ones, and answers its token and expiry. */
  lemma IssueMeans(hash: string -> string, system: System, call: Call, faults: Faults) returns (after: Registry)
    requires Inv(system) && call.Issue?
    ensures var registry := Found(system);
      var reply := OutcomeOf(hash, system, Invoke(call, faults)).reply;
      var expiry := if call.nowMs + call.ttlMs <= MAX_U64 then call.nowMs + call.ttlMs else MAX_U64;
      && (reply.Success? <==> Decides(system, call, faults) && faults.first == Synced)
      && (reply.Success? ==>
          && after.devices == registry.devices && after.health == registry.health
          && after.pending != [] && after.pending[|after.pending| - 1] == Offer(hash(call.token), expiry)
          && (forall offer :: offer in after.pending[..|after.pending| - 1] <==>
              offer in registry.pending && call.nowMs < offer.expiresAtMs)
          && Leaves(hash, system, call, faults, Offered(call.token, expiry), after))
  {
    var registry := Found(system);
    DecidedCall(hash, system, call, faults);
    after := IssueChange(registry, hash(call.token), call.nowMs, call.ttlMs);
    var kept := Unexpired(registry.pending, (offer: Offer) => call.nowMs < offer.expiresAtMs);
    assert after.pending[..|after.pending| - 1] == kept;
    if Decides(system, call, faults) && faults.first == Synced {
      hide Inv, OutcomeOf, Step, ValidArguments, Found, LoadOutcome, Possible, Unexpired;
      SavedIsLeft(hash, system, call, faults, after, Offered(call.token, Saturate(call.nowMs + call.ttlMs)));
    }
  }

  // ----- devices -----

  /** Taking out one element and leaving off the last commute. */
  lemma RemoveThenLast<T>(items: seq<T>, index: nat)
    requires index < |items|
    ensures var n := |items| - 1;
      && (index == n ==> items[..index] + items[index + 1..] == items[..n])
      && (index < n ==> items[..index] + items[index + 1..] == items[..n][..index] + items[..n][index + 1..] + [items[n]])
  {
  }

  lemma WithoutLast(devices: seq<Device>, id: string)
    requires devices != []
    ensures var n := |devices| - 1;
      Without(devices, id) == if devices[n].id == id then Without(devices[..n], id) else Without(devices[..n], id) + [devices[n]]
  {
    var n := |devices| - 1;
    assert Without(devices[..n], id) + [] == Without(devices[..n], id);
  }

  lemma DistinctFront(devices: seq<Device>, id: string, index: nat)
    requires DistinctIds(devices) && index < |devices| && devices[index].id == id
    ensures var n := |devices| - 1;
      && DistinctIds(devices[..n])
      && (index == n ==> forall device :: device in devices[..n] ==> device.id != id)
      && (index < n ==> devices[n].id != id && devices[..n][index].id == id)
  {
  }

  lemma {:induction false} WithoutOne(devices: seq<Device>, id: string, index: nat)
    requires DistinctIds(devices) && index < |devices| && devices[index].id == id
    ensures Without(devices, id) == devices[..index] + devices[index + 1..]
  {
    hide DistinctIds, Without;
    var n := |devices| - 1;
    DistinctFront(devices, id, index);
    WithoutLast(devices, id);
    RemoveThenLast(devices, index);
    if index == n { OthersStay(devices[..n], id); } else { WithoutOne(devices[..n], id, index); }
  }

  lemma OthersStay(devices: seq<Device>, id: string)
    requires forall device :: device in devices ==> device.id != id
    ensures Without(devices, id) == devices
  {
    hide Without;
    forall i | 0 <= i < |devices| ensures devices[i].id != id { assert devices[i] in devices; }
    NobodyLeaves(devices, id);
  }

  lemma {:induction false} NobodyLeaves(devices: seq<Device>, id: string)
    requires forall i :: 0 <= i < |devices| ==> devices[i].id != id
    ensures Without(devices, id) == devices
  {
    if devices == [] {
      assert Without(devices, id) == [];
    } else {
      hide Without;
      var n := |devices| - 1;
      NobodyLeaves(devices[..n], id);
      WithoutLast(devices, id);
      FrontAndLast(devices);
    }
  }

  lemma FrontAndLast<T>(items: seq<T>)
    requires items != []
    ensures items[..|items| - 1] + [items[|items| - 1]] == items
  {
  }

  /** Revoking takes exactly that device off the list; an unlisted one is refused. */
  lemma RevokeMeans(hash: string -> string, system: System, call: Call, faults: Faults, index: int)
    requires Inv(system) && call.Revoke?
    requires var devices := Found(system).devices;
      if index == -1 then forall device :: device in devices ==> device.id != call.deviceId
      else 0 <= index < |devices| && devices[index].id == call.deviceId
    ensures var registry := Found(system);
      var reply := OutcomeOf(hash, system, Invoke(call, faults)).reply;
      && (reply.Success? <==> Decides(system, call, faults) && index != -1 && faults.first == Synced)
      && (Decides(system, call, faults) && index == -1 ==> reply == Failure(Rejected))
      && (reply.Success? ==>
          Leaves(hash, system, call, faults, Done,
                 Registry(registry.pending, registry.devices[..index] + registry.devices[index + 1..], registry.health)))
  {
    hide *;
    var registry := Found(system);
    var writes := LoadOutcome(system.disk.Visible(), faults.load).writes;
    DecidedCall(hash, system, call, faults);
    FoundIsSound(system);
    RevokeWithout(registry.devices, call.deviceId, index);
    RevokeOutcome(hash, writes, registry, call, faults.first);
    if Decides(system, call, faults) && faults.first == Synced && index != -1 {
      SavedIsLeft(hash, system, call, faults, registry.(devices := Without(registry.devices, call.deviceId)), Done);
    }
  }

  lemma RevokeOutcome(hash: string -> string, writes: seq<PairingWrite>, registry: Registry, call: Call, fault: PersistFault)
    requires call.Revoke?
    ensures var kept := Without(registry.devices, call.deviceId);
      var outcome := ChangeOutcome(hash, writes, registry, call, fault);
      if |kept| == |registry.devices| then outcome.reply == Failure(Rejected)
      else
        && outcome == Save(writes, registry.(devices := kept), fault, Done)
        && (outcome.reply.Success? <==> fault == Synced)
  {
    hide Without;
  }

  lemma RevokeWithout(devices: seq<Device>, id: string, index: int)
    requires DistinctIds(devices)
    requires if index == -1 then forall device :: device in devices ==> device.id != id
      else 0 <= index < |devices| && devices[index].id == id
    ensures if index == -1 then Without(devices, id) == devices
      else Without(devices, id) == devices[..index] + devices[index + 1..] && |Without(devices, id)| < |devices|
  {
    hide Without;
    if index == -1 { OthersStay(devices, id); } else { WithoutOne(devices, id, index); }
  }

  lemma FoundIsSound(system: System)
    requires Inv(system)
    ensures DevicesSound(system.usedIds, Found(system)) && DistinctIds(Found(system).devices) && ValidRegistry(Found(system))
  {
    hide ValidRegistry, DistinctIds;
    VisibleIsCandidate(system.disk);
  }

  /** Everything but one device's entry stays as it was. */
  ghost predicate OnlyChanges(before: Registry, after: Registry, index: nat) {
    && after.pending == before.pending && after.health == before.health
    && |after.devices| == |before.devices|
    && forall i :: 0 <= i < |before.devices| && i != index ==> after.devices[i] == before.devices[i]
  }

  /** Recording a delivery dates that device and changes nothing else. */
  lemma RecordDeliveryMeans(hash: string -> string, system: System, call: Call, faults: Faults, index: nat)
      returns (after: Registry)
    requires Inv(system) && call.RecordDelivery?
    requires index < |Found(system).devices| && Found(system).devices[index].id == call.deviceId
    ensures var registry := Found(system);
      var reply := OutcomeOf(hash, system, Invoke(call, faults)).reply;
      && (reply.Success? <==> Decides(system, call, faults) && faults.first == Synced)
      && (reply.Success? ==>
          && OnlyChanges(registry, after, index)
          && after.devices[index] == registry.devices[index].(lastDeliveryAtMs := Some(call.nowMs))
          && Leaves(hash, system, call, faults, Done, after))
  {
    var registry := Found(system);
    DecidedCall(hash, system, call, faults);
    FoundIsSound(system);
    PositionOf(registry.devices, call.deviceId, index);
    var device := registry.devices[index].(lastDeliveryAtMs := Some(call.nowMs));
    after := registry.(devices := registry.devices[index := device]);
    if Decides(system, call, faults) && faults.first == Synced {
      hide Inv, OutcomeOf, Step, ValidArguments, Found, LoadOutcome, Possible, Position;
      SavedIsLeft(hash, system, call, faults, after, Done);
    }
  }

  // ----- registering an address -----

  ghost predicate FirstBearer(devices: seq<Device>, credentialHash: string, index: nat) {
    && index < |devices| && devices[index].credentialHash == credentialHash
    && forall i :: 0 <= i < index ==> devices[i].credentialHash != credentialHash
  }

  /** A device just registered under `fid`: repeating an enabled address keeps everything, any other
      registration keeps the confirmed generation and starts without backoff. */
  ghost predicate Registers(before: Option<Registration>, after: Option<Registration>, fid: string) {
    && after.Some? && after.value.fid == Some(fid) && after.value.enabled
    && after.value.submitted == (if before.Some? then before.value.submitted else None)
    && (if before.Some? && before.value.enabled && before.value.fid == Some(fid) then after == before
        else after.value.attempts == 0 && after.value.retryAtMs == 0)
  }

  ghost predicate UsedElsewhere(devices: seq<Device>, index: nat, fid: string) {
    exists i :: 0 <= i < |devices| && i != index
      && devices[i].notification.Some? && devices[i].notification.value.fid == Some(fid)
  }

  /** After a successful registration the first device bearing the credential is enabled under exactly that
      address, and everything else is as it was. It succeeds exactly when a device bears the credential, no
      other device uses the address, the address is well formed and the change is stored. */
  lemma RegisterMeans(hash: string -> string, system: System, call: Call, faults: Faults, bearer: nat)
      returns (after: Registry)
    requires Inv(system) && call.Register? && FirstBearer(Found(system).devices, hash(call.credential), bearer)
    ensures var registry := Found(system);
      var reply := OutcomeOf(hash, system, Invoke(call, faults)).reply;
      && (reply.Success? <==>
          && Decides(system, call, faults) && faults.first == Synced
          && !UsedElsewhere(registry.devices, bearer, call.fid))
      && (Decides(system, call, faults) && UsedElsewhere(registry.devices, bearer, call.fid) ==> reply == Failure(Rejected))
      && (reply.Success? ==>
          && OnlyChanges(registry, after, bearer)
          && after.devices[bearer] == registry.devices[bearer].(notification := after.devices[bearer].notification)
          && Registers(registry.devices[bearer].notification, after.devices[bearer].notification, call.fid)
          && Leaves(hash, system, call, faults, Done, after))
  {
    var registry := Found(system);
    var credentialHash := hash(call.credential);
    var bears := (device: Device) => device.credentialHash == credentialHash;
    DecidedCall(hash, system, call, faults);
    BearerIsFound(registry.devices, credentialHash, bearer);
    hide Inv, OutcomeOf, Step, ValidArguments, Found, LoadOutcome, Possible, Position, FirstBearer;
    after := RegisterChange(registry, bearer, call.fid);
    if Decides(system, call, faults) && faults.first == Synced && !UsedElsewhere(registry.devices, bearer, call.fid) {
      SavedIsLeft(hash, system, call, faults, after, Done);
    }
  }

  lemma BearerIsFound(devices: seq<Device>, credentialHash: string, bearer: nat)
    requires FirstBearer(devices, credentialHash, bearer)
    ensures Position(devices, (device: Device) => device.credentialHash == credentialHash) == bearer
  {
    var bears := (device: Device) => device.credentialHash == credentialHash;
    PositionIsFirst(devices, bears);
    assert devices[bearer] in devices;
  }

  /** A credential no device bears registers nothing. */
  lemma RegisterUnauthorized(hash: string -> string, system: System, call: Call, faults: Faults)
    requires Inv(system) && call.Register? && Decides(system, call, faults)
    requires forall device :: device in Found(system).devices ==> device.credentialHash != hash(call.credential)
    ensures OutcomeOf(hash, system, Invoke(call, faults)).reply == Failure(Unauthorized)
  {
    DecidedCall(hash, system, call, faults);
    hide Inv, OutcomeOf, Found, LoadOutcome, Decides;
  }

  // ----- sender health -----

  /** A start records a lost configuration or a first one, and never clears a permanent failure by itself. */
  lemma ConfigureMeans(hash: string -> string, system: System, call: Call, faults: Faults)
    requires Inv(system) && call.Configure?
    ensures var registry := Found(system);
      var reply := OutcomeOf(hash, system, Invoke(call, faults)).reply;
      var stays := registry.health == call.health || (call.health == Ready && registry.health != Unconfigured);
      && (reply.Success? <==> Decides(system, call, faults) && (stays || faults.first == Synced))
      && (reply.Success? && !stays ==>
          Leaves(hash, system, call, faults, Done, Registry(registry.pending, registry.devices, call.health)))
      && (reply.Success? && stays ==> Found(Step(hash, system, Invoke(call, faults))) == registry)
  {
    var registry := Found(system);
    DecidedCall(hash, system, call, faults);
    var stays := registry.health == call.health || (call.health == Ready && registry.health != Unconfigured);
    if Decides(system, call, faults) {
      LoadKeepsFound(hash, system, faults.load);
      InvokeStep(hash, system, Invoke(call, faults));
      hide Inv, OutcomeOf, Step, ValidArguments, Found, LoadOutcome, Possible, CallOutcome;
      if !stays && faults.first == Synced {
        SavedIsLeft(hash, system, call, faults, registry.(health := call.health), Done);
      }
    }
  }

  lemma LoadKeepsFound(hash: string -> string, system: System, fault: PersistFault)
    requires Inv(system) && LoadOutcome(system.disk.Visible(), fault).reply.Success?
    ensures Found(system.(disk := PersistAll(system.disk, LoadOutcome(system.disk.Visible(), fault).writes))) == Found(system)
  {
    FoundIsSound(system);
    hide DevicesSound, DistinctIds, ValidRegistry;
    VisibleIsCandidate(system.disk);
    var writes := LoadOutcome(system.disk.Visible(), fault).writes;
    if writes != [] { assert writes[1..] == []; }
  }

  /** An explicit retry makes a configured sender ready again, and refuses an unconfigured one. */
  lemma RetryMeans(hash: string -> string, system: System, faults: Faults)
    requires Inv(system)
    ensures var registry, call := Found(system), RetryNotifications;
      var reply := OutcomeOf(hash, system, Invoke(call, faults)).reply;
      && (reply.Success? <==> Decides(system, call, faults) && registry.health != Unconfigured && faults.first == Synced)
      && (Decides(system, call, faults) && registry.health == Unconfigured ==> reply == Failure(Rejected))
      && (reply.Success? ==> Leaves(hash, system, call, faults, Done, Registry(registry.pending, registry.devices, Ready)))
  {
    var registry, call := Found(system), RetryNotifications;
    DecidedCall(hash, system, call, faults);
    hide Inv, OutcomeOf, Step, ValidArguments, Found, LoadOutcome, Possible;
    if Decides(system, call, faults) && registry.health != Unconfigured && faults.first == Synced {
      SavedIsLeft(hash, system, call, faults, registry.(health := Ready), Done);
    }
  }

  // ----- delivery -----

  /** The device may be pushed to about `generation` at this time. */
  predicate ReadyFor(device: Device, generation: nat, nowMs: nat) {
    && device.notification.Some?
    && device.notification.value.enabled && device.notification.value.fid.Some?
    && (device.notification.value.submitted.None? || device.notification.value.submitted.value < generation)
    && device.notification.value.retryAtMs <= nowMs
  }

  /** A call sends exactly when it is a delivery at a positive time, of a positive generation, under ready
      health, to a listed device ready for it, from a file that loads, with its deadline stored durably; and
      it sends that generation to the address the device registered. */
  lemma SendsWhenReady(hash: string -> string, system: System, call: Call, faults: Faults, index: nat)
    requires Inv(system) && Possible(system, call) && call.Deliver?
    requires index < |Found(system).devices| && Found(system).devices[index].id == call.deviceId
    ensures var device := Found(system).devices[index];
      var sent := SentBy(hash, system, Invoke(call, faults));
      && (sent.Some? <==>
          && call.nowMs != 0 && call.latest.Generation? && call.latest.value != 0
          && Found(system).health == Ready && ReadyFor(device, call.latest.value, call.nowMs)
          && LoadOutcome(system.disk.Visible(), faults.load).reply.Success? && faults.first == Synced)
      && (sent.Some? ==>
          sent == Some(Sent(device.id, device.notification.value.fid.value, call.latest.value, call.nowMs)))
  {
    FoundIsSound(system);
    PositionOf(Found(system).devices, call.deviceId, index);
    VisibleIsCandidate(system.disk);
    hide Inv, CallOutcome, LoadOutcome, DevicesSound, ValidRegistry, DistinctIds, Position, Possible;
    SendsExactlyWhenDue(hash, system.disk.Visible(), call, faults);
    SendIsAuthorized(hash, system.disk.Visible(), call, faults);
  }

  /** What a delivery that sends nothing answers, and that it stores nothing but what loading or a failed
      deadline wrote: an error only for a bad time or generation, an unreadable file, a failed inbox or a failed
      store; otherwise simply that nothing was confirmed. */
  lemma UnsentReplies(hash: string -> string, system: System, call: Call, faults: Faults)
    requires Inv(system) && Possible(system, call) && call.Deliver?
    requires SentBy(hash, system, Invoke(call, faults)).None?
    ensures var outcome := OutcomeOf(hash, system, Invoke(call, faults));
      var loaded := LoadOutcome(system.disk.Visible(), faults.load);
      if call.nowMs == 0 then outcome == Outcome([], Failure(Rejected), None)
      else if loaded.reply.Failure? then outcome == Outcome(loaded.writes, Failure(Storage), None)
      else if Found(system).health != Ready || call.latest.Nothing? then
        outcome == Outcome(loaded.writes, Success(NotConfirmed), None)
      else if call.latest.Unavailable? then outcome == Outcome(loaded.writes, Failure(AttentionFailed), None)
      else if call.latest.value == 0 then outcome == Outcome(loaded.writes, Failure(Rejected), None)
      else if forall device :: device in Found(system).devices && device.id == call.deviceId ==>
                !ReadyFor(device, call.latest.value, call.nowMs) then
        outcome == Outcome(loaded.writes, Success(NotConfirmed), None)
      else
        && faults.first != Synced && outcome.reply == Failure(Storage)
        && |outcome.writes| == |loaded.writes| + 1 && outcome.writes[..|loaded.writes|] == loaded.writes
        && outcome.writes[|loaded.writes|].fault == faults.first
  {
    FoundIsSound(system);
    VisibleIsCandidate(system.disk);
    LoadWrites(system.disk.Visible(), faults.load);
    LoadErrors(system.disk.Visible(), faults.load);
    hide Inv, DevicesSound, ValidRegistry, Decode, LoadOutcome, Possible, WriteAhead, Settle, SettleHealth, WithRegistration;
    forall device | device in Found(system).devices && device.id == call.deviceId
      ensures Position(Found(system).devices, HasId(call.deviceId)) != -1
        && device == Found(system).devices[Position(Found(system).devices, HasId(call.deviceId))]
    {
      var i :| 0 <= i < |Found(system).devices| && Found(system).devices[i] == device;
      PositionOf(Found(system).devices, call.deviceId, i);
    }
    hide DistinctIds, Position;
  }

  lemma LoadErrors(file: File, fault: PersistFault)
    requires Decode(file).Some?
    ensures LoadOutcome(file, fault).reply.Failure? ==> LoadOutcome(file, fault).reply.error == Storage
  {
    hide Decode;
  }

  /** A device that has just registered an address is sent the next eligible generation at that address. */
  lemma RegisteredIsSent(hash: string -> string, system: System, register: Call, faults: Faults, bearer: nat,
                         deliver: Call, sending: Faults)
    requires Inv(system) && register.Register? && FirstBearer(Found(system).devices, hash(register.credential), bearer)
    requires OutcomeOf(hash, system, Invoke(register, faults)).reply.Success?
    requires var device := Found(system).devices[bearer];
      && deliver.Deliver? && deliver.deviceId == device.id && deliver.latest.Generation?
      && 0 < deliver.nowMs <= MAX_U64 && 0 < deliver.latest.value
      && Found(system).health == Ready && sending.first == Synced
      && (device.notification.Some? ==>
          && (device.notification.value.submitted.Some? ==> device.notification.value.submitted.value < deliver.latest.value)
          && (device.notification.value.enabled && device.notification.value.fid == Some(register.fid) ==>
              device.notification.value.retryAtMs <= deliver.nowMs))
    ensures SentBy(hash, Step(hash, system, Invoke(register, faults)), Invoke(deliver, sending)) ==
      Some(Sent(deliver.deviceId, register.fid, deliver.latest.value, deliver.nowMs))
  {
    var after := RegisterMeans(hash, system, register, faults, bearer);
    var next := Step(hash, system, Invoke(register, faults));
    StepKeepsInv(hash, system, Invoke(register, faults));
    hide Inv, Step, OutcomeOf, CallOutcome, FirstBearer, SentBy, Found;
    LandedIsFound(next, after);
    SendsWhenReady(hash, next, deliver, sending, bearer);
  }

  lemma LandedIsFound(system: System, after: Registry)
    requires Inv(system) && system.disk == Disk(Current(after), [])
    ensures Found(system) == after
    ensures forall fault :: LoadOutcome(system.disk.Visible(), fault).reply.Success?
  {
    hide DevicesSound, ValidRegistry;
    VisibleIsCandidate(system.disk);
  }

  /** The local backoff after the given number of consecutive attempts. */
  function Backoff(attempts: nat): nat {
    if attempts <= 1 then 60_000
    else if attempts == 2 then 120_000
    else if attempts == 3 then 240_000
    else if attempts == 4 then 480_000
    else if attempts == 5 then 960_000
    else if attempts == 6 then 1_920_000
    else 3_840_000
  }

  lemma BackoffMeans(attempts: nat)
    ensures Delay(attempts) == Backoff(attempts)
  {
    assert Pow2(0) == 1 && Pow2(1) == 2 && Pow2(2) == 4 && Pow2(3) == 8 && Pow2(4) == 16;
    assert Pow2(5) == 32 && Pow2(6) == 64;
  }

  function Limited(value: nat): nat {
    if value < MAX_U64 then value else MAX_U64
  }

  /** What the provider's answer leaves of a device's registration. Only an acceptance confirms the generation
      and ends the backoff; every other answer counts the attempt and keeps its deadline, which a transient
      failure can only put off; only a retired address is disabled. */
  ghost predicate Answers(before: Registration, after: Registration, generation: nat, nowMs: nat, result: SendResult) {
    var attempts := if before.attempts < MAX_U32 then before.attempts + 1 else MAX_U32;
    var deadline := Limited(nowMs + Backoff(attempts));
    && after.fid == before.fid
    && after.submitted == (if result.Accepted? then Some(generation) else before.submitted)
    && after.enabled == (before.enabled && !result.InvalidInstallation?)
    && after.attempts == (if result.Accepted? then 0 else attempts)
    && (result.Accepted? ==> after.retryAtMs == 0)
    && (!result.Accepted? && !result.Transient? ==> after.retryAtMs == deadline)
    && (result.Transient? ==>
        && deadline <= after.retryAtMs && Limited(nowMs + result.retryAfterMs) <= after.retryAtMs
        && (after.retryAtMs == deadline || after.retryAtMs == Limited(nowMs + result.retryAfterMs)))
  }

  /** A delivery that sent and was recorded changes that one registration as the answer says, stops the sender
      after a permanent failure, and leaves everything else. It counts as confirmed only when accepted. */
  lemma DeliverMeans(hash: string -> string, system: System, call: Call, faults: Faults, index: nat)
      returns (after: Registry)
    requires Inv(system) && call.Deliver?
    requires index < |Found(system).devices| && Found(system).devices[index].id == call.deviceId
    requires SentBy(hash, system, Invoke(call, faults)).Some?
    ensures var registry := Found(system);
      var reply := OutcomeOf(hash, system, Invoke(call, faults)).reply;
      && (reply.Success? <==> faults.second == Synced)
      && (reply.Success? ==>
          && Leaves(hash, system, call, faults, if call.result.Accepted? then Confirmed else NotConfirmed, after)
          && OnlyChanges(registry, after.(health := registry.health), index)
          && after.health == (match call.result
                              case Authentication => AuthenticationError
                              case Configuration => ConfigurationError
                              case _ => registry.health)
          && registry.devices[index].notification.Some? && after.devices[index].notification.Some?
          && after.devices[index] == registry.devices[index].(notification := after.devices[index].notification)
          && call.latest.Generation?
          && Answers(registry.devices[index].notification.value, after.devices[index].notification.value,
                     call.latest.value, call.nowMs, call.result))
  {
    var action := Invoke(call, faults);
    AfterSend(hash, system, action);
    DiskAfterSend(hash, system, action);
    FoundIsSound(system);
    PositionOf(Found(system).devices, call.deviceId, index);
    VisibleIsCandidate(system.disk);
    SendIsAuthorized(hash, system.disk.Visible(), call, faults);
    SendReplies(hash, system, call, faults);
    hide Inv, CallOutcome, LoadOutcome, DevicesSound, ValidRegistry, DistinctIds, Position, Possible, Step, Answers, OutcomeOf;
    after := Settled(Found(system), call);
    SettledChanges(Found(system), call, index);
  }

  lemma SendReplies(hash: string -> string, system: System, call: Call, faults: Faults)
    requires Inv(system) && call.Deliver? && SentBy(hash, system, Invoke(call, faults)).Some?
    ensures OutcomeOf(hash, system, Invoke(call, faults)).reply ==
      if faults.second == Synced then Success(if call.result.Accepted? then Confirmed else NotConfirmed) else Failure(Storage)
  {
    VisibleIsCandidate(system.disk);
    hide DevicesSound, MayDeliver, Pending, Settled, UsesFid, Decode, LoadOutcome, DeliverOutcome;
    DeliverWrites(system.disk.Visible(), call, faults);
  }

  lemma SettledChanges(registry: Registry, call: Call, index: nat)
    requires MayDeliver(registry, call) && index == DeviceIndex(registry, call.deviceId)
    ensures var after := Settled(registry, call);
      && OnlyChanges(registry, after.(health := registry.health), index)
      && after.health == (match call.result
                          case Authentication => AuthenticationError
                          case Configuration => ConfigurationError
                          case _ => registry.health)
      && after.devices[index].notification.Some?
      && after.devices[index] == registry.devices[index].(notification := after.devices[index].notification)
      && Answers(registry.devices[index].notification.value, after.devices[index].notification.value,
                 call.latest.value, call.nowMs, call.result)
  {
    hide Position, Answers, WriteAhead, Settle, Due;
    AnswersMean(registry.devices[index].notification.value, call);
  }

  lemma AnswersMean(registration: Registration, call: Call)
    requires call.Deliver? && call.latest.Generation?
    ensures Answers(registration,
                    Settle(WriteAhead(registration, call.nowMs), call.latest.value, call.nowMs, call.result),
                    call.latest.value, call.nowMs, call.result)
  {
    var attempts := if registration.attempts < MAX_U32 then registration.attempts + 1 else MAX_U32;
    BackoffMeans(attempts);
    hide Delay, Backoff;
  }

  // ----- what outlives the answer -----

  /** Once the provider has called an address invalid, and that is recorded, nothing is sent to its device
      before the device registers again. */
  lemma InvalidAddressIsNotUsed(hash: string -> string, system: System, failed: Action, between: seq<Action>, action: Action)
    requires Inv(system) && failed.Invoke? && failed.call.Deliver? && failed.call.result.InvalidInstallation?
    requires SentBy(hash, system, failed).Some? && OutcomeOf(hash, system, failed).reply.Success?
    requires RunRespects(hash, Disabled(failed.call.deviceId), Step(hash, system, failed), between)
    ensures var sent := SentBy(hash, Run(hash, Step(hash, system, failed), between), action);
      sent.Some? ==> sent.value.deviceId != failed.call.deviceId
  {
    hide Step, Run, Inv, OutcomeOf, Everywhere, RunRespects, SentBy, Found;
    var claim := Disabled(failed.call.deviceId);
    AnswerHolds(hash, system, failed, claim);
    StepKeepsInv(hash, system, failed);
    var next := Step(hash, system, failed);
    RunKeepsClaim(hash, claim, next, between);
    DisabledIsNotSent(hash, Run(hash, next, between), action, failed.call.deviceId);
  }

  /** Once the provider has asked to wait, and that is recorded, nothing is sent to that device before the time
      it asked for, nor before the local backoff, unless the device registers again or accepts. */
  lemma RetryTimeIsHonoured(hash: string -> string, system: System, failed: Action, between: seq<Action>, action: Action, atMs: nat)
    requires Inv(system) && failed.Invoke? && failed.call.Deliver? && failed.call.result.Transient?
    requires SentBy(hash, system, failed).Some? && OutcomeOf(hash, system, failed).reply.Success?
    requires atMs == Limited(failed.call.nowMs + failed.call.result.retryAfterMs) || atMs == Limited(failed.call.nowMs + 60_000)
    requires RunRespects(hash, NotBefore(failed.call.deviceId, atMs), Step(hash, system, failed), between)
    ensures var sent := SentBy(hash, Run(hash, Step(hash, system, failed), between), action);
      sent.Some? && sent.value.deviceId == failed.call.deviceId ==> atMs <= sent.value.atMs
  {
    hide Step, Run, Inv, OutcomeOf, Everywhere, RunRespects, SentBy, Found;
    var claim := NotBefore(failed.call.deviceId, atMs);
    AnswerHolds(hash, system, failed, claim);
    StepKeepsInv(hash, system, failed);
    var next := Step(hash, system, failed);
    RunKeepsClaim(hash, claim, next, between);
    SentIsNotBefore(hash, Run(hash, next, between), action, claim);
  }

  /** The claims a recorded answer makes true of every state a power loss could leave. */
  lemma AnswerHolds(hash: string -> string, system: System, action: Action, claim: Claim)
    requires Inv(system) && action.Invoke? && action.call.Deliver?
    requires SentBy(hash, system, action).Some? && OutcomeOf(hash, system, action).reply.Success?
    requires
      || (action.call.result.InvalidInstallation? && claim == Disabled(action.call.deviceId))
      || (action.call.result.Transient? && claim.NotBefore? && claim.deviceId == action.call.deviceId
          && (claim.atMs == Limited(action.call.nowMs + action.call.result.retryAfterMs)
              || claim.atMs == Limited(action.call.nowMs + 60_000)))
    ensures Everywhere(Step(hash, system, action).disk, r => Holds(hash, claim, r))
    ensures Drawn(claim, Step(hash, system, action))
  {
    AfterSend(hash, system, action);
    DiskAfterSend(hash, system, action);
    SenderIsKnown(hash, system, action.call);
    FoundIsSound(system);
    SettledHolds(hash, Found(system), action.call, claim);
    hide *;
    ClaimAfterSend(hash, system, action, claim);
    DrawnStays(system, Step(hash, system, action), claim);
  }

  lemma DrawnStays(system: System, next: System, claim: Claim)
    requires claim.NotBefore? || claim.Disabled?
    requires claim.deviceId in system.usedIds && next.usedIds == system.usedIds
    ensures Drawn(claim, next)
  {
  }

  lemma SettledHolds(hash: string -> string, registry: Registry, call: Call, claim: Claim)
    requires MayDeliver(registry, call) && DistinctIds(registry.devices)
    requires
      || (call.result.InvalidInstallation? && claim == Disabled(call.deviceId))
      || (call.result.Transient? && claim.NotBefore? && claim.deviceId == call.deviceId
          && (claim.atMs == Limited(call.nowMs + call.result.retryAfterMs) || claim.atMs == Limited(call.nowMs + 60_000)))
    ensures Holds(hash, claim, Settled(registry, call))
  {
    assert call.Deliver? && call.latest.Generation?;
    hide MayDeliver, Pending, Settled, DistinctIds;
    var registration := registry.devices[DeviceIndex(registry, call.deviceId)].notification.value;
    AnswersMean(registration, call);
    forall device | device in Settled(registry, call).devices && device.id == call.deviceId
      ensures device.notification.Some?
      ensures Answers(registration, device.notification.value, call.latest.value, call.nowMs, call.result)
    {
      SettledDevice(registry, call, device);
    }
  }

  lemma DisabledIsNotSent(hash: string -> string, system: System, action: Action, deviceId: string)
    requires Everywhere(system.disk, r => Holds(hash, Disabled(deviceId), r))
    ensures SentBy(hash, system, action).Some? ==> SentBy(hash, system, action).value.deviceId != deviceId
  {
    hide CallOutcome;
    VisibleHolds(hash, Disabled(deviceId), system);
    if SentBy(hash, system, action).Some? {
      SendIsAuthorized(hash, system.disk.Visible(), action.call, action.faults);
      var registry := Decode(system.disk.Visible()).value;
      assert registry.devices[DeviceIndex(registry, action.call.deviceId)] in registry.devices;
    }
  }
}
