/** Pairing registry records, their validation, and the one-way upgrade from schema 2. */
module PairingModel {
  import opened Results
  import opened Text

  datatype Health = Unconfigured | Ready | ConfigurationError | AuthenticationError

  datatype Offer = Offer(tokenHash: string, expiresAtMs: nat)

  /** Push progress of one device; `fid` is its push address. */
  datatype Registration = Registration(
    fid: Option<string>, enabled: bool, submitted: Option<nat>, retryAtMs: nat, attempts: nat)

  datatype Device = Device(
    id: string, name: string, pairedAtMs: nat, lastDeliveryAtMs: Option<nat>, credentialHash: string,
    notification: Option<Registration>)

  datatype Registry = Registry(pending: seq<Offer>, devices: seq<Device>, health: Health)

  const EMPTY := Registry([], [], Unconfigured)

  /** A member of a schema-2 registration as JSON finds it. */
  datatype Field = Absent | Text(text: string) | Truth(value: bool) | Other

  /** A schema-2 registration. `decodes` says its remaining members read as schema 3 expects. */
  datatype LegacyRegistration = LegacyRegistration(
    hasFid: bool, token: Field, enabled: Field, submitted: Option<nat>, retryAtMs: nat, attempts: nat, decodes: bool)

  datatype LegacyDevice = LegacyDevice(device: Device, registration: Option<LegacyRegistration>)

  datatype File =
    | Current(registry: Registry)
    | Legacy(pending: seq<Offer>, devices: seq<LegacyDevice>, health: Health)
    | Unreadable

  // ----- validation -----

  predicate ValidFid(fid: string) {
    |fid| == 22 && forall i :: 0 <= i < 22 ==> IsAsciiAlphanumeric(fid[i]) || fid[i] == '_' || fid[i] == '-'
  }

  predicate ValidRegistration(registration: Registration) {
    && (registration.fid.Some? ==> ValidFid(registration.fid.value))
    && (registration.fid.None? ==> !registration.enabled)
    && registration.submitted != Some(0)
    && (registration.attempts == 0 <==> registration.retryAtMs == 0)
  }

  predicate UsesFid(device: Device, fid: string) {
    device.notification.Some? && device.notification.value.fid == Some(fid)
  }

  predicate DistinctFids(devices: seq<Device>) {
    forall i, j :: 0 <= i < j < |devices| && devices[i].notification.Some? && devices[i].notification.value.fid.Some? ==>
      !UsesFid(devices[j], devices[i].notification.value.fid.value)
  }

  predicate ValidRegistry(registry: Registry) {
    && (forall device :: device in registry.devices && device.notification.Some? ==>
        ValidRegistration(device.notification.value))
    && DistinctFids(registry.devices)
  }

  // ----- schema 2 -----

  predicate IsGraphic(text: string) {
    forall i :: 0 <= i < |text| ==> 0x21 <= text[i] as int <= 0x7E
  }

  predicate UpgradableRegistration(registration: LegacyRegistration) {
    && !registration.hasFid
    && registration.token.Text?
    && registration.token.text != [] && Utf8Length(registration.token.text) <= 4096
    && IsGraphic(registration.token.text)
    && registration.enabled.Truth?
  }

  /** Retire the token address; keep the confirmed generation and the backoff. */
  function UpgradeDevice(legacy: LegacyDevice): Device {
    legacy.device.(notification :=
      match legacy.registration
      case None => None
      case Some(r) => Some(Registration(None, false, r.submitted, r.retryAtMs, r.attempts)))
  }

  function UpgradeDevices(devices: seq<LegacyDevice>): (upgraded: seq<Device>)
    ensures |upgraded| == |devices|
    ensures forall i :: 0 <= i < |devices| ==> upgraded[i] == UpgradeDevice(devices[i])
  {
    if devices == [] then []
    else UpgradeDevices(devices[..|devices| - 1]) + [UpgradeDevice(devices[|devices| - 1])]
  }

  predicate Upgradable(devices: seq<LegacyDevice>) {
    forall legacy :: legacy in devices && legacy.registration.Some? ==>
      UpgradableRegistration(legacy.registration.value) && legacy.registration.value.decodes
  }

  /** The registry a file holds, unless loading refuses it. */
  function Decode(file: File): Option<Registry> {
    match file
    case Current(registry) => if ValidRegistry(registry) then Some(registry) else None
    case Legacy(pending, devices, health) =>
      if Upgradable(devices) && ValidRegistry(Registry(pending, UpgradeDevices(devices), health))
      then Some(Registry(pending, UpgradeDevices(devices), health)) else None
    case Unreadable => None
  }

  /** A well-formed schema-2 file always upgrades: pairings, credentials, offers, health and confirmed
      generations survive, and no device can be pushed to before it registers an address again. */
  lemma UpgradeKeepsPairings(pending: seq<Offer>, devices: seq<LegacyDevice>, health: Health)
    requires Upgradable(devices)
    requires forall legacy :: legacy in devices && legacy.registration.Some? ==>
      && legacy.registration.value.submitted != Some(0)
      && (legacy.registration.value.attempts == 0 <==> legacy.registration.value.retryAtMs == 0)
    ensures var decoded := Decode(Legacy(pending, devices, health));
      && decoded.Some?
      && decoded.value.pending == pending && decoded.value.health == health
      && |decoded.value.devices| == |devices|
      && forall i :: 0 <= i < |devices| ==>
          var before, after := devices[i], decoded.value.devices[i];
          && after == before.device.(notification := after.notification)
          && (after.notification.Some? <==> before.registration.Some?)
          && (after.notification.Some? ==>
              && !after.notification.value.enabled && after.notification.value.fid.None?
              && after.notification.value.submitted == before.registration.value.submitted
              && after.notification.value.retryAtMs == before.registration.value.retryAtMs
              && after.notification.value.attempts == before.registration.value.attempts)
  {
    var upgraded := UpgradeDevices(devices);
    forall device | device in upgraded && device.notification.Some? ensures ValidRegistration(device.notification.value) {
      var i :| 0 <= i < |upgraded| && upgraded[i] == device;
      assert devices[i] in devices;
    }
  }
}

/** What each registry call writes, replies and sends, as a function of the file it finds. */
module PairingOps {
  import opened Integers
  import opened Results
  import opened Disk
  import opened Text
  import opened PairingModel

  datatype PairingError = Unauthorized | Rejected | InvalidStored | Storage | AttentionFailed

  datatype Purpose = Upgrading | Changing | WritingAhead | Settling

  type PairingWrite = Write<File, Purpose>

  /** One submission handed to the provider. */
  datatype Sent = Sent(deviceId: string, fid: string, generation: nat, atMs: nat)

  datatype Outcome<R> = Outcome(writes: seq<PairingWrite>, reply: Result<R, PairingError>, sent: Option<Sent>)

  datatype Credential = Credential(deviceId: string, deviceName: string, secret: string)

  datatype Faults = Faults(load: PersistFault, first: PersistFault, second: PersistFault)

  /** The generation Attention offers for delivery. */
  datatype Latest = Unavailable | Nothing | Generation(value: nat)

  /** The provider's answer. A process that dies while sending never settles: `second` fails. */
  datatype SendResult =
    | Accepted | Transient(retryAfterMs: nat) | InvalidInstallation | Authentication | Configuration

  function LoadOutcome(file: File, fault: PersistFault): Outcome<Registry> {
    match Decode(file)
    case None => Outcome([], Failure(InvalidStored), None)
    case Some(registry) =>
      if file.Legacy? then
        Outcome([Write(Current(registry), Upgrading, fault)],
                if fault == Synced then Success(registry) else Failure(Storage), None)
      else Outcome([], Success(registry), None)
  }

  /** Replace the file as the last act of a call. */
  function Save<R>(writes: seq<PairingWrite>, registry: Registry, fault: PersistFault, reply: R): Outcome<R> {
    Outcome(writes + [Write(Current(registry), Changing, fault)],
            if fault == Synced then Success(reply) else Failure(Storage), None)
  }

  function Refuse<R>(writes: seq<PairingWrite>, error: PairingError): Outcome<R> {
    Outcome(writes, Failure(error), None)
  }

  // ----- pairing -----

  function Unexpired(offers: seq<Offer>, keep: Offer -> bool): (kept: seq<Offer>)
    ensures forall offer :: offer in kept <==> offer in offers && keep(offer)
  {
    if offers == [] then []
    else
      var last := offers[|offers| - 1];
      assert offers == offers[..|offers| - 1] + [last];
      Unexpired(offers[..|offers| - 1], keep) + (if keep(last) then [last] else [])
  }

  function IssueChange(registry: Registry, tokenHash: string, nowMs: nat, ttlMs: nat): Registry {
    registry.(pending := Unexpired(registry.pending, (offer: Offer) => nowMs < offer.expiresAtMs)
                         + [Offer(tokenHash, Saturate(nowMs + ttlMs))])
  }

  function TrimStart(text: string): string {
    if text != [] && IsWhitespace(text[0]) then TrimStart(text[1..]) else text
  }

  function TrimEnd(text: string): string {
    if text != [] && IsWhitespace(text[|text| - 1]) then TrimEnd(text[..|text| - 1]) else text
  }

  predicate ValidDeviceName(name: string) {
    name != [] && Utf8Length(name) <= 80 && forall i :: 0 <= i < |name| ==> !IsControl(name[i])
  }

  /** Position of the first usable offer for a token, or -1. */
  function MatchOffer(offers: seq<Offer>, tokenHash: string, nowMs: nat): (index: int)
    ensures -1 <= index < |offers|
    ensures 0 <= index ==> offers[index].tokenHash == tokenHash && nowMs <= offers[index].expiresAtMs
    ensures index == -1 ==>
      forall offer :: offer in offers ==> !(offer.tokenHash == tokenHash && nowMs <= offer.expiresAtMs)
  {
    if offers == [] then -1
    else
      var n := |offers| - 1;
      assert offers == offers[..n] + [offers[n]];
      var earlier := MatchOffer(offers[..n], tokenHash, nowMs);
      if 0 <= earlier then earlier
      else if offers[n].tokenHash == tokenHash && nowMs <= offers[n].expiresAtMs then n else -1
  }

  function ConsumeChange(registry: Registry, index: nat, nowMs: nat, device: Device): Registry
    requires index < |registry.pending|
  {
    var remaining := registry.pending[..index] + registry.pending[index + 1..];
    registry.(pending := Unexpired(remaining, (offer: Offer) => nowMs <= offer.expiresAtMs),
              devices := registry.devices + [device])
  }

  // ----- devices -----

  /** Position of the first device satisfying `matches`, or -1. */
  function Position(devices: seq<Device>, matches: Device -> bool): (index: int)
    ensures -1 <= index < |devices|
    ensures 0 <= index ==> matches(devices[index])
    ensures index == -1 ==> forall device :: device in devices ==> !matches(device)
  {
    if devices == [] then -1
    else
      var n := |devices| - 1;
      assert devices == devices[..n] + [devices[n]];
      var earlier := Position(devices[..n], matches);
      if 0 <= earlier then earlier else if matches(devices[n]) then n else -1
  }

  function HasId(id: string): Device -> bool {
    (device: Device) => device.id == id
  }

  function Without(devices: seq<Device>, id: string): (kept: seq<Device>)
    ensures forall device :: device in kept <==> device in devices && device.id != id
    ensures |kept| <= |devices|
  {
    if devices == [] then []
    else
      var last := devices[|devices| - 1];
      assert devices == devices[..|devices| - 1] + [last];
      Without(devices[..|devices| - 1], id) + (if last.id != id then [last] else [])
  }

  function WithRegistration(registry: Registry, index: nat, registration: Registration): Registry
    requires index < |registry.devices|
  {
    registry.(devices := registry.devices[index := registry.devices[index].(notification := Some(registration))])
  }

  predicate FidTakenElsewhere(devices: seq<Device>, index: int, fid: string) {
    exists other :: 0 <= other < |devices| && other != index && UsesFid(devices[other], fid)
  }

  /** Rotation keeps the confirmed generation, and repeating an enabled address keeps everything. */
  function RegisterChange(registry: Registry, index: nat, fid: string): Registry
    requires index < |registry.devices|
  {
    var current := registry.devices[index].notification;
    if current.Some? && current.value.fid == Some(fid) && current.value.enabled then registry
    else
      var submitted := if current.Some? then current.value.submitted else None;
      WithRegistration(registry, index, Registration(Some(fid), true, submitted, 0, 0))
  }

  // ----- delivery -----

  function Exponent(attempts: nat): nat {
    var earlier := if attempts == 0 then 0 else attempts - 1;
    if earlier < 6 then earlier else 6
  }

  /** Local backoff before the given consecutive attempt. */
  function Delay(attempts: nat): nat {
    60_000 * Pow2(Exponent(attempts))
  }

  /** The delay doubles from one minute, never shrinks, and stops at sixty-four. */
  lemma DelayBounds(attempts: nat, more: nat)
    requires attempts <= more
    ensures 60_000 <= Delay(attempts) <= Delay(more) <= 64 * 60_000
    ensures 1 <= attempts <= 6 ==> Delay(attempts + 1) == 2 * Delay(attempts)
  {
    assert Pow2(0) == 1 && Pow2(1) == 2 && Pow2(2) == 4 && Pow2(3) == 8 && Pow2(4) == 16;
    assert Pow2(5) == 32 && Pow2(6) == 64;
  }

  /** Written before the request leaves. */
  function WriteAhead(registration: Registration, nowMs: nat): Registration {
    var attempts := if registration.attempts < MAX_U32 then registration.attempts + 1 else MAX_U32;
    registration.(attempts := attempts, retryAtMs := Saturate(nowMs + Delay(attempts)))
  }

  /** Written after the provider answered. */
  function Settle(registration: Registration, generation: nat, nowMs: nat, result: SendResult): Registration {
    match result
    case Accepted => registration.(submitted := Some(generation), retryAtMs := 0, attempts := 0)
    case Transient(after) => registration.(retryAtMs := Max(registration.retryAtMs, Saturate(nowMs + after)))
    case InvalidInstallation => registration.(enabled := false)
    case Authentication => registration
    case Configuration => registration
  }

  function SettleHealth(health: Health, result: SendResult): Health {
    match result
    case Authentication => AuthenticationError
    case Configuration => ConfigurationError
    case _ => health
  }

  predicate Due(registration: Registration, generation: nat, nowMs: nat) {
    && registration.enabled
    && (registration.submitted.Some? ==> registration.submitted.value < generation)
    && registration.retryAtMs <= nowMs
  }

  /** One device's locked step: write ahead, send, settle. */
  function DeliverOutcome(file: File, deviceId: string, latest: Latest, nowMs: nat, result: SendResult, faults: Faults)
    : Outcome<bool>
  {
    var loaded := LoadOutcome(file, faults.load);
    match loaded.reply
    case Failure(error) => Refuse(loaded.writes, error)
    case Success(registry) =>
      if registry.health != Ready then Outcome(loaded.writes, Success(false), None)
      else if latest.Unavailable? then Refuse(loaded.writes, AttentionFailed)
      else if latest.Nothing? then Outcome(loaded.writes, Success(false), None)
      else if latest.value == 0 then Refuse(loaded.writes, Rejected)
      else
        var index := Position(registry.devices, HasId(deviceId));
        if index == -1 || registry.devices[index].notification.None? then
          Outcome(loaded.writes, Success(false), None)
        else
          var registration := registry.devices[index].notification.value;
          if !Due(registration, latest.value, nowMs) || registration.fid.None? then
            Outcome(loaded.writes, Success(false), None)
          else
            var ahead := WriteAhead(registration, nowMs);
            var pending := WithRegistration(registry, index, ahead);
            var first := loaded.writes + [Write(Current(pending), WritingAhead, faults.first)];
            if faults.first != Synced then Refuse(first, Storage)
            else
              var settled := WithRegistration(pending, index, Settle(ahead, latest.value, nowMs, result))
                             .(health := SettleHealth(pending.health, result));
              Outcome(first + [Write(Current(settled), Settling, faults.second)],
                      if faults.second == Synced then Success(result.Accepted?) else Failure(Storage),
                      Some(Sent(deviceId, registration.fid.value, latest.value, nowMs)))
  }

  // ----- the calls -----

  datatype Call =
    | Issue(addressValid: bool, nowMs: nat, ttlMs: nat, token: string)
    | Consume(token: string, name: string, nowMs: nat, deviceId: string, secret: string)
    | RecordDelivery(deviceId: string, nowMs: nat)
    | Revoke(deviceId: string)
    | Register(credential: string, fid: string)
    | Configure(health: Health)
    | RetryNotifications
    | Deliver(deviceId: string, latest: Latest, nowMs: nat, result: SendResult)
    | Status

  datatype Reply =
    | Done
    | Offered(token: string, expiresAtMs: nat)
    | Paired(credential: Credential)
    | Confirmed
    | NotConfirmed

  function CallOutcome(hash: string -> string, file: File, call: Call, faults: Faults): Outcome<Reply> {
    match call
    case Deliver(deviceId, latest, nowMs, result) =>
      if nowMs == 0 then Refuse([], Rejected)
      else
        var outcome := DeliverOutcome(file, deviceId, latest, nowMs, result, faults);
        Outcome(outcome.writes,
                match outcome.reply
                case Success(confirmed) => Success(if confirmed then Confirmed else NotConfirmed)
                case Failure(error) => Failure(error),
                outcome.sent)
    case _ =>
      if !ValidArguments(call) then Refuse([], Rejected)
      else
        var loaded := LoadOutcome(file, faults.load);
        match loaded.reply
        case Failure(error) => Refuse(loaded.writes, error)
        case Success(registry) => ChangeOutcome(hash, loaded.writes, registry, call, faults.first)
  }

  predicate ValidArguments(call: Call) {
    match call
    case Issue(addressValid, nowMs, ttlMs, _) => addressValid && nowMs != 0 && ttlMs != 0
    case Consume(_, name, _, _, _) => ValidDeviceName(TrimEnd(TrimStart(name)))
    case RecordDelivery(_, nowMs) => nowMs != 0
    case Register(_, fid) => ValidFid(fid)
    case _ => true
  }

  function ChangeOutcome(hash: string -> string, writes: seq<PairingWrite>, registry: Registry, call: Call, fault: PersistFault)
    : Outcome<Reply>
    requires !call.Deliver?
  {
    match call
    case Issue(_, nowMs, ttlMs, token) =>
      Save(writes, IssueChange(registry, hash(token), nowMs, ttlMs), fault, Offered(token, Saturate(nowMs + ttlMs)))
    case Consume(token, name, nowMs, deviceId, secret) =>
      var index := MatchOffer(registry.pending, hash(token), nowMs);
      if index == -1 then Refuse(writes, Rejected)
      else
        var trimmed := TrimEnd(TrimStart(name));
        var device := Device(deviceId, trimmed, nowMs, None, hash(secret), None);
        Save(writes, ConsumeChange(registry, index, nowMs, device), fault, Paired(Credential(deviceId, trimmed, secret)))
    case RecordDelivery(deviceId, nowMs) =>
      var index := Position(registry.devices, HasId(deviceId));
      if index == -1 then Refuse(writes, Rejected)
      else
        var device := registry.devices[index].(lastDeliveryAtMs := Some(nowMs));
        Save(writes, registry.(devices := registry.devices[index := device]), fault, Done)
    case Revoke(deviceId) =>
      var kept := Without(registry.devices, deviceId);
      if |kept| == |registry.devices| then Refuse(writes, Rejected)
      else Save(writes, registry.(devices := kept), fault, Done)
    case Register(credential, fid) =>
      var credentialHash := hash(credential);
      var index := Position(registry.devices, (device: Device) => device.credentialHash == credentialHash);
      if index == -1 then Refuse(writes, Unauthorized)
      else if FidTakenElsewhere(registry.devices, index, fid) then Refuse(writes, Rejected)
      else Save(writes, RegisterChange(registry, index, fid), fault, Done)
    case Configure(health) =>
      if registry.health != health && (health != Ready || registry.health == Unconfigured) then
        Save(writes, registry.(health := health), fault, Done)
      else Outcome(writes, Success(Done), None)
    case RetryNotifications =>
      if registry.health == Unconfigured then Refuse(writes, Rejected)
      else Save(writes, registry.(health := Ready), fault, Done)
    case Status => Outcome(writes, Success(Done), None)
  }
}
