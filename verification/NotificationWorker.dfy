/** The worker that owns the sender: configure once at start, then one pass after another until stopped. */
module NotificationWorkers {
  import opened Results
  import opened Disk
  import opened PairingModel
  import opened PairingOps
  import opened PairingPass
  import opened PairingRegistries
  import PairingRuns

  datatype Credentials = NoCredentials | Unloadable | Loaded

  function StartHealth(credentials: Credentials): Health {
    match credentials
    case NoCredentials => Unconfigured
    case Unloadable => ConfigurationError
    case Loaded => Ready
  }

  /** A registry call made by someone else; only the worker delivers. */
  type OtherCall = pair: (Call, Faults) | !pair.0.Deliver? witness (Status, Faults(Synced, Synced, Synced))

  /** What one turn of the loop meets, after what others did to the registry since the last. */
  datatype Turn = Turn(elsewhere: seq<OtherCall>, nowMs: nat, listFault: PersistFault, answers: nat -> Visit, faults: Faults)

  datatype Served = Served(disk: Disk<File>, running: bool, sent: seq<Sent>)

  function ConfigureServed(hash: string -> string, disk: Disk<File>, health: Health, faults: Faults): Served {
    var outcome := CallOutcome(hash, disk.Visible(), Configure(health), faults);
    Served(PersistAll(disk, outcome.writes), outcome.reply.Success?, [])
  }

  function Elsewhere(hash: string -> string, disk: Disk<File>, calls: seq<OtherCall>): Disk<File>
    decreases |calls|
  {
    if calls == [] then disk
    else Elsewhere(hash, PersistAll(disk, CallOutcome(hash, disk.Visible(), calls[0].0, calls[0].1).writes), calls[1..])
  }

  function TurnServed(hash: string -> string, before: Disk<File>, credentials: Credentials, turn: Turn): Served {
    var disk := Elsewhere(hash, before, turn.elsewhere);
    if credentials == Loaded then
      var pass := PassOutcome(hash, disk, turn.nowMs, turn.listFault, turn.answers);
      Served(pass.disk, pass.reply.Success?, pass.sent)
    else ConfigureServed(hash, disk, StartHealth(credentials), turn.faults)
  }

  function TurnsServed(hash: string -> string, disk: Disk<File>, credentials: Credentials, turns: seq<Turn>): Served
    decreases |turns|
  {
    if turns == [] then Served(disk, true, [])
    else
      var first := TurnServed(hash, disk, credentials, turns[0]);
      if !first.running then first
      else
        var rest := TurnsServed(hash, first.disk, credentials, turns[1..]);
        rest.(sent := first.sent + rest.sent)
  }

  function WorkerServed(hash: string -> string, disk: Disk<File>, credentials: Credentials, faults: Faults, turns: seq<Turn>): Served {
    var started := ConfigureServed(hash, disk, StartHealth(credentials), faults);
    if !started.running then started else TurnsServed(hash, started.disk, credentials, turns)
  }

  /** The health a worker's start leaves: unconfigured without credentials, a configuration error with ones
      that cannot be loaded, and with usable ones ready only if the sender had never been configured. */
  function Started(credentials: Credentials, before: Health): Health {
    match credentials
    case NoCredentials => Unconfigured
    case Unloadable => ConfigurationError
    case Loaded => if before == Unconfigured then Ready else before
  }

  /** A worker that starts records that health and keeps every device and offer; it sends nothing yet. */
  lemma StartRecordsHealth(hash: string -> string, disk: Disk<File>, credentials: Credentials, faults: Faults)
    requires WorkerServed(hash, disk, credentials, faults, []).running && Decode(disk.Visible()).Some?
    ensures var before := Decode(disk.Visible()).value;
      var served := WorkerServed(hash, disk, credentials, faults, []);
      && served.sent == []
      && Decode(served.disk.Visible()) == Some(before.(health := Started(credentials, before.health)))
  {
    hide ConfigureServed, Decode;
    ConfigureRecords(hash, disk, StartHealth(credentials), faults);
  }

  lemma ConfigureRecords(hash: string -> string, disk: Disk<File>, health: Health, faults: Faults)
    requires ConfigureServed(hash, disk, health, faults).running
    ensures Decode(disk.Visible()).Some?
    ensures var before := Decode(disk.Visible()).value;
      var file := ConfigureServed(hash, disk, health, faults).disk.Visible();
      Decode(file) ==
        Some(if health == Ready && before.health != Unconfigured then before else before.(health := health))
  {
    hide ValidRegistration, DistinctFids, UpgradeDevices;
    var file := disk.Visible();
    var loaded := LoadOutcome(file, faults.load);
    var registry := Decode(file).value;
    assert ValidRegistry(registry);
    hide ValidRegistry, Upgradable;
    var changed := registry.(health := health);
    SameDevicesValid(registry, changed);
    if registry.health != health && (health != Ready || registry.health == Unconfigured) {
      PairingRuns.SyncedLast(disk, loaded.writes, Write(Current(changed), Changing, faults.first));
    } else if loaded.writes != [] {
      var none: seq<PairingWrite> := [];
      assert none + [Write(Current(registry), Upgrading, Synced)] == loaded.writes;
      PairingRuns.SyncedLast(disk, none, Write(Current(registry), Upgrading, Synced));
    }
  }

  lemma SameDevicesValid(registry: Registry, other: Registry)
    requires ValidRegistry(registry) && other.devices == registry.devices
    ensures ValidRegistry(other)
  {
  }

  lemma ConfiguredHealth(hash: string -> string, disk: Disk<File>, health: Health, faults: Faults)
    requires health != Ready && ConfigureServed(hash, disk, health, faults).running
    ensures var file := ConfigureServed(hash, disk, health, faults).disk.Visible();
      Decode(file).Some? && Decode(file).value.health == health
  {
    hide ConfigureServed, Decode;
    ConfigureRecords(hash, disk, health, faults);
  }

  /** Under any health but ready no delivery whatever sends. */
  lemma UnreadySendsNothing(hash: string -> string, file: File, call: Call, faults: Faults)
    requires Decode(file).Some? && Decode(file).value.health != Ready
    ensures CallOutcome(hash, file, call, faults).sent.None?
  {
    PairingRuns.SendsExactlyWhenDue(hash, file, call, faults);
    hide Decode, CallOutcome;
  }

  /** Without a usable credential the worker sends nothing, and whatever others call between its turns, an
      operator's retry included, each turn it survives leaves a registry from which no delivery can send. */
  lemma {:induction false} NoSenderNoSends(hash: string -> string, disk: Disk<File>, credentials: Credentials, turns: seq<Turn>)
    requires credentials != Loaded
    ensures var served := TurnsServed(hash, disk, credentials, turns);
      && served.sent == []
      && (served.running && turns != [] ==>
          forall call, faults :: CallOutcome(hash, served.disk.Visible(), call, faults).sent.None?)
    decreases |turns|
  {
    hide CallOutcome, PersistAll, Decode, Elsewhere;
    if turns != [] {
      var first := TurnServed(hash, disk, credentials, turns[0]);
      if first.running {
        ConfiguredHealth(hash, Elsewhere(hash, disk, turns[0].elsewhere), StartHealth(credentials), turns[0].faults);
        NoSenderNoSends(hash, first.disk, credentials, turns[1..]);
        forall call, faults ensures CallOutcome(hash, first.disk.Visible(), call, faults).sent.None? {
          UnreadySendsNothing(hash, first.disk.Visible(), call, faults);
        }
      }
    }
  }

  method RunElsewhere(registry: PairingRegistry, calls: seq<OtherCall>)
    modifies registry
    ensures registry.disk == Elsewhere(registry.hash, old(registry.disk), calls)
  {
    hide CallOutcome, PersistAll;
    assert calls[0..] == calls;
    for i := 0 to |calls|
      invariant Elsewhere(registry.hash, old(registry.disk), calls) == Elsewhere(registry.hash, registry.disk, calls[i..])
    {
      assert calls[i..][1..] == calls[i + 1..];
      var reply := registry.Invoke(calls[i].0, calls[i].1);
    }
  }

  method TakeTurn(registry: PairingRegistry, credentials: Credentials, turn: Turn) returns (running: bool, sent: seq<Sent>)
    modifies registry
    ensures Served(registry.disk, running, sent) == TurnServed(registry.hash, old(registry.disk), credentials, turn)
  {
    hide CallOutcome, PersistAll, PassOutcome, Elsewhere;
    RunElsewhere(registry, turn.elsewhere);
    if credentials == Loaded {
      var delivered, submitted := registry.DeliverNotifications(turn.nowMs, turn.listFault, turn.answers);
      return delivered.Success?, submitted;
    }
    // Recorded again each turn, over whatever was recorded since.
    var configured := registry.ConfigureNotifications(StartHealth(credentials), turn.faults);
    return configured.Success?, [];
  }

  /** The loop, ended by the stop flag after the last turn or by the first error. */
  method Serve(registry: PairingRegistry, credentials: Credentials, faults: Faults, turns: seq<Turn>)
    returns (running: bool, sent: seq<Sent>)
    modifies registry
    ensures Served(registry.disk, running, sent) == WorkerServed(registry.hash, old(registry.disk), credentials, faults, turns)
  {
    hide CallOutcome, PersistAll, TurnServed, TurnsServed;
    var configured := registry.ConfigureNotifications(StartHealth(credentials), faults);
    if configured.Failure? {
      return false, [];
    }
    sent := [];
    ghost var start := registry.disk;
    assert turns[0..] == turns;
    for i := 0 to |turns|
      invariant Continues(TurnsServed(registry.hash, start, credentials, turns), sent,
                          TurnsServed(registry.hash, registry.disk, credentials, turns[i..]))
    {
      assert turns[i..][1..] == turns[i + 1..];
      TurnsFirst(registry.hash, registry.disk, credentials, turns[i..]);
      var served, submitted := TakeTurn(registry, credentials, turns[i]);
      sent := sent + submitted;
      if !served {
        return false, sent;
      }
    }
    assert turns[|turns|..] == [];
    NoTurns(registry.hash, registry.disk, credentials);
    running := true;
  }

  ghost predicate Continues(whole: Served, sent: seq<Sent>, rest: Served) {
    whole == rest.(sent := sent + rest.sent)
  }

  lemma NoTurns(hash: string -> string, disk: Disk<File>, credentials: Credentials)
    ensures TurnsServed(hash, disk, credentials, []) == Served(disk, true, [])
  {
  }

  lemma TurnsFirst(hash: string -> string, disk: Disk<File>, credentials: Credentials, turns: seq<Turn>)
    requires turns != []
    ensures var first := TurnServed(hash, disk, credentials, turns[0]);
      TurnsServed(hash, disk, credentials, turns) ==
        if !first.running then first
        else
          var rest := TurnsServed(hash, first.disk, credentials, turns[1..]);
          rest.(sent := first.sent + rest.sent)
  {
    hide TurnServed;
  }
}
