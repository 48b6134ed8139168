/** One Run's generated-work ledger: capacity, reservations and confirmed outputs. */
module GeneratedLedger {
  import opened Integers
  import opened Results

  datatype Output = Output(mutation: string, issue: string)

  datatype Reservation = Reservation(mutation: string, units: nat)

  /** `reserved` and `consumed` are the stored counters, kept beside the lists they count. */
  datatype Ledger = Ledger(
    state: string, ceiling: nat, consumed: nat, reserved: nat, pending: seq<Reservation>, outputs: seq<Output>)

  datatype ReserveReply = Reserved | Pending | Consumed | Exhausted

  datatype LedgerError = Invalid | Storage

  /** What a ledger call stores, if anything, and what it answers once that is stored. */
  datatype Change<R> = Change(next: Option<Ledger>, reply: Result<R, LedgerError>)

  predicate HasOutput(ledger: Ledger, mutation: string) {
    exists i :: 0 <= i < |ledger.outputs| && ledger.outputs[i].mutation == mutation
  }

  predicate Listed(pending: seq<Reservation>, mutation: string) {
    exists i :: 0 <= i < |pending| && pending[i].mutation == mutation
  }

  predicate Waiting(ledger: Ledger, mutation: string) {
    Listed(ledger.pending, mutation)
  }

  /** The issue of the first output recorded for a mutation. */
  function IssueOf(outputs: seq<Output>, mutation: string): Option<string> {
    if outputs == [] then None
    else if outputs[0].mutation == mutation then Some(outputs[0].issue)
    else IssueOf(outputs[1..], mutation)
  }

  /** Units held by the first reservation for a mutation. */
  function UnitsOf(pending: seq<Reservation>, mutation: string): nat {
    if pending == [] then 0
    else if pending[0].mutation == mutation then pending[0].units
    else UnitsOf(pending[1..], mutation)
  }

  function Total(pending: seq<Reservation>): nat {
    if pending == [] then 0 else pending[0].units + Total(pending[1..])
  }

  /** The reservations with a mutation's whole reservation dropped. */
  function Without(pending: seq<Reservation>, mutation: string): seq<Reservation> {
    if pending == [] then []
    else if pending[0].mutation == mutation then pending[1..]
    else [pending[0]] + Without(pending[1..], mutation)
  }

  /** The reservations with one of a mutation's units used. */
  function LessOne(pending: seq<Reservation>, mutation: string): seq<Reservation> {
    if pending == [] then []
    else if pending[0].mutation != mutation then [pending[0]] + LessOne(pending[1..], mutation)
    else if pending[0].units <= 1 then pending[1..]
    else [pending[0].(units := pending[0].units - 1)] + pending[1..]
  }

  function Reserve(ledger: Ledger, mutation: string, units: nat): Change<ReserveReply> {
    if units == 0 then Change(None, Failure(Invalid))
    else if HasOutput(ledger, mutation) then Change(None, Success(Consumed))
    else if Waiting(ledger, mutation) then Change(None, Success(Pending))
    else if ledger.state != "active" then
      Change(None, if ledger.state == "parked" then Success(Exhausted) else Failure(Invalid))
    else
      var occupied := ledger.consumed + ledger.reserved + units;
      if occupied > MAX_U64 then Change(None, Failure(Invalid))
      else if occupied > ledger.ceiling then Change(Some(ledger.(state := "parked")), Success(Exhausted))
      else
        Change(Some(ledger.(reserved := ledger.reserved + units,
                            pending := ledger.pending + [Reservation(mutation, units)])),
               Success(Reserved))
  }

  // Stored counters below what the list holds cannot be subtracted from; no sane ledger has them.

  function Confirm(ledger: Ledger, mutation: string, issue: string): Change<()> {
    if issue == "" then Change(None, Failure(Invalid))
    else if IssueOf(ledger.outputs, mutation) == Some(issue) then Change(None, Success(()))
    else if !Waiting(ledger, mutation) || ledger.reserved == 0 then Change(None, Failure(Invalid))
    else
      Change(Some(ledger.(pending := LessOne(ledger.pending, mutation), reserved := ledger.reserved - 1,
                          consumed := ledger.consumed + 1, outputs := ledger.outputs + [Output(mutation, issue)])),
             Success(()))
  }

  function Release(ledger: Ledger, mutation: string): Change<()> {
    var units := UnitsOf(ledger.pending, mutation);
    if !Waiting(ledger, mutation) || ledger.reserved < units then Change(None, Success(()))
    else
      Change(Some(ledger.(pending := Without(ledger.pending, mutation), reserved := ledger.reserved - units)), Success(()))
  }

  // ----- conservation -----

  predicate Distinct(pending: seq<Reservation>) {
    && (forall i, j :: 0 <= i < j < |pending| ==> pending[i].mutation != pending[j].mutation)
    && forall i :: 0 <= i < |pending| ==> 0 < pending[i].units
  }

  /** The counters count the lists, each mutation is reserved once, and nothing exceeds the ceiling. */
  predicate Sane(ledger: Ledger) {
    && ledger.reserved == Total(ledger.pending) && ledger.consumed == |ledger.outputs|
    && ledger.consumed + ledger.reserved <= ledger.ceiling
    && Distinct(ledger.pending)
  }

  /** The mutation still occupies capacity. */
  predicate Held(ledger: Ledger, mutation: string) {
    Waiting(ledger, mutation) || HasOutput(ledger, mutation)
  }

  lemma ListedSplit(pending: seq<Reservation>, mutation: string)
    requires pending != []
    ensures Listed(pending, mutation) <==> pending[0].mutation == mutation || Listed(pending[1..], mutation)
  {
    if Listed(pending, mutation) && pending[0].mutation != mutation {
      var i :| 0 <= i < |pending| && pending[i].mutation == mutation;
      assert pending[1..][i - 1].mutation == mutation;
    }
    if Listed(pending[1..], mutation) {
      var i :| 0 <= i < |pending[1..]| && pending[1..][i].mutation == mutation;
      assert pending[i + 1].mutation == mutation;
    }
  }

  lemma ListedCons(head: Reservation, tail: seq<Reservation>, mutation: string)
    ensures Listed([head] + tail, mutation) <==> head.mutation == mutation || Listed(tail, mutation)
  {
    ListedSplit([head] + tail, mutation);
    assert ([head] + tail)[1..] == tail;
  }

  lemma {:induction false} UnitsBound(pending: seq<Reservation>, mutation: string)
    ensures UnitsOf(pending, mutation) <= Total(pending)
    ensures Distinct(pending) ==> (0 < UnitsOf(pending, mutation) <==> Listed(pending, mutation))
  {
    if pending != [] {
      UnitsBound(pending[1..], mutation);
      ListedSplit(pending, mutation);
    }
  }

  lemma DistinctCons(head: Reservation, tail: seq<Reservation>)
    ensures Distinct([head] + tail) <==> 0 < head.units && Distinct(tail) && !Listed(tail, head.mutation)
  {
    var whole := [head] + tail;
    if 0 < head.units && Distinct(tail) && !Listed(tail, head.mutation) {
      forall i, j | 0 <= i < j < |whole| ensures whole[i].mutation != whole[j].mutation {
        assert whole[j] == tail[j - 1];
      }
    }
    if Distinct(whole) {
      forall i | 0 <= i < |tail| ensures tail[i].mutation != head.mutation && 0 < tail[i].units {
        assert whole[0] == head && tail[i] == whole[i + 1];
      }
      forall i, j | 0 <= i < j < |tail| ensures tail[i].mutation != tail[j].mutation {
        assert tail[i] == whole[i + 1] && tail[j] == whole[j + 1];
      }
    }
  }

  lemma TotalCons(head: Reservation, tail: seq<Reservation>)
    ensures Total([head] + tail) == head.units + Total(tail)
  {
    assert ([head] + tail)[1..] == tail;
  }

  lemma {:induction false} WithoutOne(pending: seq<Reservation>, mutation: string)
    requires Distinct(pending)
    ensures var rest := Without(pending, mutation);
      && Distinct(rest) && Total(rest) == Total(pending) - UnitsOf(pending, mutation)
      && forall other :: Listed(rest, other) <==> Listed(pending, other) && other != mutation
  {
    hide Distinct, Listed;
    if pending == [] {
      NothingListed();
    } else {
      var head, tail := pending[0], pending[1..];
      assert pending == [head] + tail;
      DistinctCons(head, tail);
      WithoutOne(tail, mutation);
      var rest := Without(tail, mutation);
      DistinctCons(head, rest);
      TotalCons(head, rest);
      forall other ensures Listed(Without(pending, mutation), other) <==> Listed(pending, other) && other != mutation {
        ListedCons(head, tail, other);
        ListedCons(head, rest, other);
      }
      UnlistedHasNoUnits(tail, mutation);
    }
  }

  lemma NothingListed()
    ensures Distinct([]) && forall mutation :: !Listed([], mutation)
  {
  }

  lemma UnlistedHasNoUnits(pending: seq<Reservation>, mutation: string)
    requires Distinct(pending)
    ensures !Listed(pending, mutation) ==> UnitsOf(pending, mutation) == 0
  {
    UnitsBound(pending, mutation);
  }

  lemma {:induction false} LessByOne(pending: seq<Reservation>, mutation: string)
    requires Distinct(pending) && Listed(pending, mutation)
    ensures var rest := LessOne(pending, mutation);
      && Distinct(rest) && Total(rest) == Total(pending) - 1
      && forall other :: Listed(rest, other) <==> Listed(pending, other) && (other != mutation || 1 < UnitsOf(pending, mutation))
  {
    hide Distinct, Listed;
    NothingListed();
    assert pending != [];
    var head, tail := pending[0], pending[1..];
    assert pending == [head] + tail;
    DistinctCons(head, tail);
    ListedCons(head, tail, mutation);
    if head.mutation == mutation {
      var used := head.(units := head.units - 1);
      DistinctCons(used, tail);
      TotalCons(used, tail);
      forall other ensures Listed(LessOne(pending, mutation), other) <==>
        Listed(pending, other) && (other != mutation || 1 < UnitsOf(pending, mutation))
      {
        ListedCons(head, tail, other);
        ListedCons(used, tail, other);
      }
    } else {
      LessByOne(tail, mutation);
      var rest := LessOne(tail, mutation);
      DistinctCons(head, rest);
      TotalCons(head, rest);
      forall other ensures Listed(LessOne(pending, mutation), other) <==>
        Listed(pending, other) && (other != mutation || 1 < UnitsOf(pending, mutation))
      {
        ListedCons(head, tail, other);
        ListedCons(head, rest, other);
      }
    }
  }

  lemma {:induction false} TotalAppend(pending: seq<Reservation>, last: Reservation)
    ensures Total(pending + [last]) == Total(pending) + last.units
  {
    if pending == [] {
      assert pending + [last] == [last] && [last][1..] == [];
    } else {
      assert (pending + [last])[1..] == pending[1..] + [last];
      TotalAppend(pending[1..], last);
    }
  }

  lemma {:induction false} IssueOfOutput(outputs: seq<Output>, mutation: string)
    ensures IssueOf(outputs, mutation).Some? <==> exists i :: 0 <= i < |outputs| && outputs[i].mutation == mutation
    ensures IssueOf(outputs, mutation).Some? ==> Output(mutation, IssueOf(outputs, mutation).value) in outputs
  {
    if outputs != [] {
      IssueOfOutput(outputs[1..], mutation);
      if IssueOf(outputs[1..], mutation).Some? {
        assert Output(mutation, IssueOf(outputs[1..], mutation).value) in outputs[1..];
      }
      if i :| 1 <= i < |outputs| && outputs[i].mutation == mutation {
        assert outputs[1..][i - 1].mutation == mutation;
      }
    }
  }

  lemma ListedAppend(pending: seq<Reservation>, last: Reservation, mutation: string)
    ensures Listed(pending + [last], mutation) <==> Listed(pending, mutation) || last.mutation == mutation
  {
    var longer := pending + [last];
    if Listed(pending, mutation) {
      var i :| 0 <= i < |pending| && pending[i].mutation == mutation;
      assert longer[i].mutation == mutation;
    }
    assert longer[|pending|] == last;
  }

  /** Reserving takes the units asked for, for one new mutation, or changes no holding. */
  lemma ReserveKeeps(ledger: Ledger, mutation: string, units: nat)
    requires Sane(ledger)
    ensures var change := Reserve(ledger, mutation, units);
      && (change.next.Some? ==>
          && Sane(change.next.value) && change.next.value.outputs == ledger.outputs
          && (forall other :: Waiting(ledger, other) ==> Waiting(change.next.value, other)))
      && (change.reply == Success(Reserved) ==>
          && change.next.Some? && !Held(ledger, mutation) && Waiting(change.next.value, mutation)
          && change.next.value.reserved == ledger.reserved + units)
      && (0 < units ==> (Held(ledger, mutation) <==> change.reply == Success(Pending) || change.reply == Success(Consumed)))
  {
    TotalAppend(ledger.pending, Reservation(mutation, units));
    forall other ensures Listed(ledger.pending + [Reservation(mutation, units)], other) <==> Listed(ledger.pending, other) || other == mutation {
      ListedAppend(ledger.pending, Reservation(mutation, units), other);
    }
  }

  /** Confirming turns one of the mutation's own reserved units into a consumed one and moves nothing else. */
  lemma ConfirmKeeps(ledger: Ledger, mutation: string, issue: string)
    requires Sane(ledger)
    ensures var change := Confirm(ledger, mutation, issue);
      change.next.Some? ==>
        && Sane(change.next.value) && Waiting(ledger, mutation)
        && change.next.value.consumed + change.next.value.reserved == ledger.consumed + ledger.reserved
        && change.next.value.outputs == ledger.outputs + [Output(mutation, issue)]
        && (forall other :: Held(ledger, other) <==> Held(change.next.value, other))
        && (forall other :: other != mutation ==> (Waiting(change.next.value, other) <==> Waiting(ledger, other)))
  {
    var change := Confirm(ledger, mutation, issue);
    if change.next.Some? {
      var next := change.next.value;
      LessByOne(ledger.pending, mutation);
      forall other ensures HasOutput(next, other) <==> HasOutput(ledger, other) || other == mutation {
        if HasOutput(ledger, other) {
          var i :| 0 <= i < |ledger.outputs| && ledger.outputs[i].mutation == other;
          assert next.outputs[i].mutation == other;
        }
        assert next.outputs[|ledger.outputs|].mutation == mutation;
      }
      hide Listed, Distinct, HasOutput, Total, LessOne;
    }
  }

  /** Releasing gives back exactly the mutation's own reservation. */
  lemma ReleaseKeeps(ledger: Ledger, mutation: string)
    requires Sane(ledger)
    ensures var change := Release(ledger, mutation);
      && change.reply == Success(())
      && (change.next.Some? <==> Waiting(ledger, mutation))
      && (change.next.Some? ==>
          && Sane(change.next.value) && change.next.value.outputs == ledger.outputs
          && change.next.value.reserved == ledger.reserved - UnitsOf(ledger.pending, mutation)
          && (forall other :: Waiting(change.next.value, other) <==> Waiting(ledger, other) && other != mutation))
  {
    hide Distinct, Listed;
    WithoutOne(ledger.pending, mutation);
    UnitsBound(ledger.pending, mutation);
  }
}

/**
 The generated-work broker: concurrent callers reconcile, reserve, run the tracker and confirm, each
 between any two steps of the others, with crashes and power loss anywhere, and with the ledger's own
 command line used on the side.
 */
module GeneratedWork {
  import opened Sequences
  import opened Results
  import opened Disk
  import opened GeneratedLedger
  import opened GeneratedArguments

  datatype Issue = Issue(externalRef: string, id: string)

  datatype Request = Request(mutation: string, command: string, arguments: seq<string>)

  /** The Run, its actor and the tracker's database path. */
  datatype Broker = Broker(run: string, actor: string, database: string)

  function RefPrefix(broker: Broker): string {
    "louiselm-run/" + broker.run + "/mutation/"
  }

  function ExternalRef(broker: Broker, mutation: string): string {
    RefPrefix(broker) + mutation
  }

  /** One Run's references name its mutations apart. */
  lemma ExternalRefInjective(broker: Broker, a: string, b: string)
    requires ExternalRef(broker, a) == ExternalRef(broker, b)
    ensures a == b
  {
    var prefix := RefPrefix(broker);
    assert ExternalRef(broker, a)[|prefix|..] == a;
    assert ExternalRef(broker, b)[|prefix|..] == b;
  }

  /** Where a call stands. `Holding` has a durable reservation and has not run the tracker. */
  datatype Phase =
    | Listing(request: Request, pending: seq<string>)
    | Reconciling(request: Request, pending: seq<string>, issues: seq<Issue>)
    | Holding(request: Request)
    | Releasing(request: Request)
    | Confirming(request: Request, issue: string)

  /** `starts` logs every started create and `reported` what its output then claimed; `vouched` are outputs
      confirmed by hand. `forfeited` are the mutations whose reservation was given back from outside, or by
      a call although their create had started. */
  datatype System = System(
    disk: Disk<Ledger>, issues: seq<Issue>, starts: seq<string>, reported: set<Output>, vouched: set<Output>,
    forfeited: set<string>, calls: map<nat, Phase>)

  /** What running the create led to. The caller sees an error of execution alike whether or not the
      process had started. */
  datatype Execution =
    | NotStarted
    | StartedThenFailed(created: Option<string>)
    | Started(created: Option<string>, succeeded: bool, printed: Option<string>)

  datatype Action =
    | Begin(call: nat, request: Request)
    | ListIssues(call: nat, lists: bool)
    | Reconcile(call: nat, fault: PersistFault)
    | ReserveUnit(call: nat, fault: PersistFault)
    | Execute(call: nat, execution: Execution)
    | Finish(call: nat, fault: PersistFault)
    | Kill(call: nat)
    | OutsideReserve(mutation: string, units: nat, fault: PersistFault)
    | OutsideConfirm(mutation: string, issue: string, fault: PersistFault)
    | OutsideRelease(mutation: string, fault: PersistFault)
    | Adjust(state: string, ceiling: nat, fault: PersistFault)
    | OtherIssue(other: Issue)
    | LosePower(choice: nat)

  predicate ValidCommand(request: Request) {
    request.command == "create" || request.command == "q"
  }

  /** The id of the first listed issue that carries a reference. */
  function FindIssue(issues: seq<Issue>, externalRef: string): (id: Option<string>)
    ensures id.Some? ==> Issue(externalRef, id.value) in issues
  {
    if issues == [] then None
    else if issues[0].externalRef == externalRef then Some(issues[0].id)
    else FindIssue(issues[1..], externalRef)
  }

  function PendingIds(pending: seq<Reservation>): seq<string> {
    seq(|pending|, i requires 0 <= i < |pending| => pending[i].mutation)
  }

  function Stored(disk: Disk<Ledger>, next: Option<Ledger>, fault: PersistFault): Disk<Ledger> {
    if next.None? then disk else disk.Persist(next.value, fault)
  }

  predicate Done<R>(change: Change<R>, fault: PersistFault) {
    change.reply.Success? && (change.next.None? || fault == Synced)
  }

  function End(system: System, call: nat): System {
    system.(calls := system.calls - {call})
  }

  function Advance(system: System, call: nat, phase: Phase): System {
    system.(calls := system.calls[call := phase])
  }

  function Step(broker: Broker, system: System, action: Action): System {
    match action
    case Begin(call, request) =>
      if call in system.calls || !ValidCommand(request) then system
      else
        var pending := PendingIds(system.disk.Visible().pending);
        Advance(system, call, if pending == [] then Reconciling(request, [], []) else Listing(request, pending))
    case ListIssues(call, lists) =>
      if call !in system.calls || !system.calls[call].Listing? then system
      else if !lists then End(system, call)
      else Advance(system, call, Reconciling(system.calls[call].request, system.calls[call].pending, system.issues))
    case Reconcile(call, fault) => ReconcileStep(broker, system, call, fault)
    case ReserveUnit(call, fault) => ReserveStep(system, call, fault)
    case Execute(call, execution) => ExecuteStep(broker, system, call, execution)
    case Finish(call, fault) => FinishStep(system, call, fault)
    case Kill(call) => End(system, call)
    case OutsideReserve(mutation, units, fault) =>
      system.(disk := Stored(system.disk, Reserve(system.disk.Visible(), mutation, units).next, fault))
    case OutsideConfirm(mutation, issue, fault) =>
      system.(disk := Stored(system.disk, Confirm(system.disk.Visible(), mutation, issue).next, fault),
              vouched := system.vouched + {Output(mutation, issue)})
    case OutsideRelease(mutation, fault) => Given(system, mutation, fault, true)
    case Adjust(state, ceiling, fault) =>
      // Run lifecycle changes; an operator can only raise the ceiling.
      var ledger := system.disk.Visible();
      if ceiling < ledger.ceiling then system
      else system.(disk := system.disk.Persist(ledger.(state := state, ceiling := ceiling), fault))
    case OtherIssue(issue) =>
      // Nothing but this Run's creates uses its references.
      if RefPrefix(broker) <= issue.externalRef then system
      else system.(issues := system.issues + [issue])
    case LosePower(choice) => system.(disk := system.disk.AfterPowerLoss(choice), calls := map[])
  }

  /** Give a mutation's reservation back; `forfeits` marks it once that reached the rename. */
  function Given(system: System, mutation: string, fault: PersistFault, forfeits: bool): System {
    var change := Release(system.disk.Visible(), mutation);
    system.(disk := Stored(system.disk, change.next, fault),
            forfeited := if forfeits && change.next.Some? && fault != RenameFailed then system.forfeited + {mutation}
                         else system.forfeited)
  }

  function ReserveStep(system: System, call: nat, fault: PersistFault): System {
    if call !in system.calls || !system.calls[call].Reconciling? || system.calls[call].pending != [] then system
    else
      var change := Reserve(system.disk.Visible(), system.calls[call].request.mutation, 1);
      var next := system.(disk := Stored(system.disk, change.next, fault));
      if change.reply == Success(Reserved) && fault == Synced then Advance(next, call, Holding(system.calls[call].request))
      else End(next, call)
  }

  /** Confirm what the create printed, or give back the unit of a create whose execution erred. */
  function FinishStep(system: System, call: nat, fault: PersistFault): System {
    if call !in system.calls then system
    else
      match system.calls[call]
      case Releasing(request) => End(Given(system, request.mutation, fault, request.mutation in system.starts), call)
      case Confirming(request, issue) =>
        var change := Confirm(system.disk.Visible(), request.mutation, issue);
        End(system.(disk := Stored(system.disk, change.next, fault)), call)
      case _ => system
  }

  /** Confirm the next mutation that was pending at the start, if the listing shows its issue. */
  function ReconcileStep(broker: Broker, system: System, call: nat, fault: PersistFault): System {
    if call !in system.calls || !system.calls[call].Reconciling? || system.calls[call].pending == [] then system
    else
      var phase := system.calls[call];
      var mutation := phase.pending[0];
      var rest := phase.(pending := phase.pending[1..]);
      match FindIssue(phase.issues, ExternalRef(broker, mutation))
      case None => Advance(system, call, rest)
      case Some(id) =>
        var change := Confirm(system.disk.Visible(), mutation, id);
        var next := system.(disk := Stored(system.disk, change.next, fault));
        if Done(change, fault) then Advance(next, call, rest) else End(next, call)
  }

  function Arguments(broker: Broker, request: Request): Option<seq<string>> {
    GenerationArguments(request.command, request.arguments, broker.actor, ExternalRef(broker, request.mutation), broker.database)
  }

  function ExecuteStep(broker: Broker, system: System, call: nat, execution: Execution): System {
    if call !in system.calls || !system.calls[call].Holding? then system
    else
      var request := system.calls[call].request;
      if Arguments(broker, request).None? then End(system, call)
      else
        match execution
        case NotStarted => Advance(system, call, Releasing(request))
        case StartedThenFailed(created) =>
          Advance(AfterStart(broker, system, request, created), call, Releasing(request))
        case Started(created, succeeded, printed) =>
          var next := AfterStart(broker, system, request, created);
          if succeeded && printed.Some? && printed.value != "" then
            Advance(next.(reported := next.reported + {Output(request.mutation, printed.value)}), call, Confirming(request, printed.value))
          else End(next, call)
  }

  /** The create ran, and may have left its issue in the tracker. */
  function AfterStart(broker: Broker, system: System, request: Request, created: Option<string>): System {
    var issues := if created.Some? then [Issue(ExternalRef(broker, request.mutation), created.value)] else [];
    system.(starts := system.starts + [request.mutation], issues := system.issues + issues)
  }

  function Run(broker: Broker, system: System, actions: seq<Action>): System
    decreases |actions|
  {
    if actions == [] then system else Run(broker, Step(broker, system, actions[0]), actions[1..])
  }

  // ----- invariant -----

  predicate HoldsUnit(phase: Phase) {
    phase.Holding? || phase.Releasing?
  }

  predicate Owns(phase: Phase) {
    HoldsUnit(phase) || phase.Confirming?
  }

  ghost predicate LedgersSane(system: System) {
    forall ledger :: ledger in system.disk.Candidates() ==> Sane(ledger)
  }

  /** Only a forfeited mutation's create is started twice. */
  ghost predicate StartsOnce(system: System) {
    forall i, j :: 0 <= i < j < |system.starts| && system.starts[i] == system.starts[j] ==> system.starts[i] in system.forfeited
  }

  /** A mutation keeps its capacity in every state a power loss could leave. */
  ghost predicate HeldEverywhere(system: System, mutation: string) {
    forall ledger :: ledger in system.disk.Candidates() ==> Held(ledger, mutation)
  }

  ghost predicate StartedHeld(system: System) {
    forall mutation :: mutation in system.starts && mutation !in system.forfeited ==> HeldEverywhere(system, mutation)
  }

  /** A call that may still run or give back its create holds capacity for it, unless that was forfeited. */
  ghost predicate CallsSound(system: System) {
    forall call :: call in system.calls ==>
      && (HoldsUnit(system.calls[call]) && system.calls[call].request.mutation !in system.forfeited ==>
          HeldEverywhere(system, system.calls[call].request.mutation))
      && (system.calls[call].Holding? && system.calls[call].request.mutation !in system.forfeited ==>
          system.calls[call].request.mutation !in system.starts)
      && (system.calls[call].Confirming? ==>
          && system.calls[call].request.mutation in system.starts
          && Output(system.calls[call].request.mutation, system.calls[call].issue) in system.reported)
      && (system.calls[call].Reconciling? ==> forall issue :: issue in system.calls[call].issues ==> issue in system.issues)
  }

  ghost predicate OneOwner(system: System) {
    forall a, b ::
      (a in system.calls && b in system.calls && a != b && Owns(system.calls[a]) && Owns(system.calls[b])
       && system.calls[a].request.mutation == system.calls[b].request.mutation)
      ==> system.calls[a].request.mutation in system.forfeited
  }

  /** Only a started create can have left an issue under its reference. */
  ghost predicate IssuesStarted(broker: Broker, system: System) {
    forall mutation, issue :: issue in system.issues && issue.externalRef == ExternalRef(broker, mutation) ==> mutation in system.starts
  }

  /** Every confirmed output was vouched for by hand, printed by its own create, or found in the tracker
      under its reference. */
  ghost predicate OutputsMatched(broker: Broker, system: System) {
    forall ledger, output :: ledger in system.disk.Candidates() && output in ledger.outputs ==> Matched(broker, system, output)
  }

  ghost predicate Matched(broker: Broker, system: System, output: Output) {
    || output in system.vouched
    || (output.mutation in system.starts
        && (output in system.reported || Issue(ExternalRef(broker, output.mutation), output.issue) in system.issues))
  }

  ghost predicate Inv(broker: Broker, system: System) {
    && LedgersSane(system) && StartsOnce(system) && StartedHeld(system) && CallsSound(system) && OneOwner(system)
    && IssuesStarted(broker, system) && OutputsMatched(broker, system)
  }

  // ----- steps -----

  /** A ledger that may be stored: it keeps every started mutation and every reservation a call relies on,
      but for forfeited ones. */
  ghost predicate Storable(broker: Broker, system: System, ledger: Ledger) {
    && Sane(ledger)
    && (forall mutation :: mutation in system.starts && mutation !in system.forfeited ==> Held(ledger, mutation))
    && (forall call :: call in system.calls && HoldsUnit(system.calls[call]) && system.calls[call].request.mutation !in system.forfeited ==>
        Held(ledger, system.calls[call].request.mutation))
    && (forall output :: output in ledger.outputs ==> Matched(broker, system, output))
  }

  lemma VisibleIsStorable(broker: Broker, system: System)
    requires Inv(broker, system)
    ensures Storable(broker, system, system.disk.Visible())
  {
    hide Sane, Held, Matched, IssuesStarted, OneOwner;
    var visible := system.disk.Visible();
    assert visible in system.disk.Candidates();
  }

  lemma StoreKeeps(broker: Broker, system: System, next: Option<Ledger>, fault: PersistFault)
    requires Inv(broker, system) && (next.Some? ==> Storable(broker, system, next.value))
    ensures Inv(broker, system.(disk := Stored(system.disk, next, fault)))
  {
    hide Sane, Held, Matched, IssuesStarted, OneOwner, StartsOnce;
    if next.Some? {
      var stored := system.(disk := system.disk.Persist(next.value, fault));
      assert forall ledger :: ledger in stored.disk.Candidates() ==> ledger in system.disk.Candidates() || ledger == next.value;
      MatchedMore(broker, system, stored);
      RestSame(broker, system, stored);
    }
  }

  lemma MatchedMore(broker: Broker, system: System, next: System)
    requires system.reported <= next.reported && system.issues <= next.issues && system.vouched <= next.vouched
    requires system.starts <= next.starts
    ensures forall output :: Matched(broker, system, output) ==> Matched(broker, next, output)
  {
    assert forall i :: 0 <= i < |system.starts| ==> next.starts[i] == system.starts[i];
    assert forall i :: 0 <= i < |system.issues| ==> next.issues[i] == system.issues[i];
  }

  lemma RestSame(broker: Broker, system: System, next: System)
    requires OneOwner(system) && IssuesStarted(broker, system) && StartsOnce(system)
    requires next.calls == system.calls && next.issues == system.issues && next.starts == system.starts
    requires system.forfeited <= next.forfeited
    ensures OneOwner(next) && IssuesStarted(broker, next) && StartsOnce(next)
  {
  }

  lemma DiskSame(broker: Broker, system: System, next: System)
    requires LedgersSane(system) && OutputsMatched(broker, system) && next.disk == system.disk
    requires system.reported <= next.reported && system.issues <= next.issues && system.vouched <= next.vouched
    requires system.starts <= next.starts
    ensures LedgersSane(next) && OutputsMatched(broker, next)
    ensures forall mutation :: HeldEverywhere(system, mutation) <==> HeldEverywhere(next, mutation)
  {
    hide Sane, Held;
    MatchedMore(broker, system, next);
    hide Matched;
  }

  lemma EndKeeps(broker: Broker, system: System, call: nat)
    requires Inv(broker, system)
    ensures Inv(broker, End(system, call))
  {
    DiskSame(broker, system, End(system, call));
    hide LedgersSane, OutputsMatched, HeldEverywhere;
  }

  /** A call that owns nothing asks nothing of the others. */
  lemma AdvanceKeeps(broker: Broker, system: System, call: nat, phase: Phase)
    requires Inv(broker, system) && !Owns(phase)
    requires phase.Reconciling? ==> forall issue :: issue in phase.issues ==> issue in system.issues
    ensures Inv(broker, Advance(system, call, phase))
  {
    DiskSame(broker, system, Advance(system, call, phase));
    hide LedgersSane, OutputsMatched, HeldEverywhere;
  }

  /** A call may own a mutation that nobody else owns, or that was forfeited. */
  lemma OwnKeeps(broker: Broker, system: System, call: nat, phase: Phase)
    requires Inv(broker, system) && Owns(phase)
    requires var mutation := phase.request.mutation;
      && (mutation !in system.forfeited ==>
          && (HoldsUnit(phase) ==> HeldEverywhere(system, mutation))
          && (phase.Holding? ==> mutation !in system.starts)
          && forall other :: other in system.calls && other != call && Owns(system.calls[other]) ==>
              system.calls[other].request.mutation != mutation)
      && (phase.Confirming? ==> mutation in system.starts && Output(mutation, phase.issue) in system.reported)
    ensures Inv(broker, Advance(system, call, phase))
  {
    DiskSame(broker, system, Advance(system, call, phase));
    hide LedgersSane, OutputsMatched, HeldEverywhere;
  }

  lemma ReconcileKeeps(broker: Broker, system: System, call: nat, fault: PersistFault)
    requires Inv(broker, system)
    ensures Inv(broker, ReconcileStep(broker, system, call, fault))
  {
    if call in system.calls && system.calls[call].Reconciling? && system.calls[call].pending != [] {
      var phase := system.calls[call];
      var mutation := phase.pending[0];
      var rest := phase.(pending := phase.pending[1..]);
      var id := FindIssue(phase.issues, ExternalRef(broker, mutation));
      assert forall issue :: issue in phase.issues ==> issue in system.issues by { SnapshotIsOld(broker, system, call); }
      hide Inv, Stored, Confirm;
      if id.None? {
        AdvanceKeeps(broker, system, call, rest);
      } else {
        FoundIsStorable(broker, system, mutation, id.value);
        var change := Confirm(system.disk.Visible(), mutation, id.value);
        StoreKeeps(broker, system, change.next, fault);
        var next := system.(disk := Stored(system.disk, change.next, fault));
        AdvanceKeeps(broker, next, call, rest);
        EndKeeps(broker, next, call);
      }
    }
  }

  lemma SnapshotIsOld(broker: Broker, system: System, call: nat)
    requires Inv(broker, system) && call in system.calls && system.calls[call].Reconciling?
    ensures forall issue :: issue in system.calls[call].issues ==> issue in system.issues
  {
    hide HeldEverywhere;
  }

  /** Confirming a mutation whose issue is in the tracker. */
  lemma FoundIsStorable(broker: Broker, system: System, mutation: string, id: string)
    requires Inv(broker, system) && Issue(ExternalRef(broker, mutation), id) in system.issues
    ensures mutation in system.starts
    ensures var change := Confirm(system.disk.Visible(), mutation, id);
      change.next.Some? ==> Storable(broker, system, change.next.value)
  {
    VisibleIsStorable(broker, system);
    assert mutation in system.starts;
    assert Matched(broker, system, Output(mutation, id));
    hide Inv;
    ConfirmStorable(broker, system, mutation, id);
  }

  lemma ConfirmStorable(broker: Broker, system: System, mutation: string, id: string)
    requires Storable(broker, system, system.disk.Visible()) && Matched(broker, system, Output(mutation, id))
    ensures var change := Confirm(system.disk.Visible(), mutation, id);
      change.next.Some? ==> Storable(broker, system, change.next.value)
  {
    hide Sane, Held, Matched, Confirm, Waiting;
    ConfirmKeeps(system.disk.Visible(), mutation, id);
  }

  lemma ReserveStorable(broker: Broker, system: System, mutation: string, units: nat)
    requires Storable(broker, system, system.disk.Visible())
    ensures var change := Reserve(system.disk.Visible(), mutation, units);
      change.next.Some? ==> Storable(broker, system, change.next.value)
  {
    hide Sane, Matched, Reserve, Waiting;
    ReserveKeeps(system.disk.Visible(), mutation, units);
    SameOutputsHeld(system.disk.Visible(), Reserve(system.disk.Visible(), mutation, units).next);
    hide Held;
  }

  lemma SameOutputsHeld(ledger: Ledger, next: Option<Ledger>)
    requires next.Some? ==> next.value.outputs == ledger.outputs
    requires next.Some? ==> forall other :: Waiting(ledger, other) ==> Waiting(next.value, other)
    ensures next.Some? ==> forall other :: Held(ledger, other) ==> Held(next.value, other)
  {
    hide Waiting;
    if next.Some? { assert forall other :: HasOutput(ledger, other) <==> HasOutput(next.value, other); }
  }

  lemma ReserveStepKeeps(broker: Broker, system: System, call: nat, fault: PersistFault)
    requires Inv(broker, system)
    ensures Inv(broker, ReserveStep(system, call, fault))
  {
    if call in system.calls && system.calls[call].Reconciling? && system.calls[call].pending == [] {
      var mutation := system.calls[call].request.mutation;
      VisibleIsStorable(broker, system);
      ReserveStorable(broker, system, mutation, 1);
      var change := Reserve(system.disk.Visible(), mutation, 1);
      var next := system.(disk := Stored(system.disk, change.next, fault));
      StoreKeeps(broker, system, change.next, fault);
      if change.reply == Success(Reserved) && fault == Synced {
        ReserveKeeps(system.disk.Visible(), mutation, 1);
        if mutation !in system.forfeited { NobodyOwns(broker, system, mutation); }
        assert HeldEverywhere(next, mutation);
        hide Inv, Reserve, Sane, HeldEverywhere, Held, Waiting;
        OwnKeeps(broker, next, call, Holding(system.calls[call].request));
      }
      hide Inv, Reserve;
      EndKeeps(broker, next, call);
    }
  }

  /** A mutation without capacity, if never forfeited, is neither started nor in any call's hands. */
  lemma NobodyOwns(broker: Broker, system: System, mutation: string)
    requires Inv(broker, system) && !Held(system.disk.Visible(), mutation) && mutation !in system.forfeited
    ensures mutation !in system.starts
    ensures forall call :: call in system.calls && Owns(system.calls[call]) ==> system.calls[call].request.mutation != mutation
  {
    hide Sane, Matched, Held, IssuesStarted, OneOwner, StartsOnce;
    var visible := system.disk.Visible();
    assert visible in system.disk.Candidates();
  }

  lemma ForfeitKeeps(broker: Broker, system: System, mutation: string)
    requires Inv(broker, system)
    ensures Inv(broker, system.(forfeited := system.forfeited + {mutation}))
  {
    var next := system.(forfeited := system.forfeited + {mutation});
    DiskSame(broker, system, next);
    RestSame(broker, system, next);
    hide LedgersSane, OutputsMatched, HeldEverywhere, StartsOnce, OneOwner, IssuesStarted;
  }

  /** Giving back a reservation nobody relies on, or forfeiting it. */
  lemma GivenKeeps(broker: Broker, system: System, mutation: string, fault: PersistFault, forfeits: bool)
    requires Inv(broker, system)
    requires forfeits || mutation in system.forfeited ||
      (mutation !in system.starts && forall call :: call in system.calls && HoldsUnit(system.calls[call]) ==>
        system.calls[call].request.mutation != mutation)
    ensures Inv(broker, Given(system, mutation, fault, forfeits))
  {
    var change := Release(system.disk.Visible(), mutation);
    var marked := forfeits && change.next.Some? && fault != RenameFailed;
    var base := if marked then system.(forfeited := system.forfeited + {mutation}) else system;
    if marked { ForfeitKeeps(broker, system, mutation); }
    if change.next.Some? && fault != RenameFailed {
      VisibleIsStorable(broker, base);
      ReleaseStorable(broker, base, mutation);
    }
    hide Inv, Release;
    if change.next.Some? && fault != RenameFailed {
      StoreKeeps(broker, base, change.next, fault);
    }
  }

  lemma ReleaseStorable(broker: Broker, system: System, mutation: string)
    requires Storable(broker, system, system.disk.Visible())
    requires mutation in system.forfeited ||
      (mutation !in system.starts && forall call :: call in system.calls && HoldsUnit(system.calls[call]) ==>
        system.calls[call].request.mutation != mutation)
    ensures var change := Release(system.disk.Visible(), mutation);
      change.next.Some? ==> Storable(broker, system, change.next.value)
  {
    hide Sane, Matched, Release, Waiting;
    var visible := system.disk.Visible();
    ReleaseKeeps(visible, mutation);
    var change := Release(visible, mutation);
    if change.next.Some? {
      assert forall other :: HasOutput(visible, other) <==> HasOutput(change.next.value, other);
      assert forall other :: other != mutation && Held(visible, other) ==> Held(change.next.value, other);
      hide Held;
    }
  }

  lemma FinishKeeps(broker: Broker, system: System, call: nat, fault: PersistFault)
    requires Inv(broker, system)
    ensures Inv(broker, FinishStep(system, call, fault))
  {
    if call in system.calls && system.calls[call].Releasing? {
      var mutation := system.calls[call].request.mutation;
      var ended := End(system, call);
      EndKeeps(broker, system, call);
      OthersDiffer(broker, system, call);
      hide Inv, Release;
      GivenKeeps(broker, ended, mutation, fault, mutation in system.starts);
    } else if call in system.calls && system.calls[call].Confirming? {
      var mutation, issue := system.calls[call].request.mutation, system.calls[call].issue;
      VisibleIsStorable(broker, system);
      PrintedIsMatched(broker, system, call);
      hide Inv, Confirm;
      ConfirmStorable(broker, system, mutation, issue);
      StoreKeeps(broker, system, Confirm(system.disk.Visible(), mutation, issue).next, fault);
      EndKeeps(broker, system.(disk := Stored(system.disk, Confirm(system.disk.Visible(), mutation, issue).next, fault)), call);
    }
  }

  lemma PrintedIsMatched(broker: Broker, system: System, call: nat)
    requires Inv(broker, system) && call in system.calls && system.calls[call].Confirming?
    ensures Matched(broker, system, Output(system.calls[call].request.mutation, system.calls[call].issue))
  {
    hide HeldEverywhere;
  }

  lemma OthersDiffer(broker: Broker, system: System, call: nat)
    requires Inv(broker, system) && call in system.calls && Owns(system.calls[call])
    ensures var mutation := system.calls[call].request.mutation;
      mutation !in system.forfeited ==>
        forall other :: other in system.calls && other != call && Owns(system.calls[other]) ==>
          system.calls[other].request.mutation != mutation
  {
    hide HeldEverywhere;
  }

  /** Starting the create of a held mutation. */
  lemma StartKeeps(broker: Broker, system: System, call: nat, created: Option<string>, reported: set<Output>)
    requires Inv(broker, system) && call in system.calls && system.calls[call].Holding?
    ensures var request := system.calls[call].request;
      var after := AfterStart(broker, system, request, created);
      var next := End(after.(reported := after.reported + reported), call);
      && Inv(broker, next) && request.mutation in next.starts
      && (request.mutation !in next.forfeited ==> HeldEverywhere(next, request.mutation))
      && (request.mutation !in next.forfeited ==>
          forall other :: other in next.calls && Owns(next.calls[other]) ==> next.calls[other].request.mutation != request.mutation)
  {
    var mutation := system.calls[call].request.mutation;
    var after := AfterStart(broker, system, system.calls[call].request, created);
    var next := End(after.(reported := after.reported + reported), call);
    DiskSame(broker, system, next);
    OthersDiffer(broker, system, call);
    assert next.starts[|system.starts|] == mutation;
    hide LedgersSane, OutputsMatched, HeldEverywhere, Matched;
    assert IssuesStarted(broker, next) by {
      forall m, issue | issue in next.issues && issue.externalRef == ExternalRef(broker, m) ensures m in next.starts {
        if issue !in system.issues { ExternalRefInjective(broker, m, mutation); }
      }
    }
    hide IssuesStarted, ExternalRef;
    assert CallsSound(next);
    assert OneOwner(next);
    assert StartedHeld(next);
    assert StartsOnce(next);
  }

  lemma ExecuteKeeps(broker: Broker, system: System, call: nat, execution: Execution)
    requires Inv(broker, system)
    ensures Inv(broker, ExecuteStep(broker, system, call, execution))
  {
    if call in system.calls && system.calls[call].Holding? {
      var request := system.calls[call].request;
      EndKeeps(broker, system, call);
      OthersDiffer(broker, system, call);
      assert request.mutation !in system.forfeited ==> HeldEverywhere(system, request.mutation);
      hide Inv, Arguments, AfterStart, HeldEverywhere;
      match execution {
        case NotStarted => OwnKeeps(broker, system, call, Releasing(request));
        case StartedThenFailed(created) =>
          StartKeeps(broker, system, call, created, {});
          StartedPhase(broker, system, call, created, {}, Releasing(request));
        case Started(created, succeeded, printed) =>
          if succeeded && printed.Some? && printed.value != "" {
            StartKeeps(broker, system, call, created, {Output(request.mutation, printed.value)});
            StartedPhase(broker, system, call, created, {Output(request.mutation, printed.value)}, Confirming(request, printed.value));
          } else {
            StartKeeps(broker, system, call, created, {});
            assert AfterStart(broker, system, request, created).reported + {} == AfterStart(broker, system, request, created).reported;
          }
      }
    }
  }

  /** After its create started, a call goes on to give back or confirm. */
  lemma StartedPhase(broker: Broker, system: System, call: nat, created: Option<string>, reported: set<Output>, phase: Phase)
    requires call in system.calls && system.calls[call].Holding? && phase.request == system.calls[call].request
    requires phase.Releasing? || (phase.Confirming? && Output(phase.request.mutation, phase.issue) in reported)
    requires var after := AfterStart(broker, system, phase.request, created);
      var ended := End(after.(reported := after.reported + reported), call);
      && Inv(broker, ended) && phase.request.mutation in ended.starts
      && (phase.request.mutation !in ended.forfeited ==> HeldEverywhere(ended, phase.request.mutation))
      && (phase.request.mutation !in ended.forfeited ==>
          forall other :: other in ended.calls && Owns(ended.calls[other]) ==> ended.calls[other].request.mutation != phase.request.mutation)
    ensures var after := AfterStart(broker, system, phase.request, created);
      Inv(broker, Advance(after.(reported := after.reported + reported), call, phase))
    ensures reported == {} ==> Inv(broker, Advance(AfterStart(broker, system, phase.request, created), call, phase))
  {
    hide Inv, HeldEverywhere;
    var after := AfterStart(broker, system, phase.request, created);
    var told := after.(reported := after.reported + reported);
    var ended := End(told, call);
    OwnKeeps(broker, ended, call, phase);
    assert Advance(ended, call, phase).calls == told.calls[call := phase];
    if reported == {} { assert after.reported + {} == after.reported; }
  }

  lemma OutsideKeeps(broker: Broker, system: System, action: Action)
    requires Inv(broker, system)
    requires action.OutsideReserve? || action.OutsideConfirm? || action.OutsideRelease? || action.Adjust? || action.OtherIssue? || action.LosePower?
    ensures Inv(broker, Step(broker, system, action))
  {
    match action {
      case OutsideReserve(mutation, units, fault) =>
        VisibleIsStorable(broker, system);
        hide Inv, Reserve;
        ReserveStorable(broker, system, mutation, units);
        StoreKeeps(broker, system, Reserve(system.disk.Visible(), mutation, units).next, fault);
      case OutsideConfirm(mutation, issue, fault) =>
        var vouched := system.(vouched := system.vouched + {Output(mutation, issue)});
        VouchKeeps(broker, system, Output(mutation, issue));
        VisibleIsStorable(broker, vouched);
        hide Inv, Confirm;
        ConfirmStorable(broker, vouched, mutation, issue);
        StoreKeeps(broker, vouched, Confirm(system.disk.Visible(), mutation, issue).next, fault);
      case OutsideRelease(mutation, fault) =>
        hide Inv, Release;
        GivenKeeps(broker, system, mutation, fault, true);
      case Adjust(state, ceiling, fault) =>
        var ledger := system.disk.Visible();
        VisibleIsStorable(broker, system);
        if ledger.ceiling <= ceiling {
          hide Matched, Inv;
          AdjustedIsStorable(broker, system, state, ceiling);
          StoreKeeps(broker, system, Some(ledger.(state := state, ceiling := ceiling)), fault);
        }
      case OtherIssue(issue) => OtherIssueKeeps(broker, system, issue);
      case LosePower(choice) => PowerLossKeeps(broker, system, choice);
    }
  }

  lemma VouchKeeps(broker: Broker, system: System, output: Output)
    requires Inv(broker, system)
    ensures Inv(broker, system.(vouched := system.vouched + {output}))
  {
    var next := system.(vouched := system.vouched + {output});
    DiskSame(broker, system, next);
    RestSame(broker, system, next);
    hide LedgersSane, OutputsMatched, HeldEverywhere, StartsOnce, OneOwner, IssuesStarted;
  }

  lemma AdjustedIsStorable(broker: Broker, system: System, state: string, ceiling: nat)
    requires Storable(broker, system, system.disk.Visible()) && system.disk.Visible().ceiling <= ceiling
    ensures Storable(broker, system, system.disk.Visible().(state := state, ceiling := ceiling))
  {
    hide Matched, Listed, Distinct, Total;
    var ledger := system.disk.Visible();
    var next := ledger.(state := state, ceiling := ceiling);
    assert forall mutation :: HasOutput(ledger, mutation) <==> HasOutput(next, mutation);
  }

  lemma OtherIssueKeeps(broker: Broker, system: System, issue: Issue)
    requires Inv(broker, system)
    ensures Inv(broker, Step(broker, system, OtherIssue(issue)))
  {
    var next := Step(broker, system, OtherIssue(issue));
    DiskSame(broker, system, next);
    hide LedgersSane, OutputsMatched, HeldEverywhere;
  }

  lemma PowerLossKeeps(broker: Broker, system: System, choice: nat)
    requires Inv(broker, system)
    ensures Inv(broker, Step(broker, system, LosePower(choice)))
  {
    hide Sane, Held;
    var next := Step(broker, system, LosePower(choice));
    assert forall ledger :: ledger in next.disk.Candidates() ==> ledger in system.disk.Candidates();
    MatchedMore(broker, system, next);
    hide Matched;
  }

  lemma StepKeepsInv(broker: Broker, system: System, action: Action)
    requires Inv(broker, system)
    ensures Inv(broker, Step(broker, system, action))
    ensures system.starts <= Step(broker, system, action).starts
  {
    hide Inv, ReconcileStep, ExecuteStep, FinishStep, ReserveStep, Given, Reserve, Confirm;
    StepGrows(broker, system, action);
    match action {
      case Begin(call, request) =>
        if call !in system.calls {
          AdvanceKeeps(broker, system, call, Listing(request, PendingIds(system.disk.Visible().pending)));
          AdvanceKeeps(broker, system, call, Reconciling(request, [], []));
        }
      case ListIssues(call, lists) =>
        if call in system.calls && system.calls[call].Listing? {
          AdvanceKeeps(broker, system, call, Reconciling(system.calls[call].request, system.calls[call].pending, system.issues));
          EndKeeps(broker, system, call);
        }
      case Reconcile(call, fault) => ReconcileKeeps(broker, system, call, fault);
      case ReserveUnit(call, fault) => ReserveStepKeeps(broker, system, call, fault);
      case Execute(call, execution) => ExecuteKeeps(broker, system, call, execution);
      case Finish(call, fault) => FinishKeeps(broker, system, call, fault);
      case Kill(call) => EndKeeps(broker, system, call);
      case _ => OutsideKeeps(broker, system, action);
    }
  }

  lemma StepGrows(broker: Broker, system: System, action: Action)
    ensures system.starts <= Step(broker, system, action).starts
    ensures system.forfeited <= Step(broker, system, action).forfeited
  {
    hide Reserve, Release, Confirm, Arguments;
  }

  lemma {:induction false} RunKeepsInv(broker: Broker, system: System, actions: seq<Action>)
    requires Inv(broker, system)
    ensures Inv(broker, Run(broker, system, actions))
    ensures system.starts <= Run(broker, system, actions).starts
    ensures system.forfeited <= Run(broker, system, actions).forfeited
    decreases |actions|
  {
    hide Inv, Step;
    if actions != [] {
      StepKeepsInv(broker, system, actions[0]);
      StepGrows(broker, system, actions[0]);
      RunKeepsInv(broker, Step(broker, system, actions[0]), actions[1..]);
    }
  }

  // ----- what every run guarantees -----

  /** A Run as admitted, with an empty ledger. */
  function Admitted(state: string, ceiling: nat): System {
    System(Disk(Ledger(state, ceiling, 0, 0, [], []), []), [], [], {}, {}, {}, map[])
  }

  lemma AdmittedInv(broker: Broker, state: string, ceiling: nat)
    ensures Inv(broker, Admitted(state, ceiling))
  {
    var system := Admitted(state, ceiling);
    assert system.disk.Candidates() == [system.disk.durable];
  }

  lemma Reachable(broker: Broker, state: string, ceiling: nat, actions: seq<Action>)
    ensures Inv(broker, Run(broker, Admitted(state, ceiling), actions))
  {
    AdmittedInv(broker, state, ceiling);
    hide Inv, Run, Admitted;
    RunKeepsInv(broker, Admitted(state, ceiling), actions);
  }

  function NamesOf(names: seq<string>): (members: set<string>)
    ensures forall name :: name in members <==> name in names
  {
    if names == [] then {}
    else
      assert names == [names[0]] + names[1..];
      {names[0]} + NamesOf(names[1..])
  }

  /** Over every interleaving of calls, command-line use, crashes and power losses, a create is started
      twice only for a forfeited mutation, and all other started creates fit under the ceiling of every
      state a power loss could leave. */
  lemma CreateStartsOnce(broker: Broker, state: string, ceiling: nat, actions: seq<Action>, ledger: Ledger)
    requires ledger in Run(broker, Admitted(state, ceiling), actions).disk.Candidates()
    ensures var system := Run(broker, Admitted(state, ceiling), actions);
      && (forall i, j :: 0 <= i < j < |system.starts| && system.starts[i] == system.starts[j] ==> system.starts[i] in system.forfeited)
      && |NamesOf(system.starts) - system.forfeited| <= ledger.consumed + ledger.reserved <= ledger.ceiling
  {
    Reachable(broker, state, ceiling, actions);
    var system := Run(broker, Admitted(state, ceiling), actions);
    hide Run, Admitted, CallsSound, OneOwner, IssuesStarted, OutputsMatched, Held, Sane;
    HeldFit(NamesOf(system.starts) - system.forfeited, ledger);
  }

  lemma {:induction false} NamesSize(names: seq<string>)
    ensures |NamesOf(names)| <= |names|
  {
    if names != [] { NamesSize(names[1..]); }
  }

  lemma {:induction false} PendingFits(pending: seq<Reservation>)
    requires Distinct(pending)
    ensures |pending| <= Total(pending)
  {
    if pending != [] { PendingFits(pending[1..]); }
  }

  function MutationsOf(outputs: seq<Output>): (names: seq<string>)
    ensures |names| == |outputs| && forall i :: 0 <= i < |outputs| ==> names[i] == outputs[i].mutation
  {
    seq(|outputs|, i requires 0 <= i < |outputs| => outputs[i].mutation)
  }

  lemma SubsetSize<T>(small: set<T>, large: set<T>)
    requires small <= large
    ensures |small| <= |large|
  {
    assert large == small + (large - small);
    assert small !! (large - small);
  }

  lemma HeldFit(mutations: set<string>, ledger: Ledger)
    requires Sane(ledger) && forall mutation :: mutation in mutations ==> Held(ledger, mutation)
    ensures |mutations| <= ledger.consumed + ledger.reserved <= ledger.ceiling
  {
    var pending, outputs := PendingIds(ledger.pending), MutationsOf(ledger.outputs);
    NamesSize(pending);
    NamesSize(outputs);
    PendingFits(ledger.pending);
    forall name | name in mutations ensures name in NamesOf(pending) + NamesOf(outputs) {
      if HasOutput(ledger, name) {
        var i :| 0 <= i < |ledger.outputs| && ledger.outputs[i].mutation == name;
        assert outputs[i] == name;
      } else {
        var i :| 0 <= i < |ledger.pending| && ledger.pending[i].mutation == name;
        assert pending[i] == name;
      }
    }
    hide NamesOf, Distinct, Held, Total, Listed;
    SubsetSize(mutations, NamesOf(pending) + NamesOf(outputs));
    assert |NamesOf(pending) + NamesOf(outputs)| <= |NamesOf(pending)| + |NamesOf(outputs)|;
  }

  /** Once started, a create's mutation keeps its capacity in every later state, whatever fails and
      whatever a power loss takes back, unless it is forfeited. */
  lemma StartedKeepsItsUnit(broker: Broker, state: string, ceiling: nat, actions: seq<Action>, later: seq<Action>, mutation: string)
    requires mutation in Run(broker, Admitted(state, ceiling), actions).starts
    ensures var final := Run(broker, Run(broker, Admitted(state, ceiling), actions), later);
      mutation !in final.forfeited ==> HeldEverywhere(final, mutation)
  {
    Reachable(broker, state, ceiling, actions);
    var system := Run(broker, Admitted(state, ceiling), actions);
    hide Run, Admitted, CallsSound, OneOwner, IssuesStarted, OutputsMatched, HeldEverywhere, LedgersSane;
    RunKeepsInv(broker, system, later);
    var i :| 0 <= i < |system.starts| && system.starts[i] == mutation;
    assert Run(broker, system, later).starts[i] == mutation;
  }

  // ----- exactly what forfeits -----

  /** No reservation is given back from outside, and no execution errs once its create has started. */
  predicate Undisturbed(action: Action) {
    !action.OutsideRelease? && !(action.Execute? && action.execution.StartedThenFailed?)
  }

  /** No call is about to give back a started create's reservation. */
  ghost predicate Quiet(system: System) {
    && system.forfeited == {}
    && forall call :: call in system.calls && system.calls[call].Releasing? ==> system.calls[call].request.mutation !in system.starts
  }

  lemma StepKeepsQuiet(broker: Broker, system: System, action: Action)
    requires Inv(broker, system) && Quiet(system) && Undisturbed(action)
    ensures Quiet(Step(broker, system, action))
  {
    hide HeldEverywhere, LedgersSane, OutputsMatched, IssuesStarted, StartedHeld, StartsOnce, Reserve, Release, Confirm, Arguments;
  }

  lemma {:induction false} QuietRun(broker: Broker, system: System, actions: seq<Action>)
    requires Inv(broker, system) && Quiet(system) && forall action :: action in actions ==> Undisturbed(action)
    ensures Quiet(Run(broker, system, actions))
    decreases |actions|
  {
    hide Inv, Step, Quiet;
    if actions != [] {
      assert actions[0] in actions;
      StepKeepsInv(broker, system, actions[0]);
      StepKeepsQuiet(broker, system, actions[0]);
      assert forall action :: action in actions[1..] ==> action in actions;
      QuietRun(broker, Step(broker, system, actions[0]), actions[1..]);
    }
  }

  /** So in a run without those two, every create is started at most once and keeps its capacity. */
  lemma UndisturbedRunIsSafe(broker: Broker, state: string, ceiling: nat, actions: seq<Action>)
    requires forall action :: action in actions ==> Undisturbed(action)
    ensures var system := Run(broker, Admitted(state, ceiling), actions);
      && Unrepeated(system.starts)
      && (forall mutation :: mutation in system.starts ==> HeldEverywhere(system, mutation))
      && forall ledger :: ledger in system.disk.Candidates() ==> |system.starts| <= ledger.ceiling
  {
    AdmittedInv(broker, state, ceiling);
    assert Quiet(Admitted(state, ceiling));
    QuietRun(broker, Admitted(state, ceiling), actions);
    Reachable(broker, state, ceiling, actions);
    var system := Run(broker, Admitted(state, ceiling), actions);
    hide Run, Admitted, CallsSound, OneOwner, IssuesStarted, OutputsMatched, Held, Sane;
    UnrepeatedSize(system.starts);
    forall ledger | ledger in system.disk.Candidates() ensures |system.starts| <= ledger.ceiling {
      HeldFit(NamesOf(system.starts), ledger);
    }
  }

  lemma {:induction false} UnrepeatedSize(names: seq<string>)
    requires Unrepeated(names)
    ensures |NamesOf(names)| == |names|
  {
    if names != [] { UnrepeatedSize(names[1..]); }
  }

  lemma TwoSteps(broker: Broker, system: System, first: Action, second: Action)
    ensures Run(broker, system, [first, second]) == Step(broker, Step(broker, system, first), second)
  {
    hide Step;
    var rest := [first, second][1..];
    assert rest == [second];
    var middle := Step(broker, system, first);
    assert Run(broker, middle, rest) == Step(broker, middle, rest[0]) by { assert rest[1..] == []; }
  }

  /** A call that runs the create it reserved for, then finishes, loses a started create's capacity if and
      only if the execution erred after the start. */
  lemma ErredStartForfeits(broker: Broker, system: System, call: nat, execution: Execution)
    requires Inv(broker, system) && call in system.calls && system.calls[call].Holding?
    requires Arguments(broker, system.calls[call].request).Some?
    requires var mutation := system.calls[call].request.mutation;
      mutation !in system.forfeited && Waiting(system.disk.Visible(), mutation) && !HasOutput(system.disk.Visible(), mutation)
    ensures var mutation := system.calls[call].request.mutation;
      var final := Run(broker, system, [Execute(call, execution), Finish(call, Synced)]);
      (mutation in final.starts && !HeldEverywhere(final, mutation)) <==> execution.StartedThenFailed?
  {
    var mutation := system.calls[call].request.mutation;
    var ran := Step(broker, system, Execute(call, execution));
    var final := Step(broker, ran, Finish(call, Synced));
    hide Step, Arguments, Waiting, HasOutput, HeldEverywhere, StartsOnce, OneOwner, IssuesStarted, OutputsMatched, LedgersSane;
    TwoSteps(broker, system, Execute(call, execution), Finish(call, Synced));
    if execution.StartedThenFailed? {
      ErredLoses(broker, system, call, execution);
    } else {
      StepKeepsInv(broker, system, Execute(call, execution));
      StepKeepsInv(broker, ran, Finish(call, Synced));
      CleanForfeitsNothing(broker, system, call, execution);
    }
  }

  lemma CleanForfeitsNothing(broker: Broker, system: System, call: nat, execution: Execution)
    requires call in system.calls && system.calls[call].Holding? && !execution.StartedThenFailed?
    requires CallsSound(system) && system.calls[call].request.mutation !in system.forfeited
    ensures Step(broker, Step(broker, system, Execute(call, execution)), Finish(call, Synced)).forfeited == system.forfeited
  {
    hide Arguments, Release, Confirm, HeldEverywhere;
  }

  lemma ErredLoses(broker: Broker, system: System, call: nat, execution: Execution)
    requires Inv(broker, system) && call in system.calls && system.calls[call].Holding? && execution.StartedThenFailed?
    requires Arguments(broker, system.calls[call].request).Some?
    requires var mutation := system.calls[call].request.mutation;
      Waiting(system.disk.Visible(), mutation) && !HasOutput(system.disk.Visible(), mutation)
    ensures var mutation := system.calls[call].request.mutation;
      var final := Step(broker, Step(broker, system, Execute(call, execution)), Finish(call, Synced));
      mutation in final.starts && !HeldEverywhere(final, mutation)
  {
    var mutation := system.calls[call].request.mutation;
    var ran := Step(broker, system, Execute(call, execution));
    VisibleIsStorable(broker, system);
    LostOnRelease(system.disk.Visible(), mutation);
    hide Inv, Storable, Arguments, Release, Waiting, HasOutput, Held;
    assert ran.starts[|system.starts|] == mutation;
    var left := Release(system.disk.Visible(), mutation).next.value;
    var final := Step(broker, ran, Finish(call, Synced));
    assert final.disk == Disk(left, []) && left in final.disk.Candidates();
  }

  lemma LostOnRelease(ledger: Ledger, mutation: string)
    requires Sane(ledger)
    ensures var change := Release(ledger, mutation);
      && (change.next.Some? <==> Waiting(ledger, mutation))
      && (change.next.Some? ==> (Held(change.next.value, mutation) <==> HasOutput(ledger, mutation)))
  {
    hide Sane, Release, Waiting;
    ReleaseKeeps(ledger, mutation);
    var change := Release(ledger, mutation);
    if change.next.Some? { assert HasOutput(change.next.value, mutation) <==> HasOutput(ledger, mutation); }
  }

  /** A reservation given back from outside costs a started create its capacity if and only if the rename
      was reached and nothing had been confirmed for it. */
  lemma OutsideReleaseForfeits(broker: Broker, system: System, mutation: string, fault: PersistFault)
    requires Inv(broker, system) && mutation in system.starts && mutation !in system.forfeited
    ensures !HeldEverywhere(Step(broker, system, OutsideRelease(mutation, fault)), mutation) <==>
      fault != RenameFailed && !HasOutput(system.disk.Visible(), mutation)
  {
    var visible := system.disk.Visible();
    assert visible in system.disk.Candidates();
    assert HeldEverywhere(system, mutation);
    LostOnRelease(visible, mutation) by { VisibleIsStorable(broker, system); }
    var next := Step(broker, system, OutsideRelease(mutation, fault));
    hide Inv, Release, Waiting, HasOutput;
    var change := Release(visible, mutation);
    if change.next.Some? && fault != RenameFailed {
      assert change.next.value in next.disk.Candidates();
      assert forall ledger :: ledger in next.disk.Candidates() ==> ledger in system.disk.Candidates() || ledger == change.next.value;
    }
  }

  /** A mutation that lost its capacity while its Run stayed active is started again by the next call for it. */
  lemma LostUnitRestarts(broker: Broker, system: System, call: nat, execution: Execution)
    requires call in system.calls && system.calls[call].Reconciling? && system.calls[call].pending == []
    requires Arguments(broker, system.calls[call].request).Some? && !execution.NotStarted?
    requires var visible := system.disk.Visible();
      && visible.state == "active" && !Held(visible, system.calls[call].request.mutation)
      && visible.consumed + visible.reserved < visible.ceiling <= 0xFFFF_FFFF_FFFF_FFFF
    ensures Run(broker, system, [ReserveUnit(call, Synced), Execute(call, execution)]).starts ==
      system.starts + [system.calls[call].request.mutation]
  {
    TwoSteps(broker, system, ReserveUnit(call, Synced), Execute(call, execution));
    hide Waiting, HasOutput, Arguments;
  }

  /** Both do happen: one create started twice, after an execution that erred late, and after a release from outside. */
  lemma StartedTwice(broker: Broker, request: Request, ceiling: nat)
    requires ValidCommand(request) && Arguments(broker, request).Some? && 1 <= ceiling <= 0xFFFF_FFFF_FFFF_FFFF
    ensures var again := [Begin(1, request), ReserveUnit(1, Synced), Execute(1, Started(None, false, None))];
      var late := [Begin(0, request), ReserveUnit(0, Synced), Execute(0, StartedThenFailed(None)), Finish(0, Synced)];
      var outside := [Begin(0, request), ReserveUnit(0, Synced), Execute(0, Started(None, false, None)), OutsideRelease(request.mutation, Synced)];
      && Run(broker, Run(broker, Admitted("active", ceiling), late), again).starts == [request.mutation, request.mutation]
      && Run(broker, Run(broker, Admitted("active", ceiling), outside), again).starts == [request.mutation, request.mutation]
  {
    var start := Admitted("active", ceiling);
    FirstAttempt(broker, request, ceiling, StartedThenFailed(None), Finish(0, Synced));
    FirstAttempt(broker, request, ceiling, Started(None, false, None), OutsideRelease(request.mutation, Synced));
    var late := [Begin(0, request), ReserveUnit(0, Synced), Execute(0, StartedThenFailed(None)), Finish(0, Synced)];
    var outside := [Begin(0, request), ReserveUnit(0, Synced), Execute(0, Started(None, false, None)), OutsideRelease(request.mutation, Synced)];
    hide Run, Arguments, Admitted;
    SecondAttempt(broker, Run(broker, start, late), request);
    SecondAttempt(broker, Run(broker, start, outside), request);
  }

  lemma FirstReservation(broker: Broker, request: Request, ceiling: nat)
    requires ValidCommand(request) && 1 <= ceiling <= 0xFFFF_FFFF_FFFF_FFFF
    ensures var start := Admitted("active", ceiling);
      var held := start.disk.durable.(reserved := 1, pending := [Reservation(request.mutation, 1)]);
      && Step(broker, Step(broker, start, Begin(0, request)), ReserveUnit(0, Synced))
         == start.(disk := Disk(held, []), calls := map[0 := Holding(request)])
      && Release(held, request.mutation) == Change(Some(start.disk.durable), Success(()))
  {
    var start := Admitted("active", ceiling);
    var begun := Step(broker, start, Begin(0, request));
    assert begun.calls == map[0 := Reconciling(request, [], [])];
    var one := Reservation(request.mutation, 1);
    assert [] + [one] == [one] && [one][1..] == [] && [one][0].mutation == request.mutation;
    assert begun.calls[0 := Holding(request)] == map[0 := Holding(request)];
  }

  lemma FirstAttempt(broker: Broker, request: Request, ceiling: nat, execution: Execution, last: Action)
    requires ValidCommand(request) && Arguments(broker, request).Some? && 1 <= ceiling <= 0xFFFF_FFFF_FFFF_FFFF
    requires (execution == StartedThenFailed(None) && last == Finish(0, Synced))
      || (execution == Started(None, false, None) && last == OutsideRelease(request.mutation, Synced))
    ensures var final := Run(broker, Admitted("active", ceiling), [Begin(0, request), ReserveUnit(0, Synced), Execute(0, execution), last]);
      final.disk == Admitted("active", ceiling).disk && final.starts == [request.mutation] && final.calls == map[]
  {
    hide Arguments, Release, Reserve, Run;
    var start := Admitted("active", ceiling);
    FirstReservation(broker, request, ceiling);
    FourSteps(broker, start, [Begin(0, request), ReserveUnit(0, Synced), Execute(0, execution), last]);
    var reserved := Step(broker, Step(broker, start, Begin(0, request)), ReserveUnit(0, Synced));
    var ran := Step(broker, reserved, Execute(0, execution));
    assert ran.calls == if execution.StartedThenFailed? then map[0 := Releasing(request)] else map[];
    assert ran.starts == [request.mutation];
  }

  lemma FourSteps(broker: Broker, system: System, actions: seq<Action>)
    requires |actions| == 4
    ensures Run(broker, system, actions) ==
      Step(broker, Step(broker, Step(broker, Step(broker, system, actions[0]), actions[1]), actions[2]), actions[3])
  {
    hide Step;
    var s1 := Step(broker, system, actions[0]);
    var s2 := Step(broker, s1, actions[1]);
    var rest := actions[1..];
    assert rest[1..] == [actions[2], actions[3]];
    TwoSteps(broker, s2, actions[2], actions[3]);
    assert Run(broker, s1, rest) == Run(broker, s2, rest[1..]);
  }

  lemma SecondAttempt(broker: Broker, system: System, request: Request)
    requires ValidCommand(request) && Arguments(broker, request).Some?
    requires system.calls == map[] && exists ceiling :: 1 <= ceiling <= 0xFFFF_FFFF_FFFF_FFFF && system.disk == Admitted("active", ceiling).disk
    ensures Run(broker, system, [Begin(1, request), ReserveUnit(1, Synced), Execute(1, Started(None, false, None))]).starts ==
      system.starts + [request.mutation]
  {
    var actions := [Begin(1, request), ReserveUnit(1, Synced), Execute(1, Started(None, false, None))];
    var begun := Step(broker, system, actions[0]);
    assert begun.calls == map[1 := Reconciling(request, [], [])];
    assert actions[1..] == [ReserveUnit(1, Synced), Execute(1, Started(None, false, None))];
    hide Arguments, Step;
    LostUnitRestarts(broker, begun, 1, Started(None, false, None));
  }

  // ----- confirmed outputs -----

  /** Nothing is confirmed for a mutation but what the command line vouched for, the id its own started
      create printed, or the id of a tracker issue carrying this Run and mutation's reference. */
  lemma ConfirmedIsMatched(broker: Broker, state: string, ceiling: nat, actions: seq<Action>, ledger: Ledger, output: Output)
    requires ledger in Run(broker, Admitted(state, ceiling), actions).disk.Candidates() && output in ledger.outputs
    ensures Matched(broker, Run(broker, Admitted(state, ceiling), actions), output)
  {
    Reachable(broker, state, ceiling, actions);
    hide Run, Admitted, CallsSound, OneOwner, IssuesStarted, StartedHeld, LedgersSane, Matched;
  }

  /** Reconciliation confirms only on an issue carrying this Run and mutation's reference. */
  lemma ReconcileCarriesReference(broker: Broker, system: System, call: nat, fault: PersistFault, ledger: Ledger, output: Output)
    requires Inv(broker, system)
    requires ledger in ReconcileStep(broker, system, call, fault).disk.Candidates() && output in ledger.outputs
    ensures || Issue(ExternalRef(broker, output.mutation), output.issue) in system.issues
            || (exists earlier :: earlier in system.disk.Candidates() && output in earlier.outputs)
  {
    if call in system.calls && system.calls[call].Reconciling? && system.calls[call].pending != [] {
      SnapshotIsOld(broker, system, call);
      var mutation := system.calls[call].pending[0];
      var id := FindIssue(system.calls[call].issues, ExternalRef(broker, mutation));
      var visible := system.disk.Visible();
      assert visible in system.disk.Candidates();
      hide Inv, ExternalRef;
      if id.Some? && ledger !in system.disk.Candidates() {
        var change := Confirm(visible, mutation, id.value);
        assert ledger == change.next.value && ledger.outputs == visible.outputs + [Output(mutation, id.value)];
        hide Confirm;
      }
    }
  }

  // ----- refused arguments -----

  /** Reserved, never started, and in no call's hands. */
  ghost predicate Stranded(system: System, mutation: string) {
    && mutation !in system.starts
    && (forall ledger :: ledger in system.disk.Candidates() ==> Waiting(ledger, mutation))
    && forall call :: call in system.calls && Owns(system.calls[call]) ==> system.calls[call].request.mutation != mutation
  }

  /** Arguments are checked only after the reservation: of a mutation first reserved by this call, a refusal
      strands the unit, and nothing else about the execution does. */
  lemma RefusalStrands(broker: Broker, system: System, call: nat, execution: Execution)
    requires Inv(broker, system) && call in system.calls && system.calls[call].Reconciling? && system.calls[call].pending == []
    requires var mutation := system.calls[call].request.mutation;
      mutation !in system.forfeited && Reserve(system.disk.Visible(), mutation, 1).reply == Success(Reserved)
    ensures var request := system.calls[call].request;
      Stranded(Run(broker, system, [ReserveUnit(call, Synced), Execute(call, execution)]), request.mutation)
      <==> Arguments(broker, request).None?
  {
    var request := system.calls[call].request;
    var mutation := request.mutation;
    TwoSteps(broker, system, ReserveUnit(call, Synced), Execute(call, execution));
    VisibleIsStorable(broker, system);
    ReserveKeeps(system.disk.Visible(), mutation, 1);
    NobodyOwns(broker, system, mutation);
    hide Inv, Arguments, Reserve, Sane, Waiting, Held;
    var reserved := Step(broker, system, ReserveUnit(call, Synced));
    assert reserved.disk == Disk(Reserve(system.disk.Visible(), mutation, 1).next.value, []);
    assert reserved.calls[call] == Holding(request);
    var next := Step(broker, reserved, Execute(call, execution));
    if Arguments(broker, request).Some? {
      if execution.NotStarted? {
        assert next.calls[call] == Releasing(request);
      } else {
        assert next.starts[|system.starts|] == mutation;
      }
    }
  }

  /** The command line is not used to settle this mutation by hand. */
  predicate Unsettled(action: Action, mutation: string) {
    !(action.OutsideRelease? && action.mutation == mutation) && !(action.OutsideConfirm? && action.mutation == mutation)
  }

  /** Until someone settles it by hand, a stranded unit is never used and never given back: no call can
      retry the mutation. */
  lemma {:induction false} StrandedForever(broker: Broker, system: System, actions: seq<Action>, mutation: string)
    requires Inv(broker, system) && Stranded(system, mutation)
    requires forall action :: action in actions ==> Unsettled(action, mutation)
    ensures Stranded(Run(broker, system, actions), mutation)
    decreases |actions|
  {
    hide Inv, Step, Stranded;
    if actions != [] {
      assert actions[0] in actions;
      StepKeepsInv(broker, system, actions[0]);
      StepKeepsStranded(broker, system, actions[0], mutation);
      assert forall action :: action in actions[1..] ==> action in actions;
      StrandedForever(broker, Step(broker, system, actions[0]), actions[1..], mutation);
    }
  }

  lemma StepKeepsStranded(broker: Broker, system: System, action: Action, mutation: string)
    requires Inv(broker, system) && Stranded(system, mutation) && Unsettled(action, mutation)
    ensures Stranded(Step(broker, system, action), mutation)
  {
    hide Inv, Reserve, Release, Confirm, Arguments, Waiting, ReserveStep, ReconcileStep, FinishStep;
    match action {
      case Reconcile(call, fault) => ReconcileKeepsStranded(broker, system, call, fault, mutation);
      case ReserveUnit(call, fault) => ReserveKeepsStranded(broker, system, call, fault, mutation);
      case Finish(call, fault) => FinishKeepsStranded(broker, system, call, fault, mutation);
      case _ =>
        if action.OutsideReserve? || action.OutsideConfirm? || action.OutsideRelease? {
          OutsideKeepsStranded(broker, system, action, mutation);
        } else {
          OthersKeepStranded(broker, system, action, mutation);
        }
    }
  }

  lemma OthersKeepStranded(broker: Broker, system: System, action: Action, mutation: string)
    requires Stranded(system, mutation)
    requires action.Begin? || action.ListIssues? || action.Execute? || action.Kill? || action.Adjust? || action.OtherIssue? || action.LosePower?
    ensures Stranded(Step(broker, system, action), mutation)
  {
    hide Arguments, Listed;
    assert system.disk.Visible() in system.disk.Candidates();
  }

  lemma OutsideKeepsStranded(broker: Broker, system: System, action: Action, mutation: string)
    requires Inv(broker, system) && Stranded(system, mutation) && Unsettled(action, mutation)
    requires action.OutsideReserve? || action.OutsideConfirm? || action.OutsideRelease?
    ensures Stranded(Step(broker, system, action), mutation)
  {
    var visible := system.disk.Visible();
    assert visible in system.disk.Candidates();
    VisibleIsStorable(broker, system);
    hide Inv, Reserve, Release, Confirm, Waiting, Sane, Held;
    match action {
      case OutsideReserve(other, units, fault) => ReserveKeeps(visible, other, units);
      case OutsideConfirm(other, issue, fault) => ConfirmKeeps(visible, other, issue);
      case OutsideRelease(other, fault) => ReleaseKeeps(visible, other);
    }
  }

  lemma ReserveKeepsStranded(broker: Broker, system: System, call: nat, fault: PersistFault, mutation: string)
    requires Inv(broker, system) && Stranded(system, mutation)
    ensures Stranded(ReserveStep(system, call, fault), mutation)
  {
    var visible := system.disk.Visible();
    assert visible in system.disk.Candidates();
    VisibleIsStorable(broker, system);
    hide Inv, Sane, Reserve, HasOutput, Matched, Waiting;
    if call in system.calls && system.calls[call].Reconciling? {
      ReserveKeeps(visible, system.calls[call].request.mutation, 1);
    }
  }

  lemma ReconcileKeepsStranded(broker: Broker, system: System, call: nat, fault: PersistFault, mutation: string)
    requires Inv(broker, system) && Stranded(system, mutation)
    ensures Stranded(ReconcileStep(broker, system, call, fault), mutation)
  {
    var visible := system.disk.Visible();
    assert visible in system.disk.Candidates();
    VisibleIsStorable(broker, system);
    if call in system.calls && system.calls[call].Reconciling? && system.calls[call].pending != [] {
      SnapshotIsOld(broker, system, call);
      var other := system.calls[call].pending[0];
      var id := FindIssue(system.calls[call].issues, ExternalRef(broker, other));
      if id.Some? {
        FoundIsStorable(broker, system, other, id.value);
        ConfirmKeeps(visible, other, id.value);
      }
      hide Inv, Confirm, Waiting, Storable, Sane;
    }
  }

  lemma FinishKeepsStranded(broker: Broker, system: System, call: nat, fault: PersistFault, mutation: string)
    requires Inv(broker, system) && Stranded(system, mutation)
    ensures Stranded(FinishStep(system, call, fault), mutation)
  {
    var visible := system.disk.Visible();
    assert visible in system.disk.Candidates();
    VisibleIsStorable(broker, system);
    hide Inv, Held, Sane, Waiting;
    if call in system.calls && system.calls[call].Releasing? {
      ReleaseKeeps(visible, system.calls[call].request.mutation);
      hide Release;
    } else if call in system.calls && system.calls[call].Confirming? {
      ConfirmKeeps(visible, system.calls[call].request.mutation, system.calls[call].issue);
      hide Confirm;
    }
  }
}
