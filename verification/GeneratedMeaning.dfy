/**
 What the ledger calls and a reconciliation leave, spelled out mutation by mutation: units held, issues
 recorded, and what every other mutation keeps.
 */
module GeneratedMeaning {
  import opened Integers
  import opened Sequences
  import opened Results
  import opened Disk
  import opened GeneratedLedger
  import opened GeneratedWork
  import opened GeneratedBrokers

  // ----- units -----

  lemma UnitsCons(head: Reservation, tail: seq<Reservation>, mutation: string)
    ensures UnitsOf([head] + tail, mutation) == if head.mutation == mutation then head.units else UnitsOf(tail, mutation)
  {
    assert ([head] + tail)[1..] == tail;
  }

  lemma {:induction false} LessOneUnits(pending: seq<Reservation>, mutation: string, other: string)
    requires Distinct(pending) && Listed(pending, mutation)
    ensures UnitsOf(LessOne(pending, mutation), other) == UnitsOf(pending, other) - (if other == mutation then 1 else 0)
  {
    hide Distinct, Listed;
    NothingListed();
    var head, tail := pending[0], pending[1..];
    assert pending == [head] + tail;
    DistinctCons(head, tail);
    ListedCons(head, tail, mutation);
    UnlistedHasNoUnits(tail, head.mutation);
    UnitsCons(head, tail, other);
    if head.mutation == mutation {
      UnitsCons(head.(units := head.units - 1), tail, other);
    } else {
      LessOneUnits(tail, mutation, other);
      UnitsCons(head, LessOne(tail, mutation), other);
    }
  }

  lemma {:induction false} WithoutUnits(pending: seq<Reservation>, mutation: string, other: string)
    requires Distinct(pending)
    ensures UnitsOf(Without(pending, mutation), other) == if other == mutation then 0 else UnitsOf(pending, other)
  {
    hide Distinct, Listed;
    if pending != [] {
      var head, tail := pending[0], pending[1..];
      assert pending == [head] + tail;
      DistinctCons(head, tail);
      UnlistedHasNoUnits(tail, head.mutation);
      UnitsCons(head, tail, other);
      WithoutUnits(tail, mutation, other);
      UnitsCons(head, Without(tail, mutation), other);
    }
  }

  lemma {:induction false} AppendUnits(pending: seq<Reservation>, last: Reservation, other: string)
    requires !Listed(pending, last.mutation)
    ensures UnitsOf(pending + [last], other) == if other == last.mutation then last.units else UnitsOf(pending, other)
  {
    hide Listed;
    if pending == [] {
      UnitsCons(last, [], other);
      assert pending + [last] == [last] + [];
    } else {
      var head, tail := pending[0], pending[1..];
      assert pending == [head] + tail;
      ListedCons(head, tail, last.mutation);
      AppendUnits(tail, last, other);
      UnitsCons(head, tail, other);
      UnitsCons(head, tail + [last], other);
      assert pending + [last] == [head] + (tail + [last]);
    }
  }

  /** The units each mutation holds, and how many of them `held` gives to one of them. */
  ghost predicate UnitsChange(before: Ledger, after: Ledger, mutation: string, held: nat) {
    && UnitsOf(after.pending, mutation) == held
    && forall other :: other != mutation ==> UnitsOf(after.pending, other) == UnitsOf(before.pending, other)
  }

  /** Reserving, case by case: what is recorded or already held wins, then a Run that is not active, then
      the ceiling, which parks the Run; otherwise exactly the units asked for are held and counted. */
  lemma ReserveMeans(ledger: Ledger, mutation: string, units: nat)
    requires Sane(ledger) && 0 < units
    ensures var change := Reserve(ledger, mutation, units);
      var recorded := exists k :: 0 <= k < |ledger.outputs| && ledger.outputs[k].mutation == mutation;
      var free := !recorded && UnitsOf(ledger.pending, mutation) == 0;
      var total := ledger.consumed + ledger.reserved + units;
      && (change.reply == Success(Consumed) <==> recorded)
      && (change.reply == Success(Pending) <==> !recorded && 0 < UnitsOf(ledger.pending, mutation))
      && (change.reply == Success(Exhausted) <==>
          free && (ledger.state == "parked" || (ledger.state == "active" && ledger.ceiling < total <= MAX_U64)))
      && (change.reply == Success(Reserved) <==> free && ledger.state == "active" && total <= ledger.ceiling && total <= MAX_U64)
      && (change.next.Some? <==>
          change.reply == Success(Reserved) || (change.reply == Success(Exhausted) && ledger.state == "active"))
      && (change.next.Some? && change.reply == Success(Exhausted) ==> change.next.value == ledger.(state := "parked"))
      && (change.reply == Success(Reserved) ==>
          && change.next.value.state == "active" && change.next.value.ceiling == ledger.ceiling
          && change.next.value.consumed == ledger.consumed && change.next.value.reserved == ledger.reserved + units
          && change.next.value.outputs == ledger.outputs
          && UnitsChange(ledger, change.next.value, mutation, units))
  {
    UnitsBound(ledger.pending, mutation);
    hide Distinct, Listed, Total, UnitsOf;
    if !Listed(ledger.pending, mutation) {
      forall other {
        AppendUnits(ledger.pending, Reservation(mutation, units), other);
      }
    }
  }

  /** Confirming records a further output exactly for a mutation that holds a unit and whose first output is
      another one, and turns one held unit into a consumed one; repeating the first output changes nothing;
      anything else is refused. */
  lemma ConfirmMeans(ledger: Ledger, mutation: string, issue: string)
    requires Sane(ledger)
    ensures var change := Confirm(ledger, mutation, issue);
      var repeated := IssueOf(ledger.outputs, mutation) == Some(issue);
      && (change.reply.Success? <==> issue != "" && (repeated || 0 < UnitsOf(ledger.pending, mutation)))
      && (change.next.Some? <==> issue != "" && !repeated && 0 < UnitsOf(ledger.pending, mutation))
      && (change.next.Some? ==>
          var next := change.next.value;
          && Sane(next)
          && next.state == ledger.state && next.ceiling == ledger.ceiling
          && next.consumed == ledger.consumed + 1 && next.reserved == ledger.reserved - 1
          && next.outputs == ledger.outputs + [Output(mutation, issue)]
          && UnitsChange(ledger, next, mutation, UnitsOf(ledger.pending, mutation) - 1))
  {
    UnitsBound(ledger.pending, mutation);
    ConfirmKeeps(ledger, mutation, issue);
    hide Distinct, Listed, Total, UnitsOf, IssueOf, Held;
    if Listed(ledger.pending, mutation) {
      forall other {
        LessOneUnits(ledger.pending, mutation, other);
      }
    }
  }

  /** Releasing takes back all the units a mutation holds and nothing else; it never fails. */
  lemma ReleaseMeans(ledger: Ledger, mutation: string)
    requires Sane(ledger)
    ensures var change := Release(ledger, mutation);
      && change.reply == Success(())
      && (change.next.Some? <==> 0 < UnitsOf(ledger.pending, mutation))
      && (change.next.Some? ==>
          var next := change.next.value;
          && Sane(next)
          && next.state == ledger.state && next.ceiling == ledger.ceiling
          && next.consumed == ledger.consumed && next.outputs == ledger.outputs
          && next.reserved == ledger.reserved - UnitsOf(ledger.pending, mutation)
          && UnitsChange(ledger, next, mutation, 0))
  {
    UnitsBound(ledger.pending, mutation);
    ReleaseKeeps(ledger, mutation);
    hide Distinct, Listed, Total, UnitsOf, Held;
    forall other {
      WithoutUnits(ledger.pending, mutation, other);
    }
  }

  // ----- reconciliation -----

  /** The first listed issue under this reference. */
  ghost predicate FirstUnder(issues: seq<Issue>, externalRef: string, id: string) {
    exists k :: 0 <= k < |issues| && issues[k] == Issue(externalRef, id)
      && forall j :: 0 <= j < k ==> issues[j].externalRef != externalRef
  }

  /** Looking a reference up in the listing gives the first issue under it, and none exactly if none has it. */
  lemma {:induction false} FindIssueMeans(issues: seq<Issue>, externalRef: string)
    ensures match FindIssue(issues, externalRef)
      case Some(id) => FirstUnder(issues, externalRef, id)
      case None => forall k :: 0 <= k < |issues| ==> issues[k].externalRef != externalRef
  {
    if issues != [] {
      var rest := issues[1..];
      FindIssueMeans(rest, externalRef);
      if issues[0].externalRef == externalRef {
        assert issues[0] == Issue(externalRef, issues[0].id);
      } else if FindIssue(rest, externalRef).Some? {
        var k :| 0 <= k < |rest| && rest[k] == Issue(externalRef, FindIssue(rest, externalRef).value)
          && forall j :: 0 <= j < k ==> rest[j].externalRef != externalRef;
        assert issues[k + 1] == rest[k];
        forall j | 0 <= j < k + 1 ensures issues[j].externalRef != externalRef {
          if 0 < j { assert issues[j] == rest[j - 1]; }
        }
      } else {
        forall k | 0 <= k < |issues| ensures issues[k].externalRef != externalRef {
          if 0 < k { assert issues[k] == rest[k - 1]; }
        }
      }
    }
  }

  /** The issue the listing shows for a mutation, if any. */
  function Shown(broker: Broker, issues: seq<Issue>, mutation: string): Option<string> {
    FindIssue(issues, ExternalRef(broker, mutation))
  }

  /** Every pending mutation's issue, where one is shown, has an id and is recorded already or stored. */
  ghost predicate AllStored(broker: Broker, ledger: Ledger, pending: seq<string>, issues: seq<Issue>, from: nat, env: Env) {
    forall i :: 0 <= i < |pending| && Shown(broker, issues, pending[i]).Some? ==>
      var id := Shown(broker, issues, pending[i]).value;
      id != "" && (IssueOf(ledger.outputs, pending[i]) == Some(id) || env.confirmFault(from + i) == Synced)
  }

  /** One mutation before and after: a shown issue that was not its first output uses up one unit, and is its
      first output unless it had one. */
  ghost predicate Settled1(before: Ledger, after: Ledger, mutation: string, shown: Option<string>) {
    var first := IssueOf(before.outputs, mutation);
    && IssueOf(after.outputs, mutation) == (if first.Some? then first else shown)
    && UnitsOf(after.pending, mutation) ==
       UnitsOf(before.pending, mutation) - (if shown.Some? && shown != first then 1 else 0)
  }

  ghost predicate SettledIn(broker: Broker, before: Ledger, after: Ledger, pending: seq<string>, issues: seq<Issue>, mutation: string) {
    Settled1(before, after, mutation, if mutation in pending then Shown(broker, issues, mutation) else None)
  }

  /** Reconciling settles exactly the mutations listed as pending. */
  ghost predicate Settles(broker: Broker, before: Ledger, after: Ledger, pending: seq<string>, issues: seq<Issue>) {
    && Sane(after) && after.state == before.state && after.ceiling == before.ceiling
    && forall mutation :: SettledIn(broker, before, after, pending, issues, mutation)
  }

  lemma {:induction false} FirstStays(outputs: seq<Output>, last: Output, mutation: string)
    ensures IssueOf(outputs + [last], mutation) ==
      if IssueOf(outputs, mutation).Some? then IssueOf(outputs, mutation)
      else if last.mutation == mutation then Some(last.issue) else None
  {
    if outputs == [] {
      assert outputs + [last] == [last] && [last][1..] == [];
    } else {
      assert (outputs + [last])[1..] == outputs[1..] + [last];
      FirstStays(outputs[1..], last, mutation);
    }
  }

  lemma NothingSettles(broker: Broker, ledger: Ledger, issues: seq<Issue>)
    requires Sane(ledger)
    ensures Settles(broker, ledger, ledger, [], issues)
  {
    hide Sane, IssueOf, UnitsOf;
  }

  /** Settling one mutation and then the rest settles them all. */
  lemma SettlesThen(broker: Broker, before: Ledger, middle: Ledger, after: Ledger, pending: seq<string>, issues: seq<Issue>)
    requires pending != [] && Unrepeated(pending)
    requires middle.state == before.state && middle.ceiling == before.ceiling
    requires forall mutation :: SettledIn(broker, before, middle, [pending[0]], issues, mutation)
    requires Settles(broker, middle, after, pending[1..], issues)
    ensures Settles(broker, before, after, pending, issues)
  {
    hide Sane, IssueOf, UnitsOf, Shown;
    var rest := pending[1..];
    forall mutation ensures SettledIn(broker, before, after, pending, issues, mutation) {
      assert SettledIn(broker, before, middle, [pending[0]], issues, mutation);
      assert SettledIn(broker, middle, after, rest, issues, mutation);
      assert mutation in pending <==> mutation == pending[0] || mutation in rest;
      assert pending[0] !in rest;
    }
  }

  /** A reconciliation that nothing interrupts goes through exactly when each shown issue has an id and is
      recorded already or stored; it then settles every pending mutation by what the listing shows for it,
      and touches nothing else. */
  lemma {:induction false} ReconcileMeans(broker: Broker, system: System, request: Request, pending: seq<string>,
                                          issues: seq<Issue>, from: nat, env: Env)
    requires system.calls == map[0 := Reconciling(request, pending, issues)] && Unrepeated(pending)
    requires Sane(system.disk.Visible()) && forall mutation :: mutation in pending ==> 0 < UnitsOf(system.disk.Visible().pending, mutation)
    ensures var final := Run(broker, system, Reconciles(|pending|, from, env));
      && (0 in final.calls <==> AllStored(broker, system.disk.Visible(), pending, issues, from, env))
      && (0 in final.calls ==>
          && final == system.(disk := final.disk, calls := map[0 := Reconciling(request, [], issues)])
          && Settles(broker, system.disk.Visible(), final.disk.Visible(), pending, issues))
    decreases |pending|
  {
    hide Step, Sane, UnitsOf, IssueOf, Settles, AllStored;
    if pending == [] {
      NothingSettles(broker, system.disk.Visible(), issues);
      NothingStored(broker, system.disk.Visible(), issues, from, env);
    } else {
      var phase := Reconciling(request, pending, issues);
      var fault := env.confirmFault(from);
      var action := Reconcile(0, fault);
      var rest := Reconciles(|pending| - 1, from + 1, env);
      var next := Step(broker, system, action);
      RunOne(broker, system, action, rest);
      FirstReconciled(broker, system, request, pending, issues, from, env);
      if 0 in next.calls {
        ReconcileMeans(broker, next, request, pending[1..], issues, from + 1, env);
        if 0 in Run(broker, next, rest).calls {
          SettlesThen(broker, system.disk.Visible(), next.disk.Visible(), Run(broker, next, rest).disk.Visible(), pending, issues);
        }
      } else {
        ReconcilesAreOfCall(|pending| - 1, from + 1, env);
        EndedStays(broker, next, rest);
      }
    }
  }

  lemma NothingStored(broker: Broker, ledger: Ledger, issues: seq<Issue>, from: nat, env: Env)
    ensures AllStored(broker, ledger, [], issues, from, env)
  {
  }

  /** Whether the first pending mutation can be settled. */
  predicate Settleable(ledger: Ledger, mutation: string, shown: Option<string>, fault: PersistFault) {
    shown.Some? ==> shown.value != "" && (IssueOf(ledger.outputs, mutation) == shown || fault == Synced)
  }

  /** The reconciliation of the first pending mutation, and what it leaves to the rest. */
  lemma FirstReconciled(broker: Broker, system: System, request: Request, pending: seq<string>,
                        issues: seq<Issue>, from: nat, env: Env)
    requires system.calls == map[0 := Reconciling(request, pending, issues)] && Unrepeated(pending) && pending != []
    requires Sane(system.disk.Visible()) && forall mutation :: mutation in pending ==> 0 < UnitsOf(system.disk.Visible().pending, mutation)
    ensures var next := Step(broker, system, Reconcile(0, env.confirmFault(from)));
      var before, after := system.disk.Visible(), next.disk.Visible();
      var shown := Shown(broker, issues, pending[0]);
      && (next.calls == map[] || next.calls == map[0 := Reconciling(request, pending[1..], issues)])
      && (0 in next.calls <==> Settleable(before, pending[0], shown, env.confirmFault(from)))
      && next == system.(disk := next.disk, calls := next.calls)
      && Unrepeated(pending[1..])
      && (0 in next.calls ==>
          && Sane(after) && after.state == before.state && after.ceiling == before.ceiling
          && (forall mutation :: SettledIn(broker, before, after, [pending[0]], issues, mutation))
          && (forall mutation :: mutation in pending[1..] ==> 0 < UnitsOf(after.pending, mutation))
          && (AllStored(broker, before, pending, issues, from, env) <==>
              AllStored(broker, after, pending[1..], issues, from + 1, env)))
      && (0 !in next.calls ==> !AllStored(broker, before, pending, issues, from, env))
  {
    hide Sane, UnitsOf, IssueOf, Confirm, AllStored;
    var phase := Reconciling(request, pending, issues);
    var fault := env.confirmFault(from);
    ReconcileAlone(broker, system, phase, fault);
    var before := system.disk.Visible();
    var next := Step(broker, system, Reconcile(0, fault));
    var shown := Shown(broker, issues, pending[0]);
    assert pending[0] in pending;
    if shown.Some? { ConfirmMeans(before, pending[0], shown.value); }
    if 0 in next.calls {
      forall mutation ensures SettledIn(broker, before, next.disk.Visible(), [pending[0]], issues, mutation) {
        if shown.Some? { ConfirmSettles(before, pending[0], shown.value, mutation); }
      }
    }
    hide Step;
    var after := next.disk.Visible();
    StoredSplit(broker, before, pending, issues, from, env);
    if 0 in next.calls {
      RestStored(broker, before, after, pending, issues, from, env);
      hide Settled1;
      forall mutation | mutation in pending[1..] ensures 0 < UnitsOf(after.pending, mutation) {
        assert mutation in pending && mutation != pending[0];
        assert SettledIn(broker, before, after, [pending[0]], issues, mutation);
        OthersKeepUnits(before, after, mutation);
      }
    }
  }

  lemma OthersKeepUnits(before: Ledger, after: Ledger, mutation: string)
    requires Settled1(before, after, mutation, None)
    ensures UnitsOf(after.pending, mutation) == UnitsOf(before.pending, mutation)
  {
  }

  lemma ConfirmSettles(ledger: Ledger, mutation: string, issue: string, other: string)
    requires Sane(ledger) && 0 < UnitsOf(ledger.pending, mutation)
    ensures var change := Confirm(ledger, mutation, issue);
      change.reply.Success? ==>
        Settled1(ledger, if change.next.Some? then change.next.value else ledger, other,
                 if other == mutation then Some(issue) else None)
  {
    ConfirmMeans(ledger, mutation, issue);
    hide Sane, UnitsOf, IssueOf, Confirm;
    FirstStays(ledger.outputs, Output(mutation, issue), other);
  }

  lemma StoredSplit(broker: Broker, ledger: Ledger, pending: seq<string>, issues: seq<Issue>, from: nat, env: Env)
    requires pending != []
    ensures AllStored(broker, ledger, pending, issues, from, env) <==>
      && Settleable(ledger, pending[0], Shown(broker, issues, pending[0]), env.confirmFault(from))
      && AllStored(broker, ledger, pending[1..], issues, from + 1, env)
  {
    hide IssueOf, Shown;
    var rest := pending[1..];
    if AllStored(broker, ledger, rest, issues, from + 1, env) {
      forall i | 0 < i < |pending| && Shown(broker, issues, pending[i]).Some?
        ensures var id := Shown(broker, issues, pending[i]).value;
          id != "" && (IssueOf(ledger.outputs, pending[i]) == Some(id) || env.confirmFault(from + i) == Synced)
      {
        assert rest[i - 1] == pending[i];
      }
    }
    if AllStored(broker, ledger, pending, issues, from, env) {
      forall i | 0 <= i < |rest| && Shown(broker, issues, rest[i]).Some?
        ensures var id := Shown(broker, issues, rest[i]).value;
          id != "" && (IssueOf(ledger.outputs, rest[i]) == Some(id) || env.confirmFault(from + 1 + i) == Synced)
      {
        assert rest[i] == pending[i + 1];
      }
    }
  }

  lemma RestStored(broker: Broker, before: Ledger, after: Ledger, pending: seq<string>, issues: seq<Issue>, from: nat, env: Env)
    requires pending != [] && Unrepeated(pending)
    requires forall mutation :: SettledIn(broker, before, after, [pending[0]], issues, mutation)
    ensures AllStored(broker, before, pending[1..], issues, from + 1, env) <==>
      AllStored(broker, after, pending[1..], issues, from + 1, env)
  {
    hide IssueOf, Shown, UnitsOf;
    var rest := pending[1..];
    forall i | 0 <= i < |rest| ensures IssueOf(before.outputs, rest[i]) == IssueOf(after.outputs, rest[i]) {
      assert rest[i] == pending[i + 1] != pending[0];
      assert SettledIn(broker, before, after, [pending[0]], issues, rest[i]);
    }
  }

  /** What the ledger a whole call decides on is: every mutation that was pending settled by the listing. */
  lemma CallReconciles(broker: Broker, system: System, request: Request, env: Env)
    requires system.calls == map[] && (request.command == "create" || request.command == "q")
    requires Sane(system.disk.Visible()) && (env.lists || system.disk.Visible().pending == [])
    ensures var before := system.disk.Visible();
      var pending := PendingIds(before.pending);
      var middle := Reconciled(broker, system, request, env);
      && (0 in middle.calls <==> AllStored(broker, before, pending, system.issues, 0, env))
      && (0 in middle.calls ==> Settles(broker, before, middle.disk.Visible(), pending, system.issues))
  {
    var before := system.disk.Visible();
    var pending := PendingIds(before.pending);
    PendingHolds(before);
    Opening(broker, system, request, env);
    hide Step, Sane, UnitsOf, Settles, AllStored;
    var first := Step(broker, Step(broker, system, Begin(0, request)), ListIssues(0, env.lists));
    ReconcileMeans(broker, first, request, pending, if pending == [] then [] else system.issues, 0, env);
    if pending == [] {
      NothingStored(broker, before, system.issues, 0, env);
      NothingStored(broker, before, [], 0, env);
      NoneSettle(broker, before, Reconciled(broker, system, request, env).disk.Visible(), system.issues);
    }
  }

  lemma PendingHolds(ledger: Ledger)
    requires Sane(ledger)
    ensures Unrepeated(PendingIds(ledger.pending))
    ensures forall mutation :: mutation in PendingIds(ledger.pending) ==> 0 < UnitsOf(ledger.pending, mutation)
  {
    var ids := PendingIds(ledger.pending);
    forall mutation | mutation in ids ensures 0 < UnitsOf(ledger.pending, mutation) {
      var i :| 0 <= i < |ids| && ids[i] == mutation;
      assert ledger.pending[i].mutation == mutation;
      UnitsBound(ledger.pending, mutation);
    }
  }

  lemma NoneSettle(broker: Broker, before: Ledger, after: Ledger, issues: seq<Issue>)
    ensures Settles(broker, before, after, [], []) ==> Settles(broker, before, after, [], issues)
  {
    hide Sane, IssueOf, UnitsOf;
    if Settles(broker, before, after, [], []) {
      forall mutation ensures SettledIn(broker, before, after, [], issues, mutation) {
        assert SettledIn(broker, before, after, [], [], mutation);
      }
    }
  }

  // ----- references -----

  /** References of different Runs differ whatever the mutation, as no Run id holds a slash. */
  lemma ReferencesNameRuns(a: Broker, b: Broker, one: string, other: string)
    requires '/' !in a.run && '/' !in b.run
    requires ExternalRef(a, one) == ExternalRef(b, other)
    ensures a.run == b.run && one == other
  {
    var start := |"louiselm-run/"|;
    var text := ExternalRef(a, one);
    assert text[start..] == a.run + ("/mutation/" + one);
    assert text[start..] == b.run + ("/mutation/" + other);
    SlashEnds(a.run, b.run, "/mutation/" + one, "/mutation/" + other);
    assert ("/mutation/" + one)[10..] == one && ("/mutation/" + other)[10..] == other;
  }

  lemma SlashEnds(a: string, b: string, after: string, behind: string)
    requires '/' !in a && '/' !in b && a + after == b + behind
    requires after != [] && after[0] == '/' && behind != [] && behind[0] == '/'
    ensures a == b && after == behind
  {
    assert (a + after)[|a|] == '/' && (b + behind)[|b|] == '/';
    if |a| < |b| { assert (b + behind)[|a|] == b[|a|]; }
    if |b| < |a| { assert (a + after)[|b|] == a[|b|]; }
    assert (a + after)[..|a|] == a && (b + behind)[..|a|] == b;
    assert (a + after)[|a|..] == after && (b + behind)[|a|..] == behind;
  }
}
