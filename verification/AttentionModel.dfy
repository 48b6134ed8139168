/** Attention conditions, their validation, and the persisted record. */
module AttentionModel {
  import opened Integers
  import opened Results
  import opened Text
  import opened Hex

  const SCHEMA_VERSION := 1
  const MAX_SUBJECT_BYTES := 256
  const MAX_STAGE_BYTES := 64

  datatype SubjectKind = Session | Run | Supply {
    function Rank(): nat {
      match this case Session => 0 case Run => 1 case Supply => 2
    }
  }

  datatype Kind =
    | TurnReady | PermissionRequired | RunParked | SessionFailed
    | SkillApprovalPending | SkillUnverified | EndorsementWithdrawn
  {
    function Rank(): nat {
      match this
      case TurnReady => 0
      case PermissionRequired => 1
      case RunParked => 2
      case SessionFailed => 3
      case SkillApprovalPending => 4
      case SkillUnverified => 5
      case EndorsementWithdrawn => 6
    }

    function Reason(): string {
      match this
      case TurnReady => "Agent turn is ready"
      case PermissionRequired => "Permission is required"
      case RunParked => "Run is Parked"
      case SessionFailed => "Session failed"
      case SkillApprovalPending => "Skill approval is pending"
      case SkillUnverified => "Skill supply is unverified"
      case EndorsementWithdrawn => "Endorsement was withdrawn"
    }
  }

  datatype Code =
    | AdmissionRequired | RootTrustFailed | SignatureInvalid | WitnessMissing
    | NativeSupplyUncertain | RuntimeDrift | IsolationFailed | BrokerUnavailable
    | AuditPersistenceUnavailable | ProviderDisclosureMissing | EvidenceMissing
    | EvidenceInvalidated | Quarantined | UnknownFailure

  datatype Urgency = ReliedOn | SubjectOnly

  datatype Withdrawal = Withdrawal(
    packageDigest: string, withdrawalDigest: string, endorser: string, urgency: Urgency)

  /** Identity of one retry-safe condition. */
  datatype Key = Key(subjectKind: SubjectKind, subjectId: string, kind: Kind, sourceOperationId: string)

  datatype Draft = Draft(
    key: Key, createdAtMs: nat, linkedRunId: Option<string>, stage: Option<string>,
    code: Option<Code>, withdrawal: Option<Withdrawal>)

  datatype Item = Item(
    key: Key, createdAtMs: nat, eligible: bool, reason: string, linkedRunId: Option<string>,
    stage: Option<string>, code: Option<Code>, withdrawal: Option<Withdrawal>)

  /** The card a draft becomes. */
  function ItemOf(draft: Draft, createdAtMs: nat, eligible: bool): Item {
    Item(draft.key, createdAtMs, eligible, draft.key.kind.Reason(), draft.linkedRunId,
         draft.stage, draft.code, draft.withdrawal)
  }

  /** Everything a reader sees except delivery eligibility. */
  predicate SameContent(left: Item, right: Item) {
    left == right.(eligible := left.eligible)
  }

  datatype Change =
    | UpsertCondition(attention: Draft)
    | ClearCondition(key: Key)
    | ClearSubject(subjectKind: SubjectKind, subjectId: string)

  /** One entry of the broker's ordered outbox. */
  datatype Projection = Projection(sequence: nat, change: Change)

  datatype Cursor = Cursor(sequence: nat, digest: string)

  datatype State = State(schemaVersion: nat, generation: nat, items: seq<Item>, cursor: Option<Cursor>) {
    function Sequence(): nat {
      match cursor case None => 0 case Some(c) => c.sequence
    }
  }

  const EMPTY := State(SCHEMA_VERSION, 0, [], None)

  datatype Snapshot = Snapshot(generation: nat, items: seq<Item>)

  datatype ProjectionResult = ProjectionResult(sequence: nat, digest: string, applied: bool)

  datatype AttentionError =
    | InvalidInput | InvalidStored | NotFound | SequenceConflict | SequenceGap
    | GenerationOverflow | Storage | RunUnavailable

  // ----- validation -----

  predicate ValidSubjectId(id: string) {
    && id != []
    && Utf8Length(id) <= MAX_SUBJECT_BYTES
    && forall i :: 0 <= i < |id| ==> !IsControl(id[i]) && !IsWhitespace(id[i])
  }

  predicate ValidKey(key: Key) {
    && ValidSubjectId(key.subjectId)
    && (key.subjectKind == Run ==> IsCanonicalUuid(key.subjectId))
    && (key.subjectKind == Supply ==>
        IsOperatorUid(key.subjectId) && (key.kind == SkillApprovalPending || key.kind == EndorsementWithdrawn))
    && (key.kind == EndorsementWithdrawn ==> key.subjectKind == Supply)
    && IsCanonicalUuid(key.sourceOperationId)
  }

  predicate IsStageCharacter(c: char) {
    IsAsciiAlphanumeric(c) || c == '.' || c == '_' || c == '/' || c == '-'
  }

  predicate ValidStage(stage: Option<string>) {
    stage.Some? ==>
      && stage.value != []
      && Utf8Length(stage.value) <= MAX_STAGE_BYTES
      && forall i :: 0 <= i < |stage.value| ==> IsStageCharacter(stage.value[i])
  }

  predicate ValidContext(subjectKind: SubjectKind, linkedRun: Option<string>, stage: Option<string>) {
    && (subjectKind == Supply ==> linkedRun.None? && stage.None?)
    && (linkedRun.Some? ==> IsCanonicalUuid(linkedRun.value))
    && ValidStage(stage)
  }

  predicate ValidCode(kind: Kind, code: Option<Code>, stage: Option<string>) {
    && (match kind
        case SkillApprovalPending => code == Some(AdmissionRequired)
        case SkillUnverified => code.Some? && code != Some(AdmissionRequired)
        case _ => code.None?)
    && (kind == SkillApprovalPending || kind == SkillUnverified ==> stage.None?)
  }

  predicate IsPackageDigest(text: string) {
    "sha256:" <= text && IsDigestText(text[7..])
  }

  predicate ValidWithdrawal(kind: Kind, withdrawal: Option<Withdrawal>) {
    match withdrawal
    case None => kind != EndorsementWithdrawn
    case Some(w) =>
      && kind == EndorsementWithdrawn
      && IsPackageDigest(w.packageDigest)
      && IsPackageDigest(w.withdrawalDigest)
      && !IsBlank(w.endorser)
      && Utf8Length(w.endorser) <= 256
      && forall i :: 0 <= i < |w.endorser| ==> !IsControl(w.endorser[i])
  }

  predicate ValidDraft(draft: Draft) {
    && ValidKey(draft.key)
    && draft.createdAtMs != 0
    && ValidContext(draft.key.subjectKind, draft.linkedRunId, draft.stage)
    && ValidCode(draft.key.kind, draft.code, draft.stage)
    && ValidWithdrawal(draft.key.kind, draft.withdrawal)
  }

  predicate ValidItem(item: Item) {
    && ValidKey(item.key)
    && item.createdAtMs != 0
    && item.reason == item.key.kind.Reason()
    && ValidContext(item.key.subjectKind, item.linkedRunId, item.stage)
    && ValidCode(item.key.kind, item.code, item.stage)
    && ValidWithdrawal(item.key.kind, item.withdrawal)
  }

  predicate ValidProjection(projection: Projection) {
    && projection.sequence != 0
    && match projection.change
       case UpsertCondition(attention) => ValidDraft(attention)
       case ClearCondition(key) => ValidKey(key)
       case ClearSubject(subjectKind, subjectId) =>
         && subjectKind != Supply
         && ValidSubjectId(subjectId)
         && (subjectKind == Run ==> IsCanonicalUuid(subjectId))
  }

  predicate ValidCursor(cursor: Cursor) {
    cursor.sequence != 0 && IsDigestText(cursor.digest)
  }
}

/** The deterministic listing order and the lists it orders. */
module AttentionListing {
  import opened Results
  import opened TextOrder
  import opened AttentionModel

  function CompareKeys(left: Key, right: Key): Ordering {
    CompareNat(left.subjectKind.Rank(), right.subjectKind.Rank())
    .Then(CompareText(left.subjectId, right.subjectId))
    .Then(CompareNat(left.kind.Rank(), right.kind.Rank()))
    .Then(CompareText(left.sourceOperationId, right.sourceOperationId))
  }

  function CompareItems(left: Item, right: Item): Ordering {
    CompareNat(left.createdAtMs, right.createdAtMs).Then(CompareKeys(left.key, right.key))
  }

  lemma CompareKeysLaws(a: Key, b: Key, c: Key)
    ensures CompareKeys(a, b).Equal? <==> a == b
    ensures CompareKeys(b, a) == CompareKeys(a, b).Reverse()
    ensures Agree(CompareKeys(a, b), CompareKeys(b, c)) ==>
        CompareKeys(a, c) == CompareKeys(a, b).Then(CompareKeys(b, c))
  {
    hide CompareText;
    CompareTextLaws(a.subjectId, b.subjectId, c.subjectId);
    CompareTextLaws(a.sourceOperationId, b.sourceOperationId, c.sourceOperationId);
  }

  /** The listing order is a total order whose ties share creation time and key. */
  lemma CompareItemsLaws(a: Item, b: Item, c: Item)
    ensures CompareItems(a, b).Equal? <==> a.createdAtMs == b.createdAtMs && a.key == b.key
    ensures CompareItems(b, a) == CompareItems(a, b).Reverse()
    ensures Agree(CompareItems(a, b), CompareItems(b, c)) ==>
        CompareItems(a, c) == CompareItems(a, b).Then(CompareItems(b, c))
  {
    CompareKeysLaws(a.key, b.key, c.key);
  }

  predicate Sorted(items: seq<Item>) {
    forall i, j :: 0 <= i < j < |items| ==> !CompareItems(items[i], items[j]).Greater?
  }

  predicate KeyUnique(items: seq<Item>) {
    forall i, j :: 0 <= i < j < |items| ==> items[i].key != items[j].key
  }

  /** `items` holds exactly the values of `conditions`, each under its own key. */
  ghost predicate Contents(items: seq<Item>, conditions: map<Key, Item>) {
    && KeyUnique(items)
    && (forall item :: item in items ==> item.key in conditions && conditions[item.key] == item)
    && (forall key :: key in conditions ==> conditions[key] in items && conditions[key].key == key)
  }

  /** The canonical listing of a key-to-item map. */
  ghost predicate Lists(items: seq<Item>, conditions: map<Key, Item>) {
    Sorted(items) && Contents(items, conditions)
  }

  // ----- the listing is determined by the map -----

  /** A map has at most one canonical listing. */
  lemma {:induction false} ListingIsUnique(first: seq<Item>, second: seq<Item>, conditions: map<Key, Item>)
    requires Lists(first, conditions) && Lists(second, conditions)
    ensures first == second
  {
    forall item ensures item in Members(first) <==> item in Members(second) {
      if item in first { assert conditions[item.key] in second; }
      if item in second { assert conditions[item.key] in first; }
    }
    SameMembersSameList(first, second);
  }

  ghost function Members(items: seq<Item>): (members: set<Item>)
    ensures members == {} <==> items == []
    ensures forall item :: item in members <==> item in items
  {
    if items == [] then {} else {items[0]} + Members(items[1..])
  }

  lemma {:induction false} SameMembersSameList(first: seq<Item>, second: seq<Item>)
    requires Sorted(first) && KeyUnique(first)
    requires Sorted(second) && KeyUnique(second)
    requires Members(first) == Members(second)
    ensures first == second
  {
    hide CompareItems, Sorted, KeyUnique, Members;
    if first == [] {
    } else {
      HeadsAgree(first, second);
      TailIsListing(first);
      TailIsListing(second);
      SameMembersSameList(first[1..], second[1..]);
      assert first == [first[0]] + first[1..];
      assert second == [second[0]] + second[1..];
    }
  }

  lemma HeadsAgree(first: seq<Item>, second: seq<Item>)
    requires first != [] && second != []
    requires Sorted(first) && KeyUnique(first) && Sorted(second)
    requires Members(first) == Members(second)
    ensures first[0] == second[0]
  {
    assert first[0] in Members(first) && second[0] in Members(second);
    FirstIsLeast(first, second[0]);
    FirstIsLeast(second, first[0]);
    CompareItemsLaws(first[0], second[0], first[0]);
    var i :| 0 <= i < |first| && first[i] == second[0];
    assert i == 0;
  }

  lemma FirstIsLeast(items: seq<Item>, item: Item)
    requires Sorted(items) && item in items
    ensures !CompareItems(items[0], item).Greater?
  {
    var i :| 0 <= i < |items| && items[i] == item;
    if i == 0 { CompareItemsLaws(item, item, item); }
  }

  lemma TailIsListing(items: seq<Item>)
    requires items != [] && Sorted(items) && KeyUnique(items)
    ensures Sorted(items[1..]) && KeyUnique(items[1..])
    ensures Members(items[1..]) == Members(items) - {items[0]}
  {
    hide CompareItems;
    var head := items[0];
    forall item | item in items[1..] ensures item != head {
      var i :| 0 <= i < |items[1..]| && items[1..][i] == item;
      assert items[i + 1] == item;
    }
    assert head !in Members(items[1..]);
  }

  // ----- sorting -----

  function Insert(item: Item, items: seq<Item>): (result: seq<Item>)
    ensures multiset(result) == multiset(items) + multiset{item}
  {
    if items == [] then [item]
    else if CompareItems(item, items[0]).Greater? then
      assert items == [items[0]] + items[1..];
      [items[0]] + Insert(item, items[1..])
    else [item] + items
  }

  /** The stable library sort under the listing order. */
  function SortItems(items: seq<Item>): (result: seq<Item>)
    ensures multiset(result) == multiset(items)
  {
    if items == [] then []
    else
      assert items == [items[0]] + items[1..];
      Insert(items[0], SortItems(items[1..]))
  }

  lemma {:induction false} InsertSorts(item: Item, items: seq<Item>)
    requires Sorted(items)
    ensures Sorted(Insert(item, items))
  {
    hide CompareNat, CompareKeys;
    if items == [] {
    } else if CompareItems(item, items[0]).Greater? {
      InsertSorts(item, items[1..]);
      var rest := Insert(item, items[1..]);
      forall j | 0 <= j < |rest| ensures !CompareItems(items[0], rest[j]).Greater? {
        assert rest[j] in multiset(rest);
        if rest[j] == item {
          CompareItemsLaws(items[0], item, item);
        } else {
          assert rest[j] in items[1..];
        }
      }
    } else {
      forall j | 0 <= j < |items| ensures !CompareItems(item, items[j]).Greater? {
        CompareItemsLaws(item, items[0], items[j]);
      }
    }
  }

  lemma {:induction false} SortSorts(items: seq<Item>)
    ensures Sorted(SortItems(items))
  {
    if items != [] {
      SortSorts(items[1..]);
      InsertSorts(items[0], SortItems(items[1..]));
    }
  }

  lemma SortMembers(items: seq<Item>)
    ensures |SortItems(items)| == |items|
    ensures forall item :: item in SortItems(items) <==> item in items
  {
    assert |multiset(items)| == |items| && |multiset(SortItems(items))| == |SortItems(items)|;
    forall item ensures item in SortItems(items) <==> item in items {
      assert item in SortItems(items) <==> item in multiset(SortItems(items));
    }
  }

  lemma {:induction false} SortKeepsKeyUnique(items: seq<Item>)
    requires KeyUnique(items)
    ensures KeyUnique(SortItems(items))
  {
    if items != [] {
      SortKeepsKeyUnique(items[1..]);
      SortMembers(items[1..]);
      InsertKeepsKeyUnique(items[0], SortItems(items[1..]));
    }
  }

  lemma {:induction false} InsertKeepsKeyUnique(item: Item, items: seq<Item>)
    requires KeyUnique(items)
    requires forall other :: other in items ==> other.key != item.key
    ensures KeyUnique(Insert(item, items))
  {
    if items != [] && CompareItems(item, items[0]).Greater? {
      InsertKeepsKeyUnique(item, items[1..]);
      var rest := Insert(item, items[1..]);
      forall j | 0 <= j < |rest| ensures rest[j].key != items[0].key {
        assert rest[j] in multiset(rest);
        assert rest[j] == item || rest[j] in items[1..];
      }
    }
  }

  /** Sorting turns any key-unique list of the map's values into its canonical listing. */
  lemma SortLists(items: seq<Item>, conditions: map<Key, Item>)
    requires Contents(items, conditions)
    ensures Lists(SortItems(items), conditions)
  {
    SortSorts(items);
    SortMembers(items);
    SortKeepsKeyUnique(items);
  }

  /** Sorting a sorted list changes nothing. */
  lemma {:induction false} SortIsIdentityOnSorted(items: seq<Item>)
    requires Sorted(items)
    ensures SortItems(items) == items
  {
    hide CompareItems;
    if items != [] {
      SortIsIdentityOnSorted(items[1..]);
      assert items == [items[0]] + items[1..];
      assert |items| > 1 ==> !CompareItems(items[0], items[1]).Greater?;
    }
  }

  // ----- list edits -----

  /** Position of the first item under `key`, or -1. */
  function IndexOf(items: seq<Item>, key: Key): (index: int)
    ensures -1 <= index < |items|
    ensures 0 <= index ==> items[index].key == key && forall i :: 0 <= i < index ==> items[i].key != key
    ensures index == -1 ==> forall i :: 0 <= i < |items| ==> items[i].key != key
  {
    if items == [] then -1
    else
      var n := |items| - 1;
      var earlier := IndexOf(items[..n], key);
      if 0 <= earlier then earlier else if items[n].key == key then n else -1
  }

  function Retain(items: seq<Item>, keep: Item -> bool): (kept: seq<Item>)
    ensures |kept| <= |items|
    ensures forall item :: item in kept <==> item in items && keep(item)
  {
    if items == [] then []
    else
      var n := |items| - 1;
      assert items == items[..n] + [items[n]];
      Retain(items[..n], keep) + (if keep(items[n]) then [items[n]] else [])
  }

  lemma {:induction false} RetainSorted(items: seq<Item>, keep: Item -> bool)
    requires Sorted(items)
    ensures Sorted(Retain(items, keep))
  {
    if items != [] {
      var n := |items| - 1;
      RetainSorted(items[..n], keep);
      var front := Retain(items[..n], keep);
      forall i | 0 <= i < |front| ensures !CompareItems(front[i], items[n]).Greater? {
        assert front[i] in items[..n];
      }
    }
  }

  lemma {:induction false} RetainKeyUnique(items: seq<Item>, keep: Item -> bool)
    requires KeyUnique(items)
    ensures KeyUnique(Retain(items, keep))
  {
    if items != [] {
      var n := |items| - 1;
      RetainKeyUnique(items[..n], keep);
      var front := Retain(items[..n], keep);
      forall i | 0 <= i < |front| ensures front[i].key != items[n].key {
        assert front[i] in items[..n];
      }
    }
  }

  /** The source compares lengths; equal lengths mean nothing was dropped. */
  lemma {:induction false} RetainSameLength(items: seq<Item>, keep: Item -> bool)
    requires |Retain(items, keep)| == |items|
    ensures Retain(items, keep) == items
  {
    if items != [] {
      var n := |items| - 1;
      RetainSameLength(items[..n], keep);
      assert items == items[..n] + [items[n]];
    }
  }

  lemma {:induction false} RetainEverything(items: seq<Item>, keep: Item -> bool)
    requires forall item :: item in items ==> keep(item)
    ensures Retain(items, keep) == items
  {
    if items != [] {
      var n := |items| - 1;
      RetainEverything(items[..n], keep);
      assert items == items[..n] + [items[n]];
    }
  }

  lemma RetainLists(items: seq<Item>, conditions: map<Key, Item>, keep: Item -> bool)
    requires Lists(items, conditions)
    ensures Lists(Retain(items, keep), map key | key in conditions && keep(conditions[key]) :: conditions[key])
  {
    RetainSorted(items, keep);
    RetainKeyUnique(items, keep);
  }

  lemma ReplaceContents(items: seq<Item>, conditions: map<Key, Item>, index: nat, item: Item)
    requires Contents(items, conditions)
    requires index < |items| && items[index].key == item.key
    ensures Contents(items[index := item], conditions[item.key := item])
  {
    var result := items[index := item];
    var updated := conditions[item.key := item];
    forall i, j | 0 <= i < j < |result| ensures result[i].key != result[j].key {
      assert items[i].key != items[j].key;
    }
    forall other | other in result ensures other.key in updated && updated[other.key] == other {
      var i :| 0 <= i < |result| && result[i] == other;
      if i != index {
        assert items[i] in items;
        assert items[i].key != items[index].key;
      }
    }
    forall key | key in updated ensures updated[key] in result && updated[key].key == key {
      if key == item.key {
        assert result[index] == item;
      } else {
        assert conditions[key] in items;
        var i :| 0 <= i < |items| && items[i] == conditions[key];
        assert result[i] == conditions[key];
      }
    }
  }

  lemma AppendContents(items: seq<Item>, conditions: map<Key, Item>, item: Item)
    requires Contents(items, conditions)
    requires item.key !in conditions
    ensures Contents(items + [item], conditions[item.key := item])
  {
    var result := items + [item];
    var updated := conditions[item.key := item];
    forall i, j | 0 <= i < j < |result| ensures result[i].key != result[j].key {
      assert items[i] in items;
    }
    forall key | key in updated ensures updated[key] in result && updated[key].key == key {
      if key == item.key { assert result[|items|] == item; }
    }
  }

  /** Looking a key up in the listing is looking it up in the map. */
  lemma IndexOfContents(items: seq<Item>, conditions: map<Key, Item>, key: Key)
    requires Contents(items, conditions)
    ensures IndexOf(items, key) == -1 <==> key !in conditions
    ensures key in conditions ==> items[IndexOf(items, key)] == conditions[key]
  {
    var index := IndexOf(items, key);
    assert 0 <= index ==> items[index] in items;
    if key in conditions {
      assert conditions[key] in items;
      var i :| 0 <= i < |items| && items[i] == conditions[key];
      assert items[i].key == key;
    }
  }

  /** Replace the item under this key where it stands, or append it. */
  function Put(items: seq<Item>, item: Item): seq<Item> {
    var index := IndexOf(items, item.key);
    if 0 <= index then items[index := item] else items + [item]
  }

  lemma PutContents(items: seq<Item>, conditions: map<Key, Item>, item: Item)
    requires Contents(items, conditions)
    ensures Contents(Put(items, item), conditions[item.key := item])
  {
    IndexOfContents(items, conditions, item.key);
    var index := IndexOf(items, item.key);
    if 0 <= index { ReplaceContents(items, conditions, index, item); }
    else { AppendContents(items, conditions, item); }
  }

  /** Eligibility is not part of the order, so changing it in place keeps the listing. */
  lemma EligibilityLists(items: seq<Item>, conditions: map<Key, Item>, index: nat, eligible: bool)
    requires Lists(items, conditions) && index < |items|
    ensures var item := items[index].(eligible := eligible);
      Lists(items[index := item], conditions[item.key := item])
  {
    var item := items[index].(eligible := eligible);
    ReplaceContents(items, conditions, index, item);
    var result := items[index := item];
    forall i, j | 0 <= i < j < |result| ensures !CompareItems(result[i], result[j]).Greater? {
      assert !CompareItems(items[i], items[j]).Greater?;
    }
  }

  // ----- the load check -----

  /** Neighbours only: two equal keys are noticed when sorting brings them together. */
  predicate ListingAccepted(items: seq<Item>) {
    var sorted := SortItems(items);
    && (forall i :: 0 <= i < |sorted| - 1 ==> sorted[i].key != sorted[i + 1].key)
    && sorted == items
  }

  predicate ValidState(state: State) {
    && (state.cursor.Some? ==> ValidCursor(state.cursor.value))
    && state.schemaVersion == SCHEMA_VERSION
    && (forall i :: 0 <= i < |state.items| ==> ValidItem(state.items[i]))
    && ListingAccepted(state.items)
  }

  lemma UniqueListingAccepted(items: seq<Item>)
    requires Sorted(items) && KeyUnique(items)
    ensures ListingAccepted(items)
  {
    SortIsIdentityOnSorted(items);
  }

  /** Exactly which accepted lists have unique keys: those that never date one key twice. */
  lemma AcceptedIsUniqueIff(items: seq<Item>)
    requires ListingAccepted(items)
    ensures KeyUnique(items) <==>
      forall i, j :: 0 <= i < j < |items| && items[i].key == items[j].key ==>
        items[i].createdAtMs == items[j].createdAtMs
  {
    SortSorts(items);
    forall i, j | 0 <= i < j < |items| && items[i].key == items[j].key
      ensures items[i].createdAtMs != items[j].createdAtMs
    {
      if items[i].createdAtMs == items[j].createdAtMs { TiesAreNeighbours(items, i, j); }
    }
  }

  lemma TiesAreNeighbours(items: seq<Item>, i: nat, j: nat)
    requires Sorted(items) && i < j < |items|
    requires items[i].key == items[j].key && items[i].createdAtMs == items[j].createdAtMs
    ensures items[i + 1].key == items[i].key
  {
    var a, b, c := items[i], items[i + 1], items[j];
    CompareItemsLaws(a, b, c);
    CompareItemsLaws(b, c, a);
    assert !CompareItems(a, b).Greater?;
    if i + 1 < j { assert !CompareItems(b, c).Greater?; }
  }

  lemma RedatedIsValid(item: Item, createdAtMs: nat)
    requires ValidItem(item) && createdAtMs != 0
    ensures ValidItem(item.(createdAtMs := createdAtMs))
  {
  }

  /** The load check alone admits one key listed twice, whenever another condition dates between. */
  lemma AcceptedWithDuplicateKey(state: State, first: Item, between: Item, later: nat)
    requires ValidItem(first) && ValidItem(between)
    requires first.createdAtMs < between.createdAtMs < later && between.key != first.key
    requires state == State(SCHEMA_VERSION, state.generation, [first, between, first.(createdAtMs := later)], None)
    ensures ValidState(state) && !KeyUnique(state.items)
  {
    hide ValidItem, CompareKeys;
    RedatedIsValid(first, later);
    assert Sorted(state.items);
    hide CompareItems, Sorted;
    SortIsIdentityOnSorted(state.items);
    assert state.items[0].key == state.items[2].key;
  }
}
