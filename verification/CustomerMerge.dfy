/** Merging one customer into another across every model that refers to customers, and rolling it back. */
module CustomerMerge {
  import opened Wrappers

  const MODEL_COUNT := 10

  datatype MergeStatus = ACTIVE | MERGED

  datatype Customer = Customer(mergeStatus: MergeStatus, mergedInto: Option<nat>)

  /** One reference: the row number of a record within one of the models. */
  datatype Record = Record(model: nat, id: nat)

  /** For each model the customer each of its records refers to; and the customers. */
  datatype Crm = Crm(tables: seq<seq<nat>>, customers: seq<Customer>)

  // ---- specification ----------------------------------------------------

  /** updateMany: every row of one customer handed to another. */
  function Reassign(rows: seq<nat>, from: nat, to: nat): (r: seq<nat>)
    ensures |r| == |rows|
    ensures forall i :: 0 <= i < |rows| ==> r[i] == if rows[i] == from then to else rows[i]
  {
    if rows == [] then [] else [if rows[0] == from then to else rows[0]] + Reassign(rows[1..], from, to)
  }

  /** findMany: the records of one customer among the first `n` rows of a model. */
  function RecordsOf(model: nat, rows: seq<nat>, c: nat, n: nat): (r: seq<Record>)
    requires n <= |rows|
    ensures forall x :: x in r <==> x.model == model && x.id < n && rows[x.id] == c
  {
    if n == 0 then [] else RecordsOf(model, rows, c, n - 1) + if rows[n - 1] == c then [Record(model, n - 1)] else []
  }

  /** The captured list over the first `n` models. */
  function Captured(tables: seq<seq<nat>>, c: nat, n: nat): (r: seq<Record>)
    requires n <= |tables|
    ensures forall x :: x in r <==> x.model < n && x.id < |tables[x.model]| && tables[x.model][x.id] == c
  {
    if n == 0 then [] else Captured(tables, c, n - 1) + RecordsOf(n - 1, tables[n - 1], c, |tables[n - 1]|)
  }

  function ReassignAll(tables: seq<seq<nat>>, from: nat, to: nat): (r: seq<seq<nat>>)
    ensures |r| == |tables|
    ensures forall k :: 0 <= k < |tables| ==> r[k] == Reassign(tables[k], from, to)
  {
    if tables == [] then [] else [Reassign(tables[0], from, to)] + ReassignAll(tables[1..], from, to)
  }

  function Execute(s: Crm, primary: nat, merged: nat): Crm
    requires merged < |s.customers|
  {
    Crm(ReassignAll(s.tables, merged, primary), s.customers[merged := Customer(MERGED, Some(primary))])
  }

  predicate Exists(tables: seq<seq<nat>>, x: Record) {
    x.model < |tables| && x.id < |tables[x.model]|
  }

  predicate AllExist(tables: seq<seq<nat>>, list: seq<Record>) {
    forall i :: 0 <= i < |list| ==> Exists(tables, list[i])
  }

  /** update: one record handed to a customer. */
  function Assign(tables: seq<seq<nat>>, x: Record, c: nat): (r: seq<seq<nat>>)
    requires Exists(tables, x)
    ensures |r| == |tables| && forall k :: 0 <= k < |r| ==> |r[k]| == |tables[k]|
    ensures forall k, i :: 0 <= k < |r| && 0 <= i < |r[k]| ==>
            r[k][i] == if k == x.model && i == x.id then c else tables[k][i]
  {
    var rows: seq<nat> := tables[x.model];
    tables[x.model := rows[x.id := c]]
  }

  function WriteBack(tables: seq<seq<nat>>, list: seq<Record>, c: nat): seq<seq<nat>>
    requires AllExist(tables, list)
    decreases |list|
  {
    if list == [] then tables else WriteBack(Assign(tables, list[0], c), list[1..], c)
  }

  function Rollback(s: Crm, merged: nat, list: seq<Record>): Crm
    requires merged < |s.customers| && AllExist(s.tables, list)
  {
    Crm(WriteBack(s.tables, list, merged), s.customers[merged := Customer(ACTIVE, None)])
  }

  // ---- what a merge does ----------------------------------------------------

  /** Every record of one customer belongs to the other; every other record is as it was. */
  ghost predicate HandedOver(before: seq<seq<nat>>, after: seq<seq<nat>>, from: nat, to: nat) {
    && |after| == |before|
    && forall k :: 0 <= k < |before| ==>
         && |after[k]| == |before[k]|
         && forall i :: 0 <= i < |before[k]| ==> after[k][i] == if before[k][i] == from then to else before[k][i]
  }

  ghost predicate NoRecordOf(tables: seq<seq<nat>>, c: nat) {
    forall k :: 0 <= k < |tables| ==> forall i :: 0 <= i < |tables[k]| ==> tables[k][i] != c
  }

  /** One customer is handed over to another and marked as merged into it; no other customer changes. */
  ghost predicate MergedInto(before: Crm, after: Crm, primary: nat, merged: nat) {
    && HandedOver(before.tables, after.tables, merged, primary)
    && merged < |before.customers| == |after.customers|
    && after.customers[merged] == Customer(MERGED, Some(primary))
    && forall c :: 0 <= c < |before.customers| && c != merged ==> after.customers[c] == before.customers[c]
  }

  /** A merge moves every reference, and leaves none to the merged customer. */
  lemma MergeMeans(s: Crm, primary: nat, merged: nat)
    requires merged < |s.customers|
    ensures MergedInto(s, Execute(s, primary, merged), primary, merged)
    ensures primary != merged ==> NoRecordOf(Execute(s, primary, merged).tables, merged)
  {
    if primary != merged {
      HandOverLeavesNone(s.tables, Execute(s, primary, merged).tables, merged, primary);
    }
  }

  lemma HandOverLeavesNone(before: seq<seq<nat>>, after: seq<seq<nat>>, from: nat, to: nat)
    requires HandedOver(before, after, from, to) && from != to
    ensures NoRecordOf(after, from)
  {
  }

  // ---- the program ------------------------------------------------------

  class CustomerStore {
    var tables: seq<seq<nat>>
    var customers: seq<Customer>

    function State(): Crm
      reads this
    {
      Crm(tables, customers)
    }

    constructor (s: Crm)
      ensures State() == s
    {
      tables, customers := s.tables, s.customers;
    }

    /** One model: the ids are captured before the rows are handed over. */
    method ReassignModel(modelKey: nat, from: nat, to: nat) returns (records: seq<Record>)
      requires modelKey < |tables|
      modifies `tables
      ensures records == RecordsOf(modelKey, old(tables)[modelKey], from, |old(tables)[modelKey]|)
      ensures tables == old(tables)[modelKey := Reassign(old(tables)[modelKey], from, to)]
    {
      records := RecordsOf(modelKey, tables[modelKey], from, |tables[modelKey]|);
      if |records| > 0 {
        tables := tables[modelKey := Reassign(tables[modelKey], from, to)];
      } else {
        NothingToReassign(modelKey, tables[modelKey], from, to);
      }
    }

    method ExecuteCustomerMerge(primaryCustomerId: nat, mergedCustomerId: nat) returns (reassigned: seq<Record>)
      requires |tables| == MODEL_COUNT && mergedCustomerId < |customers|
      modifies this
      ensures State() == Execute(old(State()), primaryCustomerId, mergedCustomerId)
      ensures reassigned == Captured(old(tables), mergedCustomerId, MODEL_COUNT)
      ensures MergedInto(old(State()), State(), primaryCustomerId, mergedCustomerId)
      ensures primaryCustomerId != mergedCustomerId ==> NoRecordOf(tables, mergedCustomerId)
      ensures forall x ::
                x in reassigned <==>
                x.model < |tables| && x.id < |tables[x.model]| && old(tables)[x.model][x.id] == mergedCustomerId
    {
      MergeMeans(State(), primaryCustomerId, mergedCustomerId);
      hide ReassignAll, MergedInto, NoRecordOf, HandedOver;
      reassigned := ReassignModels(mergedCustomerId, primaryCustomerId);
      AllReassigned(old(tables), tables, mergedCustomerId, primaryCustomerId);
      customers := customers[mergedCustomerId := Customer(MERGED, Some(primaryCustomerId))];
    }

    /** The loop over the models. */
    method ReassignModels(from: nat, to: nat) returns (reassigned: seq<Record>)
      requires |tables| == MODEL_COUNT
      modifies `tables
      ensures |tables| == MODEL_COUNT && forall k :: 0 <= k < MODEL_COUNT ==>
              tables[k] == Reassign(old(tables)[k], from, to)
      ensures reassigned == Captured(old(tables), from, MODEL_COUNT)
    {
      hide Reassign, RecordsOf, Captured;
      reassigned := [];
      ghost var before := tables;
      NoneCaptured(before, from);
      for modelKey := 0 to MODEL_COUNT
        invariant |tables| == |before|
        invariant forall k :: 0 <= k < modelKey ==> tables[k] == Reassign(before[k], from, to)
        invariant forall k :: modelKey <= k < |tables| ==> tables[k] == before[k]
        invariant reassigned == Captured(before, from, modelKey)
      {
        CapturedNext(before, from, modelKey);
        var records := ReassignModel(modelKey, from, to);
        reassigned := reassigned + records;
      }
    }

    method RollbackCustomerMerge(mergedCustomerId: nat, reassignedRecords: seq<Record>)
      requires mergedCustomerId < |customers| && AllExist(tables, reassignedRecords)
      modifies this
      ensures State() == Rollback(old(State()), mergedCustomerId, reassignedRecords)
      ensures customers == old(customers)[mergedCustomerId := Customer(ACTIVE, None)]
    {
      ghost var before := tables;
      var i := 0;
      while i < |reassignedRecords|
        invariant 0 <= i <= |reassignedRecords| && customers == old(customers)
        invariant AllExist(tables, reassignedRecords) && AllExist(tables, reassignedRecords[i..])
        invariant WriteBack(tables, reassignedRecords[i..], mergedCustomerId)
                  == WriteBack(before, reassignedRecords, mergedCustomerId)
      {
        var record := reassignedRecords[i];
        assert reassignedRecords[i..][0] == record && reassignedRecords[i..][1..] == reassignedRecords[i + 1..];
        tables := Assign(tables, record, mergedCustomerId);
        i := i + 1;
      }
      customers := customers[mergedCustomerId := Customer(ACTIVE, None)];
    }
  }

  lemma NothingToReassign(model: nat, rows: seq<nat>, c: nat, to: nat)
    ensures RecordsOf(model, rows, c, |rows|) == [] ==> Reassign(rows, c, to) == rows
  {
    if Reassign(rows, c, to) != rows {
      var i :| 0 <= i < |rows| && Reassign(rows, c, to)[i] != rows[i];
      assert Record(model, i) in RecordsOf(model, rows, c, |rows|);
    }
  }

  lemma NoneCaptured(tables: seq<seq<nat>>, c: nat)
    ensures Captured(tables, c, 0) == []
  {
  }

  lemma CapturedNext(tables: seq<seq<nat>>, c: nat, n: nat)
    requires n < |tables|
    ensures Captured(tables, c, n + 1) == Captured(tables, c, n) + RecordsOf(n, tables[n], c, |tables[n]|)
  {
  }

  lemma AllReassigned(before: seq<seq<nat>>, after: seq<seq<nat>>, from: nat, to: nat)
    requires |after| == |before| && forall k :: 0 <= k < |before| ==> after[k] == Reassign(before[k], from, to)
    ensures after == ReassignAll(before, from, to)
  {
  }

  // ---- what a rollback touches --------------------------------------------

  /** A rollback hands exactly the listed records to the merged customer and leaves every other record alone. */
  lemma {:induction false} WriteBackTouches(tables: seq<seq<nat>>, list: seq<Record>, c: nat, k: nat, i: nat)
    requires AllExist(tables, list)
    requires k < |tables| && i < |tables[k]|
    ensures |WriteBack(tables, list, c)| == |tables| && |WriteBack(tables, list, c)[k]| == |tables[k]|
    ensures WriteBack(tables, list, c)[k][i] == if Record(k, i) in list then c else tables[k][i]
    decreases |list|
  {
    if list != [] {
      assert list == [list[0]] + list[1..];
      WriteBackTouches(Assign(tables, list[0], c), list[1..], c, k, i);
    }
  }

  lemma {:induction false} WriteBackShape(tables: seq<seq<nat>>, list: seq<Record>, c: nat)
    requires AllExist(tables, list)
    ensures |WriteBack(tables, list, c)| == |tables|
    ensures forall k :: 0 <= k < |tables| ==> |WriteBack(tables, list, c)[k]| == |tables[k]|
    decreases |list|
  {
    if list != [] {
      WriteBackShape(Assign(tables, list[0], c), list[1..], c);
    }
  }

  /** Records created since: each model grows at its end. */
  function Grow(tables: seq<seq<nat>>, extra: seq<seq<nat>>): (r: seq<seq<nat>>)
    requires |tables| == |extra|
    ensures |r| == |tables|
    ensures forall k :: 0 <= k < |tables| ==> r[k] == tables[k] + extra[k]
  {
    if tables == [] then [] else [tables[0] + extra[0]] + Grow(tables[1..], extra[1..])
  }

  function GrowCrm(s: Crm, extra: seq<seq<nat>>): Crm
    requires |s.tables| == |extra|
  {
    s.(tables := Grow(s.tables, extra))
  }

  lemma CapturedExist(s: Crm, primary: nat, merged: nat, extra: seq<seq<nat>>)
    requires |s.tables| == |extra| && merged < |s.customers|
    ensures AllExist(Grow(Execute(s, primary, merged).tables, extra), Captured(s.tables, merged, |s.tables|))
  {
    var list := Captured(s.tables, merged, |s.tables|);
    forall i | 0 <= i < |list|
      ensures Exists(Grow(Execute(s, primary, merged).tables, extra), list[i])
    {
      assert list[i] in list;
    }
  }

  /** One record after merge, growth and rollback. */
  lemma RecordRestored(s: Crm, primary: nat, merged: nat, extra: seq<seq<nat>>, k: nat, i: nat)
    requires |s.tables| == |extra| && merged < |s.customers| && k < |extra| && i < |s.tables[k]| + |extra[k]|
    ensures var later := Grow(Execute(s, primary, merged).tables, extra);
            |later| == |extra| && |later[k]| == |s.tables[k]| + |extra[k]|
            && (if Record(k, i) in Captured(s.tables, merged, |s.tables|) then merged else later[k][i])
               == Grow(s.tables, extra)[k][i]
  {
    var later := Grow(Execute(s, primary, merged).tables, extra);
    assert later[k] == Reassign(s.tables[k], merged, primary) + extra[k];
    assert Grow(s.tables, extra)[k] == s.tables[k] + extra[k];
  }

  /** Merge, then records created, then rollback by the captured list: every reference is back where it was. */
  lemma RollbackRestoresReferences(s: Crm, primary: nat, merged: nat, extra: seq<seq<nat>>)
    requires |s.tables| == |extra| && merged < |s.customers|
    ensures var list := Captured(s.tables, merged, |s.tables|);
            var later := Grow(Execute(s, primary, merged).tables, extra);
            AllExist(later, list) && WriteBack(later, list, merged) == Grow(s.tables, extra)
  {
    hide WriteBack, AllExist, Captured;
    CapturedExist(s, primary, merged, extra);
    var list := Captured(s.tables, merged, |s.tables|);
    var later := Grow(Execute(s, primary, merged).tables, extra);
    var r, goal := WriteBack(later, list, merged), Grow(s.tables, extra);
    WriteBackShape(later, list, merged);
    assert |later| == |extra| by { GrownShape(s, primary, merged, extra); }
    forall k | 0 <= k < |goal|
      ensures r[k] == goal[k]
    {
      assert |later[k]| == |goal[k]| by { GrownShape(s, primary, merged, extra); }
      forall i | 0 <= i < |goal[k]|
        ensures r[k][i] == goal[k][i]
      {
        WriteBackTouches(later, list, merged, k, i);
        RecordRestored(s, primary, merged, extra, k, i);
      }
    }
  }

  lemma GrownShape(s: Crm, primary: nat, merged: nat, extra: seq<seq<nat>>)
    requires |s.tables| == |extra| && merged < |s.customers|
    ensures var later := Grow(Execute(s, primary, merged).tables, extra);
            |later| == |extra| && forall k :: 0 <= k < |later| ==> |later[k]| == |s.tables[k]| + |extra[k]|
  {
  }

  /**
    Merge and rollback undo each other, references and merge fields, with the
    primary's new records untouched, exactly when the merged customer was not
    merged before. (Two approved requests for one customer break it.)
   */
  lemma RollbackUndoesMerge(s: Crm, primary: nat, merged: nat, extra: seq<seq<nat>>)
    requires |s.tables| == |extra| && merged < |s.customers|
    ensures var list := Captured(s.tables, merged, |s.tables|);
            var later := GrowCrm(Execute(s, primary, merged), extra);
            && AllExist(later.tables, list)
            && (Rollback(later, merged, list) == GrowCrm(s, extra) <==> s.customers[merged] == Customer(ACTIVE, None))
  {
    RollbackRestoresReferences(s, primary, merged, extra);
    var list := Captured(s.tables, merged, |s.tables|);
    var later := GrowCrm(Execute(s, primary, merged), extra);
    var r := Rollback(later, merged, list);
    assert r.customers == s.customers[merged := Customer(ACTIVE, None)];
    if s.customers[merged] == Customer(ACTIVE, None) {
      assert r.customers == s.customers;
    } else {
      assert r.customers[merged] != s.customers[merged];
    }
  }

  // ---- last in, first out -----------------------------------------------

  /**
    A history in which every merge that is opened is rolled back before the
    history around it goes on: records created, one history after another,
    and a whole history between a merge and its rollback.
   */
  datatype Script =
    | Skip
    | Create(extra: seq<seq<nat>>)
    | Then(first: Script, second: Script)
    | Under(primary: nat, merged: nat, body: Script)

  /**
    Every merge, when its turn comes, merges a customer that is not merged; new
    records come in the models there are.
   */
  predicate Legal(customers: seq<Customer>, models: nat, p: Script)
    decreases p
  {
    match p
    case Skip => true
    case Create(extra) => |extra| == models
    case Then(first, second) => Legal(customers, models, first) && Legal(customers, models, second)
    case Under(primary, merged, body) =>
      && merged < |customers| && customers[merged] == Customer(ACTIVE, None)
      && Legal(customers[merged := Customer(MERGED, Some(primary))], models, body)
  }

  /** All records created in a history. */
  function Created(models: nat, p: Script): (extra: seq<seq<nat>>)
    ensures |extra| == models
  {
    match p
    case Skip => seq(models, _ => [])
    case Create(extra) => if |extra| == models then extra else seq(models, _ => [])
    case Then(first, second) => Grow(Created(models, first), Created(models, second))
    case Under(_, _, body) => Created(models, body)
  }

  /** The history as it happens; None when a merge or a rollback names a customer or a record that is not there. */
  function Exec(s: Crm, p: Script): Option<Crm>
    decreases p
  {
    match p
    case Skip => Some(s)
    case Create(extra) => if |extra| == |s.tables| then Some(GrowCrm(s, extra)) else None
    case Then(first, second) =>
      var r := Exec(s, first);
      if r.None? then None else Exec(r.value, second)
    case Under(primary, merged, body) =>
      if merged >= |s.customers| then None
      else
        var list := Captured(s.tables, merged, |s.tables|);
        var r := Exec(Execute(s, primary, merged), body);
        if r.None? || merged >= |r.value.customers| || !AllExist(r.value.tables, list) then None
        else Some(Rollback(r.value, merged, list))
  }

  lemma GrowTwice(tables: seq<seq<nat>>, a: seq<seq<nat>>, b: seq<seq<nat>>)
    requires |tables| == |a| == |b|
    ensures Grow(Grow(tables, a), b) == Grow(tables, Grow(a, b))
  {
    var l, r := Grow(Grow(tables, a), b), Grow(tables, Grow(a, b));
    forall k | 0 <= k < |tables|
      ensures l[k] == r[k]
    {
      assert tables[k] + a[k] + b[k] == tables[k] + (a[k] + b[k]);
    }
  }

  lemma GrowNothing(tables: seq<seq<nat>>, none: seq<seq<nat>>)
    requires |none| == |tables| && forall k :: 0 <= k < |none| ==> none[k] == []
    ensures Grow(tables, none) == tables
  {
    var r := Grow(tables, none);
    forall k | 0 <= k < |tables|
      ensures r[k] == tables[k]
    {
      assert tables[k] + [] == tables[k];
    }
  }

  /**
    Any last-in-first-out history of merges and rollbacks, with records created
    anywhere in it, leaves just those records.
   */
  lemma {:induction false} NestedMergesUndone(s: Crm, p: Script)
    requires Legal(s.customers, |s.tables|, p)
    ensures Exec(s, p) == Some(GrowCrm(s, Created(|s.tables|, p)))
    decreases p
  {
    hide Grow, Execute, Rollback, Captured, WriteBack, AllExist;
    match p {
      case Skip =>
        GrowNothing(s.tables, Created(|s.tables|, Skip));
      case Create(extra) =>
      case Then(first, second) =>
        NestedMergesUndone(s, first);
        NestedMergesUndone(GrowCrm(s, Created(|s.tables|, first)), second);
        GrowTwice(s.tables, Created(|s.tables|, first), Created(|s.tables|, second));
      case Under(primary, merged, body) =>
        MergedCustomers(s, primary, merged);
        NestedMergesUndone(Execute(s, primary, merged), body);
        RollbackUndoesMerge(s, primary, merged, Created(|s.tables|, body));
    }
  }

  lemma MergedCustomers(s: Crm, primary: nat, merged: nat)
    requires merged < |s.customers|
    ensures Execute(s, primary, merged).customers == s.customers[merged := Customer(MERGED, Some(primary))]
    ensures |Execute(s, primary, merged).tables| == |s.tables|
  {
  }
}
