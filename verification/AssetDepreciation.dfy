/** Monthly depreciation, its iteration over an asset's life, and the route that posts it month by month. */
module AssetDepreciation {
  import opened Wrappers
  import opened Money

  datatype Method = STRAIGHT_LINE | REDUCING_BALANCE

  /** Amounts in cents; the rate in percent a year, 0 when none is set. */
  datatype Asset = Asset(cost: int, residual: int, usefulLifeMonths: nat, depreciationMethod: Method, annualRate: real)

  /** What creating an asset checks. The residual value may exceed the cost. */
  predicate Valid(a: Asset) {
    a.cost > 0 && a.residual >= 0 && a.usefulLifeMonths > 0 && 0.0 <= a.annualRate <= 100.0
  }

  function MonthlyDepreciation(a: Asset, accumulatedSoFar: int, monthsElapsed: nat): int {
    var depreciableBase := a.cost - a.residual;
    var currentNetBookValue := a.cost - accumulatedSoFar;
    var remainingDepreciable := currentNetBookValue - a.residual;
    if remainingDepreciable <= 0 then 0
    else if monthsElapsed + 1 >= a.usefulLifeMonths then RoundCents(remainingDepreciable as real)
    else
      var amount := match a.depreciationMethod
        case STRAIGHT_LINE => depreciableBase as real / a.usefulLifeMonths as real
        case REDUCING_BALANCE => currentNetBookValue as real * (a.annualRate / 100.0 / 12.0);
      RoundCents(if amount <= remainingDepreciable as real then amount else remainingDepreciable as real)
  }

  /** What an asset can lose at all. */
  function Depreciable(a: Asset): nat { Max(a.cost - a.residual, 0) }

  // ---- one month ----------------------------------------------------------

  lemma QuotientNonNegative(x: real, y: real)
    requires x >= 0.0 && y > 0.0
    ensures x / y >= 0.0
  {
  }

  lemma ProductNonNegative(x: real, y: real)
    requires x >= 0.0 && y >= 0.0
    ensures x * y >= 0.0
  {
  }

  /**
    A month never takes back and never takes more than is left above the residual
    value; the last month takes all of it.
   */
  lemma MonthBounds(a: Asset, accumulated: int, months: nat)
    requires Valid(a) && accumulated >= 0
    ensures 0 <= MonthlyDepreciation(a, accumulated, months) <= Max(a.cost - a.residual - accumulated, 0)
    ensures months + 1 >= a.usefulLifeMonths ==>
            MonthlyDepreciation(a, accumulated, months) == Max(a.cost - a.residual - accumulated, 0)
  {
    var remaining := a.cost - accumulated - a.residual;
    if remaining > 0 {
      RoundExact(remaining);
      QuotientNonNegative((a.cost - a.residual) as real, a.usefulLifeMonths as real);
      ProductNonNegative((a.cost - accumulated) as real, a.annualRate / 100.0 / 12.0);
    }
  }

  // ---- the iteration ------------------------------------------------------

  /** Accumulated depreciation after `k` months. */
  function Accumulated(a: Asset, k: nat): int {
    if k == 0 then 0 else Accumulated(a, k - 1) + MonthlyDepreciation(a, Accumulated(a, k - 1), k - 1)
  }

  function NetBookValue(a: Asset, k: nat): int { a.cost - Accumulated(a, k) }

  /** Net book value never rises, and never falls below the residual value (or the cost, if that is lower). */
  lemma {:induction false} NetBookValueFalls(a: Asset, k: nat, m: nat)
    requires Valid(a) && k <= m
    ensures Min(a.cost, a.residual) <= NetBookValue(a, m) <= NetBookValue(a, k) <= a.cost
    decreases m
  {
    hide MonthlyDepreciation;
    if k < m {
      NetBookValueFalls(a, k, m - 1);
      MonthBounds(a, Accumulated(a, m - 1), m - 1);
    } else if k > 0 {
      NetBookValueFalls(a, k - 1, k - 1);
      MonthBounds(a, Accumulated(a, k - 1), k - 1);
    }
  }

  /** Under both methods the useful life ends exactly at the residual value, and nothing is taken after. */
  lemma LifeEndsAtResidual(a: Asset, k: nat)
    requires Valid(a) && k >= a.usefulLifeMonths
    ensures Accumulated(a, k) == Depreciable(a)
  {
    hide MonthlyDepreciation;
    NetBookValueFalls(a, 0, k - 1);
    MonthBounds(a, Accumulated(a, k - 1), k - 1);
  }

  /** Straight line: the same rounded amount every month but the last, as far as there is anything left. */
  lemma {:induction false} StraightLineIsEven(a: Asset, k: nat)
    requires Valid(a) && a.depreciationMethod == STRAIGHT_LINE && k < a.usefulLifeMonths
    ensures Accumulated(a, k)
            == Min(Product(k, RoundCents(Depreciable(a) as real / a.usefulLifeMonths as real)), Depreciable(a))
  {
    var q := Depreciable(a) as real / a.usefulLifeMonths as real;
    QuotientNonNegative(Depreciable(a) as real, a.usefulLifeMonths as real);
    if k > 0 {
      StraightLineIsEven(a, k - 1);
      NetBookValueFalls(a, 0, k - 1);
      StraightLineMonth(a, Accumulated(a, k - 1), k - 1);
    }
    assert Product(0, RoundCents(q)) == 0;
  }

  function Product(k: nat, q: int): int {
    if k == 0 then 0 else Product(k - 1, q) + q
  }

  lemma StraightLineMonth(a: Asset, accumulated: int, months: nat)
    requires Valid(a) && a.depreciationMethod == STRAIGHT_LINE && months + 1 < a.usefulLifeMonths
             && 0 <= accumulated <= Depreciable(a)
    ensures MonthlyDepreciation(a, accumulated, months)
         == Min(RoundCents(Depreciable(a) as real / a.usefulLifeMonths as real), Depreciable(a) - accumulated)
  {
    var q := Depreciable(a) as real / a.usefulLifeMonths as real;
    var remaining := Depreciable(a) - accumulated;
    QuotientNonNegative(Depreciable(a) as real, a.usefulLifeMonths as real);
    RoundExact(remaining);
    if q <= remaining as real {
      RoundMonotone(q, remaining as real);
    } else {
      RoundMonotone(remaining as real, q);
    }
  }

  // ---- the route ----------------------------------------------------------

  datatype DepreciationEntry = DepreciationEntry(periodLabel: string, amount: int, accumulated: int, netBookValue: int)

  /** An asset in service with its posted months. */
  datatype Register = Register(accumulated: int, entries: seq<DepreciationEntry>)

  predicate Posted(entries: seq<DepreciationEntry>, month: string) {
    exists i :: 0 <= i < |entries| && entries[i].periodLabel == month
  }

  /** What a call read before it writes. */
  datatype Reading = Reading(periodLabel: string, accumulated: int, months: nat)

  /** A disposed asset, a label already posted and a month worth nothing are refused. */
  function Read(a: Asset, r: Register, disposed: bool, month: string): Option<Reading> {
    if month == "" || disposed || Posted(r.entries, month)
       || MonthlyDepreciation(a, r.accumulated, |r.entries|) <= 0 then None
    else Some(Reading(month, r.accumulated, |r.entries|))
  }

  /** The label is unique in the table; all else is computed from what was read. */
  function Write(a: Asset, r: Register, x: Reading): Register {
    if Posted(r.entries, x.periodLabel) then r
    else
      var amount := MonthlyDepreciation(a, x.accumulated, x.months);
      var newAccumulated := x.accumulated + amount;
      Register(newAccumulated,
        r.entries + [DepreciationEntry(x.periodLabel, amount, newAccumulated, a.cost - newAccumulated)])
  }

  /** A call that nobody comes between. */
  function Process(a: Asset, r: Register, month: string): Register {
    match Read(a, r, false, month)
    case None => r
    case Some(x) => Write(a, r, x)
  }

  function ProcessAll(a: Asset, labels: seq<string>): Register {
    if labels == [] then Register(0, []) else Process(a, ProcessAll(a, labels[..|labels| - 1]), labels[|labels| - 1])
  }

  class AssetRecord {
    const asset: Asset
    var disposed: bool
    var accumulatedDepreciation: int
    var entries: seq<DepreciationEntry>
    var booked: int

    constructor (asset: Asset)
      ensures this.asset == asset && !disposed && accumulatedDepreciation == 0 && entries == [] && booked == 0
    {
      this.asset, disposed, accumulatedDepreciation, entries, booked := asset, false, 0, [], 0;
    }

    function Current(): Register
      reads this
    {
      Register(accumulatedDepreciation, entries)
    }

    method HasLabel(periodLabel: string) returns (found: bool)
      ensures found <==> Posted(entries, periodLabel)
    {
      found := false;
      for i := 0 to |entries|
        invariant found <==> exists k :: 0 <= k < i && entries[k].periodLabel == periodLabel
      {
        if entries[i].periodLabel == periodLabel {
          found := true;
        }
      }
    }

    /** The checks of a call. */
    method ReadMonth(periodLabel: string) returns (x: Option<Reading>)
      ensures x == Read(asset, Current(), disposed, periodLabel)
      ensures x.Some? <==>
              && periodLabel != "" && !disposed
              && (forall i :: 0 <= i < |entries| ==> entries[i].periodLabel != periodLabel)
              && MonthlyDepreciation(asset, accumulatedDepreciation, |entries|) > 0
    {
      if periodLabel == "" || disposed {
        return None;
      }
      var existing := HasLabel(periodLabel);
      if existing {
        return None;
      }
      var monthsElapsed := |entries|;
      var amount := MonthlyDepreciation(asset, accumulatedDepreciation, monthsElapsed);
      if amount <= 0 {
        return None;
      }
      return Some(Reading(periodLabel, accumulatedDepreciation, monthsElapsed));
    }

    /**
      Its writes: the journal if there are accounts and a period for it, then the
      entry, refused when its label exists by now, and the asset.
     */
    method WriteMonth(x: Reading, books: bool) returns (posted: bool)
      modifies this
      ensures Current() == Write(asset, old(Current()), x)
      ensures booked == old(booked) + if books then MonthlyDepreciation(asset, x.accumulated, x.months) else 0
      ensures disposed == old(disposed) && (posted <==> !Posted(old(entries), x.periodLabel))
    {
      var amount := MonthlyDepreciation(asset, x.accumulated, x.months);
      if books {
        booked := booked + amount;
      }
      var existing := HasLabel(x.periodLabel);
      if existing {
        return false;
      }
      var newAccumulated := x.accumulated + amount;
      var newNetBookValue := asset.cost - newAccumulated;
      entries := entries + [DepreciationEntry(x.periodLabel, amount, newAccumulated, newNetBookValue)];
      accumulatedDepreciation := newAccumulated;
      return true;
    }

    /** The whole call, when nobody comes between: the ledger gains what the register gains. */
    method ProcessDepreciation(periodLabel: string, books: bool) returns (posted: bool)
      modifies this
      ensures Current() == if old(disposed) then old(Current()) else Process(asset, old(Current()), periodLabel)
      ensures disposed == old(disposed)
      ensures posted <==> |entries| == |old(entries)| + 1
      ensures booked - old(booked) == if books then accumulatedDepreciation - old(accumulatedDepreciation) else 0
    {
      hide MonthlyDepreciation;
      var x := ReadMonth(periodLabel);
      if x.None? {
        return false;
      }
      posted := WriteMonth(x.value, books);
    }
  }

  /** The route stops for good in a month that is worth nothing. */
  predicate Stops(a: Asset, k: nat) {
    MonthlyDepreciation(a, Accumulated(a, k), k) <= 0
  }

  /** The first such month: at the latest the one after the useful life. */
  function StopsAfter(a: Asset, from: nat): (k: nat)
    requires Valid(a)
    ensures from <= k <= Max(from, a.usefulLifeMonths) && Stops(a, k)
    ensures forall i :: from <= i < k ==> !Stops(a, i)
    decreases a.usefulLifeMonths - from
  {
    if from >= a.usefulLifeMonths then
      LifeEndsAtResidual(a, from);
      from
    else if Stops(a, from) then from
    else StopsAfter(a, from + 1)
  }

  /** Distinct labels presented so far. */
  function Labels(labels: seq<string>): set<string> {
    set i | 0 <= i < |labels| && labels[i] != "" :: labels[i]
  }

  /**
    The route follows the iteration month for month: one entry per label it
    has been given for the first time, until the iteration stops.
   */
  lemma {:induction false} RouteFollowsIteration(a: Asset, labels: seq<string>)
    requires Valid(a)
    ensures var r := ProcessAll(a, labels);
            && r.accumulated == Accumulated(a, |r.entries|)
            && |r.entries| <= StopsAfter(a, 0)
            && (forall i :: 0 <= i < |r.entries| ==>
                  && r.entries[i].accumulated == Accumulated(a, i + 1)
                  && r.entries[i].netBookValue == NetBookValue(a, i + 1)
                  && r.entries[i].periodLabel in Labels(labels))
            && (|r.entries| < StopsAfter(a, 0) ==> forall l :: l in Labels(labels) ==> Posted(r.entries, l))
  {
    hide MonthlyDepreciation;
    if labels != [] {
      var n := |labels| - 1;
      var b, r := ProcessAll(a, labels[..n]), ProcessAll(a, labels);
      RouteFollowsIteration(a, labels[..n]);
      assert Labels(labels) == Labels(labels[..n]) + if labels[n] == "" then {} else {labels[n]};
      assert Stops(a, |b.entries|) <==> |b.entries| == StopsAfter(a, 0);
      if r != b {
        forall l | l in Labels(labels)
          ensures Posted(r.entries, l)
        {
          PostedSnoc(b.entries, r.entries[|b.entries|], l);
        }
      }
    }
  }

  lemma PostedSnoc(entries: seq<DepreciationEntry>, e: DepreciationEntry, l: string)
    ensures Posted(entries + [e], l) <==> Posted(entries, l) || e.periodLabel == l
  {
    if i :| 0 <= i < |entries| && entries[i].periodLabel == l {
      assert (entries + [e])[i].periodLabel == l;
    }
    if e.periodLabel == l {
      assert (entries + [e])[|entries|].periodLabel == l;
    }
  }

  // ---- calls that overlap ---------------------------------------------------

  /** The register, what has been booked to the ledger for the asset, and calls that have read and not written yet. */
  datatype State = State(register: Register, booked: int, disposed: bool, calls: seq<Option<Reading>>)

  /** A write books its month to the ledger first, if accounts are mapped and the period is open. */
  datatype Event = READ(month: string) | WRITE(call: nat, books: bool) | DISPOSE

  function Step(a: Asset, s: State, e: Event): State {
    match e
    case READ(month) => s.(calls := s.calls + [Read(a, s.register, s.disposed, month)])
    case WRITE(c, books) =>
      if c < |s.calls| && s.calls[c].Some? then
        var x := s.calls[c].value;
        s.(register := Write(a, s.register, x),
           booked := s.booked + if books then MonthlyDepreciation(a, x.accumulated, x.months) else 0,
           calls := s.calls[c := None])
      else s
    case DISPOSE => s.(disposed := true)
  }

  function Run(a: Asset, events: seq<Event>): State {
    if events == [] then State(Register(0, []), 0, false, [])
    else Step(a, Run(a, events[..|events| - 1]), events[|events| - 1])
  }

  /** The entry is the month of the iteration that it stands for. */
  predicate EntryRight(a: Asset, entries: seq<DepreciationEntry>, i: nat)
    requires i < |entries|
  {
    && entries[i].amount == Accumulated(a, i + 1) - Accumulated(a, i)
    && entries[i].accumulated == Accumulated(a, i + 1) && entries[i].netBookValue == NetBookValue(a, i + 1)
  }

  predicate Follows(a: Asset, r: Register) {
    r.accumulated == Accumulated(a, |r.entries|) && forall i :: 0 <= i < |r.entries| ==> EntryRight(a, r.entries, i)
  }

  predicate Writes(s: State, e: Event) { e.WRITE? && e.call < |s.calls| && s.calls[e.call].Some? }

  /** A write finds as many entries as its call counted: the guard that the writes do not make. */
  predicate Fresh(s: State, e: Event) {
    Writes(s, e) ==> |s.register.entries| == s.calls[e.call].value.months
  }

  /** The same for a write that posts its entry. */
  predicate Fits(s: State, e: Event) {
    Writes(s, e) && !Posted(s.register.entries, s.calls[e.call].value.periodLabel) ==> Fresh(s, e)
  }

  predicate FittingRun(a: Asset, events: seq<Event>) {
    || events == []
    || (FittingRun(a, events[..|events| - 1]) && Fits(Run(a, events[..|events| - 1]), events[|events| - 1]))
  }

  predicate FreshRun(a: Asset, events: seq<Event>) {
    events == [] || (FreshRun(a, events[..|events| - 1]) && Fresh(Run(a, events[..|events| - 1]), events[|events| - 1]))
  }

  /** Calls hold a month of the iteration that is worth something. */
  predicate Holds(a: Asset, x: Reading, n: nat) {
    x.months <= n && x.accumulated == Accumulated(a, x.months) && MonthlyDepreciation(a, x.accumulated, x.months) > 0
  }

  predicate CallsHold(a: Asset, s: State) {
    forall c :: 0 <= c < |s.calls| && s.calls[c].Some? ==> Holds(a, s.calls[c].value, |s.register.entries|)
  }

  lemma FittingStepFollows(a: Asset, s: State, e: Event)
    requires Follows(a, s.register) && CallsHold(a, s) && Fits(s, e)
    ensures Follows(a, Step(a, s, e).register) && CallsHold(a, Step(a, s, e))
  {
    hide MonthlyDepreciation, Posted;
    var next := Step(a, s, e).register;
    if Writes(s, e) && next != s.register {
      var n := |s.register.entries|;
      assert Holds(a, s.calls[e.call].value, n);
      assert EntryRight(a, next.entries, n);
      forall i | 0 <= i < n
        ensures EntryRight(a, next.entries, i)
      {
        assert EntryRight(a, s.register.entries, i);
      }
    }
  }

  /** An entry computed from an outdated reading is never the month it stands for. */
  lemma MisfitGoesAstray(a: Asset, s: State, e: Event)
    requires Valid(a) && Follows(a, s.register) && CallsHold(a, s) && !Fits(s, e)
    ensures var next := Step(a, s, e).register.entries; exists i :: 0 <= i < |next| && !EntryRight(a, next, i)
  {
    hide MonthlyDepreciation;
    var x, n, next := s.calls[e.call].value, |s.register.entries|, Step(a, s, e).register.entries;
    assert Holds(a, x, n) && x.months < n;
    NetBookValueFalls(a, x.months + 1, n);
    assert next[n].accumulated == Accumulated(a, x.months + 1) && next[n].amount > 0;
    assert !EntryRight(a, next, n);
  }

  lemma AstrayStays(a: Asset, s: State, e: Event)
    requires exists i :: 0 <= i < |s.register.entries| && !EntryRight(a, s.register.entries, i)
    ensures var next := Step(a, s, e).register.entries; exists i :: 0 <= i < |next| && !EntryRight(a, next, i)
  {
    hide MonthlyDepreciation, Accumulated;
    var i :| 0 <= i < |s.register.entries| && !EntryRight(a, s.register.entries, i);
    assert !EntryRight(a, Step(a, s, e).register.entries, i);
  }

  /**
    However calls overlap, the register is the iteration, entry by entry, if and
    only if every entry was written while there were as many as its call counted.
   */
  lemma {:induction false} RegisterFollowsWhen(a: Asset, events: seq<Event>)
    requires Valid(a)
    ensures Follows(a, Run(a, events).register) <==> FittingRun(a, events)
    ensures FittingRun(a, events) ==> CallsHold(a, Run(a, events))
    ensures !FittingRun(a, events) ==> var entries := Run(a, events).register.entries;
            exists i :: 0 <= i < |entries| && !EntryRight(a, entries, i)
  {
    hide Step, Fits, EntryRight, CallsHold, Accumulated;
    if events == [] {
      NothingYet(a);
    } else {
      var before, e := Run(a, events[..|events| - 1]), events[|events| - 1];
      RegisterFollowsWhen(a, events[..|events| - 1]);
      if FittingRun(a, events) {
        FittingStepFollows(a, before, e);
      } else if FittingRun(a, events[..|events| - 1]) {
        MisfitGoesAstray(a, before, e);
      } else {
        AstrayStays(a, before, e);
      }
    }
  }

  lemma NothingYet(a: Asset)
    ensures Follows(a, Register(0, [])) && CallsHold(a, Run(a, []))
  {
  }

  // ---- the ledger -----------------------------------------------------------

  predicate AllBook(events: seq<Event>) {
    forall i :: 0 <= i < |events| && events[i].WRITE? ==> events[i].books
  }

  /** More was booked than the register shows, or than any call has read of it. */
  predicate OverBooked(s: State) {
    && s.register.accumulated < s.booked
    && forall c :: 0 <= c < |s.calls| && s.calls[c].Some? ==> s.calls[c].value.accumulated < s.booked
  }

  /** Every month that a call still has to write is worth something, in every run. */
  predicate CallsPay(a: Asset, s: State) {
    forall c :: 0 <= c < |s.calls| && s.calls[c].Some? ==>
      MonthlyDepreciation(a, s.calls[c].value.accumulated, s.calls[c].value.months) > 0
  }

  lemma {:induction false} CallsAlwaysPay(a: Asset, events: seq<Event>)
    ensures CallsPay(a, Run(a, events))
  {
    hide MonthlyDepreciation, Write;
    if events != [] {
      CallsAlwaysPay(a, events[..|events| - 1]);
    }
  }

  lemma FreshFits(s: State, e: Event)
    requires Fresh(s, e)
    ensures Fits(s, e)
  {
  }

  /** A write that finds no more entries than its call counted posts what it books. */
  lemma FreshStepBooks(a: Asset, s: State, e: Event)
    requires Follows(a, s.register) && CallsHold(a, s) && s.booked == s.register.accumulated && (e.WRITE? ==> e.books)
    requires Writes(s, e) ==> Fresh(s, e) && !Posted(s.register.entries, s.calls[e.call].value.periodLabel)
    ensures Step(a, s, e).booked == Step(a, s, e).register.accumulated
  {
    hide MonthlyDepreciation, Posted, EntryRight;
    if Writes(s, e) {
      assert Holds(a, s.calls[e.call].value, |s.register.entries|);
    }
  }

  /** Otherwise it books what the register does not gain. */
  lemma StaleStepOverBooks(a: Asset, s: State, e: Event)
    requires Valid(a) && Follows(a, s.register) && CallsHold(a, s) && s.booked == s.register.accumulated && e.WRITE?
             && e.books && !Fresh(s, e)
    ensures OverBooked(Step(a, s, e))
  {
    hide MonthlyDepreciation, Posted, EntryRight;
    var n := |s.register.entries|;
    forall c | 0 <= c < |s.calls| && s.calls[c].Some?
      ensures s.calls[c].value.accumulated <= s.booked
      ensures s.calls[c].value.months < n ==> s.calls[c].value.accumulated < s.booked
    {
      var x := s.calls[c].value;
      assert Holds(a, x, n);
      NetBookValueFalls(a, x.months, n);
      if x.months < n {
        NetBookValueFalls(a, x.months + 1, n);
      }
    }
    assert Holds(a, s.calls[e.call].value, n);
  }

  lemma OverBookedStays(a: Asset, s: State, e: Event)
    requires OverBooked(s) && CallsPay(a, s) && (e.WRITE? ==> e.books)
    ensures OverBooked(Step(a, s, e))
  {
    hide MonthlyDepreciation, Posted;
  }

  /** The entries a call counted carry other labels than its own, as long as there are no more of them. */
  predicate LabelsNew(s: State) {
    forall c :: 0 <= c < |s.calls| && s.calls[c].Some? && s.calls[c].value.months == |s.register.entries| ==>
      !Posted(s.register.entries, s.calls[c].value.periodLabel)
  }

  predicate CountsKnown(s: State) {
    forall c :: 0 <= c < |s.calls| && s.calls[c].Some? ==> s.calls[c].value.months <= |s.register.entries|
  }

  lemma {:induction false} LabelsStayNew(a: Asset, events: seq<Event>)
    ensures LabelsNew(Run(a, events)) && CountsKnown(Run(a, events))
  {
    hide MonthlyDepreciation, Posted;
    if events != [] {
      LabelsStayNew(a, events[..|events| - 1]);
    }
  }

  /**
    When every month is booked, the ledger shows for the asset what the register
    shows if and only if every write, refused entries included, found as many
    entries as its call had counted; otherwise it shows more.
   */
  lemma {:induction false} LedgerAgreesWhen(a: Asset, events: seq<Event>)
    requires Valid(a) && AllBook(events)
    ensures var s := Run(a, events); s.booked == s.register.accumulated <==> FreshRun(a, events)
    ensures FreshRun(a, events) ==> FittingRun(a, events)
    ensures !FreshRun(a, events) ==> OverBooked(Run(a, events))
  {
    hide Step, Fits, Fresh, Follows, CallsHold, OverBooked, CallsPay, MonthlyDepreciation;
    if events != [] {
      var before, e := Run(a, events[..|events| - 1]), events[|events| - 1];
      LedgerAgreesWhen(a, events[..|events| - 1]);
      RegisterFollowsWhen(a, events[..|events| - 1]);
      CallsAlwaysPay(a, events[..|events| - 1]);
      if FreshRun(a, events) {
        FreshFits(before, e);
        FreshIsNew(a, events);
        FreshStepBooks(a, before, e);
      } else {
        if FreshRun(a, events[..|events| - 1]) {
          StaleWrites(before, e);
          StaleStepOverBooks(a, before, e);
        } else {
          OverBookedStays(a, before, e);
        }
        OverBookedMeans(Step(a, before, e));
      }
    }
  }

  lemma StaleWrites(s: State, e: Event)
    requires !Fresh(s, e)
    ensures e.WRITE?
  {
  }

  lemma OverBookedMeans(s: State)
    requires OverBooked(s)
    ensures s.register.accumulated < s.booked
  {
  }

  lemma FreshIsNew(a: Asset, events: seq<Event>)
    requires events != [] && Fresh(Run(a, events[..|events| - 1]), events[|events| - 1])
    ensures var s, e := Run(a, events[..|events| - 1]), events[|events| - 1];
            Writes(s, e) ==> !Posted(s.register.entries, s.calls[e.call].value.periodLabel)
  {
    LabelsStayNew(a, events[..|events| - 1]);
    hide Posted;
  }

  lemma RunSnoc(a: Asset, events: seq<Event>, e: Event)
    ensures Run(a, events + [e]) == Step(a, Run(a, events), e)
  {
    assert (events + [e])[..|events|] == events;
  }

  /** Two overlapping calls for January and February: two entries, two bookings, and one month in the register. */
  lemma OverlappingCallsLoseAMonth()
    ensures var a := Asset(1200, 0, 12, STRAIGHT_LINE, 0.0);
            var s := Run(a, [READ("January")] + [READ("February")] + [WRITE(0, true)] + [WRITE(1, true)]);
            Valid(a) && |s.register.entries| == 2 && s.register.accumulated == 100 && s.booked == 200
  {
    var a, e := Asset(1200, 0, 12, STRAIGHT_LINE, 0.0), [READ("January")];
    assert MonthlyDepreciation(a, 0, 0) == 100;
    hide MonthlyDepreciation;
    assert [] + e == e;
    RunSnoc(a, [], READ("January"));
    RunSnoc(a, e, READ("February"));
    RunSnoc(a, e + [READ("February")], WRITE(0, true));
    RunSnoc(a, e + [READ("February")] + [WRITE(0, true)], WRITE(1, true));
    assert "January"[0] != "February"[0];
  }

  // ---- months worth nothing -------------------------------------------------

  /** Once a month short of the last is worth nothing, so is every later one short of the last. */
  lemma {:induction false} StoppedStaysStopped(a: Asset, k: nat, m: nat)
    requires Valid(a) && k <= m && m + 1 < a.usefulLifeMonths && Stops(a, k)
    ensures Accumulated(a, m) == Accumulated(a, k) && Stops(a, m)
  {
    if k < m {
      StoppedStaysStopped(a, k, m - 1);
      NetBookValueFalls(a, 0, m - 1);
      MonthBounds(a, Accumulated(a, m - 1), m - 1);
    }
  }

  /** The route gets stuck short of the residual value. */
  predicate GetsStuck(a: Asset)
    requires Valid(a)
  {
    Accumulated(a, StopsAfter(a, 0)) != Depreciable(a)
  }

  /**
    It does so exactly when the last ordinary month is worth nothing although value
    remains: the one month to check.
   */
  lemma StuckWhenLastOrdinaryMonthIsZero(a: Asset)
    requires Valid(a)
    ensures GetsStuck(a)
            <==> a.usefulLifeMonths >= 2 && Stops(a, a.usefulLifeMonths - 2)
                 && Accumulated(a, a.usefulLifeMonths - 2) < Depreciable(a)
  {
    hide MonthlyDepreciation;
    var k, n := StopsAfter(a, 0), a.usefulLifeMonths;
    NetBookValueFalls(a, 0, k);
    if k + 1 >= n {
      MonthBounds(a, Accumulated(a, k), k);
      if n >= 2 && Stops(a, n - 2) {
        assert k > n - 2;
      }
    } else {
      StoppedStaysStopped(a, k, n - 2);
    }
  }

  /** Straight line gets stuck exactly when the base is under half a cent a month. */
  lemma StraightLineStuckWhen(a: Asset)
    requires Valid(a) && a.depreciationMethod == STRAIGHT_LINE
    ensures GetsStuck(a) <==>
            a.cost > a.residual && 2 * (a.cost - a.residual) < a.usefulLifeMonths && a.usefulLifeMonths > 1
  {
    var n, d := a.usefulLifeMonths, Depreciable(a);
    StuckWhenLastOrdinaryMonthIsZero(a);
    if n >= 2 {
      StraightLineIsEven(a, n - 2);
      NetBookValueFalls(a, 0, n - 2);
      StraightLineMonth(a, Accumulated(a, n - 2), n - 2);
      HalfCent(d, n);
      hide MonthlyDepreciation, Accumulated;
      ProductOfZero(n - 2);
    }
  }

  lemma {:induction false} ProductOfZero(k: nat)
    ensures Product(k, 0) == 0
  {
    if k > 0 {
      ProductOfZero(k - 1);
    }
  }

  lemma HalfCent(d: nat, n: nat)
    requires n > 0
    ensures RoundCents(d as real / n as real) >= 0
    ensures RoundCents(d as real / n as real) == 0 <==> 2 * d < n
  {
    QuotientNonNegative(d as real, n as real);
    QuotientBelowHalf(d as real, n as real);
    RoundsToZero(d as real / n as real);
  }

  lemma RoundsToZero(x: real)
    requires x >= 0.0
    ensures RoundCents(x) >= 0 && (RoundCents(x) == 0 <==> x < 0.5)
  {
  }

  lemma QuotientBelowHalf(x: real, m: real)
    requires m > 0.0
    ensures x / m < 0.5 <==> 2.0 * x < m
  {
    assert x / m * m == x;
    if x / m >= 0.5 {
      Scale(x / m, 0.5, m);
    } else {
      ScaleStrict(x / m, 0.5, m);
    }
  }

  lemma Scale(x: real, y: real, n: real)
    requires x >= y && n >= 0.0
    ensures x * n >= y * n
  {
  }

  lemma ScaleStrict(x: real, y: real, n: real)
    requires x < y && n > 0.0
    ensures x * n < y * n
  {
  }

  function MonthlyRate(a: Asset): real { a.annualRate / 100.0 / 12.0 }

  /** A month in which one cent more than the residual value is left is worth at least half a cent. */
  predicate LastCentCounts(a: Asset) {
    MonthOf(a, a.residual + 1) >= 0.5
  }

  /** A month of reducing balance on a net book value, before rounding. */
  function MonthOf(a: Asset, netBookValue: int): real { netBookValue as real * MonthlyRate(a) }

  lemma ReducingMonthIsWorthACent(a: Asset, accumulated: int, months: nat)
    requires Valid(a) && a.depreciationMethod == REDUCING_BALANCE && months + 1 < a.usefulLifeMonths
             && 0 <= accumulated < Depreciable(a)
    requires LastCentCounts(a)
    ensures MonthlyDepreciation(a, accumulated, months) > 0
  {
    hide MonthOf;
    var amount, left := MonthOf(a, a.cost - accumulated), (a.cost - accumulated - a.residual) as real;
    MonthOfRises(a, a.residual + 1, a.cost - accumulated);
    RoundMonotone(0.5, if amount <= left then amount else left);
    OrdinaryReducingMonth(a, accumulated, months);
  }

  lemma MonthOfRises(a: Asset, netBookValue: int, larger: int)
    requires Valid(a) && netBookValue <= larger
    ensures MonthOf(a, netBookValue) <= MonthOf(a, larger)
  {
    Scale(larger as real, netBookValue as real, MonthlyRate(a));
  }

  lemma OrdinaryReducingMonth(a: Asset, accumulated: int, months: nat)
    requires a.depreciationMethod == REDUCING_BALANCE && months + 1 < a.usefulLifeMonths
             && accumulated < a.cost - a.residual
    ensures var amount, left := MonthOf(a, a.cost - accumulated), (a.cost - accumulated - a.residual) as real;
            MonthlyDepreciation(a, accumulated, months) == RoundCents(if amount <= left then amount else left)
  {
  }

  /** More net book value adds to the month no more than itself. */
  lemma MonthOfMore(a: Asset, netBookValue: int, more: nat)
    requires Valid(a)
    ensures MonthOf(a, netBookValue + more) <= MonthOf(a, netBookValue) + more as real
  {
    var x, e, rate := netBookValue as real, more as real, MonthlyRate(a);
    assert (netBookValue + more) as real == x + e;
    assert (x + e) * rate == x * rate + e * rate;
    ScaleLeft(e, rate, 1.0);
  }

  lemma ScaleLeft(n: real, x: real, y: real)
    requires n >= 0.0 && x <= y
    ensures n * x <= n * y
  {
  }

  lemma RoundsBelow(x: real, m: int)
    requires x < m as real - 0.5
    ensures RoundCents(x) <= m - 1
  {
  }

  /** Otherwise an ordinary month never takes the last cent above the residual value. */
  lemma ReducingMonthLeavesSomething(a: Asset, accumulated: int, months: nat)
    requires Valid(a) && a.depreciationMethod == REDUCING_BALANCE && months + 1 < a.usefulLifeMonths
             && 0 <= accumulated < Depreciable(a)
    requires !LastCentCounts(a)
    ensures MonthlyDepreciation(a, accumulated, months) < Depreciable(a) - accumulated
  {
    var m := Depreciable(a) - accumulated;
    MonthOfMore(a, a.residual + 1, m - 1);
    assert a.residual + 1 + (m - 1) == a.cost - accumulated;
    RoundsBelow(MonthOf(a, a.cost - accumulated), m);
    ReducingMonthIs(a, accumulated, months);
  }

  lemma ReducingMonthIs(a: Asset, accumulated: int, months: nat)
    requires Valid(a) && a.depreciationMethod == REDUCING_BALANCE && months + 1 < a.usefulLifeMonths
             && 0 <= accumulated < Depreciable(a)
    ensures MonthlyDepreciation(a, accumulated, months) <= RoundCents(MonthOf(a, a.cost - accumulated))
  {
    var amount, left := MonthOf(a, a.cost - accumulated), (a.cost - accumulated - a.residual) as real;
    OrdinaryReducingMonth(a, accumulated, months);
    hide MonthOf, MonthlyDepreciation;
    if left < amount {
      RoundMonotone(left, amount);
    }
  }

  /**
    An ordinary month of reducing balance is a twelfth of the annual rate on the net
    book value, as far as there is that much left.
   */
  lemma ReducingMonthMeans(a: Asset, accumulated: int, months: nat)
    requires Valid(a) && a.depreciationMethod == REDUCING_BALANCE && months + 1 < a.usefulLifeMonths
    requires 0 <= accumulated < Depreciable(a)
    ensures var amount := MonthlyDepreciation(a, accumulated, months);
            var month, left := TwelfthOf(a.cost - accumulated, a.annualRate), a.cost - a.residual - accumulated;
            amount == if month <= left as real then RoundCents(month) else left
  {
    hide TwelfthOf, MonthOf;
    OrdinaryReducingMonth(a, accumulated, months);
    TwelfthIsMonth(a, a.cost - accumulated);
    RoundExact(a.cost - a.residual - accumulated);
    hide MonthlyDepreciation;
  }

  function TwelfthOf(amount: int, annualRate: real): real { amount as real * annualRate / 1200.0 }

  lemma TwelfthIsMonth(a: Asset, amount: int)
    ensures MonthOf(a, amount) == TwelfthOf(amount, a.annualRate)
  {
    assert MonthlyRate(a) == a.annualRate / 1200.0;
  }

  lemma {:induction false} ReducingStaysAbove(a: Asset, k: nat)
    requires Valid(a) && a.depreciationMethod == REDUCING_BALANCE && a.cost > a.residual && !LastCentCounts(a)
             && k < a.usefulLifeMonths
    ensures Accumulated(a, k) < Depreciable(a)
  {
    hide MonthlyDepreciation, LastCentCounts;
    if k > 0 {
      ReducingStaysAbove(a, k - 1);
      NetBookValueFalls(a, 0, k - 1);
      ReducingMonthLeavesSomething(a, Accumulated(a, k - 1), k - 1);
    }
  }

  /** Until it stops, every month takes at least a cent. */
  lemma {:induction false} ACentAMonth(a: Asset, k: nat, m: nat)
    requires Valid(a) && k <= m && m + 1 < a.usefulLifeMonths && !Stops(a, m)
    ensures Accumulated(a, k) >= k
  {
    hide MonthlyDepreciation;
    if k > 0 {
      ACentAMonth(a, k - 1, m);
      if Stops(a, k - 1) {
        StoppedStaysStopped(a, k - 1, m);
      }
    }
  }

  /**
    Reducing balance, one asset: it reaches the residual value if its last cent
    counts, and over a long enough life only then.
   */
  lemma ReducingBalanceStuck(a: Asset)
    requires Valid(a) && a.depreciationMethod == REDUCING_BALANCE
    ensures a.cost <= a.residual || LastCentCounts(a) ==> !GetsStuck(a)
    ensures a.cost > a.residual && !LastCentCounts(a) && a.usefulLifeMonths >= Depreciable(a) + 2 ==> GetsStuck(a)
  {
    var n := a.usefulLifeMonths;
    StuckWhenLastOrdinaryMonthIsZero(a);
    if n >= 2 {
      NetBookValueFalls(a, 0, n - 2);
      if LastCentCounts(a) && Accumulated(a, n - 2) < Depreciable(a) {
        ReducingMonthIsWorthACent(a, Accumulated(a, n - 2), n - 2);
      }
      if a.cost > a.residual && !LastCentCounts(a) && n >= Depreciable(a) + 2 {
        ReducingStaysAbove(a, n - 2);
        if !Stops(a, n - 2) {
          ACentAMonth(a, n - 2, n - 2);
        }
      }
    }
  }

  function WithLife(a: Asset, life: nat): Asset { a.(usefulLifeMonths := life) }

  /**
    Reducing balance reaches the residual value whatever the useful life exactly
    when nothing is to depreciate or the last cent counts.
   */
  lemma ReducingBalanceReachesResidualWhen(a: Asset)
    requires Valid(a) && a.depreciationMethod == REDUCING_BALANCE
    ensures (forall life: nat | life > 0 :: !GetsStuck(WithLife(a, life)))
            <==> a.cost <= a.residual || LastCentCounts(a)
  {
    hide GetsStuck, LastCentCounts;
    forall life: nat | life > 0
      ensures a.cost <= a.residual || LastCentCounts(a) ==> !GetsStuck(WithLife(a, life))
    {
      ReducingBalanceStuck(WithLife(a, life));
      SameLastCent(a, life);
    }
    ReducingBalanceStuck(WithLife(a, Depreciable(a) + 2));
    SameLastCent(a, Depreciable(a) + 2);
  }

  lemma SameLastCent(a: Asset, life: nat)
    ensures LastCentCounts(WithLife(a, life)) <==> LastCentCounts(a)
  {
  }

  // ---- assets that get stuck --------------------------------------------------

  /** Five cents over a year: the first month is worth nothing, so the route never posts one, whatever it is asked. */
  lemma {:induction false} FiveCentsOverAYear(labels: seq<string>)
    ensures var a := Asset(5, 0, 12, STRAIGHT_LINE, 0.0);
            Valid(a) && GetsStuck(a) && ProcessAll(a, labels) == Register(0, [])
  {
    var a := Asset(5, 0, 12, STRAIGHT_LINE, 0.0);
    StraightLineStuckWhen(a);
    FirstMonthOfFiveCents();
    hide MonthlyDepreciation, GetsStuck;
    if labels != [] {
      FiveCentsOverAYear(labels[..|labels| - 1]);
    }
  }

  lemma FirstMonthOfFiveCents()
    ensures MonthlyDepreciation(Asset(5, 0, 12, STRAIGHT_LINE, 0.0), 0, 0) == 0
  {
    assert 5.0 / 12.0 < 0.5;
  }

  /** Twenty per cent a year on anything with no residual value gets stuck once its life is long enough. */
  lemma TwentyPerCentGetsStuck(cost: nat)
    requires cost > 0
    ensures GetsStuck(Asset(cost, 0, cost + 2, REDUCING_BALANCE, 20.0))
  {
    var a := Asset(cost, 0, cost + 2, REDUCING_BALANCE, 20.0);
    assert MonthOf(a, 1) == MonthlyRate(a) < 0.5;
    ReducingBalanceStuck(a);
  }
}
