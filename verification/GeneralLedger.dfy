/** Double-entry rules, and account balances recomputed from posted lines. Accounts are row numbers into a chart. */
module GeneralLedger {
  import opened Money
  import opened Calendar

  datatype Category = ASSET | LIABILITY | EQUITY | INCOME | EXPENSE

  /** The category of each account. Nothing in the program ever changes it. */
  type Chart = seq<Category>

  datatype Line = Line(account: nat, debit: int, credit: int)

  datatype JournalStatus = DRAFT | PENDING_APPROVAL | POSTED | REJECTED

  datatype Journal = Journal(postingDate: Time, status: JournalStatus, lines: seq<Line>)

  predicate DebitNormal(c: Category) { c == ASSET || c == EXPENSE }

  function BalanceEffect(c: Category, debit: int, credit: int): int {
    if DebitNormal(c) then debit - credit else credit - debit
  }

  ghost predicate OnChart(chart: Chart, lines: seq<Line>) {
    forall i :: 0 <= i < |lines| ==> lines[i].account < |chart|
  }

  // ---- sums over lines --------------------------------------------------

  /** Sum of a quantity over lines. */
  function Total(f: Line -> int, lines: seq<Line>): int {
    if lines == [] then 0 else Total(f, lines[..|lines| - 1]) + f(lines[|lines| - 1])
  }

  lemma TotalSnoc(f: Line -> int, lines: seq<Line>, l: Line)
    ensures Total(f, lines + [l]) == Total(f, lines) + f(l)
  {
    assert (lines + [l])[..|lines|] == lines;
  }

  lemma {:induction false} TotalConcat(f: Line -> int, a: seq<Line>, b: seq<Line>)
    ensures Total(f, a + b) == Total(f, a) + Total(f, b)
  {
    if b == [] {
      assert a + b == a;
    } else {
      TotalConcat(f, a, b[..|b| - 1]);
      assert a + b == a + b[..|b| - 1] + [b[|b| - 1]];
      TotalSnoc(f, a + b[..|b| - 1], b[|b| - 1]);
    }
  }

  function DebitOf(): Line -> int { (l: Line) => l.debit }

  function CreditOf(): Line -> int { (l: Line) => l.credit }

  function SumDebit(lines: seq<Line>): int { Total(DebitOf(), lines) }

  function SumCredit(lines: seq<Line>): int { Total(CreditOf(), lines) }

  predicate IsBalanced(lines: seq<Line>) {
    SumDebit(lines) == SumCredit(lines) && SumDebit(lines) > 0
  }

  /** Effect of a line on the balance of one account. */
  function EffectOn(chart: Chart, a: nat): Line -> int {
    (l: Line) => if l.account == a && a < |chart| then BalanceEffect(chart[a], l.debit, l.credit) else 0
  }

  /** Effect of a line on the balances of all accounts of a category. */
  function EffectIn(chart: Chart, c: Category): Line -> int {
    (l: Line) => if l.account < |chart| && chart[l.account] == c then BalanceEffect(c, l.debit, l.credit) else 0
  }

  function AccountSum(chart: Chart, lines: seq<Line>, a: nat): int { Total(EffectOn(chart, a), lines) }

  function CategorySum(chart: Chart, lines: seq<Line>, c: Category): int { Total(EffectIn(chart, c), lines) }

  /** Every line lies in exactly one category: assets and expenses take its debit side, the others its credit side. */
  lemma {:induction false} CategoriesPartition(chart: Chart, lines: seq<Line>)
    requires OnChart(chart, lines)
    ensures CategorySum(chart, lines, ASSET) + CategorySum(chart, lines, EXPENSE)
            - CategorySum(chart, lines, LIABILITY) - CategorySum(chart, lines, EQUITY)
              - CategorySum(chart, lines, INCOME)
         == SumDebit(lines) - SumCredit(lines)
  {
    if lines != [] {
      CategoriesPartition(chart, lines[..|lines| - 1]);
    }
  }

  // ---- aggregateBalancesAsOf ---------------------------------------------

  datatype Entry = Entry(account: nat, balance: int)

  /** A Map from account to balance, iterated in order of insertion. */
  type Balances = seq<Entry>

  predicate Has(m: Balances, a: nat) {
    exists i :: 0 <= i < |m| && m[i].account == a
  }

  /** get(a) || 0 */
  function Get(m: Balances, a: nat): int {
    if m == [] then 0 else if m[0].account == a then m[0].balance else Get(m[1..], a)
  }

  /** set(a, v) */
  function Put(m: Balances, a: nat, v: int): Balances {
    if m == [] then [Entry(a, v)]
    else if m[0].account == a then [Entry(a, v)] + m[1..]
    else [m[0]] + Put(m[1..], a, v)
  }

  ghost predicate DistinctAccounts(m: Balances) {
    forall i, j :: 0 <= i < j < |m| ==> m[i].account != m[j].account
  }

  lemma {:induction false} PutGet(m: Balances, a: nat, v: int, b: nat)
    ensures Get(Put(m, a, v), b) == if b == a then v else Get(m, b)
  {
    if m != [] && m[0].account != a {
      PutGet(m[1..], a, v, b);
    }
  }

  lemma {:induction false} PutHas(m: Balances, a: nat, v: int, b: nat)
    ensures Has(Put(m, a, v), b) <==> b == a || Has(m, b)
  {
    var p := Put(m, a, v);
    if m == [] {
      assert p[0].account == a;
    } else {
      assert m == [m[0]] + m[1..];
      assert Has(m, b) <==> m[0].account == b || Has(m[1..], b) by { HasCons(m[0], m[1..], b); }
      if m[0].account == a {
        HasCons(Entry(a, v), m[1..], b);
      } else {
        HasCons(m[0], Put(m[1..], a, v), b);
        PutHas(m[1..], a, v, b);
      }
    }
  }

  lemma HasCons(e: Entry, m: Balances, b: nat)
    ensures Has([e] + m, b) <==> e.account == b || Has(m, b)
  {
    var p := [e] + m;
    if e.account == b {
      assert p[0].account == b;
    }
    if i :| 0 <= i < |m| && m[i].account == b {
      assert p[i + 1].account == b;
    }
    if i :| 0 <= i < |p| && p[i].account == b && e.account != b {
      assert m[i - 1].account == b;
    }
  }

  lemma {:induction false} PutDistinct(m: Balances, a: nat, v: int)
    requires DistinctAccounts(m)
    ensures DistinctAccounts(Put(m, a, v))
  {
    if m != [] && m[0].account != a {
      PutDistinct(m[1..], a, v);
      var t := Put(m[1..], a, v);
      forall j | 0 <= j < |t|
        ensures t[j].account != m[0].account
      {
        assert Has(t, t[j].account);
        PutHas(m[1..], a, v, t[j].account);
      }
    }
  }

  /** The loop: one Map update per line. */
  method AggregateBalancesAsOf(chart: Chart, lines: seq<Line>) returns (result: Balances)
    requires OnChart(chart, lines)
    ensures result == Aggregate(chart, lines)
    ensures DistinctAccounts(result)
    ensures forall a :: Get(result, a) == AccountSum(chart, lines, a)
  {
    result := [];
    for i := 0 to |lines|
      invariant result == Aggregate(chart, lines[..i])
    {
      var line := lines[i];
      var effect := BalanceEffect(chart[line.account], line.debit, line.credit);
      assert lines[..i + 1][..i] == lines[..i];
      result := Put(result, line.account, Get(result, line.account) + effect);
    }
    assert lines[..|lines|] == lines;
    AggregateDistinct(chart, lines);
    forall a
      ensures Get(result, a) == AccountSum(chart, lines, a)
    {
      AggregateIsAccountSum(chart, lines, a);
    }
  }

  function Aggregate(chart: Chart, lines: seq<Line>): Balances
    requires OnChart(chart, lines)
  {
    if lines == [] then []
    else
      var before := Aggregate(chart, lines[..|lines| - 1]);
      var l := lines[|lines| - 1];
      Put(before, l.account, Get(before, l.account) + BalanceEffect(chart[l.account], l.debit, l.credit))
  }

  /** What the Map holds for an account is the sum of the effects of its lines. */
  lemma {:induction false} AggregateIsAccountSum(chart: Chart, lines: seq<Line>, a: nat)
    requires OnChart(chart, lines)
    ensures Get(Aggregate(chart, lines), a) == AccountSum(chart, lines, a)
  {
    if lines != [] {
      var before, l := lines[..|lines| - 1], lines[|lines| - 1];
      AggregateIsAccountSum(chart, before, a);
      PutGet(Aggregate(chart, before), l.account,
             Get(Aggregate(chart, before), l.account) + BalanceEffect(chart[l.account], l.debit, l.credit), a);
    }
  }

  lemma {:induction false} AggregateDistinct(chart: Chart, lines: seq<Line>)
    requires OnChart(chart, lines)
    ensures DistinctAccounts(Aggregate(chart, lines))
    ensures forall i :: 0 <= i < |Aggregate(chart, lines)| ==> Aggregate(chart, lines)[i].account < |chart|
  {
    if lines != [] {
      hide Put, Get, BalanceEffect, DistinctAccounts;
      var before, l := lines[..|lines| - 1], lines[|lines| - 1];
      AggregateDistinct(chart, before);
      PutStaysDistinct(chart, Aggregate(chart, before), l.account,
                       Get(Aggregate(chart, before), l.account) + BalanceEffect(chart[l.account], l.debit, l.credit));
    }
  }

  lemma PutStaysDistinct(chart: Chart, m: Balances, a: nat, v: int)
    requires DistinctAccounts(m) && a < |chart| && forall i :: 0 <= i < |m| ==> m[i].account < |chart|
    ensures DistinctAccounts(Put(m, a, v))
    ensures forall i :: 0 <= i < |Put(m, a, v)| ==> Put(m, a, v)[i].account < |chart|
  {
    PutDistinct(m, a, v);
    forall i | 0 <= i < |Put(m, a, v)|
      ensures Put(m, a, v)[i].account < |chart|
    {
      assert Has(Put(m, a, v), Put(m, a, v)[i].account);
      PutHas(m, a, v, Put(m, a, v)[i].account);
    }
  }

  /** Sum of the entries whose account is of a category. */
  function CategoryTotal(chart: Chart, m: Balances, c: Category): int {
    if m == [] then 0
    else
      (if m[0].account < |chart| && chart[m[0].account] == c then m[0].balance else 0)
      + CategoryTotal(chart, m[1..], c)
  }

  lemma {:induction false} PutCategoryTotal(chart: Chart, m: Balances, a: nat, v: int, c: Category)
    ensures CategoryTotal(chart, Put(m, a, v), c)
         == CategoryTotal(chart, m, c) + if a < |chart| && chart[a] == c then v - Get(m, a) else 0
  {
    if m == [] {
      assert [Entry(a, v)][1..] == [];
    } else if m[0].account == a {
      assert ([Entry(a, v)] + m[1..])[1..] == m[1..];
    } else {
      assert ([m[0]] + Put(m[1..], a, v))[1..] == Put(m[1..], a, v);
      PutCategoryTotal(chart, m[1..], a, v, c);
    }
  }

  /** Summing balances by category is summing lines by category. */
  lemma {:induction false} CategoryTotalIsSum(chart: Chart, lines: seq<Line>, c: Category)
    requires OnChart(chart, lines)
    ensures CategoryTotal(chart, Aggregate(chart, lines), c) == CategorySum(chart, lines, c)
  {
    if lines != [] {
      var before, l := lines[..|lines| - 1], lines[|lines| - 1];
      CategoryTotalIsSum(chart, before, c);
      var m := Aggregate(chart, before);
      PutCategoryTotal(chart, m, l.account, Get(m, l.account) + BalanceEffect(chart[l.account], l.debit, l.credit), c);
    }
  }

  // ---- posted lines by date ----------------------------------------------

  /** Lines of the posted journals dated within [from, to], in journal order. */
  function PostedBetween(journals: seq<Journal>, from: Time, to: Time): seq<Line> {
    if journals == [] then []
    else
      PostedBetween(journals[..|journals| - 1], from, to) + LinesWithin(journals[|journals| - 1], from, to)
  }

  function LinesWithin(j: Journal, from: Time, to: Time): seq<Line> {
    if j.status == POSTED && from <= j.postingDate <= to then j.lines else []
  }

  /** Lines of the posted journals dated no later than `asOf`. */
  function PostedUpTo(journals: seq<Journal>, asOf: Time): seq<Line> {
    if journals == [] then []
    else PostedUpTo(journals[..|journals| - 1], asOf) + LinesUpTo(journals[|journals| - 1], asOf)
  }

  function LinesUpTo(j: Journal, asOf: Time): seq<Line> {
    if j.status == POSTED && j.postingDate <= asOf then j.lines else []
  }

  lemma {:induction false} PostedUpToConcat(a: seq<Journal>, b: seq<Journal>, asOf: Time)
    ensures PostedUpTo(a + b, asOf) == PostedUpTo(a, asOf) + PostedUpTo(b, asOf)
  {
    hide LinesUpTo;
    if b == [] {
      assert a + b == a;
    } else {
      assert (a + b)[..|a + b| - 1] == a + b[..|b| - 1];
      PostedUpToConcat(a, b[..|b| - 1], asOf);
    }
  }

  lemma {:induction false} PostedBetweenConcat(a: seq<Journal>, b: seq<Journal>, from: Time, to: Time)
    ensures PostedBetween(a + b, from, to) == PostedBetween(a, from, to) + PostedBetween(b, from, to)
  {
    hide LinesWithin;
    if b == [] {
      assert a + b == a;
    } else {
      assert (a + b)[..|a + b| - 1] == a + b[..|b| - 1];
      PostedBetweenConcat(a, b[..|b| - 1], from, to);
    }
  }

  lemma OneJournal(j: Journal, from: Time, to: Time)
    ensures PostedUpTo([j], to) == if j.status == POSTED && j.postingDate <= to then j.lines else []
    ensures PostedBetween([j], from, to)
         == if j.status == POSTED && from <= j.postingDate && j.postingDate <= to then j.lines else []
  {
    assert [j][..0] == [];
  }

  /** A posted journal counts from its own date on, and no other one does: history is read journal by journal. */
  lemma PostedLinesMean(before: seq<Journal>, j: Journal, after: seq<Journal>, from: Time, to: Time)
    ensures PostedUpTo(before + [j] + after, to)
         == PostedUpTo(before, to) + (if j.status == POSTED && j.postingDate <= to then j.lines else [])
            + PostedUpTo(after, to)
    ensures PostedBetween(before + [j] + after, from, to)
         == PostedBetween(before, from, to)
            + (if j.status == POSTED && from <= j.postingDate && j.postingDate <= to then j.lines else [])
            + PostedBetween(after, from, to)
  {
    hide PostedUpTo, PostedBetween;
    PostedUpToConcat(before + [j], after, to);
    PostedUpToConcat(before, [j], to);
    PostedBetweenConcat(before + [j], after, from, to);
    PostedBetweenConcat(before, [j], from, to);
    OneJournal(j, from, to);
  }

  /** All posted lines. */
  function AllPosted(journals: seq<Journal>): seq<Line> {
    if journals == [] then []
    else
      AllPosted(journals[..|journals| - 1])
      + (if journals[|journals| - 1].status == POSTED then journals[|journals| - 1].lines else [])
  }

  ghost predicate PostedOnChart(chart: Chart, journals: seq<Journal>) {
    forall i :: 0 <= i < |journals| ==> OnChart(chart, journals[i].lines)
  }

  predicate Even(lines: seq<Line>) { SumDebit(lines) == SumCredit(lines) }

  /** The rule every posted journal obeys: its debits equal its credits. */
  ghost predicate PostedBalanced(journals: seq<Journal>) {
    forall i :: 0 <= i < |journals| && journals[i].status == POSTED ==> Even(journals[i].lines)
  }

  lemma {:induction false} PostedUpToOnChart(chart: Chart, journals: seq<Journal>, asOf: Time)
    requires PostedOnChart(chart, journals)
    ensures OnChart(chart, PostedUpTo(journals, asOf))
  {
    if journals != [] {
      PostedUpToOnChart(chart, journals[..|journals| - 1], asOf);
    }
  }

  lemma {:induction false} PostedBetweenOnChart(chart: Chart, journals: seq<Journal>, from: Time, to: Time)
    requires PostedOnChart(chart, journals)
    ensures OnChart(chart, PostedBetween(journals, from, to))
  {
    if journals != [] {
      PostedBetweenOnChart(chart, journals[..|journals| - 1], from, to);
    }
  }

  /** On any date, the debits and the credits posted so far are equal. */
  lemma {:induction false} PostedUpToBalanced(journals: seq<Journal>, asOf: Time)
    requires PostedBalanced(journals)
    ensures SumDebit(PostedUpTo(journals, asOf)) == SumCredit(PostedUpTo(journals, asOf))
  {
    if journals != [] {
      var before, j := journals[..|journals| - 1], journals[|journals| - 1];
      PostedUpToBalanced(before, asOf);
      TotalConcat(DebitOf(), PostedUpTo(before, asOf), LinesUpTo(j, asOf));
      TotalConcat(CreditOf(), PostedUpTo(before, asOf), LinesUpTo(j, asOf));
    }
  }

  /** History up to a date is history before a period plus the period's own, for any quantity. */
  lemma {:induction false} PeriodTelescopes(f: Line -> int, journals: seq<Journal>, from: Time, to: Time)
    requires from <= to + 1
    ensures Total(f, PostedUpTo(journals, to))
            == Total(f, PostedUpTo(journals, from - 1)) + Total(f, PostedBetween(journals, from, to))
  {
    if journals != [] {
      var before, j := journals[..|journals| - 1], journals[|journals| - 1];
      PeriodTelescopes(f, before, from, to);
      TotalConcat(f, PostedUpTo(before, to), LinesUpTo(j, to));
      TotalConcat(f, PostedUpTo(before, from - 1), LinesUpTo(j, from - 1));
      TotalConcat(f, PostedBetween(before, from, to), LinesWithin(j, from, to));
    }
  }
}
