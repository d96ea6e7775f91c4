/**
 * The analytics endpoint (`GET /api/analytics`): one pass over the fetched payment intents
 * that counts them, adds up the revenue of the succeeded ones, tallies succeeded payments by
 * payment method and all payments by status; the projection of each intent into a history
 * row; and the choice of the balance entry to report.
 */
module Analytics {
  import opened Wrappers
  import opened Sums
  import Js

  const Succeeded := "succeeded"
  const UnknownMethod := "unknown"
  const PreferredCurrency := "eur"

  /** A payment intent as the payment provider lists it (the fields the endpoint reads). */
  datatype PaymentIntent = PaymentIntent(
    id: string,
    amount: int,                      // minor currency units
    currency: string,
    status: string,
    paymentMethodTypes: seq<string>,
    created: int,                     // Unix seconds
    description: Option<string>)

  /** One row of `paymentHistory`. */
  datatype HistoryRow = HistoryRow(
    id: string, amount: int, currency: string, status: string,
    paymentMethod: string, created: int, description: string)

  /** An entry of `byPaymentMethod`. */
  datatype MethodStats = MethodStats(count: int, amount: int)

  /** The `analytics` object of the response. */
  datatype Summary = Summary(
    total: int,
    totalAmount: int,
    byPaymentMethod: map<string, MethodStats>,
    byStatus: map<string, int>)

  // ---------------------------------------------------------------------------
  // Payment-method key

  /** `pi.payment_method_types?.[0] || 'unknown'`: the first listed type, unless there is none
      or it is the empty string. */
  function MethodKey(p: PaymentIntent): (k: string)
    ensures k != ""
    ensures k == UnknownMethod || (|p.paymentMethodTypes| > 0 && k == p.paymentMethodTypes[0])
    ensures |p.paymentMethodTypes| > 0 && p.paymentMethodTypes[0] != "" ==> k == p.paymentMethodTypes[0]
  {
    if |p.paymentMethodTypes| > 0 && p.paymentMethodTypes[0] != "" then p.paymentMethodTypes[0]
    else UnknownMethod
  }

  // ---------------------------------------------------------------------------
  // Specification of the aggregates, in closed form

  /** Sum of `amount` over the succeeded intents of `s`. */
  function Revenue(s: seq<PaymentIntent>): int
  {
    if s == [] then 0
    else Revenue(s[..|s| - 1]) + (if s[|s| - 1].status == Succeeded then s[|s| - 1].amount else 0)
  }

  /** Number of intents of `s` with status `st`. */
  function CountStatus(s: seq<PaymentIntent>, st: string): nat
  {
    if s == [] then 0
    else CountStatus(s[..|s| - 1], st) + (if s[|s| - 1].status == st then 1 else 0)
  }

  /** Whether `p` is a succeeded payment made with method `m`. */
  predicate SucceededWith(p: PaymentIntent, m: string)
  {
    p.status == Succeeded && MethodKey(p) == m
  }

  /** Number of succeeded intents of `s` made with method `m`. */
  function CountMethod(s: seq<PaymentIntent>, m: string): nat
  {
    if s == [] then 0
    else CountMethod(s[..|s| - 1], m) + (if SucceededWith(s[|s| - 1], m) then 1 else 0)
  }

  /** Sum of `amount` over the succeeded intents of `s` made with method `m`. */
  function AmountMethod(s: seq<PaymentIntent>, m: string): int
  {
    if s == [] then 0
    else AmountMethod(s[..|s| - 1], m) + (if SucceededWith(s[|s| - 1], m) then s[|s| - 1].amount else 0)
  }

  /** The statuses that occur in `s`. */
  function StatusesOf(s: seq<PaymentIntent>): set<string>
  {
    set i | 0 <= i < |s| :: s[i].status
  }

  /** The payment methods of the succeeded intents of `s`. */
  function MethodsOf(s: seq<PaymentIntent>): set<string>
  {
    set i | 0 <= i < |s| && s[i].status == Succeeded :: MethodKey(s[i])
  }

  /** `byStatus` as it should be: every status present, with its number of intents. */
  function StatusTable(s: seq<PaymentIntent>): map<string, int>
  {
    map st | st in StatusesOf(s) :: CountStatus(s, st)
  }

  /** `byPaymentMethod` as it should be: every method of a succeeded intent, with the number and
      total amount of the succeeded intents made with it. */
  function MethodTable(s: seq<PaymentIntent>): map<string, MethodStats>
  {
    map m | m in MethodsOf(s) :: MethodStats(CountMethod(s, m), AmountMethod(s, m))
  }

  // ---------------------------------------------------------------------------
  // How the closed forms grow by one intent

  lemma {:induction false} CountStatusPositive(s: seq<PaymentIntent>, st: string)
    ensures CountStatus(s, st) > 0 <==> st in StatusesOf(s)
  {
    if s != [] {
      var s' := s[..|s| - 1];
      CountStatusPositive(s', st);
      assert StatusesOf(s) == StatusesOf(s') + {s[|s| - 1].status} by {
        forall x | x in StatusesOf(s) ensures x in StatusesOf(s') + {s[|s| - 1].status} {
          var i :| 0 <= i < |s| && s[i].status == x;
          if i < |s| - 1 { assert s'[i] == s[i]; }
        }
        forall x | x in StatusesOf(s') ensures x in StatusesOf(s) {
          var i :| 0 <= i < |s'| && s'[i].status == x;
          assert s[i] == s'[i];
        }
      }
    }
  }

  /** The methods of `s + [p]` are those of `s`, plus the method of `p` when it succeeded. */
  lemma MethodsOfSnoc(s: seq<PaymentIntent>, p: PaymentIntent)
    ensures MethodsOf(s + [p]) == MethodsOf(s) + (if p.status == Succeeded then {MethodKey(p)} else {})
  {
    var s2 := s + [p];
    forall x | x in MethodsOf(s2)
      ensures x in MethodsOf(s) + (if p.status == Succeeded then {MethodKey(p)} else {})
    {
      var i :| 0 <= i < |s2| && s2[i].status == Succeeded && MethodKey(s2[i]) == x;
      if i < |s| { assert s[i] == s2[i]; }
    }
    forall x | x in MethodsOf(s) ensures x in MethodsOf(s2) {
      var i :| 0 <= i < |s| && s[i].status == Succeeded && MethodKey(s[i]) == x;
      assert s2[i] == s[i];
    }
    if p.status == Succeeded {
      assert s2[|s|] == p;
    }
  }

  lemma {:induction false} CountMethodPositive(s: seq<PaymentIntent>, m: string)
    ensures CountMethod(s, m) > 0 <==> m in MethodsOf(s)
  {
    if s != [] {
      var s' := s[..|s| - 1];
      CountMethodPositive(s', m);
      assert s' + [s[|s| - 1]] == s;
      MethodsOfSnoc(s', s[|s| - 1]);
    }
  }

  /** A `byStatus` table with one more intent of status `st`. */
  function TallyStatus(t: map<string, int>, st: string): map<string, int>
  {
    t[st := (if st in t then t[st] else 0) + 1]
  }

  /** A `byPaymentMethod` table with intent `p` counted in: only a succeeded one adds to it. */
  function TallyMethod(t: map<string, MethodStats>, p: PaymentIntent): map<string, MethodStats>
  {
    if p.status != Succeeded then t
    else
      var k := MethodKey(p);
      var prior := if k in t then t[k] else MethodStats(0, 0);
      t[k := MethodStats(prior.count + 1, prior.amount + p.amount)]
  }

  /** `byStatus` as the loop builds it, one intent after the other. */
  function StatusFold(s: seq<PaymentIntent>): map<string, int>
  {
    if s == [] then map[] else TallyStatus(StatusFold(s[..|s| - 1]), s[|s| - 1].status)
  }

  /** `byPaymentMethod` as the loop builds it, one intent after the other. */
  function MethodFold(s: seq<PaymentIntent>): map<string, MethodStats>
  {
    if s == [] then map[] else TallyMethod(MethodFold(s[..|s| - 1]), s[|s| - 1])
  }

  lemma StatusTableSnoc(s: seq<PaymentIntent>, p: PaymentIntent)
    ensures StatusTable(s + [p]) == TallyStatus(StatusTable(s), p.status)
  {
    var s2 := s + [p];
    assert s2[..|s2| - 1] == s;
    var t := StatusTable(s);
    CountStatusPositive(s, p.status);
    CountStatusPositive(s2, p.status);
    forall st | st in StatusesOf(s) ensures st in StatusesOf(s2) {
      CountStatusPositive(s, st);
      CountStatusPositive(s2, st);
    }
    forall st | st in StatusesOf(s2) && st != p.status ensures st in StatusesOf(s) {
      CountStatusPositive(s, st);
      CountStatusPositive(s2, st);
    }
  }

  lemma MethodTableSnoc(s: seq<PaymentIntent>, p: PaymentIntent)
    ensures MethodTable(s + [p]) == TallyMethod(MethodTable(s), p)
  {
    var s2 := s + [p];
    assert s2[..|s|] == s;
    var a, b := MethodTable(s2), TallyMethod(MethodTable(s), p);
    MethodsOfSnoc(s, p);
    forall m | m in a ensures m in b && a[m] == b[m] {
      if SucceededWith(p, m) && m !in MethodsOf(s) {
        CountMethodPositive(s, m);
        AmountAbsent(s, m);
      }
    }
    assert a == b;
  }

  /** A method with no succeeded intent has no amount. */
  lemma {:induction false} AmountAbsent(s: seq<PaymentIntent>, m: string)
    requires CountMethod(s, m) == 0
    ensures AmountMethod(s, m) == 0
  {
    if s != [] {
      AmountAbsent(s[..|s| - 1], m);
    }
  }

  // ---------------------------------------------------------------------------
  // The one pass over the intents (route.ts, the forEach)

  /** Visiting one more intent extends each running definition by that intent. */
  lemma FoldsSnoc(seen: seq<PaymentIntent>, p: PaymentIntent)
    ensures Revenue(seen + [p]) == Revenue(seen) + (if p.status == Succeeded then p.amount else 0)
    ensures MethodFold(seen + [p]) == TallyMethod(MethodFold(seen), p)
    ensures StatusFold(seen + [p]) == TallyStatus(StatusFold(seen), p.status)
  {
    assert (seen + [p])[..|seen|] == seen;
  }

  /** The three in-place steps on an entry (create it at `{0, 0}` if absent, add one to the count,
      add the amount) give the entry `TallyMethod` puts there. */
  lemma EntrySteps(t: map<string, MethodStats>, k: string, amount: int)
    ensures var t1 := if k !in t then t[k := MethodStats(0, 0)] else t;
      var t2 := t1[k := t1[k].(count := t1[k].count + 1)];
      var t3 := t2[k := t2[k].(amount := t2[k].amount + amount)];
      var prior := if k in t then t[k] else MethodStats(0, 0);
      t3 == t[k := MethodStats(prior.count + 1, prior.amount + amount)]
  {
  }

  /** Aggregates the fetched intents in one pass, updating the counters and the two tables in place. */
  method Aggregate(data: array<PaymentIntent>) returns (analytics: Summary)
    ensures analytics.total == data.Length
    ensures analytics.totalAmount == Revenue(data[..])
    ensures analytics.byPaymentMethod == MethodTable(data[..])
    ensures analytics.byStatus == StatusTable(data[..])
  {
    var total, totalAmount := 0, 0;
    var byPaymentMethod: map<string, MethodStats> := map[];
    var byStatus: map<string, int> := map[];
    for i := 0 to data.Length
      invariant total == i
      invariant totalAmount == Revenue(data[..i])
      invariant byPaymentMethod == MethodFold(data[..i])
      invariant byStatus == StatusFold(data[..i])
    {
      var pi := data[i];
      assert data[..i + 1] == data[..i] + [pi];
      FoldsSnoc(data[..i], pi);
      total := total + 1;
      if pi.status == Succeeded {
        totalAmount := totalAmount + pi.amount;
      }
      if pi.status == Succeeded {
        var paymentMethod := MethodKey(pi);
        EntrySteps(byPaymentMethod, paymentMethod, pi.amount);
        if paymentMethod !in byPaymentMethod {
          byPaymentMethod := byPaymentMethod[paymentMethod := MethodStats(0, 0)];
        }
        var entry := byPaymentMethod[paymentMethod];
        byPaymentMethod := byPaymentMethod[paymentMethod := entry.(count := entry.count + 1)];
        entry := byPaymentMethod[paymentMethod];
        byPaymentMethod := byPaymentMethod[paymentMethod := entry.(amount := entry.amount + pi.amount)];
      }
      byStatus := byStatus[pi.status := (if pi.status in byStatus then byStatus[pi.status] else 0) + 1];
    }
    assert data[..] == data[..data.Length];
    MethodFoldIsTable(data[..]);
    StatusFoldIsTable(data[..]);
    analytics := Summary(total, totalAmount, byPaymentMethod, byStatus);
  }

  // ---------------------------------------------------------------------------
  // What the tables add up to

  /** The `count` column of a `byPaymentMethod` table. */
  function Counts(t: map<string, MethodStats>): map<string, int>
  {
    map m | m in t :: t[m].count
  }

  /** The `amount` column of a `byPaymentMethod` table. */
  function Amounts(t: map<string, MethodStats>): map<string, int>
  {
    map m | m in t :: t[m].amount
  }

  /** Building `byStatus` intent by intent yields the closed form. */
  lemma {:induction false} StatusFoldIsTable(s: seq<PaymentIntent>)
    ensures StatusFold(s) == StatusTable(s)
  {
    if s != [] {
      var s', p := s[..|s| - 1], s[|s| - 1];
      assert s == s' + [p];
      StatusFoldIsTable(s');
      StatusTableSnoc(s', p);
    }
  }

  /** Building `byPaymentMethod` intent by intent yields the closed form. */
  lemma {:induction false} MethodFoldIsTable(s: seq<PaymentIntent>)
    ensures MethodFold(s) == MethodTable(s)
  {
    if s != [] {
      var s', p := s[..|s| - 1], s[|s| - 1];
      assert s == s' + [p];
      MethodFoldIsTable(s');
      MethodTableSnoc(s', p);
    }
  }

  lemma {:induction false} StatusFoldSum(s: seq<PaymentIntent>)
    ensures Sum(StatusFold(s)) == |s|
  {
    if s != [] {
      var t, st := StatusFold(s[..|s| - 1]), s[|s| - 1].status;
      StatusFoldSum(s[..|s| - 1]);
      SumUpdate(t, st, (if st in t then t[st] else 0) + 1);
    }
  }

  /** Every status present counts at least one intent, and the `byStatus` counts add up to the
      number of intents. */
  lemma StatusCountsSumToTotal(s: seq<PaymentIntent>)
    ensures forall st :: st in StatusTable(s) ==> StatusTable(s)[st] >= 1
    ensures Sum(StatusTable(s)) == |s|
  {
    forall st | st in StatusTable(s) ensures StatusTable(s)[st] >= 1 {
      CountStatusPositive(s, st);
    }
    StatusFoldSum(s);
    StatusFoldIsTable(s);
  }

  /** Every method present counts at least one succeeded intent. */
  lemma MethodEntriesPositive(s: seq<PaymentIntent>)
    ensures forall m :: m in MethodTable(s) ==> MethodTable(s)[m].count >= 1
  {
    forall m | m in MethodTable(s) ensures MethodTable(s)[m].count >= 1 {
      CountMethodPositive(s, m);
    }
  }

  lemma ColumnsUpdate(t: map<string, MethodStats>, k: string, v: MethodStats)
    ensures Counts(t[k := v]) == Counts(t)[k := v.count]
    ensures Amounts(t[k := v]) == Amounts(t)[k := v.amount]
  {
  }

  /** The count column of the table built intent by intent adds up to the succeeded intents. */
  lemma {:induction false} MethodFoldCounts(s: seq<PaymentIntent>)
    ensures Sum(Counts(MethodFold(s))) == CountStatus(s, Succeeded)
  {
    if s != [] {
      var s', p := s[..|s| - 1], s[|s| - 1];
      MethodFoldCounts(s');
      if p.status == Succeeded {
        var t, k := MethodFold(s'), MethodKey(p);
        var prior := if k in t then t[k] else MethodStats(0, 0);
        var v := MethodStats(prior.count + 1, prior.amount + p.amount);
        ColumnsUpdate(t, k, v);
        var c := Counts(t);
        SumUpdate(c, k, v.count);
        assert (if k in c then c[k] else 0) == prior.count;
      }
    }
  }

  /** The amount column of the table built intent by intent adds up to the revenue. */
  lemma {:induction false} MethodFoldAmounts(s: seq<PaymentIntent>)
    ensures Sum(Amounts(MethodFold(s))) == Revenue(s)
  {
    if s != [] {
      var s', p := s[..|s| - 1], s[|s| - 1];
      MethodFoldAmounts(s');
      if p.status == Succeeded {
        var t, k := MethodFold(s'), MethodKey(p);
        var prior := if k in t then t[k] else MethodStats(0, 0);
        var v := MethodStats(prior.count + 1, prior.amount + p.amount);
        ColumnsUpdate(t, k, v);
        var d := Amounts(t);
        SumUpdate(d, k, v.amount);
        assert (if k in d then d[k] else 0) == prior.amount;
      }
    }
  }

  /** Over all methods the counts add up to the number of succeeded intents, and the amounts to
      the revenue. */
  lemma MethodTableSums(s: seq<PaymentIntent>)
    ensures Sum(Counts(MethodTable(s))) == CountStatus(s, Succeeded)
    ensures Sum(Amounts(MethodTable(s))) == Revenue(s)
  {
    MethodFoldCounts(s);
    MethodFoldAmounts(s);
    MethodFoldIsTable(s);
  }

  /** Whether a summary satisfies the invariants the dashboard relies on. */
  ghost predicate Coherent(a: Summary)
  {
    && Sum(a.byStatus) == a.total
    && Sum(Amounts(a.byPaymentMethod)) == a.totalAmount
    && Sum(Counts(a.byPaymentMethod)) <= a.total
    && (forall m :: m in a.byPaymentMethod ==> a.byPaymentMethod[m].count >= 1)
    && (forall st :: st in a.byStatus ==> a.byStatus[st] >= 1)
  }

  /** The summary of any list of intents is coherent; in particular the succeeded payments counted
      by method are exactly those counted under `succeeded` by status. */
  lemma SummaryCoherent(s: seq<PaymentIntent>)
    ensures Coherent(Summary(|s|, Revenue(s), MethodTable(s), StatusTable(s)))
    ensures Sum(Counts(MethodTable(s))) == (if Succeeded in StatusTable(s) then StatusTable(s)[Succeeded] else 0)
  {
    var m, t := MethodTable(s), StatusTable(s);
    StatusCountsSumToTotal(s);
    MethodEntriesPositive(s);
    MethodTableSums(s);
    assert Sum(Counts(m)) == if Succeeded in t then t[Succeeded] else 0 by {
      CountStatusPositive(s, Succeeded);
    }
    CountAtMostLength(s, Succeeded);
  }

  lemma {:induction false} CountAtMostLength(s: seq<PaymentIntent>, st: string)
    ensures CountStatus(s, st) <= |s|
  {
    if s != [] {
      CountAtMostLength(s[..|s| - 1], st);
    }
  }

  // ---------------------------------------------------------------------------
  // The history rows (route.ts, paymentIntents.data.map)

  /** The row shown for one intent; a missing or empty description becomes `''`. */
  function Project(p: PaymentIntent): HistoryRow
  {
    HistoryRow(p.id, p.amount, p.currency, p.status, MethodKey(p), p.created, p.description.GetOr(""))
  }

  /** `paymentHistory`: one row per intent, in the order fetched. */
  function History(s: seq<PaymentIntent>): (rows: seq<HistoryRow>)
    ensures |rows| == |s|
    ensures forall i :: 0 <= i < |s| ==>
      && rows[i].id == s[i].id && rows[i].amount == s[i].amount && rows[i].currency == s[i].currency
      && rows[i].status == s[i].status && rows[i].created == s[i].created
      && rows[i].paymentMethod == MethodKey(s[i])
      && rows[i].description == (if s[i].description.Some? then s[i].description.value else "")
  {
    seq(|s|, i requires 0 <= i < |s| => Project(s[i]))
  }

  /** The history and the aggregation use the same method key: a method has a `byPaymentMethod`
      entry exactly when some succeeded row shows it, with as many such rows as its count. */
  lemma {:induction false} HistoryAgreesWithMethodTable(s: seq<PaymentIntent>, m: string)
    ensures m in MethodTable(s) <==>
      exists i :: 0 <= i < |s| && History(s)[i].status == Succeeded && History(s)[i].paymentMethod == m
    ensures m in MethodTable(s) ==> MethodTable(s)[m].count == RowCount(History(s), m)
  {
    CountMethodRows(s, m);
    CountMethodPositive(s, m);
  }

  /** Number of succeeded rows showing method `m`. */
  function RowCount(rows: seq<HistoryRow>, m: string): nat
  {
    if rows == [] then 0
    else RowCount(rows[..|rows| - 1], m)
         + (if rows[|rows| - 1].status == Succeeded && rows[|rows| - 1].paymentMethod == m then 1 else 0)
  }

  lemma {:induction false} CountMethodRows(s: seq<PaymentIntent>, m: string)
    ensures CountMethod(s, m) == RowCount(History(s), m)
  {
    if s != [] {
      CountMethodRows(s[..|s| - 1], m);
      assert History(s)[..|s| - 1] == History(s[..|s| - 1]);
    }
  }

  // ---------------------------------------------------------------------------
  // The balance (route.ts, balance.available.find(...) || balance.available[0])

  datatype BalanceEntry = BalanceEntry(amount: int, currency: string)

  /** What the provider's balance call returns. */
  datatype ProviderBalance = ProviderBalance(available: seq<BalanceEntry>, pending: seq<BalanceEntry>)

  /** The `balance` object of the response. */
  datatype BalanceView = BalanceView(available: int, pending: int, currency: string)

  /** `Array.prototype.find`: the first entry in `code`, if any. */
  function FindCurrency(entries: seq<BalanceEntry>, code: string): (r: Option<BalanceEntry>)
    ensures r.Some? <==> exists i :: 0 <= i < |entries| && entries[i].currency == code
    ensures r.Some? ==> r.value.currency == code && r.value in entries
    ensures r.Some? ==> forall i :: 0 <= i < |entries| && entries[i] != r.value ==>
      entries[i].currency != code || exists j :: 0 <= j < i && entries[j] == r.value
  {
    if entries == [] then None
    else if entries[0].currency == code then Some(entries[0])
    else
      var r := FindCurrency(entries[1..], code);
      assert forall i :: 1 <= i < |entries| ==> entries[i] == entries[1..][i - 1];
      r
  }

  /** The entry reported: the first in the preferred currency, else the first entry, else none. */
  function SelectEntry(entries: seq<BalanceEntry>): (r: Option<BalanceEntry>)
    ensures r.None? <==> entries == []
    ensures (exists i :: 0 <= i < |entries| && entries[i].currency == PreferredCurrency) ==>
      r.Some? && r.value.currency == PreferredCurrency && r == FindCurrency(entries, PreferredCurrency)
    ensures (forall i :: 0 <= i < |entries| ==> entries[i].currency != PreferredCurrency) && entries != [] ==>
      r == Some(entries[0])
  {
    var found := FindCurrency(entries, PreferredCurrency);
    if found.Some? then found else if entries != [] then Some(entries[0]) else None
  }

  /** The `balance` object: selected amounts with 0 for a missing entry, and the selected available
      entry's currency, `'eur'` when there is none or it is empty. */
  function BalanceOf(b: ProviderBalance): (v: BalanceView)
    ensures v.currency != ""
    ensures b.available == [] ==> v.available == 0 && v.currency == PreferredCurrency
    ensures b.pending == [] ==> v.pending == 0
    ensures (exists i :: 0 <= i < |b.available| && b.available[i].currency == PreferredCurrency) ==>
      v.currency == PreferredCurrency && v.available == FindCurrency(b.available, PreferredCurrency).value.amount
    ensures ((forall i :: 0 <= i < |b.available| ==> b.available[i].currency != PreferredCurrency)
             && b.available != []) ==>
      && v.available == b.available[0].amount
      && v.currency == (if b.available[0].currency != "" then b.available[0].currency else PreferredCurrency)
    ensures (exists i :: 0 <= i < |b.pending| && b.pending[i].currency == PreferredCurrency) ==>
      v.pending == FindCurrency(b.pending, PreferredCurrency).value.amount
    ensures ((forall i :: 0 <= i < |b.pending| ==> b.pending[i].currency != PreferredCurrency)
             && b.pending != []) ==>
      v.pending == b.pending[0].amount
  {
    var availableEntry := SelectEntry(b.available);
    var pendingEntry := SelectEntry(b.pending);
    BalanceView(
      if availableEntry.Some? then availableEntry.value.amount else 0,
      if pendingEntry.Some? then pendingEntry.value.amount else 0,
      if availableEntry.Some? && availableEntry.value.currency != "" then availableEntry.value.currency
      else PreferredCurrency)
  }

  // ---------------------------------------------------------------------------
  // The handler

  /** The response body of `GET /api/analytics`. */
  datatype AnalyticsResponse =
    | Ok(analytics: Summary, paymentHistory: seq<HistoryRow>, balance: BalanceView, currency: string)
    | ServerError(error: string)   // sent with HTTP status 500

  /** `error instanceof Error ? error.message : 'Unknown error'` */
  function ErrorMessage(t: Js.Thrown): string
  {
    match t
    case ErrorInstance(message) => message
    case OtherValue => "Unknown error"
  }

  /** The handler, given what the provider's two calls (balance first, then the intent list)
      returned or threw. */
  method Get(balance: Result<ProviderBalance, Js.Thrown>, intents: Result<array<PaymentIntent>, Js.Thrown>)
    returns (response: AnalyticsResponse)
    ensures balance.Failure? ==> response == ServerError(ErrorMessage(balance.error))
    ensures balance.Success? && intents.Failure? ==> response == ServerError(ErrorMessage(intents.error))
    ensures balance.Success? && intents.Success? ==>
      var data := intents.value[..];
      response == Ok(
        Summary(|data|, Revenue(data), MethodTable(data), StatusTable(data)),
        History(data),
        BalanceOf(balance.value),
        BalanceOf(balance.value).currency)
  {
    if balance.Failure? {
      return ServerError(ErrorMessage(balance.error));
    }
    if intents.Failure? {
      return ServerError(ErrorMessage(intents.error));
    }
    var view := BalanceOf(balance.value);
    var paymentHistory := History(intents.value[..]);
    var analytics := Aggregate(intents.value);
    response := Ok(analytics, paymentHistory, view, view.currency);
  }
}
