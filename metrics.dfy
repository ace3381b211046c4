/** The dashboard metrics: total income, total expenses and balance, computed
    from the ledger by a `filter` on the type followed by a `reduce` that
    adds up the amounts. `Total` and `SignedSum` are reference definitions
    of the same sums, and the lemmas relate the computation to them and to
    the ledger operations. */
module Metrics {
  import opened Transactions

  datatype Totals = Totals(income: real, expenses: real, balance: real)

  /** `transactions.filter(t => t.type === k)`. */
  function OfKind(s: seq<Transaction>, k: Kind): (r: seq<Transaction>)
    ensures forall t :: t in r <==> t in s && t.kind == k
  {
    if s == [] then []
    else if s[0].kind == k then [s[0]] + OfKind(s[1..], k)
    else OfKind(s[1..], k)
  }

  /** `s.reduce((sum, t) => sum + t.amount, acc)`: a left fold from `acc`. */
  function Reduce(acc: real, s: seq<Transaction>): (sum: real)
    ensures sum == acc + AmountSum(s)
    decreases s
  {
    if s == [] then acc else Reduce(acc + s[0].amount, s[1..])
  }

  /** Reference definition: the sum of `amount` over all the records. */
  function AmountSum(s: seq<Transaction>): real {
    if s == [] then 0.0 else s[0].amount + AmountSum(s[1..])
  }

  /** Reference definition: the sum of `amount` over the records of type `k`. */
  function Total(s: seq<Transaction>, k: Kind): real {
    if s == [] then 0.0
    else (if s[0].kind == k then s[0].amount else 0.0) + Total(s[1..], k)
  }

  /** Reference definition: the net of every record, `+amount` for income
      and `-amount` for an expense. */
  function SignedSum(s: seq<Transaction>): real {
    if s == [] then 0.0
    else (if s[0].kind == Income then s[0].amount else -s[0].amount) + SignedSum(s[1..])
  }

  /** Folding the filtered records from `acc` adds their total to `acc`. */
  lemma ReduceOfKind(acc: real, s: seq<Transaction>, k: Kind)
    ensures Reduce(acc, OfKind(s, k)) == acc + Total(s, k)
  {
    SumOfKind(s, k);
  }

  /** Summing the filtered records gives the per-type total. */
  lemma {:induction false} SumOfKind(s: seq<Transaction>, k: Kind)
    ensures AmountSum(OfKind(s, k)) == Total(s, k)
  {
    if s != [] {
      SumOfKind(s[1..], k);
      if s[0].kind == k {
        assert OfKind(s, k)[0] == s[0] && OfKind(s, k)[1..] == OfKind(s[1..], k);
      }
    }
  }

  /** The net of all records is total income minus total expenses. */
  lemma {:induction false} SignedSumSplits(s: seq<Transaction>)
    ensures SignedSum(s) == Total(s, Income) - Total(s, Expense)
  {
    if s != [] {
      SignedSumSplits(s[1..]);
    }
  }

  /** The `metrics` of the dashboard for the given ledger. */
  function Compute(s: seq<Transaction>): (m: Totals)
    ensures m.income == Total(s, Income)
    ensures m.expenses == Total(s, Expense)
    ensures m.balance == m.income - m.expenses == SignedSum(s)
  {
    ReduceOfKind(0.0, s, Income);
    ReduceOfKind(0.0, s, Expense);
    SignedSumSplits(s);
    var income := Reduce(0.0, OfKind(s, Income));
    var expenses := Reduce(0.0, OfKind(s, Expense));
    Totals(income, expenses, income - expenses)
  }

  /** The sum over a concatenation is the sum of the sums. */
  lemma {:induction false} TotalAppend(a: seq<Transaction>, b: seq<Transaction>, k: Kind)
    ensures Total(a + b, k) == Total(a, k) + Total(b, k)
  {
    if a == [] {
      assert a + b == b;
    } else {
      TotalAppend(a[1..], b, k);
      assert (a + b)[0] == a[0] && (a + b)[1..] == a[1..] + b;
    }
  }

  /** With no negative amount, neither total is negative. */
  lemma {:induction false} TotalNonNegative(s: seq<Transaction>, k: Kind)
    requires forall t | t in s :: t.amount >= 0.0
    ensures Total(s, k) >= 0.0
  {
    if s != [] {
      assert s[0] in s;
      assert forall t | t in s[1..] :: t in s;
      TotalNonNegative(s[1..], k);
    }
  }

  /** With no negative amount, income and expenses are non-negative. */
  lemma {:induction false} ComputeNonNegative(s: seq<Transaction>)
    requires forall t | t in s :: t.amount >= 0.0
    ensures Compute(s).income >= 0.0 && Compute(s).expenses >= 0.0
  {
    TotalNonNegative(s, Income);
    TotalNonNegative(s, Expense);
  }

  /** Prepending a record raises its own type's total, and the balance in
      that direction, by its amount; the other total is unchanged. */
  lemma {:induction false} ComputeAfterPrepend(s: seq<Transaction>, t: Transaction)
    ensures Compute([t] + s) ==
      if t.kind == Income then Totals(Compute(s).income + t.amount, Compute(s).expenses, Compute(s).balance + t.amount)
      else Totals(Compute(s).income, Compute(s).expenses + t.amount, Compute(s).balance - t.amount)
  {
    TotalAppend([t], s, Income);
    TotalAppend([t], s, Expense);
  }

  /** The metrics of a one-record ledger: its amount counts for its own type. */
  lemma ComputeSingle(t: Transaction)
    ensures Compute([t]) == if t.kind == Income then Totals(t.amount, 0.0, t.amount)
                            else Totals(0.0, t.amount, -t.amount)
  {
    assert [t][1..] == [];
    assert Total([t], Income) == if t.kind == Income then t.amount else 0.0;
    assert Total([t], Expense) == if t.kind == Expense then t.amount else 0.0;
  }

  /** The metrics of a concatenation are the sums of the metrics of its parts. */
  lemma {:induction false} ComputeAppend(a: seq<Transaction>, b: seq<Transaction>)
    ensures Compute(a + b) == Totals(Compute(a).income + Compute(b).income,
                                     Compute(a).expenses + Compute(b).expenses,
                                     Compute(a).balance + Compute(b).balance)
  {
    TotalAppend(a, b, Income);
    TotalAppend(a, b, Expense);
  }
}
