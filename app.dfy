/** The dashboard's wiring of the form to the ledger, and the metrics the
    dashboard shows on its seed data. */
module App {
  import opened Transactions
  import opened LedgerStore
  import opened Metrics
  import opened TransactionForm

  /** Submitting the form: an incomplete form is rejected before `onSubmit`
      is called, so the ledger is untouched; a complete one becomes a draft
      that is added under `now` (the clock reading) or merged into the
      record being edited. */
  method Submit(ledger: Ledger, f: FormFields, editing: Option<int>, now: int, parseFloat: string -> real)
      returns (r: Result<Draft, Rejection>)
    requires ledger.Valid()
    requires editing.None? ==> now !in Ids(ledger.transactions)
    modifies ledger
    ensures ledger.Valid()
    ensures r.Ok? <==> Complete(f)
    ensures r.Err? ==> ledger.transactions == old(ledger.transactions)
    ensures r.Ok? ==> r == Validate(f, parseFloat)
                      && ledger.transactions == AfterSubmit(old(ledger.transactions), r.value, editing, now)
  {
    r := Validate(f, parseFloat);
    if r.Ok? {
      ledger.AddOrUpdate(r.value, editing, now);
    }
  }

  /** An accepted edit keeps every record's id at its position. */
  lemma {:induction false} EditKeepsEveryId(s: seq<Transaction>, d: Draft, id: int, now: int)
    ensures forall i | 0 <= i < |s| :: AfterSubmit(s, d, Some(id), now)[i].id == s[i].id
  {
    UpdateAllPositions(s, id, d);
  }

  /** With distinct ids, the id of the record at `i` occurs nowhere else. */
  lemma {:induction false} IdOnlyAt(s: seq<Transaction>, i: int)
    requires IdsDistinct(s) && 0 <= i < |s|
    ensures s == s[..i] + [s[i]] + s[i + 1..]
    ensures s[i].id !in Ids(s[..i]) && s[i].id !in Ids(s[i + 1..])
  {
    assert s == s[..i] + [s[i]] + s[i + 1..];
    forall t | t in s[..i] ensures t.id != s[i].id {
      var k :| 0 <= k < i && s[..i][k] == t;
      assert s[k] == t;
    }
    forall t | t in s[i + 1..] ensures t.id != s[i].id {
      var k :| 0 <= k < |s| - i - 1 && s[i + 1..][k] == t;
      assert s[i + 1 + k] == t;
    }
  }

  /** With distinct ids, deleting the id of the record at `i` removes that
      record and no other. */
  lemma {:induction false} WithoutDistinctAt(s: seq<Transaction>, i: int)
    requires IdsDistinct(s) && 0 <= i < |s|
    ensures Without(s, s[i].id) == s[..i] + s[i + 1..]
  {
    var id, t, pre, post := s[i].id, s[i], s[..i], s[i + 1..];
    IdOnlyAt(s, i);
    var front := pre + [t];
    assert s == front + post;
    WithoutAppend(front, post, id);
    WithoutAppend(pre, [t], id);
    WithoutAbsent(pre, id);
    WithoutAbsent(post, id);
    assert [t][1..] == [];
    assert Without([t], id) == [];
    assert Without(front, id) == pre;
  }

  /** With distinct ids, deleting a record takes exactly its amount off its
      own type's total and off the balance in that direction. */
  lemma {:induction false} DeleteSubtractsRecord(s: seq<Transaction>, i: int)
    requires IdsDistinct(s) && 0 <= i < |s|
    ensures Compute(s).income == Compute(Without(s, s[i].id)).income + (if s[i].kind == Income then s[i].amount else 0.0)
    ensures Compute(s).expenses == Compute(Without(s, s[i].id)).expenses + (if s[i].kind == Expense then s[i].amount else 0.0)
    ensures Compute(s).balance == Compute(Without(s, s[i].id)).balance + (if s[i].kind == Income then s[i].amount else -s[i].amount)
  {
    var t, pre, post := s[i], s[..i], s[i + 1..];
    WithoutDistinctAt(s, i);
    assert s == pre + [t] + post;
    ComputeAppend(pre + [t], post);
    ComputeAppend(pre, [t]);
    ComputeAppend(pre, post);
    ComputeSingle(t);
  }

  /** With distinct ids, editing a record replaces its contribution to the
      metrics by the draft's, and changes nothing else. */
  lemma {:induction false} UpdateReplacesRecord(s: seq<Transaction>, i: int, d: Draft)
    requires IdsDistinct(s) && 0 <= i < |s|
    ensures Compute(UpdateAll(s, s[i].id, d)).income
            == Compute(s).income - (if s[i].kind == Income then s[i].amount else 0.0)
                                 + (if d.kind == Income then d.amount else 0.0)
    ensures Compute(UpdateAll(s, s[i].id, d)).expenses
            == Compute(s).expenses - (if s[i].kind == Expense then s[i].amount else 0.0)
                                   + (if d.kind == Expense then d.amount else 0.0)
  {
    var id := s[i].id;
    IdOnlyAt(s, i);
    UpdateAllAppend(s[..i] + [s[i]], s[i + 1..], id, d);
    UpdateAllAppend(s[..i], [s[i]], id, d);
    UpdateAllAbsent(s[..i], id, d);
    UpdateAllAbsent(s[i + 1..], id, d);
    assert UpdateAll([s[i]], id, d) == [d.WithId(id)];
    assert UpdateAll(s, id, d) == s[..i] + [d.WithId(id)] + s[i + 1..];
    ComputeAppend(s[..i] + [s[i]], s[i + 1..]);
    ComputeAppend(s[..i], [s[i]]);
    ComputeAppend(s[..i] + [d.WithId(id)], s[i + 1..]);
    ComputeAppend(s[..i], [d.WithId(id)]);
  }

  /** Saving the edit form of record `i` untouched, with its fields as the
      prefill leaves them, hands back exactly that record's fields and leaves
      the ledger as it was, provided every field is truthy; an amount of 0
      is not. */
  lemma {:induction false} UnchangedEditIsNoOp(s: seq<Transaction>, i: int, parseFloat: string -> real)
    requires IdsDistinct(s) && 0 <= i < |s|
    requires s[i].description != "" && s[i].amount != 0.0 && s[i].category != "" && s[i].date != ""
    ensures Validate(FormFields(s[i].description, Prefilled(s[i].amount), s[i].kind, s[i].category, s[i].date), parseFloat)
            == Ok(s[i].Fields())
    ensures UpdateAll(s, s[i].id, s[i].Fields()) == s
  {
    var r := UpdateAll(s, s[i].id, s[i].Fields());
    UpdateAllPositions(s, s[i].id, s[i].Fields());
    forall j | 0 <= j < |s| ensures r[j] == s[j] {
      if j != i && s[j].id == s[i].id {
        assert false;
      }
    }
  }

  /** The seed data shows income 5750, expenses 255 and balance 5495. */
  lemma SeedMetrics()
    ensures Compute(InitialTransactions) == Totals(5750.0, 255.0, 5495.0)
  {
    var s := InitialTransactions;
    assert s[1..][1..][1..][1..][1..] == [];
    assert Total(s, Income) == 5750.0;
    assert Total(s, Expense) == 255.0;
  }

  /** Deleting the salary (id 1) from the seed data leaves income 750,
      expenses 255 and balance 495. */
  lemma SeedWithoutSalaryMetrics()
    ensures Compute(Without(InitialTransactions, 1)) == Totals(750.0, 255.0, 495.0)
  {
    var s := InitialTransactions;
    assert Without(s, 1) == s[1..];
    assert Total(s[1..], Income) == 750.0;
    assert Total(s[1..], Expense) == 255.0;
  }

  /** The dashboard from start-up through deleting the salary record: the
      metrics shown before and after. */
  method DeleteSalaryScenario() returns (before: Totals, after: Totals)
    ensures before == Totals(5750.0, 255.0, 5495.0)
    ensures after == Totals(750.0, 255.0, 495.0)
  {
    var ledger := new Ledger();
    before := Compute(ledger.transactions);
    SeedMetrics();
    ledger.Delete(1);
    after := Compute(ledger.transactions);
    SeedWithoutSalaryMetrics();
  }
}
