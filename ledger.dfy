/** The ledger store: the `transactions` state of the dashboard and the three
    handlers that replace it. Each handler builds the new list with an
    expression over the old one (a prepend, a `map` keyed on the id, a
    `filter` keyed on the id); those expressions are the functions below,
    and the class `Ledger` is the state they are assigned to. */
module LedgerStore {
  import opened Transactions

  /** `transactions.map(t => t.id === id ? { ...t, ...draft } : t)`: every
      record with the edited id takes all the draft's fields; the draft has
      no `id`, so the record keeps its own. */
  function UpdateAll(s: seq<Transaction>, id: int, d: Draft): (r: seq<Transaction>)
    ensures |r| == |s|
  {
    if s == [] then []
    else [if s[0].id == id then d.WithId(s[0].id) else s[0]] + UpdateAll(s[1..], id, d)
  }

  /** `transactions.filter(t => t.id !== id)`. */
  function Without(s: seq<Transaction>, id: int): (r: seq<Transaction>)
    ensures |r| <= |s|
  {
    if s == [] then []
    else if s[0].id == id then Without(s[1..], id)
    else [s[0]] + Without(s[1..], id)
  }

  /** The new list after a submitted draft: prepended under the fresh id
      `now` when adding, merged into the records of the edited id when
      editing. */
  function AfterSubmit(s: seq<Transaction>, d: Draft, editing: Option<int>, now: int): (r: seq<Transaction>)
    ensures |r| == if editing.None? then |s| + 1 else |s|
    ensures Ids(r) == if editing.None? then Ids(s) + {now} else Ids(s)
    ensures editing.None? ==> r[0] == d.WithId(now) && r[1..] == s
  {
    match editing
    case None =>
      assert Ids([d.WithId(now)] + s) == Ids(s) + {now} by {
        forall t | t in [d.WithId(now)] + s ensures t == d.WithId(now) || t in s { }
      }
      [d.WithId(now)] + s
    case Some(id) =>
      UpdateAllKeepsIds(s, id, d);
      UpdateAll(s, id, d)
  }

  /** `a` keeps some of the elements of `b`, in the order `b` has them. */
  ghost predicate Subsequence(a: seq<Transaction>, b: seq<Transaction>)
    decreases |b|
  {
    if a == [] then true
    else if b == [] then false
    else if a[0] == b[0] then Subsequence(a[1..], b[1..])
    else Subsequence(a, b[1..])
  }

  // ---------------------------------------------------------------- Add

  /** Prepending a record under an unused id keeps ids distinct, adds that
      id, and leaves every old record one position further on. */
  lemma {:induction false} AddKeepsIdsDistinct(s: seq<Transaction>, t: Transaction)
    requires IdsDistinct(s) && t.id !in Ids(s)
    ensures IdsDistinct([t] + s)
    ensures Ids([t] + s) == Ids(s) + {t.id}
    ensures ([t] + s)[0] == t && ([t] + s)[1..] == s
  {
    var r := [t] + s;
    forall i, j | 0 <= i < j < |r| ensures r[i].id != r[j].id {
      if i == 0 {
        assert r[j] in s;
      } else {
        assert r[i] == s[i - 1] && r[j] == s[j - 1];
      }
    }
  }

  // ---------------------------------------------------------------- Update

  /** The record at each position after an update. */
  lemma {:induction false} UpdateAllAt(s: seq<Transaction>, id: int, d: Draft, i: int)
    requires 0 <= i < |s|
    ensures UpdateAll(s, id, d)[i] == if s[i].id == id then d.WithId(s[i].id) else s[i]
  {
    if i > 0 {
      UpdateAllAt(s[1..], id, d, i - 1);
    }
  }

  /** Update keeps the length and every position: each record keeps its id,
      a record with another id is unchanged, and a record with the edited
      id carries exactly the draft's fields. */
  lemma {:induction false} UpdateAllPositions(s: seq<Transaction>, id: int, d: Draft)
    ensures |UpdateAll(s, id, d)| == |s|
    ensures forall i | 0 <= i < |s| :: UpdateAll(s, id, d)[i].id == s[i].id
    ensures forall i | 0 <= i < |s| && s[i].id != id :: UpdateAll(s, id, d)[i] == s[i]
    ensures forall i | 0 <= i < |s| && s[i].id == id :: UpdateAll(s, id, d)[i].Fields() == d
  {
    forall i | 0 <= i < |s| ensures UpdateAll(s, id, d)[i] == if s[i].id == id then d.WithId(s[i].id) else s[i] {
      UpdateAllAt(s, id, d, i);
    }
  }

  /** Update changes no id, so the ids in use and their distinctness are
      what they were. */
  lemma {:induction false} UpdateAllKeepsIds(s: seq<Transaction>, id: int, d: Draft)
    ensures Ids(UpdateAll(s, id, d)) == Ids(s)
    ensures IdsDistinct(UpdateAll(s, id, d)) <==> IdsDistinct(s)
  {
    var r := UpdateAll(s, id, d);
    UpdateAllPositions(s, id, d);
    forall x | x in Ids(r) ensures x in Ids(s) {
      var i :| 0 <= i < |r| && r[i].id == x;
      assert s[i] in s;
    }
    forall x | x in Ids(s) ensures x in Ids(r) {
      var i :| 0 <= i < |s| && s[i].id == x;
      assert r[i] in r;
    }
  }

  /** Update distributes over concatenation: it maps each part in place. */
  lemma {:induction false} UpdateAllAppend(a: seq<Transaction>, b: seq<Transaction>, id: int, d: Draft)
    ensures UpdateAll(a + b, id, d) == UpdateAll(a, id, d) + UpdateAll(b, id, d)
  {
    if a != [] {
      UpdateAllAppend(a[1..], b, id, d);
      assert (a + b)[0] == a[0] && (a + b)[1..] == a[1..] + b;
    } else {
      assert a + b == b;
    }
  }

  /** Editing an id no record has leaves the list as it is. */
  lemma {:induction false} UpdateAllAbsent(s: seq<Transaction>, id: int, d: Draft)
    requires id !in Ids(s)
    ensures UpdateAll(s, id, d) == s
  {
    UpdateAllPositions(s, id, d);
    forall i | 0 <= i < |s| ensures s[i].id != id {
      assert s[i] in s;
    }
  }

  // ---------------------------------------------------------------- Delete

  /** A record survives a delete exactly when it was there and has another id. */
  lemma {:induction false} WithoutMembers(s: seq<Transaction>, id: int)
    ensures forall t :: t in Without(s, id) <==> t in s && t.id != id
  {
    if s != [] {
      WithoutMembers(s[1..], id);
      assert s == [s[0]] + s[1..];
    }
  }

  /** Delete keeps the survivors in the order they had. */
  lemma {:induction false} WithoutIsSubsequence(s: seq<Transaction>, id: int)
    ensures Subsequence(Without(s, id), s)
  {
    if s != [] {
      WithoutIsSubsequence(s[1..], id);
      if s[0].id == id && Without(s, id) != [] {
        // the survivors' first record has another id, so it is not s[0]
        WithoutMembers(s, id);
        assert Without(s, id)[0] in Without(s, id);
      }
    }
  }

  /** Delete distributes over concatenation: it filters each part in place. */
  lemma {:induction false} WithoutAppend(a: seq<Transaction>, b: seq<Transaction>, id: int)
    ensures Without(a + b, id) == Without(a, id) + Without(b, id)
  {
    if a != [] {
      WithoutAppend(a[1..], b, id);
      assert (a + b)[0] == a[0] && (a + b)[1..] == a[1..] + b;
    } else {
      assert a + b == b;
    }
  }

  /** Deleting an id no record has leaves the list as it is. */
  lemma {:induction false} WithoutAbsent(s: seq<Transaction>, id: int)
    requires id !in Ids(s)
    ensures Without(s, id) == s
  {
    if s != [] {
      assert s[0] in s;
      assert Ids(s[1..]) <= Ids(s) by {
        forall x | x in Ids(s[1..]) ensures x in Ids(s) {
          var t :| t in s[1..] && t.id == x;
          assert t in s;
        }
      }
      WithoutAbsent(s[1..], id);
      assert s == [s[0]] + s[1..];
    }
  }

  /** After a delete no record has the id; deleting it again changes nothing. */
  lemma {:induction false} WithoutIdempotent(s: seq<Transaction>, id: int)
    ensures id !in Ids(Without(s, id))
    ensures Without(Without(s, id), id) == Without(s, id)
  {
    WithoutMembers(s, id);
    WithoutAbsent(Without(s, id), id);
  }

  /** A subsequence of a list with distinct ids has distinct ids. */
  lemma {:induction false} SubsequenceKeepsIdsDistinct(a: seq<Transaction>, b: seq<Transaction>)
    requires Subsequence(a, b) && IdsDistinct(b)
    ensures IdsDistinct(a)
    decreases |b|
  {
    if a != [] {
      assert IdsDistinct(b[1..]) by {
        forall i, j | 0 <= i < j < |b| - 1 ensures b[1..][i].id != b[1..][j].id {
          assert b[1..][i] == b[i + 1] && b[1..][j] == b[j + 1];
        }
      }
      if a[0] == b[0] {
        SubsequenceKeepsIdsDistinct(a[1..], b[1..]);
        SubsequenceMembers(a[1..], b[1..]);
        forall i, j | 0 <= i < j < |a| ensures a[i].id != a[j].id {
          if i == 0 {
            assert a[j] == a[1..][j - 1] && a[j] in a[1..];
            var k :| 0 <= k < |b[1..]| && b[1..][k] == a[j];
            assert b[k + 1] == a[j];
          } else {
            assert a[i] == a[1..][i - 1] && a[j] == a[1..][j - 1];
          }
        }
      } else {
        SubsequenceKeepsIdsDistinct(a, b[1..]);
      }
    }
  }

  /** Every element of a subsequence is an element of the list. */
  lemma {:induction false} SubsequenceMembers(a: seq<Transaction>, b: seq<Transaction>)
    requires Subsequence(a, b)
    ensures forall x | x in a :: x in b
    decreases |b|
  {
    if a != [] {
      if a[0] == b[0] {
        SubsequenceMembers(a[1..], b[1..]);
        assert a == [a[0]] + a[1..];
      } else {
        SubsequenceMembers(a, b[1..]);
      }
    }
  }

  /** Delete never introduces duplicate ids. */
  lemma {:induction false} WithoutKeepsIdsDistinct(s: seq<Transaction>, id: int)
    requires IdsDistinct(s)
    ensures IdsDistinct(Without(s, id))
  {
    WithoutIsSubsequence(s, id);
    SubsequenceKeepsIdsDistinct(Without(s, id), s);
  }

  /** When ids are distinct, deleting an id in use removes exactly one record. */
  lemma {:induction false} WithoutRemovesOne(s: seq<Transaction>, id: int)
    requires IdsDistinct(s) && id in Ids(s)
    ensures |Without(s, id)| == |s| - 1
  {
    if s[0].id == id {
      assert id !in Ids(s[1..]) by {
        forall t | t in s[1..] ensures t.id != id {
          var k :| 0 <= k < |s[1..]| && s[1..][k] == t;
          assert s[k + 1] == t;
        }
      }
      WithoutAbsent(s[1..], id);
    } else {
      var t :| t in s && t.id == id;
      assert t in s[1..] by {
        assert s == [s[0]] + s[1..];
      }
      assert IdsDistinct(s[1..]) by {
        forall i, j | 0 <= i < j < |s| - 1 ensures s[1..][i].id != s[1..][j].id {
          assert s[1..][i] == s[i + 1] && s[1..][j] == s[j + 1];
        }
      }
      WithoutRemovesOne(s[1..], id);
    }
  }

  // ---------------------------------------------------------------- State

  /** The dashboard's `transactions` state. */
  class Ledger {
    var transactions: seq<Transaction>

    /** The ledger never holds two records with one id. */
    ghost predicate Valid()
      reads this
    {
      IdsDistinct(transactions)
    }

    /** `useState(initialTransactions)`. */
    constructor ()
      ensures Valid() && transactions == InitialTransactions
    {
      transactions := InitialTransactions;
      InitialIds();
    }

    /** Add: `[{ ...draft, id: now }, ...transactions]`, where `now` is the
        clock reading, assumed not to be an id in use. */
    method Add(draft: Draft, now: int)
      requires Valid() && now !in Ids(transactions)
      modifies this
      ensures Valid()
      ensures transactions == [draft.WithId(now)] + old(transactions)
      ensures Ids(transactions) == old(Ids(transactions)) + {now}
    {
      AddKeepsIdsDistinct(transactions, draft.WithId(now));
      transactions := [draft.WithId(now)] + transactions;
    }

    /** Update: every record with the edited id takes the draft's fields. */
    method Update(id: int, draft: Draft)
      requires Valid()
      modifies this
      ensures Valid()
      ensures transactions == UpdateAll(old(transactions), id, draft)
      ensures Ids(transactions) == old(Ids(transactions))
    {
      UpdateAllKeepsIds(transactions, id, draft);
      transactions := UpdateAll(transactions, id, draft);
    }

    /** Delete: keep the records whose id differs. */
    method Delete(id: int)
      requires Valid()
      modifies this
      ensures Valid()
      ensures transactions == Without(old(transactions), id)
      ensures Ids(transactions) == old(Ids(transactions)) - {id}
    {
      WithoutKeepsIdsDistinct(transactions, id);
      WithoutMembers(transactions, id);
      transactions := Without(transactions, id);
    }

    /** The submit handler: update the record being edited if there is one,
        otherwise add under the fresh id `now`. */
    method AddOrUpdate(draft: Draft, editing: Option<int>, now: int)
      requires Valid()
      requires editing.None? ==> now !in Ids(transactions)
      modifies this
      ensures Valid()
      ensures transactions == AfterSubmit(old(transactions), draft, editing, now)
    {
      match editing
      case Some(id) =>
        Update(id, draft);
      case None =>
        Add(draft, now);
    }
  }
}
