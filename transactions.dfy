/** The transaction record of the finance dashboard, its draft (a record
    without its `id`), the identity predicates every ledger operation is
    judged by, and the seed data the ledger starts from. */
module Transactions {

  datatype Option<T> = None | Some(value: T)

  datatype Result<T, E> = Ok(value: T) | Err(error: E)

  /** The `type` tag of a record: 'income' or 'expense'. */
  datatype Kind = Income | Expense

  /** What a submitted form hands to the ledger: every field of a record
      except `id`. */
  datatype Draft = Draft(description: string, amount: real, kind: Kind, category: string, date: string)
  {
    /** The record `{ ...draft, id }`: the draft's fields under the given id. */
    function WithId(id: int): (t: Transaction)
      ensures t.id == id && t.Fields() == this
    {
      Transaction(id, description, amount, kind, category, date)
    }
  }

  datatype Transaction = Transaction(id: int, description: string, amount: real, kind: Kind, category: string, date: string)
  {
    /** Everything but the id. */
    function Fields(): Draft {
      Draft(description, amount, kind, category, date)
    }
  }

  /** The ids in use in a ledger. */
  function Ids(s: seq<Transaction>): set<int> {
    set t | t in s :: t.id
  }

  /** No two records of the ledger share an id. */
  predicate IdsDistinct(s: seq<Transaction>) {
    forall i, j | 0 <= i < j < |s| :: s[i].id != s[j].id
  }

  /** The mock data the dashboard starts with. */
  const InitialTransactions: seq<Transaction> := [
    Transaction(1, "Monthly Salary", 5000.0, Income, "Salary", "2023-10-01"),
    Transaction(2, "Groceries", 150.0, Expense, "Food", "2023-10-03"),
    Transaction(3, "Internet Bill", 60.0, Expense, "Bills", "2023-10-05"),
    Transaction(4, "Freelance Project", 750.0, Income, "Freelance", "2023-10-07"),
    Transaction(5, "Dinner Out", 45.0, Expense, "Food", "2023-10-08")
  ]

  /** The seed ids are 1 to 5, each used once. */
  lemma InitialIds()
    ensures IdsDistinct(InitialTransactions)
    ensures Ids(InitialTransactions) == {1, 2, 3, 4, 5}
  {
    var s := InitialTransactions;
    assert forall t :: t in s <==> t == s[0] || t == s[1] || t == s[2] || t == s[3] || t == s[4];
  }
}
