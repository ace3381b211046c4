# Personal finance dashboard: ledger and metrics

A Dafny model of the logic of a single-page personal finance dashboard
(`src/App.jsx`). The dashboard keeps an in-memory list of transactions
(`transactions`). Each transaction has an id, a description, an amount, a
type (income or expense), a category and a date. The user can add, edit and
delete transactions, and the dashboard shows three metrics: total income,
total expenses and balance.

- `Transactions` (`transactions.dfy`) holds the record and its draft.
  A draft is a record without its `id`. The module also defines the id
  predicates and the five seed records.
- `LedgerStore` (`ledger.dfy`) holds the list-building expressions of the
  three handlers. Add prepends a record. Update maps the records whose id
  matches. Delete filters them out. The class `Ledger` is the
  `transactions` state, and its methods assign those expressions to it.
  Its invariant is that no two records share an id.
- `Metrics` (`metrics.dfy`) computes the `metrics` value. For each type it
  filters the records and then folds their amounts from the left. The
  results are proved equal to reference sums (`Total`, `SignedSum`). There
  are also lemmas for prepending, concatenating and non-negativity.
- `TransactionForm` (`form.dfy`) models the submit check. A form missing
  its description, amount, category or date is rejected. Otherwise it
  becomes a draft.
- `App` (`app.dfy`) connects the form to the ledger. It also states the
  effect of deleting or editing one record on the metrics, and the metrics
  shown for the seed data.

Behaviours of the code a reader might not expect, which the model keeps:
- Editing an id that no record has changes nothing. It is not a "not found"
  error (`UpdateAllAbsent`).
- Amounts are never checked to be non-negative. Non-negativity of the
  totals is therefore proved only under that hypothesis
  (`ComputeNonNegative`).
- Delete removes every record with the id. With distinct ids that is
  exactly one record (`WithoutRemovesOne`).
- An edited record whose amount is 0, saved without touching the amount,
  is rejected as missing, while a typed "0" is accepted
  (`ZeroAmountDependsOnOrigin`).
- Add does not return the record it creates.
- The one rejection carries no detail about which field was missing.
- The seed data are the five records of `initialTransactions`, so the
  start-up metrics are 5750 / 255 / 5495.

## Model

| member | source | states |
|---|---|---|
| `Transactions.Draft.WithId` | src/App.jsx:37-40 | the new record has the given id and exactly the draft's other fields |
| `Transactions.InitialIds` | src/App.jsx:5-11 | the seed records have the distinct ids 1 to 5 |
| `LedgerStore.UpdateAll` | src/App.jsx:32-34 | the map over the ledger keeps its length |
| `LedgerStore.Without` | src/App.jsx:47 | the filter never lengthens the ledger |
| `LedgerStore.AfterSubmit` | src/App.jsx:29-42 | the list the submit handler builds: an add is one longer, gains exactly the id `now`, and is the draft under `now` followed by the unchanged old list; an edit keeps the length and the set of ids |
| `LedgerStore.AddKeepsIdsDistinct` | src/App.jsx:37-41 | prepending under an unused id keeps ids distinct and adds that id; the new record is first and the old list follows unchanged |
| `LedgerStore.UpdateAllAt` | src/App.jsx:32-34 | at every position, a record with the edited id becomes the draft under its own id, and any other record is unchanged |
| `LedgerStore.UpdateAllPositions` | src/App.jsx:32-34 | update keeps length and positions; every record keeps its id; records with other ids are unchanged; matching records carry exactly the draft's fields |
| `LedgerStore.UpdateAllKeepsIds` | src/App.jsx:33 | update leaves the set of ids unchanged, and ids are distinct after it iff they were before |
| `LedgerStore.UpdateAllAppend` | src/App.jsx:32-34 | update distributes over concatenation, so it acts on each record in place |
| `LedgerStore.UpdateAllAbsent` | src/App.jsx:32-34 | editing an absent id leaves the ledger unchanged |
| `LedgerStore.WithoutMembers` | src/App.jsx:47 | a record survives delete iff it was present and has another id |
| `LedgerStore.WithoutIsSubsequence` | src/App.jsx:47 | the survivors of delete are a subsequence of the old ledger (relative order kept) |
| `LedgerStore.WithoutAppend` | src/App.jsx:47 | delete distributes over concatenation |
| `LedgerStore.WithoutAbsent` | src/App.jsx:47 | deleting an absent id leaves the ledger unchanged |
| `LedgerStore.WithoutIdempotent` | src/App.jsx:46-48 | after a delete the id is gone, and deleting it twice equals deleting it once |
| `LedgerStore.WithoutKeepsIdsDistinct` | src/App.jsx:47 | delete never introduces duplicate ids |
| `LedgerStore.WithoutRemovesOne` | src/App.jsx:47 | with distinct ids, deleting an id in use removes exactly one record |
| `LedgerStore.Ledger.constructor` | src/App.jsx:15 | the ledger starts as the seed data, with distinct ids |
| `LedgerStore.Ledger.Add` | src/App.jsx:36-41 | the new state is the draft under the fresh id followed by the old list; ids stay distinct and gain that id |
| `LedgerStore.Ledger.Update` | src/App.jsx:30-34 | the new state is the old list with the matching records replaced by the draft; the ids are unchanged |
| `LedgerStore.Ledger.Delete` | src/App.jsx:46-48 | the new state is the old list without the records of that id; the ids lose exactly that id |
| `LedgerStore.Ledger.AddOrUpdate` | src/App.jsx:29-43 | with an edit target the handler updates, otherwise it adds under the fresh id; ids stay distinct |
| `Metrics.OfKind` | src/App.jsx:104 | the filter keeps exactly the records of the given type |
| `Metrics.Reduce` | src/App.jsx:103-109 | the `reduce` fold from a start value yields that start value plus the sum of all the amounts (`ReduceOfKind` then ties it to the per-type totals) |
| `Metrics.ReduceOfKind` | src/App.jsx:103-109 | the left-fold `reduce` over the filtered records adds their reference total to the start value |
| `Metrics.SumOfKind` | src/App.jsx:103-109 | the sum of the amounts of the filtered records is the per-type reference total |
| `Metrics.SignedSumSplits` | src/App.jsx:111 | the net of all records (+amount for income, -amount for expense) equals total income minus total expenses |
| `Metrics.Compute` | src/App.jsx:102-113 | income and expenses are the per-type sums of the amounts, and balance is income minus expenses, which equals the signed net |
| `Metrics.TotalAppend` | src/App.jsx:103-109 | a per-type total over a concatenation is the sum of the parts' totals |
| `Metrics.TotalNonNegative` | src/App.jsx:103-109 | with no negative amount, a per-type total is non-negative |
| `Metrics.ComputeNonNegative` | src/App.jsx:102-112 | with no negative amount, income and expenses are non-negative |
| `Metrics.ComputeSingle` | src/App.jsx:102-112 | a one-record ledger counts the amount for its type only, and its balance is that amount with the sign of its type |
| `Metrics.ComputeAfterPrepend` | src/App.jsx:102-112 | prepending an income record raises income and balance by its amount and leaves expenses unchanged; an expense record raises expenses and lowers balance by its amount |
| `Metrics.ComputeAppend` | src/App.jsx:102-112 | the metrics of a concatenation are the sums of the parts' metrics |
| `TransactionForm.Validate` | src/App.jsx:174-186 | a form is accepted iff all four required fields hold a value; an accepted draft has non-empty text fields, copies the form's fields and carries the parsed amount |
| `TransactionForm.RejectsEachEmptyField` | src/App.jsx:176-179 | an empty description, category or date each causes rejection, and so does an amount that is falsy (`AmountGiven`): the empty text or the number 0 |
| `TransactionForm.AcceptsFilledForm` | src/App.jsx:176-186 | conversely, non-empty text fields and a truthy amount are accepted, and the draft carries `parseFloat` of typed text or the prefilled number itself (`ParsedAmount`) |
| `TransactionForm.ZeroAmountDependsOnOrigin` | src/App.jsx:176 | a typed "0" is accepted, but an untouched amount of 0 on an edited record is rejected as missing |
| `App.Submit` | src/App.jsx:174-186 | a rejected form leaves the ledger unchanged; an accepted one changes it by exactly one add or update of the validated draft |
| `App.EditKeepsEveryId` | src/App.jsx:32-33 | an accepted edit keeps every record's id at its position |
| `App.WithoutDistinctAt` | src/App.jsx:47 | with distinct ids, deleting a record's id removes that record and nothing else |
| `App.DeleteSubtractsRecord` | src/App.jsx:46-48 | with distinct ids, deleting a record takes its amount off its type's total, and off the balance with its sign |
| `App.UpdateReplacesRecord` | src/App.jsx:30-34 | with distinct ids, editing a record replaces its contribution to income and expenses by the draft's |
| `App.UnchangedEditIsNoOp` | src/App.jsx:30-34 | with distinct ids, saving an untouched edit form whose fields are all truthy yields the record's own fields, and the update leaves the ledger unchanged |
| `App.SeedMetrics` | src/App.jsx:5-11 | the seed data give income 5750, expenses 255 and balance 5495 |
| `App.SeedWithoutSalaryMetrics` | src/App.jsx:5-11 | after deleting id 1 from the seed data: income 750, expenses 255 and balance 495 |
| `App.DeleteSalaryScenario` | src/App.jsx:15 | a fresh ledger shows 5750 / 255 / 5495, and after deleting id 1 it shows 750 / 255 / 495 |

## Left out

- Rendering is not modelled. This covers JSX, styling, icons, and the `Header`, `MetricCard` and `TransactionList` components, which are pure presentation.
- React's `useState` re-rendering and `useMemo` caching are not modelled. The ledger is a plain object and the metrics are a function of it.
- The form prefill (`useEffect`) is left out. So is its default date from `new Date().toISOString()`, which is a clock reading. The `Prefilled` amount variant only records the kind of value the prefill leaves in the amount field.
- Form visibility and the edit target (`isFormVisible`, `transactionToEdit`, `handleShowForm`, `handleHideForm`) are UI flow. The edit target's id is passed explicitly as `editing`.
- `Date.now()` is a clock reading. It is the parameter `now`.
- LedgerStore.Ledger.Add: requires `now` to be an id not yet in use. The code does not check this; it relies on the clock giving a new value.
- `parseFloat` is a foreign routine. It is the parameter `parseFloat`.
- A `NaN` amount is not modelled. The emptiness check tests the raw field before `parseFloat` runs, so a non-empty text that parses to `NaN` would pass the check and be stored. What keeps such text out is the browser: a numeric input reports `""` for non-numeric text, and that happens outside `src/App.jsx`. The model builds this assumption in, because its `parseFloat` parameter returns a real number for every text.
- Amounts are exact reals. Floating-point rounding is not modelled, so the order of the fold does not matter here. `toLocaleString` currency formatting is presentation.
- `alert` is browser output. The rejection is the result `Err(MissingField)`.
