# Finance tracker: a verified model of the dashboard and the transaction store

The finance tracker is a small personal-budget application. An Express
server (`server.js`) keeps transactions in an SQLite table and serves two
handlers, `GET /transactions` and `POST /transactions`. A React dashboard
(`src/App.js`) fetches the list and computes these values from it:

- the filtered view;
- the income and expense totals, the savings and the progress toward a
  savings goal of 1000;
- an alert when shopping expenses pass 300;
- the expenses grouped by category;
- the chart data read from that grouping.

The dashboard also posts new transactions from a form draft, which it resets
afterwards.

The project models that core in Dafny:

- `sequences.dfy` (module `Sequences`): order-preserving `filter` and its
  laws.
- `js_values.dfy` (module `JsValues`): the JavaScript values that reach the
  handlers. It also holds ECMAScript ToBoolean (section 7.1.2 of ECMAScript
  2023) and ASCII `toLowerCase`.
- `property_order.dfy` (module `PropertyOrder`): the order in which
  `Object.entries` lists an ordinary object's keys. This is
  OrdinaryOwnPropertyKeys, section 10.1.11.1 of ECMAScript 2023. Keys that
  are array indices come first, in ascending numeric order. The other keys
  follow in creation order.
- `dashboard.dfy` (module `Dashboard`): every derived value of `App`, as a
  function of the transaction list. It includes the `reduce` that builds
  `groupedExpenses` and the chart list taken from it. It also holds the form
  draft and its reset.
- `store.dfy` (module `TransactionStore`): the two handlers, in two forms:
  - functions `Post` and `Get` on a table value, with `sqlite_sequence`
    modelled as `lastId`;
  - the class `TransactionTable`, whose fields the `Create` and `List`
    methods update in place. These methods are proved to agree with `Post`
    and `Get`.
- `submission.dfy` (module `Submission`): what the server receives when
  the dashboard submits a draft, and which drafts it accepts.

Effects are modelled as values:

- a database error is a parameter (`failure`);
- the log entry is part of a handler's outcome;
- the result of `parseFloat` is a parameter.

The draft reset runs as soon as the response to the POST parses as JSON.
The code does not test the status, so a refused submit (400) also clears the
form. `Submission.Submit` models that behaviour, which is broader than "reset
after a successful submit". The form's `required` and `type="number"`
attributes keep blank fields and non-numeric amounts from being submitted.
`Submission.FormAllows` describes the drafts the form lets through. For those
drafts, the only refusal is an amount of zero, such as "0".

## Model

| member | source | states |
|---|---|---|
| Sequences.FilterKeepsOrder | src/App.js:32-38 | `filter` keeps a subsequence: any relation between earlier and later elements still holds after filtering |
| Sequences.FilterConcat | src/App.js:32-38 | filtering a concatenation concatenates the filtered parts |
| Sequences.FilterMultiplicity | src/App.js:32-38 | `filter` keeps each passing element as often as it occurs and drops every other one |
| Sequences.FilterPartition | src/App.js:37-38 | splitting by a test and its negation loses and duplicates nothing |
| Sequences.FilterFilter | src/App.js:45-46 | filtering by one test and then another is one filter by both |
| JsValues.FalsyIffListedForm | server.js:68 | ToBoolean is false exactly for undefined, null, false, 0, NaN and "" |
| JsValues.Lower | src/App.js:46 | `toLowerCase` keeps the length, turns each ASCII capital into its lower-case letter, keeps every other character, and leaves no capital |
| JsValues.LowerEqualsIff | src/App.js:46 | a string lowers to a lower-case word exactly when each character is that word's letter in either case |
| PropertyOrder.OwnKeyOrder | src/App.js:54 | `Object.entries` order is a permutation of the keys: array-index keys first in ascending order, the rest in creation order, nothing repeated |
| PropertyOrder.SortByIndexAscending | src/App.js:54 | the index keys end up in ascending numeric order |
| PropertyOrder.OwnKeyOrderSplit | src/App.js:54 | element by element: indices ascend up to the number of index keys, no later key is an index |
| PropertyOrder.OwnKeyOrderKeepsNamedOrder | src/App.js:54 | the non-index keys keep every ordering relation their creation order had |
| PropertyOrder.NoIndexKeysKeepCreationOrder | src/App.js:54 | with no array-index key, `Object.entries` keeps creation order exactly |
| Dashboard.Filtered | src/App.js:32-35 | filter "All" gives the list itself; any other filter gives exactly the records whose type equals it, each as often as in the list |
| Dashboard.FilteredConcat | src/App.js:32-35 | the filtered view of a concatenation is the concatenation of the filtered views |
| Dashboard.FilteredIdempotent | src/App.js:32-35 | applying the same filter again changes nothing |
| Dashboard.SumConcat | src/App.js:40-41 | the `reduce` sum of a concatenation is the sum of the parts |
| Dashboard.TotalsOfAppend | src/App.js:37-41 | one more record moves `totalIncome` by its amount iff it is "Income", and `totalExpense` iff it is "Expense" |
| Dashboard.NonExpenseIgnored | src/App.js:37-57 | a non-expense record changes neither the expense total, the alert, the grouping nor the chart |
| Dashboard.NonIncomeIgnored | src/App.js:38-40 | a non-income record does not change `totalIncome` |
| Dashboard.OtherKindCountsForNothing | src/App.js:37-43 | a record of any other type changes no total, no savings and no progress |
| Dashboard.SampleLabelsCountForNothing | server.js:37-44 | records typed "Wydatek"/"Przychód", as in the sample data, give zero totals, zero progress, no alert and an empty chart |
| Dashboard.Progress | src/App.js:42-43 | progress is at most 100, negative iff savings are, 100 iff savings reach 1000, and savings/1000*100 below the goal |
| Dashboard.SalaryAndFoodScenario | src/App.js:37-43 | a 4500 income and an 80 expense give savings 4420 and progress capped at 100 |
| Dashboard.TotalsOfTwo | src/App.js:37-41 | the totals of two records are the amounts of those of the matching type |
| Dashboard.ShoppingAlertIff | src/App.js:45-47 | the alert fires iff the expense records whose category lowers to "shopping" sum to more than 300 |
| Dashboard.ShoppingNameIff | src/App.js:46 | a category counts as shopping iff it spells "shopping" with each letter in either case |
| Dashboard.ShoppingSpendSnoc | src/App.js:45-47 | one more record adds its amount to the shopping spend iff it is a shopping expense |
| Dashboard.AllShoppingSpend | src/App.js:45-47 | when every record is a shopping expense, the shopping spend is the sum of all amounts |
| Dashboard.ShoppingOverLimitScenario | src/App.js:45-47 | "Shopping" 100 + "shopping" 150 + "SHOPPING" 100 raises the alert |
| Dashboard.ShoppingAtLimitScenario | src/App.js:45-47 | shopping expenses of exactly 300 beside a 500 food expense do not raise the alert (strict `>`) |
| Dashboard.ShoppingSpendOfThree | src/App.js:45-47 | the shopping spend of three records is the sum of the shopping expenses among them |
| Dashboard.Group | src/App.js:49-52 | the `reduce` creates one bucket per category present, no other |
| Dashboard.GroupedExpensesKeys | src/App.js:49-52 | a key of `groupedExpenses` iff some expense record has that category |
| Dashboard.GroupValue | src/App.js:49-52 | each bucket is the sum of the amounts of its category's records, a missing bucket starting from 0 |
| Dashboard.GroupedExpensesValue | src/App.js:49-52 | each value of `groupedExpenses` is the sum of that category's expense amounts |
| Dashboard.GroupedExpensesTotal | src/App.js:41-52 | the values of `groupedExpenses` add up to `totalExpense` |
| Dashboard.ShoppingAlertFromBuckets | src/App.js:45-52 | the alert fires iff the buckets named "shopping" in any case sum to more than 300 |
| Dashboard.FirstSeen | src/App.js:49-52 | the key creation order of the `reduce`: every category once, nothing else |
| Dashboard.FirstSeenOrder | src/App.js:49-52 | keys are created in the order of each category's first record |
| Dashboard.FirstIndex | src/App.js:49-52 | the position of a category's first record, with none of that category before it |
| Dashboard.ChartNames | src/App.js:54 | the chart names are the keys of `groupedExpenses`, each once |
| Dashboard.Entries | src/App.js:54-57 | `map(([name, value]) => ({name, value}))`: one entry per key, in that order, with its value |
| Dashboard.ChartMatchesGrouped | src/App.js:54-57 | `chartData` lists every bucket of `groupedExpenses` exactly once with its value, and nothing else |
| Dashboard.ChartIndexNamesFirst | src/App.js:54-57 | array-index-like categories come first in `chartData`, in ascending numeric order, and only they |
| Dashboard.ChartNamedInFirstSeenOrder | src/App.js:49-57 | after them, `chartData` follows the order of each category's first expense |
| Dashboard.ChartFirstSeenOrder | src/App.js:49-57 | with no array-index-like category, `chartData` is exactly in first-seen order |
| Dashboard.ChartTotalIsTotalExpense | src/App.js:41-57 | the chart values add up to `totalExpense` |
| Dashboard.AfterSubmit | src/App.js:78-83 | the reset restores the initial draft and leaves the list and the filter |
| TransactionStore.Post | server.js:65-93 | 201 iff all four fields are truthy, there is no database error and ids are not exhausted; a falsy field gives 400 with the message; a database error gives 500 with its message; exhausted ids give 500 with SQLITE_FULL; otherwise the table is unchanged and nothing is logged; 201 appends the row under the next id and echoes it, and the log data equals the echo |
| TransactionStore.Get | server.js:55-62 | 500 with the error message, or 200 with every row as a record in table order |
| TransactionStore.RowsJson | server.js:56-60 | one record per row, in order |
| TransactionStore.RefusedIffSomeFieldFalsy | server.js:66-70 | a body is refused iff one of the four fields is absent, null, false, 0, NaN or "" |
| TransactionStore.AcceptsAnyTruthyValues | server.js:68-73 | any non-empty type and strings, any non-zero amount, and the string "0" as amount pass the check |
| TransactionStore.RefusesFalsyAmount | server.js:68-70 | an amount of 0, NaN, null or "" is refused, whatever the other fields |
| TransactionStore.BodyOf | server.js:66 | the body carries exactly the four required names |
| TransactionStore.PostKeepsIdsIncreasing | server.js:27 | a post keeps ids increasing and bounded; a new id exceeds every earlier id |
| TransactionStore.EchoIsLoggedAndListed | server.js:81-91 | the 201 body, the log data and the last element of the next GET are the same record; earlier records are unchanged |
| TransactionStore.PostAllFromEmpty | server.js:72-75 | N valid posts to an empty table give N rows with ids 1..N holding their bodies in order |
| TransactionStore.ListAfterPosts | server.js:55-61 | GET after N valid posts lists N records, the i-th with id i+1 and the i-th body's fields |
| TransactionStore.TransactionTable.constructor | server.js:25-33 | a new table is empty, with its id sequence at 0 |
| TransactionStore.TransactionTable.Open | server.js:25-33 | a table reopened from an existing database file keeps its rows and its id sequence |
| TransactionStore.TransactionTable.Create | server.js:65-93 | the handler, on the mutable table, has exactly the outcome `Post` specifies and keeps the table well formed |
| TransactionStore.TransactionTable.List | server.js:55-62 | the handler returns exactly `Get` of the current table |
| TransactionStore.EmptyListScenario | server.js:55-61 | a fresh table lists `[]` |
| TransactionStore.TwoPostsScenario | server.js:55-93 | two valid posts get ids 1 and 2, and GET lists both echoed records in that order |
| TransactionStore.RefusedPostsScenario | server.js:65-78 | a post without an amount gives 400, and a database error gives 500; the table stays empty |
| Submission.SubmissionAcceptedIff | src/App.js:64-74 | a submitted draft passes the server's check iff type, category and date are non-empty and the amount parses to a finite non-zero number |
| Submission.Submit | src/App.js:64-85 | the server's outcome is `Post` of the submitted body, and the draft is reset with the list and the filter kept |
| Submission.FormDraftAcceptedIff | src/App.js:154-182 | for a draft the form lets through, the server accepts the body iff the amount is not zero |
| Submission.FormSubmitRefusedIffZero | src/App.js:64-83 | through the form, a submit gets 400 iff the amount is zero; the table is then unchanged and the draft is still cleared |
| Submission.BlankDraftRefused | src/App.js:15-20 | the form never submits the untouched draft; `submitTransaction` called on it directly gets 400 and changes neither the table nor the view |
| Submission.UnparsedAmountRefusedAndCleared | src/App.js:68-83 | the form never submits an amount that does not parse (NaN); `submitTransaction` called with one gets 400 with the table unchanged, yet clears the draft |

## Left out

- The React rendering, recharts, the colours and `handleChange`: only the
  values the view is computed from are modelled.
- `fetch` and the network: the GET that refreshes the list is not modelled
  as a step. A 500 response body stored as the transaction list is not
  modelled either.
- The Express, CORS and body-parser setup and `app.listen`. A JSON body
  that is not an object is treated as having no fields.
- The SQLite engine: column type affinity is not modelled, so rows keep the
  submitted values. Binding of array or object parameters by node-sqlite3 is
  also left out.
- The database error is a parameter (`failure`); when it occurs is not
  modelled.
- `fs.appendFile`, the log file format and a failing log write. The log
  timestamp (`new Date()`) is left out too: a log entry holds the action and
  the data.
- `insertSampleData`: it is commented out in the source. Its labels appear
  only in `Dashboard.SampleLabelsCountForNothing`.
- IEEE double arithmetic: amounts and sums are exact reals. Ids above 2^53
  are not rounded.
- `parseFloat`: its result is a parameter of `Submission.Submit`.
- The browser's constraint validation is not modelled as a step. The form
  stops an invalid submit before `onSubmit` fires; the model only states which
  drafts pass, as `Submission.FormAllows`.
- `toLowerCase` beyond ASCII.
- The dashboard takes typed `Transaction` records. Rows as the server sends
  them are not converted, so two cases are not modelled:
  - a category that is not a string, where `toLowerCase` throws;
  - a string amount, which `+` would concatenate.
- Inherited object keys such as `__proto__` and `toString`: `groupedExpenses`
  is modelled as a plain map.
