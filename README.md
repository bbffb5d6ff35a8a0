# FinanceFam ledger core in Dafny

FinanceFam is a personal-finance web application that keeps everything in
the browser's local storage. This project models its core and proves
properties of the model:

- the `DB` store of `js/db.js`. It holds users, administrators,
  transactions (with recurring transactions expanded into monthly copies),
  savings goals, one savings balance per user, and a newest-first audit log.
  It is the class `Database.Db`, with one field per storage key. Each
  operation reads a whole collection, changes it and writes it back, as in
  the source. Each method is proved against value-level functions in
  `Ledger` (transactions) and `Balances` (goal and savings movements), and
  lemmas beside those functions prove what the store promises.
- the `AUTH` session service of `js/auth.js`. It is the class
  `Auth.Session`, with the two login slots and the two stored session keys.
- the computations inside the screens of `js/ui.js`, in `LedgerView`: the
  month filter, the newest-first sort (an in-place insertion sort on an
  array), the income, expense and balance cards, the goal progress bar, the
  reversed goal history and the five latest savings movements.
- the category grouping and colouring of the expense chart in
  `js/charts.js`, in `ExpenseChart`.

Supporting modules are `Seqs` (options, first match, filter, sums,
reversal), `Calendar` (dates and the month shift of JavaScript's
`Date.setMonth`), `JsParseInt` (JavaScript's `parseInt`, which turns the
recurrence field into a count) and `Records` (the stored records).

Amounts are integers (cents). Ids, timestamps and the stored sessions are
parameters: a fresh-id function `freshId: nat -> string` for the records of
one recurring transaction, plain strings for other ids and times, and
`Option<User>` / `Option<Admin>` for the stored `CURRENT_USER` and
`CURRENT_ADMIN` sessions. A storage key that holds nothing or unparsable
text is `Missing` or `Corrupt` and reads as an empty collection.

Some behaviours of the code are worth stating:

- A month shift past the end of the target month rolls over into the next
  month, which is what `Date.setMonth` does. It is not clamped to the last
  day of the month. A three-month recurrence from 2024-01-31 gives 2024-01-31,
  2024-03-02 and 2024-03-31 (`Ledger.ThreeFromJanuaryThirtyFirst`), not a
  date in February.
- `deleteTransaction` removes every record with the id, not a single one.
  With fresh ids these are the same.
- A movement whose type is neither `deposit` nor `withdraw` is accepted. It
  leaves the balance as it is but still appends a history entry.
- A recurrence count that parses to a negative number records the original
  alone. `"0"` and text that is not a number count as one.
- The failure messages are the code's Portuguese ones ("Meta não
  encontrada.", "Saldo insuficiente na meta!", "Saldo insuficiente!").

## Model

| member | source | states |
|---|---|---|
| Calendar.AddMonthsLands | js/db.js:104-108 | the shifted date is in the target month with the same day, or in the following month on day 1 to 3 when the target month is too short |
| Calendar.AddMonthsKeepsEarlyDays | js/db.js:104-108 | a day of month up to 28 is kept and the month advances by exactly `i` |
| Calendar.AddMonthsZero | js/db.js:104-108 | a shift by zero months is the identity |
| Calendar.JanuaryThirtyFirstRollsOver | js/db.js:105-106 | 31 January 2024 plus one month is 2 March 2024, plus two months is 31 March 2024; in 2023, plus one month is 3 March |
| Calendar.AddMonths | js/db.js:104-106 | the date `setMonth` computes `i` months on; its meaning is stated by AddMonthsLands, AddMonthsKeepsEarlyDays and AddMonthsZero |
| Calendar.DateKeyOrder | js/ui.js:190 | the sort key orders dates by year, then month, then day, and equal keys mean equal dates |
| JsParseInt.ParseDecimal | js/db.js:97 | `parseInt` reads back the decimal numeral of every natural number |
| JsParseInt.ParseWordIsNaN | js/db.js:97 | a word such as "monthly" parses to NaN |
| JsParseInt.ParseStopsAtNonDigit | js/db.js:97 | parsing stops at the first non-digit: "12 meses" gives 12 |
| JsParseInt.ParseInt | js/db.js:97 | `parseInt` without a radix: leading white space, a sign, a `0x` prefix, the longest digit run, NaN without digits; its meaning is stated by ParseDecimal, ParseWordIsNaN and ParseStopsAtNonDigit |
| Records.UserWithId | js/db.js:60 | finds a user with the id exactly when one exists, and it is the first such user |
| Records.AdminWithId | js/db.js:79 | finds an admin with the id exactly when one exists, and it is the first such admin |
| Ledger.RecurrenceCount | js/db.js:97 | `parseInt(r) \|\| 1` is the parsed number when that is a non-zero number, and exactly one when it is NaN or zero |
| Ledger.Expansion | js/db.js:100-110 | the original comes first and the number of records is the count, or one when the count is below one |
| Ledger.ExpansionAt | js/db.js:104-109 | occurrence `k` is the original with id `freshId(k)` and the date shifted by `k` months, and differs from it in nothing else |
| Ledger.RecordedOnce | js/db.js:96-113 | an absent or "none" recurrence records exactly the input |
| Ledger.RecordedNumeral | js/db.js:96-110 | a recurrence written as the numeral of `n >= 1` records `n` records, the first being the input |
| Ledger.RecordedUnparsable | js/db.js:97 | a recurrence that is not a number records the input alone |
| Ledger.RecordedZero | js/db.js:97 | a recurrence of "0" falls back to one and records the input alone |
| Ledger.Recorded | js/db.js:96-113 | the records `addTransaction` appends; its meaning is stated by RecordedOnce, RecordedNumeral, RecordedUnparsable, RecordedZero and ExpansionAt |
| Ledger.ExpansionIdsDistinct | js/db.js:108 | with ids drawn without repetition, all records of one recurring transaction have different ids |
| Ledger.ThreeFromJanuaryThirtyFirst | js/db.js:96-110 | recurrence "3" from 2024-01-31 records three transactions dated 2024-01-31, 2024-03-02 and 2024-03-31 |
| Ledger.WithoutTransaction | js/db.js:120 | a record is kept exactly when it was there and its id differs |
| Ledger.WithoutTransactionAppend | js/db.js:118-122 | removal by id distributes over concatenation, so the kept records stay in their original order |
| Ledger.WithoutAbsentTransaction | js/db.js:118-122 | deleting an id that no record has changes nothing |
| Ledger.DeleteOccurrenceKeepsSiblings | js/db.js:118-122 | deleting one record of a recurring transaction keeps every other record of it |
| Ledger.TransactionsOf | js/db.js:88 | a transaction is listed exactly when it is stored and belongs to the user |
| Balances.ApplyBalance | js/db.js:140-147 | a movement is refused exactly when it is a withdrawal above the balance; otherwise the balance moves by the signed amount and stays non-negative for non-negative inputs |
| Balances.GoalActor | js/db.js:152-154 | the actor is the stored user's name, else the stored admin's username, else "Desconhecido", and never empty |
| Balances.SavingsActor | js/db.js:193-194 | the savings actor is the stored user's name, else "Desconhecido"; the admin session is never consulted |
| Balances.MovementKeepsBalanced | js/db.js:140-166 | an accepted movement of a non-negative amount keeps the balance non-negative and equal to deposits minus withdrawals in the history |
| Balances.ReplayBalanced | js/db.js:140-166 | from zero with no history, any run of accepted non-negative movements leaves a balance equal to deposits minus withdrawals |
| Balances.WithdrawScenario | js/db.js:142-146 | after depositing 400, a withdrawal of 500 is refused and a withdrawal of 400 leaves 0 |
| Balances.SavingsIndex | js/db.js:176 | finds the position of the first savings record of the user exactly when one exists |
| Balances.SavingsOf | js/db.js:170-173 | the first stored record of the user, or a zero record with no history when there is none |
| Balances.WithSavingsRecord | js/db.js:176-181 | the stored records stay in place, a zero record is appended only for a user without one, and the user's record is then the one `getSavings` would have made up |
| Balances.ReplaceSavings | js/db.js:204-205 | every record of the user is replaced by the updated one, and the others are kept in place |
| Balances.SavingsUpdateKeepsOnePerUser | js/db.js:176-205 | with at most one record per user before, the same holds after, and the user's record is the updated one |
| Balances.GoalIndex | js/db.js:136 | finds the position of the first goal with the id exactly when one exists |
| Balances.GoalMovement | js/db.js:134-167 | the goal list `updateGoalBalance` writes, or the refusal it returns; its meaning is stated by GoalMovementEffect and GoalMovementKeepsBalanced |
| Balances.GoalMovementEffect | js/db.js:134-167 | a missing goal is refused, and a withdrawal above the first matching goal's balance is refused exactly when it is one, each with its message; otherwise only that goal changes, its balance moves by the signed amount and its history gains exactly the new entry |
| Balances.GoalMovementKeepsBalanced | js/db.js:140-166 | accepted non-negative goal movements keep every goal balanced |
| Balances.SavingsMovementEffect | js/db.js:174-208 | a savings movement is refused exactly for a withdrawal above the balance; otherwise the list grows only by the user's new record when there was none, other users' records stay in place, the user has one record, its balance moves by the signed amount and its history gains exactly the new entry |
| Balances.SavingsMovement | js/db.js:174-208 | the savings list `updateSavings` writes, or the refusal it returns; its meaning is stated by SavingsMovementEffect and SavingsMovementKeepsBalanced |
| Balances.SavingsMovementKeepsBalanced | js/db.js:183-206 | accepted non-negative savings movements keep every savings record balanced |
| Database.LogActor | js/db.js:214-220 | the log actor is the stored admin's username when there is a non-empty one, and "Unknown" otherwise |
| Database.Load | js/db.js:33-41 | `DB.get`: a saved list as stored, and an empty list for a missing or unparsable key |
| Database.WithoutUser | js/db.js:61 | a user is kept exactly when it was there and its id differs |
| Database.WithoutAdmin | js/db.js:81 | an admin is kept exactly when it was there and its id differs |
| Database.GoalsOf | js/db.js:125 | a goal is listed exactly when it is stored and belongs to the user |
| Database.AppendOccurrences | js/db.js:100-110 | the `push` and the `for` loop append exactly the expansion of the transaction after the prior records |
| Database.Db.constructor | js/db.js:33-41 | the store starts from whatever the six storage keys hold |
| Database.Db.Init | js/db.js:18-31 | the default admin is seeded only when no admin is stored; otherwise nothing is written |
| Database.Db.LogAction | js/db.js:212-223 | the new entry is put first, ahead of all the old ones, with the admin actor |
| Database.Db.AddUser | js/db.js:49-57 | the user gets its id and creation time, is appended, and "Criou usuário" is logged |
| Database.Db.DeleteUser | js/db.js:58-64 | every user with the id is removed, and "Excluiu usuário" is logged only when one existed |
| Database.Db.AddAdmin | js/db.js:68-76 | the admin gets its id and creation time, is appended, and "Criou admin" is logged |
| Database.Db.DeleteAdmin | js/db.js:77-84 | every admin with the id is removed, and "Excluiu admin" is logged only when one existed |
| Database.Db.GetTransactions | js/db.js:87-89 | exactly the user's stored transactions |
| Database.Db.AddTransaction | js/db.js:90-117 | the input gets `freshId(0)` and a creation time, and the records it gives rise to are appended after all existing transactions; the input is returned |
| Database.Db.DeleteTransaction | js/db.js:118-122 | the stored list becomes the list without the id |
| Database.Db.GetGoals | js/db.js:125 | exactly the user's stored goals |
| Database.Db.AddGoal | js/db.js:126-133 | the goal gets an id and an empty history and is appended; a goal created at zero keeps every goal balanced |
| Database.Db.UpdateGoalBalance | js/db.js:134-167 | a refusal returns its message and writes nothing; success writes the goal movement; goals stay balanced |
| Database.Db.GetSavings | js/db.js:170-173 | the first stored record of the user, or a zero record that is not saved |
| Database.Db.GetLogs | js/db.js:211 | the log as stored; its newest-first order is stated by LogAction |
| Database.Db.UpdateSavings | js/db.js:174-208 | a refusal returns its message and writes nothing, not even a new record; success writes the savings movement; one record per user and balanced records are preserved |
| Auth.AdminWithCredentials | js/auth.js:43 | finds an admin exactly when one matches both username and password, and it is the first such admin |
| Auth.FirstCredentialsWin | js/auth.js:43 | the first admin with the credentials is chosen whatever admins follow it |
| Auth.Session.constructor | js/auth.js:5-7 | both login slots start empty |
| Auth.Session.Init | js/auth.js:9-23 | a stored user session wins and loads only the user slot; the admin session is loaded only without a user session; with neither, the result is null and nothing changes |
| Auth.Session.LoginUser | js/auth.js:25-34 | succeeds exactly when some user has the id, and then sets the user slot and the stored key to that user; on failure nothing changes |
| Auth.Session.LogoutUser | js/auth.js:36-39 | clears the user slot and its key and nothing else |
| Auth.Session.LoginAdmin | js/auth.js:41-50 | succeeds exactly when some admin has both credentials, and then sets the admin slot and the stored key to the first such admin; on failure nothing changes |
| Auth.Session.LogoutAdmin | js/auth.js:52-55 | clears the admin slot and its key and nothing else |
| LedgerView.InMonth | js/ui.js:180-187 | a transaction is shown exactly when it is dated in the selected month and year |
| LedgerView.InMonthAppend | js/ui.js:184-187 | the month filter keeps the stored order |
| LedgerView.SortNewestFirst | js/ui.js:190 | the array ends up ordered by date, newest first, and holds the same transactions |
| LedgerView.InsertNewest | js/ui.js:190 | one insertion step extends the newest-first prefix by one and keeps the same transactions |
| LedgerView.SumIncomeExpense | js/ui.js:194-200 | the accumulators end at the sum of the income amounts and the sum of the amounts of every other type |
| LedgerView.IncomeIsIncomeAmounts | js/ui.js:197-200 | income is the sum of the amounts of exactly the income transactions |
| LedgerView.CardsPartitionAmounts | js/ui.js:197-200 | every transaction counts on exactly one card: income plus expense is the sum of all amounts |
| LedgerView.MonthSummary | js/ui.js:176-228 | the month's transactions newest first, with the income and expense cards summing them and the balance card equal to income minus expense |
| LedgerView.GoalProgress | js/ui.js:257 | the bar never exceeds 100; for a non-zero target it is 100 exactly when the goal is reached (for a negative target, when the balance is at or below it) and the exact percentage otherwise; a zero target gives 100 for a positive balance, NaN for zero and minus infinity for a negative balance, as in JavaScript |
| LedgerView.ProgressMonotone | js/ui.js:257 | for a positive target, a larger balance never gives a shorter bar |
| LedgerView.GoalHistoryView | js/ui.js:283-297 | nothing for an unknown goal; for the first goal with the id, the placeholder exactly for an empty history, otherwise every entry latest first |
| LedgerView.HistoryViewRoundTrip | js/ui.js:297 | reversing the shown list gives back the stored history |
| LedgerView.RecentSavings | js/ui.js:327 | at most five entries, the latest first, in reverse storage order |
| LedgerView.RecentAfterMovement | js/ui.js:327 | after a movement the new entry heads the list and the previous list moves down, losing its oldest entry past five |
| ExpenseChart.CategoriesCover | js/charts.js:13-26 | a label is listed exactly when some transaction has that category |
| ExpenseChart.CategoriesDistinct | js/charts.js:16-26 | no label is listed twice |
| ExpenseChart.LastKindIsLast | js/charts.js:23 | the recorded type is that of the last transaction in the category |
| ExpenseChart.BucketsKeys | js/charts.js:16-24 | `categories` gets a key exactly for each listed category |
| ExpenseChart.BucketsTotals | js/charts.js:16-24 | each key holds the total of its category, and a category without a key totals zero |
| ExpenseChart.BucketsLastKind | js/charts.js:16-24 | each key holds the type of its category's last transaction, and a category without a key has none |
| ExpenseChart.Buckets | js/charts.js:16-24 | the `categories` object the `forEach` builds; its meaning is stated by BucketsKeys, BucketsTotals and BucketsLastKind |
| ExpenseChart.GroupByCategory | js/charts.js:13-24 | the keys are the categories in order of first appearance, each holding its category's total and last type |
| ExpenseChart.SliceColor | js/charts.js:30-35 | a slice is green exactly when its type is income |
| ExpenseChart.ChartSeries | js/charts.js:13-35 | labels are distinct and cover the categories; data and colours match the labels in length; each value is the category total; a colour is green exactly when the last type is income, else the palette colour at the label's index modulo 6 |
| ExpenseChart.SlicesAddUp | js/charts.js:22-27 | the slices add up to the sum of all the amounts |

## Left out

- The page wiring of `js/app.js`, the HTML markup, CSS, toasts, modal dialogs and the chart widget. They contain no ledger logic.
- Reading a receipt file (`FileReader`). The receipt is an optional opaque string.
- Local storage and JSON. A key holds a saved collection, nothing, or unparsable text. A saved value that is not a list is not modelled.
- `crypto.randomUUID` and `new Date().toISOString()`. Ids and times are parameters, and their freshness is a precondition only where a lemma needs it.
- Floating point. Amounts are whole numbers, so rounding, `parseFloat` of text amounts and `toFixed` formatting are not modelled.
- Time zones. Dates are taken in UTC, so the day written back by `toISOString` is the one `setMonth` computed. Dates beyond the range that `toISOString` accepts are not modelled.
- `parseInt` results beyond the precision of a JavaScript number. The count is exact here.
- The migration `if (!goal.history) goal.history = []`. A goal here always has a history, and an absent one behaves as the empty one.
- LedgerView.SortNewestFirst: does not state that records with the same date keep their order, although JavaScript's sort is stable.
- ExpenseChart.GroupByCategory: does not model that `Object.keys` lists integer-like keys first in numeric order, or that keys such as `__proto__` behave differently on a plain object. Labels here are in order of first appearance.
- LedgerView.InMonth: the selected month is numbered 1 to 12, where `getMonth` numbers it 0 to 11.
- Database.Db.UpdateGoalBalance: a `CURRENT_USER` or `CURRENT_ADMIN` key holding text that does not parse makes `JSON.parse` throw before anything is saved; the stored sessions here are already parsed records, so that failure is not modelled.
- Database.Db.UpdateSavings: a `CURRENT_USER` key holding text that does not parse makes `JSON.parse` throw before anything is saved; not modelled, as above.
- Database.Db.LogAction: a `CURRENT_ADMIN` key holding text that does not parse makes `JSON.parse` throw and no entry is written; not modelled, as above.
- Database.Db.AddUser: with an unparsable `CURRENT_ADMIN` key the user list is saved and then `logAction` throws, so no log entry is written; not modelled, as above.
- Database.Db.DeleteUser: with an unparsable `CURRENT_ADMIN` key the filtered list is saved and then `logAction` throws for a matched user; not modelled, as above.
- Database.Db.AddAdmin: with an unparsable `CURRENT_ADMIN` key the admin list is saved and then `logAction` throws; not modelled, as above.
- Database.Db.DeleteAdmin: with an unparsable `CURRENT_ADMIN` key the filtered list is saved and then `logAction` throws for a matched admin; not modelled, as above.
- Auth.Session.Init: a stored session is an already parsed record, so a session that is present but unparsable is not modelled.
