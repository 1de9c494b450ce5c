# Personal finance dashboard: aggregation core

This project models the data aggregation behind the dashboard page of a small
personal finance tracker. The page receives the user's transactions and the
budgets of one month and derives from them:

- the monthly bar chart: the spending summed per month (`groupByMonth`);
- the category pie chart: one slice per category with its percentage of the
  total spending and a fixed colour (`groupByCategory`, `getCategoryColor`);
- the summary cards: total spending, number of transactions, number of
  distinct categories and the five most recent transactions;
- the spending insight that compares the last two months of the bar chart;
- the budget form: a text input per budgeted category, filled from the fetched
  budgets and edited by the user (`handleBudgetChange`);
- the budget-versus-actual chart: one row per form category with the parsed
  budget and the spending of exactly that category.

Modelling decisions:

- Amounts are integers (cents). `Math.round(v / T * 100)` is modelled exactly
  as the nearest integer with halves rounded up, `floor((200 v + T) / (2 T))`.
- The month label of a transaction and its timestamp are given fields of the
  transaction (`month`, `time`); date parsing and locale formatting are not
  modelled.
- A JavaScript `Map` and a plain object with string keys are modelled as an
  association list `seq<(string, V)>`: `set` on a known key replaces the value
  in place, on a new key appends it, so insertion order is kept exactly.
  `Map.entries()` and `Object.keys` are the list's order.
- `groupByMonth` and `groupByCategory` share one loop, `Grouping.GroupSums`,
  parameterised by the key it groups on. It is proved to compute, for every
  distinct key in first-seen order, the sum of the amounts with that key.
- `Number(text) || 0` is modelled by `Numbers.Parse` on plain decimal text
  (optional sign, digits, at most two fraction digits, JavaScript white space
  trimmed; blank text is 0), and `amount.toString()` by `Numbers.Show`; the
  round trip `Parse(Show(c)) == Some(c)` is proved, so a budget loaded into
  the form reads back as the same amount.
- Category matching is exact and case-sensitive, as in the code: a category
  written in another case (such as the lowercase values of the transaction
  form) is a different category, gets the default grey and no budget actual.
  Lemmas `Budgets.FormValueDoesNotMatch` and `Colors.UnlistedNamesAreGrey`
  state this.
- The colour table has eight entries; the other budget categories (for
  example "Entertainment", "Travel") get the default grey.
- `getBudgetForCategory` is defined in the page but not called by the rest of
  the aggregation; it is modelled on its own (`Budgets.BudgetFor`) and related
  to the form contents (`Budgets.LastIsFirstWhenDistinct`).

## Model

| member | source | states |
|---|---|---|
| AssocList.Get | src/app/page.tsx:81 | the lookup is None exactly when the key is absent, otherwise the value of the first entry with that key |
| AssocList.Put | src/app/page.tsx:81 | `set` keeps the key order and adds one entry only for a new key, which goes last with its value |
| AssocList.PutAt | src/app/page.tsx:81 | under distinct keys, `set` replaces exactly the entry with that key and leaves every other entry as it was |
| AssocList.PutKeys | src/app/page.tsx:92 | the keys after `set` are the old keys, with the new key appended when it was absent |
| AssocList.PutNoDup | src/app/page.tsx:252 | `set` keeps the keys distinct |
| AssocList.PutGet | src/app/page.tsx:252 | after `set`, the key reads the new value and every other key reads what it read before |
| Ledger.Matching | src/app/page.tsx:218 | every result has the given key, and every transaction with the key is kept |
| Ledger.MatchingAppend | src/app/page.tsx:218 | filtering a concatenation is the concatenation of the filtered parts, so the kept transactions are in input order |
| Ledger.Total | src/app/page.tsx:89 | with non-negative amounts the reduce gives a non-negative total |
| Ledger.TotalSnoc | src/app/page.tsx:185 | the reduce adds each next amount to the running sum |
| Ledger.KeyTotalIsFilteredTotal | src/app/page.tsx:217-219 | filtering by a key and summing gives the per-key total |
| Ledger.FirstSeen | src/app/page.tsx:83 | the distinct values, each once, exactly the values of the input, never more of them than inputs |
| Ledger.FirstSeenOrder | src/app/page.tsx:83 | the distinct values appear in the order of their first occurrence in the input |
| Ledger.KeyTotalBounds | src/app/page.tsx:92 | with non-negative amounts, every per-key total lies between 0 and the grand total |
| Ledger.KeyTotalsConserve | src/app/page.tsx:89-93 | the per-key totals over all distinct keys add up to the grand total |
| Grouping.Grouped | src/app/page.tsx:81-83 | the grouping map has one entry per distinct key, in first-seen order |
| Grouping.GroupStep | src/app/page.tsx:81 | one `set` of the running sum extends the per-key totals from a prefix to the next transaction |
| Grouping.GroupSums | src/app/page.tsx:77-82 | the loop yields every distinct key in first-seen order paired with the sum of the amounts with that key |
| Grouping.GroupByMonth | src/app/page.tsx:75-84 | one entry per distinct month in first-seen order, each with its month's total; every transaction's month appears; the entries add up to the total; empty exactly for no transactions |
| Grouping.MonthlyTotals | src/app/page.tsx:83 | one bucket per distinct month in first-seen order, holding the total of that month |
| Grouping.MonthlyTotalsFacts | src/app/page.tsx:83 | the bar chart data lists distinct months in first-seen order with their totals, summing to the total spending |
| Grouping.SharePercent | src/app/page.tsx:97 | with a positive total, the percentage is the nearest integer to 100 v / T with halves rounded up |
| Grouping.SharePercentBounds | src/app/page.tsx:97 | a part of a positive total gives a percentage between 0 and 100 |
| Grouping.CategoryShares | src/app/page.tsx:95-99 | one slice per distinct category in first-seen order, with its rounded share of the total and the colour of its name |
| Grouping.GroupByCategory | src/app/page.tsx:86-100 | one slice per distinct category in first-seen order, its value the rounded share of the total and its colour the category colour; empty exactly for no transactions |
| Grouping.CategorySharesFacts | src/app/page.tsx:95 | the slices have distinct names and are empty exactly when there are no transactions |
| Grouping.CategorySharesBounds | src/app/page.tsx:95-99 | with non-negative amounts and a positive total, every slice value lies between 0 and 100 |
| Grouping.CategorySharesSum | src/app/page.tsx:95-99 | with a positive total, the slice values add up to 100 within half a point per slice of rounding |
| Grouping.ProcessForCharts | src/app/page.tsx:122-133 | the chart data is the month grouping and the category grouping of the same transactions; the bars add up to the total spending |
| Grouping.ShareAsWrittenAgrees | src/app/page.tsx:97 | for a non-zero total, the division as written is the finite percentage of the model |
| Grouping.ShareAsWritten | src/app/page.tsx:97 | the division as written is finite exactly when the total is not zero; a zero total gives NaN for a zero value and Infinity or -Infinity for a positive or negative one |
| Grouping.CategoryValuesAsWritten | src/app/page.tsx:95-99 | the values as written: one per distinct category in first-seen order, the division of its total by the grand total |
| Grouping.ZeroTotalGivesNaN | src/app/page.tsx:89-97 | with non-negative amounts summing to 0, there is at least one slice, every slice value is NaN as written, and every corrected share is 0 |
| Grouping.ZeroAmountGivesNaN | src/app/page.tsx:89-97 | one transaction of amount 0 gives the single value NaN as written |
| Colors.CategoryColor | src/app/page.tsx:107-119 | a category has the default grey exactly when it is not one of the eight listed names or is "Other"; every colour is a seven-character `#` code |
| Colors.ColorsDistinct | src/app/page.tsx:108-117 | the eight names of the table have pairwise different colours |
| Colors.UnlistedNamesAreGrey | src/app/page.tsx:118 | unlisted categories and differently cased names fall back to grey |
| Colors.ColorAsWritten | src/app/page.tsx:118 | the lookup as written never yields undefined, and yields a string exactly for the names that are not inherited object members |
| Colors.ColorAsWrittenAgrees | src/app/page.tsx:118 | the indexed lookup as written gives the modelled colour for every name that is not an inherited object member |
| Colors.InheritedNameLeaks | src/app/page.tsx:118 | as written, "constructor", "toString" and "__proto__" yield an inherited function or object instead of a colour |
| Insight.Insight | src/app/page.tsx:195-206 | no insight with fewer than two months; otherwise more, less or same exactly as the last month is above, below or equal to the previous one, with a positive difference |
| Insight.InsightReconstructsLast | src/app/page.tsx:199-204 | the previous month's amount plus or minus the reported difference is the last month's amount |
| Insight.InsightIgnoresEarlierMonths | src/app/page.tsx:196-198 | only the last two months decide the insight |
| Insight.InsightFollowsEmissionOrder | src/app/page.tsx:197-198 | the comparison follows the order of the buckets, not the calendar: the same two months met in the opposite order report the opposite trend |
| Insight.FewMonthsNoInsight | src/app/page.tsx:196 | transactions of a single month give no insight |
| Insight.InsightExamples | src/app/page.tsx:196-200 | one month gives none; June 1450.00 and July 1600.00 give "150.00 more" |
| Numbers.Parse | src/app/page.tsx:222 | blank text parses as 0 |
| Numbers.Show | src/app/page.tsx:169 | `toString` of an amount is non-empty, starting with a digit for a non-negative amount and with a minus sign and a digit for a negative one |
| Numbers.NumberOrZero | src/app/page.tsx:222 | blank text reads as 0, and any non-zero reading is the number the text parses to |
| Numbers.NumberOrZeroShow | src/app/page.tsx:222 | a budget written into the form with `toString` reads back as the same amount |
| Numbers.ParseShow | src/app/page.tsx:169 | the text written into the form for an amount parses back to that amount |
| Numbers.ParseWholeAndFraction | src/app/page.tsx:222 | "800" is 800.00 and "12.5" is 12.50 |
| Numbers.ParseBlankAndInvalid | src/app/page.tsx:222 | empty text is 0, "abc" is not a number and reads as a budget of 0 |
| Budgets.BudgetFor | src/app/page.tsx:209-212 | the amount of the first budget whose category is exactly the given one, and 0 when there is none |
| Budgets.LastAmount | src/app/page.tsx:168-170 | 0 for a category without budgets; otherwise the amount of a budget of that category after which no budget of the category follows |
| Budgets.BuildInputs | src/app/page.tsx:167-171 | the form holds one entry per distinct budget category in first-seen order, its text the amount of the last budget of that category |
| Budgets.FillStep | src/app/page.tsx:169 | one assignment extends the form from a prefix of the budgets to the next budget |
| Budgets.ChangeInput | src/app/page.tsx:252 | the edited category reads the typed text, every other entry is unchanged, and the key order is kept with a new key last |
| Budgets.BudgetRows | src/app/page.tsx:215-226 | one row per form entry, in the form's key order, each named by its category |
| Budgets.BudgetRowAt | src/app/page.tsx:216-224 | each row is a form category, its budget the parsed text (0 when not a number) and its actual the category's total |
| Budgets.UnmatchedActualIsZero | src/app/page.tsx:217-219 | a form category that no transaction has shows an actual of 0 |
| Budgets.ActualMatchesGrouping | src/app/page.tsx:217-219 | each row's actual equals the pie chart grouping's total for that category |
| Budgets.FilledRowsHoldLastAmount | src/app/page.tsx:222 | right after loading, each row's budget is the last loaded amount of its category |
| Budgets.LastIsFirstWhenDistinct | src/app/page.tsx:210 | when each category has at most one budget, the form's amount is the one `getBudgetForCategory` finds |
| Budgets.SingleInputRow | src/app/page.tsx:215-226 | one input and one transaction of its category give a single row with the parsed text as budget and the amount as actual |
| Budgets.FoodAndDiningExample | src/app/page.tsx:215-226 | a form "Food & Dining" = "800" with one 650.00 transaction gives the row (800.00, 650.00) |
| Budgets.FormValueDoesNotMatch | src/app/page.tsx:218 | a transaction under "food" adds nothing to the "Food & Dining" row |
| Budgets.NoInputsNoRows | src/app/page.tsx:215 | an empty form gives no rows |
| Summary.UniqueCategories | src/app/page.tsx:187 | the number of distinct categories, at most the number of transactions and 0 exactly when there are none |
| Summary.InsertByTime | src/app/page.tsx:191 | inserting into a newest-first list keeps it newest first and adds exactly the one transaction |
| Summary.SortByTimeDesc | src/app/page.tsx:190-191 | the sorted copy is newest first and a permutation of the transactions |
| Summary.RecentTransactions | src/app/page.tsx:190-192 | at most five transactions, newest first, taken from the input, and none left out is newer than one shown |
| Summary.SortedPrefix | src/app/page.tsx:192 | a prefix of a newest-first list is newest first, drawn from the list, and no element after it is newer than one in it |

## Left out

- Date handling: the month label (`toLocaleDateString`) and the timestamp (`getTime`) are given per transaction; parsing, time zones and invalid dates are not modelled.
- Floating point: amounts are exact cents; rounding of binary fractions and `toFixed(2)` formatting of the insight text are not modelled.
- Numbers.Parse: only plain decimal text is accepted; exponent forms, hexadecimal, binary and octal literals, "Infinity" and more than two fraction digits read as not a number (a budget of 0), whereas JavaScript accepts them.
- Numbers.Show: amounts are cents, so only the representation of whole cents is modelled.
- Budgets.BudgetRows: the form object is modelled with insertion-ordered string keys; JavaScript's ordering of integer-like keys first and the special `__proto__` key are not modelled.
- Colors.CategoryColor: the slice colour uses the corrected lookup, which differs from the indexed lookup as written on "constructor", "toString", "__proto__" and the other inherited member names; the as-written lookup is modelled separately, see Findings.
- Grouping.GroupByCategory: uses the corrected zero-total share of 0; the division as written (NaN) is modelled separately, see Findings.
- Summary.RecentTransactions: the stability of the sort (equal times keep their input order) is not stated.
- Transactions whose amount is not a number (string concatenation, NaN) are not modelled; every amount is an integer.
- Missing fields: the transaction schema (src/models/Transaction.ts:4-8) makes every field optional, so a category or date may be undefined; the source then groups and counts an undefined key and colours it grey. In the model every field is a string.
- `calculateBudgetVsActual` returns a fixed mock that the page discards, and the example data constants at the top of the page are display fixtures.
- React state, effects, loading flags and the rendering; the budget save flow (`handleBudgetSave`) and its refetch, which are calls to the server.
- The current budget month token, built from the clock.
- The API client, the API routes, the database models, the other pages and the layout.
- The number of transactions is the length of the list and has no member of its own.

## Findings

| source | as written | input that shows it | evidently intended | confidence | as-written member | corrected member |
|---|---|---|---|---|---|---|
| src/app/page.tsx:118 | the colour is read by indexing a plain object, so names of inherited object members are found too | category "constructor" (also "toString", "__proto__") | every category not in the table gets the default grey "#b3b3b3" | high, not executed | Colors.ColorAsWritten, Colors.InheritedNameLeaks | Colors.CategoryColor |
| src/app/page.tsx:97 | the share divides by the total with no guard against a zero total | one transaction of amount 0: the slice value is 0 / 0, NaN; amounts 5.00 and -5.00 give Infinity | a zero total gives a share of 0 | high, not executed | Grouping.ShareAsWritten, Grouping.ZeroTotalGivesNaN, Grouping.ZeroAmountGivesNaN | Grouping.SharePercent |
