# Customer web orders: a Dafny model

This project models the customer order endpoint of a restaurant back office.
A customer scans a table code and submits an order from the web menu. The
endpoint then does four things:

- It validates the request.
- It normalises the table number (trimmed and upper-cased) and the order
  number (trimmed).
- In one database transaction, it refuses an order number that was already
  placed from the web (409). Otherwise it creates a table mapping and a
  pending order that references it (201). A database failure rolls the
  transaction back (500).
- After the commit, it creates one high-priority NEW_ORDER notification for
  every active expo staff account that has notifications enabled. Each one
  carries a short summary of the items ("2x Burger, 1x Fries, 3x Soda +1 more").
  A failure while notifying is swallowed.

The model also covers the advisory table-number check (`validateTableNumber`)
and the area rule: a table whose number starts with P is on the patio, B is
at the bar, and anything else is in the dining room.

Modules, in dependency order:

- `Text`: PHP `trim`, `strtoupper` and `strlen` on strings, decimal rendering
  of counts, and `join`.
- `Areas`: `determineArea`.
- `TableCheck`: `validateTableNumber`, both as written and as intended (see
  Findings).
- `Records`: the stored rows (orders, mappings, staff accounts,
  notifications).
- `OrderRequests`: the request body, its validation rules and the error bag.
- `Summaries`: the items summary.
- `Placement`: `placeOrder` as a function from the tables before the call to
  the tables after it and the reply.
- `FanOut`: the notifications `sendNotificationToExpoAdmins` creates.
- `OrderStore`: the store as a class whose methods change its rows step by
  step. These are the transaction (begin, rollback, commit), the inserts, the
  notification loop and `PlaceOrder` itself. `PlaceOrder` is proved to leave
  exactly the tables and the reply that `Placement.Place` describes.

Conventions:

- Database failures are parameters: `DbFault` says where the transaction
  throws and `FanOutFault` says where the notification step throws.
- The clock is a parameter, `now`.
- Amounts are integer cents.
- Row ids come from per-table counters. Like auto-increment counters, a
  rollback does not restore them.

## Model

| member | source | states |
|---|---|---|
| Text.TrimLeft | app/Http/Controllers/Api/V1/CustomerOrderController.php:51-52 | the result is a suffix of the input, every dropped character is in PHP's default trim set, and the result does not start with one |
| Text.TrimRight | app/Http/Controllers/Api/V1/CustomerOrderController.php:51-52 | the result is a prefix of the input, every dropped character is trimmable, and the result does not end with one |
| Text.Trim | app/Http/Controllers/Api/V1/CustomerOrderController.php:51-52 | the result is the slice of the input between a blank prefix and a blank suffix, both its ends are non-trimmable, and it is empty exactly when the input is blank |
| Text.TrimSlice | app/Http/Controllers/Api/V1/CustomerOrderController.php:51-52 | stripping the left and then the right end leaves a slice of the input with only trimmable characters removed on either side |
| Text.Present | app/Http/Controllers/Api/V1/CustomerOrderController.php:28-29 | Laravel's `required`: the value is there and is not empty once trimmed |
| Text.Upper | app/Http/Controllers/Api/V1/CustomerOrderController.php:51 | `strtoupper` keeps the length and maps every character through the ASCII upper-casing |
| Text.TrimUpper | app/Http/Controllers/Api/V1/CustomerOrderController.php:51 | trimming and upper-casing commute, so the order of the two calls in the normalisation does not matter |
| Text.TrimIdempotent | app/Http/Controllers/Api/V1/CustomerOrderController.php:52 | trimming a trimmed order number changes nothing |
| Text.UpperIdempotent | app/Http/Controllers/Api/V1/CustomerOrderController.php:51 | upper-casing twice is upper-casing once |
| Text.NormalizeIdempotent | app/Http/Controllers/Api/V1/CustomerOrderController.php:51 | normalising an already normalised table number changes nothing |
| Text.Normalize | app/Http/Controllers/Api/V1/CustomerOrderController.php:51 | the normalised table number is as long as the trimmed one, is empty exactly when the input is blank, and holds no lower-case ASCII letter |
| Text.NatToString | app/Http/Controllers/Api/V1/CustomerOrderController.php:209-213 | a count is rendered as a non-empty string of decimal digits, without a leading zero unless it is 0 |
| Text.NatToStringRoundTrip | app/Http/Controllers/Api/V1/CustomerOrderController.php:213 | reading the rendered count back as decimal gives the count |
| Text.NatToStringInjective | app/Http/Controllers/Api/V1/CustomerOrderController.php:213 | different counts render differently |
| Text.Join | app/Http/Controllers/Api/V1/CustomerOrderController.php:210 | joining no parts gives the empty string, one part gives that part, and a join starts with its first part |
| Text.JoinAppend | app/Http/Controllers/Api/V1/CustomerOrderController.php:210 | joining two non-empty lists is joining each and gluing the two with the separator |
| Text.Utf8Width | app/Http/Controllers/Api/V1/CustomerOrderController.php:191 | a character takes 1 to 4 bytes in UTF-8, and 1 exactly when it is ASCII |
| Text.ByteLength | app/Http/Controllers/Api/V1/CustomerOrderController.php:191 | `strlen` is at least the number of characters, and equal to it exactly when every character is ASCII |
| Areas.DetermineArea | app/Http/Controllers/Api/V1/CustomerOrderController.php:149-165 | patio exactly when the first letter is P or p, bar exactly when it is B or b, dining otherwise (including the empty string) |
| Areas.DetermineAreaIgnoresCase | app/Http/Controllers/Api/V1/CustomerOrderController.php:151 | the area of the upper-cased table number is the area of the table number |
| Areas.DetermineAreaOfNormalized | app/Http/Controllers/Api/V1/CustomerOrderController.php:82 | the area of the normalised table number is the area of the trimmed raw one |
| Areas.DetermineAreaExamples | app/Http/Controllers/Api/V1/CustomerOrderController.php:154-164 | "p5" is patio, "B2" is bar, "12" is dining |
| Areas.LeadingBlankIsNotIgnored | app/Http/Controllers/Api/V1/CustomerOrderController.php:149-165 | the resolver does not trim: " p5" is dining, while its normalised form is patio |
| TableCheck.ValidateTableNumberAsWritten | app/Http/Controllers/Api/V1/CustomerOrderController.php:173-198 | 422 exactly when `required` fails, otherwise 200, and a 422 is never valid; on a 200, valid exactly when the normalised number is not PHP-empty and is at most 10 bytes |
| TableCheck.ZeroTableIsRejected | app/Http/Controllers/Api/V1/CustomerOrderController.php:191 | as written, the table number "0" passes `required` yet is reported invalid; the corrected check accepts it |
| TableCheck.ValidateTableNumber | app/Http/Controllers/Api/V1/CustomerOrderController.php:173-198 | 422 exactly when `required` fails; on a 200, valid exactly when the normalised number is non-empty and at most 10 bytes |
| TableCheck.ValidTableIsShortEnough | app/Http/Controllers/Api/V1/CustomerOrderController.php:187-191 | once `required` holds, validity is the 10-byte limit alone, and for an ASCII table number it is a limit of 10 characters on the trimmed number |
| TableCheck.TrimIsAscii | app/Http/Controllers/Api/V1/CustomerOrderController.php:187 | trimming an ASCII string leaves an ASCII string |
| TableCheck.NormalizedAsciiLength | app/Http/Controllers/Api/V1/CustomerOrderController.php:187-191 | for an ASCII table number, the byte length of the normalised number is the length of the trimmed one |
| OrderRequests.RuleErrors | app/Http/Controllers/Api/V1/CustomerOrderController.php:31-34 | an item rule reports exactly the lines it fails on, with their indices |
| OrderRequests.LineErrors | app/Http/Controllers/Api/V1/CustomerOrderController.php:31-34 | the item keys in the bag are exactly the (rule, line) pairs that fail |
| OrderRequests.LeadingErrors | app/Http/Controllers/Api/V1/CustomerOrderController.php:28-30 | `table_number`, `order_number` and `items` appear exactly when their rules fail |
| OrderRequests.TrailingErrors | app/Http/Controllers/Api/V1/CustomerOrderController.php:36-37 | `notes` and `total_amount` appear exactly when their rules fail |
| OrderRequests.FieldErrors | app/Http/Controllers/Api/V1/CustomerOrderController.php:27-38 | a key is in the error bag exactly when the rule behind it fails |
| OrderRequests.FieldErrorsEmptyIffAcceptable | app/Http/Controllers/Api/V1/CustomerOrderController.php:40 | the validator fails exactly when the request breaks a rule |
| OrderRequests.NothingFailsIsAcceptable | app/Http/Controllers/Api/V1/CustomerOrderController.php:27-40 | when no key's rule fails, every validation rule holds |
| OrderRequests.SomethingFailsIsNotAcceptable | app/Http/Controllers/Api/V1/CustomerOrderController.php:27-40 | one failing key is enough to fail the request |
| OrderRequests.ToItem | app/Http/Controllers/Api/V1/CustomerOrderController.php:93 | a stored line carries exactly the submitted menu item id, name, quantity, price and notes, and a quantity of at least 1 |
| OrderRequests.ToItemOfAsInput | app/Http/Controllers/Api/V1/CustomerOrderController.php:53 | a stored line, read back as a submitted item, passes the item rules and is stored as itself |
| OrderRequests.ToItems | app/Http/Controllers/Api/V1/CustomerOrderController.php:53 | the stored lines are the submitted lines, one for one and in order, each with all of its submitted fields |
| Summaries.Labels | app/Http/Controllers/Api/V1/CustomerOrderController.php:208-209 | one "{quantity}x {name}" label per line, in line order |
| Summaries.LabelReadsBack | app/Http/Controllers/Api/V1/CustomerOrderController.php:209 | a label is the quantity in decimal digits, then "x ", then the name |
| Summaries.Take | app/Http/Controllers/Api/V1/CustomerOrderController.php:210 | `take(n)` is the prefix of length min(n, count) |
| Summaries.SummaryOfFewItems | app/Http/Controllers/Api/V1/CustomerOrderController.php:208-214 | up to three lines, all labels are joined and nothing is appended |
| Summaries.SummaryOfManyItems | app/Http/Controllers/Api/V1/CustomerOrderController.php:208-214 | beyond three lines, the first three labels are followed by " +N more" with N the other lines |
| Summaries.LabelsPrefix | app/Http/Controllers/Api/V1/CustomerOrderController.php:208-210 | the first n labels are the labels of the first n lines |
| Summaries.SummaryIgnoresHiddenItems | app/Http/Controllers/Api/V1/CustomerOrderController.php:208-214 | the summary depends only on the first three lines and the number of lines |
| Summaries.SummaryStartsWithFirstItem | app/Http/Controllers/Api/V1/CustomerOrderController.php:208-210 | a non-empty order's summary starts with its first label |
| Summaries.SummaryOfNoItems | app/Http/Controllers/Api/V1/CustomerOrderController.php:208-214 | no lines give the empty summary |
| Summaries.SummaryExample | app/Http/Controllers/Api/V1/CustomerOrderController.php:208-214 | four lines give "2x Burger, 1x Fries, 3x Soda +1 more" |
| Summaries.ItemsSummary | app/Http/Controllers/Api/V1/CustomerOrderController.php:208-214 | the summary is empty exactly when the order has no lines |
| Summaries.MoreSuffix | app/Http/Controllers/Api/V1/CustomerOrderController.php:212-214 | the suffix is empty exactly when there are at most three lines |
| Summaries.MoreSuffixReadsBack | app/Http/Controllers/Api/V1/CustomerOrderController.php:212-214 | beyond three lines, the suffix is " +", the number of hidden lines in decimal digits, then " more" |
| Summaries.ExampleLabels | app/Http/Controllers/Api/V1/CustomerOrderController.php:208-210 | the first three labels of the example |
| Summaries.ExampleJoin | app/Http/Controllers/Api/V1/CustomerOrderController.php:210 | the example labels joined with ", " |
| Placement.FindCustomerOrder | app/Http/Controllers/Api/V1/CustomerOrderController.php:58-60 | the first stored web order with the number, if any, and none exactly when there is no such order |
| Placement.SubmissionIdReadsBack | app/Http/Controllers/Api/V1/CustomerOrderController.php:71-74 | the submission id is the order number, "_", the table number, "_" and the timestamp in decimal digits |
| Placement.NewMapping | app/Http/Controllers/Api/V1/CustomerOrderController.php:76-84 | the mapping carries the order number, the table number, the table's area, the submission id and the submitted time, with web source and active status |
| Placement.NewOrder | app/Http/Controllers/Api/V1/CustomerOrderController.php:86-98 | the order carries the number, the table, its area and the mapping id; its unique identifier is the mapping's submission id; it is PENDING for the walk-in customer with web source, and keeps the lines, the notes and the total |
| Placement.Transaction | app/Http/Controllers/Api/V1/CustomerOrderController.php:49-100 | the transaction never answers with a validation error |
| Placement.PlaceRejectsInvalid | app/Http/Controllers/Api/V1/CustomerOrderController.php:40-46 | 422 exactly for a request that breaks a rule; nothing is written, and the bag names exactly the failing keys |
| Placement.Place | app/Http/Controllers/Api/V1/CustomerOrderController.php:24-141 | 422 exactly for a request that breaks a rule, and then the tables are unchanged |
| Placement.TransactionRejectsDuplicate | app/Http/Controllers/Api/V1/CustomerOrderController.php:58-68 | unless beginning the transaction or the lookup throws, 409 exactly when a web order with the number is stored, and then nothing is written |
| Placement.PlaceRejectsDuplicate | app/Http/Controllers/Api/V1/CustomerOrderController.php:58-68 | for a valid request, the same on the trimmed order number |
| Placement.TransactionRollsBack | app/Http/Controllers/Api/V1/CustomerOrderController.php:126-139 | 500 exactly when beginning the transaction or the lookup throws, or a later step (mapping insert, order insert, commit) throws for a new number; then the rows are as before |
| Placement.PlaceRollsBack | app/Http/Controllers/Api/V1/CustomerOrderController.php:126-139 | the same for a whole call, which needs a valid request first |
| Placement.TransactionCreates | app/Http/Controllers/Api/V1/CustomerOrderController.php:76-124 | 201 exactly with no fault and a new number; then one mapping and one order that references it are appended, with these fields: the number, the table and its area, PENDING status, walk-in customer, web source, the lines, the notes and the total; the reply reports them |
| Placement.PlaceCreates | app/Http/Controllers/Api/V1/CustomerOrderController.php:24-124 | the same for a whole call, on the trimmed order number and normalised table number; the stored lines are the submitted lines field for field, and the reply counts them |
| Placement.CountOfNoMatch | app/Http/Controllers/Api/V1/CustomerOrderController.php:58-60 | with no matching web order, the count is 0 |
| Placement.CountAppend | app/Http/Controllers/Api/V1/CustomerOrderController.php:86-98 | appending an order adds 1 to the count exactly when it matches |
| Placement.CountOfUnique | app/Http/Controllers/Api/V1/CustomerOrderController.php:58-68 | with web orders unique per number, a stored number is counted once |
| Placement.AppendPreservesValid | app/Http/Controllers/Api/V1/CustomerOrderController.php:76-98 | appending a fresh mapping and a new-numbered order that references it keeps the tables' invariant |
| Placement.TransactionPreservesValid | app/Http/Controllers/Api/V1/CustomerOrderController.php:49-140 | every outcome of the transaction keeps the invariant: ids increase and stay below their counters, web orders are unique per number, and every mapping reference resolves |
| Placement.PlacePreservesValid | app/Http/Controllers/Api/V1/CustomerOrderController.php:24-141 | every call keeps the tables' invariant |
| Placement.TransactionLeavesExactlyOne | app/Http/Controllers/Api/V1/CustomerOrderController.php:58-100 | after a transaction without database failure, exactly one web order with the number is stored |
| Placement.PlaceLeavesExactlyOne | app/Http/Controllers/Api/V1/CustomerOrderController.php:58-100 | after a valid call without database failure, exactly one web order with the trimmed number is stored |
| Placement.PlaceTwiceIsIdempotent | app/Http/Controllers/Api/V1/CustomerOrderController.php:58-68 | a request that was placed once gets a 409 the second time and changes nothing |
| FanOut.ExpoAdmins | app/Http/Controllers/Api/V1/CustomerOrderController.php:203-206 | the recipients are exactly the stored accounts with role expo, status active and notifications enabled |
| FanOut.ExpoNotifications | app/Http/Controllers/Api/V1/CustomerOrderController.php:216-236 | a complete fan-out creates one notification per recipient |
| FanOut.Delivered | app/Http/Controllers/Api/V1/CustomerOrderController.php:242-247 | a fault stops the loop after at most all recipients; without a fault all are reached |
| FanOut.FanOutResult | app/Http/Controllers/Api/V1/CustomerOrderController.php:200-248 | the notifications left behind are a prefix of the complete fan-out: all of it without a fault, none when the recipient query throws |
| FanOut.ExpoAdminsDistinct | app/Http/Controllers/Api/V1/CustomerOrderController.php:203-206 | the query keeps distinct account ids distinct |
| FanOut.FanOutOnePerRecipient | app/Http/Controllers/Api/V1/CustomerOrderController.php:216-227 | every eligible account gets exactly one notification |
| FanOut.NotificationRecipients | app/Http/Controllers/Api/V1/CustomerOrderController.php:216-227 | the fan-out makes one notification per recipient, in order, addressed to that recipient |
| FanOut.FanOutOnlyToRecipients | app/Http/Controllers/Api/V1/CustomerOrderController.php:203-227 | no notification goes to an account that is not eligible |
| FanOut.FanOutRecordShape | app/Http/Controllers/Api/V1/CustomerOrderController.php:217-235 | every notification has consecutive ids and goes to the k-th recipient; it is unread, high-priority, NEW_ORDER and for an admin; its title is "New Web Order - Table " and the table, its message "Order #", the number, " - " and the items summary; it names the walk-in customer and the table's area, and its data holds the order id, the line count, the order's total and the web source |
| FanOut.FanOutToNobody | app/Http/Controllers/Api/V1/CustomerOrderController.php:216-236 | with no eligible account, nothing is created |
| FanOut.NotificationFor | app/Http/Controllers/Api/V1/CustomerOrderController.php:217-235 | one notification is unread, for the given admin, located in the table's area and about the given order |
| OrderStore.Store.constructor | app/Http/Controllers/Api/V1/CustomerOrderController.php:24 | an empty store with the given staff accounts is valid |
| OrderStore.Store.BeginTransaction | app/Http/Controllers/Api/V1/CustomerOrderController.php:49 | saves the order and mapping rows |
| OrderStore.Store.RollBack | app/Http/Controllers/Api/V1/CustomerOrderController.php:63 | restores the saved rows; the counters keep their values |
| OrderStore.Store.Commit | app/Http/Controllers/Api/V1/CustomerOrderController.php:100 | keeps the rows written and closes the transaction |
| OrderStore.Store.InsertMapping | app/Http/Controllers/Api/V1/CustomerOrderController.php:76-84 | appends the mapping with the next mapping id and advances the counter |
| OrderStore.Store.InsertOrder | app/Http/Controllers/Api/V1/CustomerOrderController.php:86-98 | appends the order with the next order id and advances the counter |
| OrderStore.Store.InsertNotification | app/Http/Controllers/Api/V1/CustomerOrderController.php:217-235 | appends the notification with the next id and keeps notification ids increasing |
| OrderStore.Store.NotifyExpoAdmins | app/Http/Controllers/Api/V1/CustomerOrderController.php:200-248 | the loop appends exactly `FanOut.FanOutResult` and advances the counter by as many, keeping notification ids valid |
| OrderStore.Store.Transact | app/Http/Controllers/Api/V1/CustomerOrderController.php:49-100 | the tables and the reply are exactly those of `Placement.Transaction`, with the transaction closed on every path; a failed begin opens nothing to roll back |
| OrderStore.Store.WriteRows | app/Http/Controllers/Api/V1/CustomerOrderController.php:76-100 | inside an open transaction for a new number, the inserts and the commit leave the tables and the reply of `Placement.Transaction`; any failure rolls the rows back |
| OrderStore.Store.PlaceValidated | app/Http/Controllers/Api/V1/CustomerOrderController.php:48-140 | the tables and the reply are those of `Placement.Transaction`; only a created order notifies, and then with `FanOut.FanOutResult` for it; the store stays valid |
| OrderStore.Store.PlaceOrder | app/Http/Controllers/Api/V1/CustomerOrderController.php:24-141 | the tables and the reply are exactly those of `Placement.Place`; the staff accounts are untouched; only a 201 adds notifications, and those are the fan-out for the new order; the store stays valid |

## Left out

- JSON rendering is not modelled. That covers the messages, the `success` flag, the validator's messages and `number_format` of the amount. `created_at` is the instant `now`, not an ISO string.
- Logging (`Log::info`, `Log::error`) is left out. A failure there, or while building the 201 reply after the commit, would give a 500 with the order already stored. The model assumes those steps do not throw.
- `\Error` throwables are not modelled. They escape both `catch (\Exception …)` blocks.
- Concurrency is left out; the model is sequential. Two simultaneous requests with one order number can both pass the lookup, because the code relies on no unique index.
- Duplicate lookup uses exact string equality. A case- or accent-insensitive database collation is not modelled.
- The code reads the clock several times (`now()` for the timestamp, the submitted time and the created time). The model uses one instant per call. The submission id and the unique identifier are therefore one string.
- Amounts are integer cents, with no `decimal(10,2)` bound. Prices and totals that are not whole cents are not modelled. A quantity in the summary is printed as an integer, whatever form the raw JSON value had.
- A field of the wrong JSON type (a number for `table_number`, a string for `quantity`) is modelled as a missing field. The `string`, `integer`, `numeric` and `array` rules are not modelled separately. For a required field the outcome is the same, a 422 on that key. For the nullable fields `notes` and `items.*.notes` it is not: `{"notes": 5}` fails the `string` rule and gets a 422, but the model reads it as absent and accepts the request.
- OrderRequests.FieldErrors: has no key for `items.*.notes`. With type errors read as absence, `nullable|string` cannot fail, so the model has no rule for it.
- Stored lines keep the validated fields of each submitted item (menu item id, name, quantity, price, notes). Other keys the client sends along are not modelled.
- `strtoupper` upper-cases ASCII letters only. That is PHP 8.2 behaviour; an older locale-dependent mapping is not modelled.
- Database failures are parameters: the step at which the transaction throws, and the recipient index at which the fan-out throws.
- A failed mapping insert consumes no mapping id. A failed order insert consumes no order id, but the id of the rolled-back mapping stays used. A failed commit leaves both ids used. A failed `beginTransaction` opens no transaction, so the `rollBack` in the catch block has nothing to undo; the model assumes that `rollBack` does not throw.
- Placement.Transaction: states only that the transaction never answers 422. Its cases are the subject of the Transaction lemmas and of `OrderStore.Store.Transact`.
- Areas.DetermineAreaOfNormalized: the area of a normalised table number equals the area of the trimmed raw number, not of the raw number itself. `Areas.LeadingBlankIsNotIgnored` shows why: the resolver does not trim. The code only calls it on normalised numbers.
- The menu controller, the Eloquent models, the migrations and `check_table_structure.php` are not part of this model.

## Findings

| source | as written | input that shows it | evidently intended | confidence | as-written member | corrected member |
|---|---|---|---|---|---|---|
| app/Http/Controllers/Api/V1/CustomerOrderController.php:191 | `!empty($tableNumber)` is false for the string "0", because PHP's `empty` treats "0" as empty | table_number "0": it passes `required`, yet the reply is 200 with valid = false (TableCheck.ZeroTableIsRejected) | a non-emptiness test (`$tableNumber !== ''`), so "0" is a valid one-byte table number | not executed | TableCheck.ValidateTableNumberAsWritten | TableCheck.ValidateTableNumber |
