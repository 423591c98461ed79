# Simple_Accounting day ledger, in Dafny

Simple_Accounting is an Android bookkeeping app. On its home screen a
signed-in user views one day at a time. They type an amount (digits only)
and a description, pick "Income" or "Expense", and add the entry. The
entries are listed, and below the list the day's profit is shown: the sum
of the "Income" amounts minus the sum of the "Expense" amounts. The two sums
are computed but not displayed. Previous Day and Next Day buttons move the view by one calendar
day. Each day's entries are stored in the document
`users/<uid>/records/<yyyy-MM-dd>` under a `records` list.

This project models that day ledger in `HomeActivity.kt` and proves what
it does. The ledger is the state and handlers of the `HomeScreen`
composable, plus the two private methods of `HomeActivity` it calls:
`loadRecords` and `saveRecord`.

- `records.dfy`: the `Record` value type. It also holds the loosely typed
  stored document, the conversion `loadRecords` applies to it, and the map
  `saveRecord` writes for each record.
- `totals.dfy`: the profit line and the income and expense sums behind it. This covers filtering by exact type
  string, `sumBy { it.amount.toInt() }` in Kotlin `Int` arithmetic (which
  wraps around), the `NumberFormatException` that `toInt()` throws, and
  profit as income minus expense.
- `store.dfy`: the per-(user, date) buckets. It holds `saveRecord`'s
  create-or-`arrayUnion` update as the class `RecordStore`, and the reading
  back.
- `calendar.dfy`: the Gregorian calendar that `changeDate` relies on. It
  covers the `yyyy-MM-dd` key and stepping by whole days as
  `Calendar.add(DAY_OF_YEAR, n)` does, with month and year rollover and the
  leap-year rule.
- `decimal.dfy`: digit strings, Kotlin's `String.toInt()` and 32-bit `Int`
  wrap-around.
- `home_screen.dfy`: the screen state as the class `Screen`. Its handlers
  are the amount filter, the description field, the type buttons,
  `addRecord`, `changeDate` and the first load of the day's records.

Every database call completes within the handler that issues it. The
outcome of a read (success or failure) is a parameter. The current date at
start-up is a parameter of the constructor.

Where amounts are not integers, the code decides the outcome. The totals
line calls `toInt()`, which throws on an empty or non-numeric amount, so
the model's totals are then `Throws`. Such an amount is not counted as 0.

## Model

| member | source | states |
|---|---|---|
| Records.RecordOf | app/src/main/java/com/ntou/simpleaccounting/HomeActivity.kt:218-222 | each field of the decoded record is the string stored under `type`/`amount`/`description`, or `""` when the key is missing or not a string |
| Records.FieldString | app/src/main/java/com/ntou/simpleaccounting/HomeActivity.kt:219-221 | the string stored under the key, or `""` when the key is missing or not a string |
| Records.DecodeEntry | app/src/main/java/com/ntou/simpleaccounting/HomeActivity.kt:218-225 | the `mapNotNull` lambda gives a record exactly for map entries, and that record is the one built from the map |
| Records.DecodeEntries | app/src/main/java/com/ntou/simpleaccounting/HomeActivity.kt:217-226 | `mapNotNull` keeps one record per map-typed entry: the result has exactly as many records as there are map entries, never more than the list |
| Records.LoadRecords | app/src/main/java/com/ntou/simpleaccounting/HomeActivity.kt:213-231 | a failed read, a missing document, or a `records` field that is absent or not a list gives the empty list; otherwise exactly `mapNotNull` of that list (`DecodeEntries`), one record per map entry in list order |
| Records.DecodeSingle | app/src/main/java/com/ntou/simpleaccounting/HomeActivity.kt:218-225 | a single entry yields its record if it is a map and nothing otherwise |
| Records.DecodeAppend | app/src/main/java/com/ntou/simpleaccounting/HomeActivity.kt:217-226 | decoding distributes over concatenation, so order is kept and each entry is decoded on its own |
| Records.NoMapsNoRecords | app/src/main/java/com/ntou/simpleaccounting/HomeActivity.kt:223-225 | a list without map entries decodes to nothing |
| Records.AllMapsDecodePointwise | app/src/main/java/com/ntou/simpleaccounting/HomeActivity.kt:217-222 | a list of maps only loses nothing: the k-th record comes from the k-th entry |
| Records.Encode | app/src/main/java/com/ntou/simpleaccounting/HomeActivity.kt:236-240 | the stored map has exactly the keys `type`, `amount`, `description` |
| Records.EncodeAll | app/src/main/java/com/ntou/simpleaccounting/HomeActivity.kt:246 | one stored map per record |
| Records.BucketDocument | app/src/main/java/com/ntou/simpleaccounting/HomeActivity.kt:246 | the stored document has the single field `records`, a list whose k-th element is the map of the k-th record |
| Records.DecodeEncode | app/src/main/java/com/ntou/simpleaccounting/HomeActivity.kt:217-240 | decoding the map `saveRecord` writes gives back the record |
| Records.EncodeInjective | app/src/main/java/com/ntou/simpleaccounting/HomeActivity.kt:236-240 | two records are stored as equal maps exactly when they are equal |
| Records.DecodeEncodeAll | app/src/main/java/com/ntou/simpleaccounting/HomeActivity.kt:217-226 | a stored list of encoded records decodes to the same list |
| Records.LoadBucketDocument | app/src/main/java/com/ntou/simpleaccounting/HomeActivity.kt:213-226 | loading a stored `{"records": [...]}` document yields exactly the stored records |
| Records.EncodedMembership | app/src/main/java/com/ntou/simpleaccounting/HomeActivity.kt:244 | `arrayUnion`'s presence test on stored maps is the presence test on records |
| Decimal.ToIntOrNull | app/src/main/java/com/ntou/simpleaccounting/HomeActivity.kt:195-196 | `toInt()` succeeds only on a string of digits with an optional leading sign, giving its value (negated after '-') in `Int` range |
| Decimal.AllDigits | app/src/main/java/com/ntou/simpleaccounting/HomeActivity.kt:142 | `all { isDigit() }`: true exactly when every character is an ASCII digit '0'..'9' (so also of the empty string) |
| Decimal.NonNumericThrows | app/src/main/java/com/ntou/simpleaccounting/HomeActivity.kt:195-196 | `toInt()` throws on every string with a character other than an ASCII digit, except a leading sign followed by more characters |
| Decimal.SignedDigitStringParses | app/src/main/java/com/ntou/simpleaccounting/HomeActivity.kt:195-196 | a sign followed by digits parses to the signed value exactly when it fits in `Int` |
| Decimal.DigitStringParses | app/src/main/java/com/ntou/simpleaccounting/HomeActivity.kt:195 | a non-empty digit string parses to its value exactly when that value fits in `Int`, and throws otherwise |
| Decimal.ShortDigitStringParses | app/src/main/java/com/ntou/simpleaccounting/HomeActivity.kt:195 | every amount of one to nine digits parses to its value |
| Decimal.ToIntOrNullDigitsOf | app/src/main/java/com/ntou/simpleaccounting/HomeActivity.kt:195 | `toInt()` reads back the decimal rendering of every non-negative `Int` |
| Decimal.Wrap32 | app/src/main/java/com/ntou/simpleaccounting/HomeActivity.kt:195-197 | the wrapped value is an `Int`, and an `Int` wraps to itself |
| Decimal.Add32 | app/src/main/java/com/ntou/simpleaccounting/HomeActivity.kt:195 | `Int` addition gives an `Int`, the exact sum when that fits |
| Decimal.Sub32 | app/src/main/java/com/ntou/simpleaccounting/HomeActivity.kt:197 | `Int` subtraction gives an `Int`, the exact difference when that fits |
| Decimal.Add32Sub32Wrap | app/src/main/java/com/ntou/simpleaccounting/HomeActivity.kt:195-197 | `Int` addition and subtraction are the exact results wrapped modulo 2^32 into `Int` |
| Totals.OfKind | app/src/main/java/com/ntou/simpleaccounting/HomeActivity.kt:195-196 | the filtered list is no longer than the records |
| Totals.OfKindMembers | app/src/main/java/com/ntou/simpleaccounting/HomeActivity.kt:195-196 | the filtered list holds exactly the records whose type equals the given string |
| Totals.OfKindAppend | app/src/main/java/com/ntou/simpleaccounting/HomeActivity.kt:195-196 | filtering distributes over concatenation, so the order is kept |
| Totals.OfKindAllParse | app/src/main/java/com/ntou/simpleaccounting/HomeActivity.kt:195-196 | every filtered amount parses iff every record of that type has a parsing amount |
| Totals.SumBy | app/src/main/java/com/ntou/simpleaccounting/HomeActivity.kt:195 | a completed `sumBy` is an `Int` |
| Totals.SumByMeaning | app/src/main/java/com/ntou/simpleaccounting/HomeActivity.kt:195 | `sumBy` completes iff every amount parses, and then it is the exact sum wrapped into `Int` |
| Totals.DailyTotals | app/src/main/java/com/ntou/simpleaccounting/HomeActivity.kt:195-197 | the totals are computed (rather than thrown) exactly when both `sumBy` calls complete; then income and expense are those sums and profit is their `Int` difference |
| Totals.TotalsDefinedIff | app/src/main/java/com/ntou/simpleaccounting/HomeActivity.kt:195-197 | the totals are computed, and the profit displayed, iff every "Income" or "Expense" record has an amount `toInt()` accepts |
| Totals.UnparseableAmountThrows | app/src/main/java/com/ntou/simpleaccounting/HomeActivity.kt:195-196 | one counted record with an unparseable amount, such as the `""` of a decoded entry without amount, makes the totals throw wherever it sits |
| Totals.OtherKindsIgnored | app/src/main/java/com/ntou/simpleaccounting/HomeActivity.kt:195-196 | a record of any other type, inserted anywhere, leaves the totals unchanged |
| Totals.AppendIncomeTotals | app/src/main/java/com/ntou/simpleaccounting/HomeActivity.kt:195-197 | appending an "Income" record adds its amount to income in `Int` arithmetic, keeps expense and gives profit = income - expense |
| Totals.AppendExpenseTotals | app/src/main/java/com/ntou/simpleaccounting/HomeActivity.kt:195-197 | appending an "Expense" record adds its amount to expense, keeps income and gives profit = income - expense |
| Totals.TotalsExact | app/src/main/java/com/ntou/simpleaccounting/HomeActivity.kt:195-197 | without overflow, income and expense are the exact sums of the non-negative amounts and profit is their exact difference |
| Totals.SumByExact | app/src/main/java/com/ntou/simpleaccounting/HomeActivity.kt:195-196 | without overflow, `sumBy` over one type is the exact sum of its non-negative amounts |
| Totals.EmptyDayTotals | app/src/main/java/com/ntou/simpleaccounting/HomeActivity.kt:195-200 | a day without records computes income, expense and profit as 0, 0, 0, and so displays a profit of 0 |
| Totals.TenDigitAmountThrows | app/src/main/java/com/ntou/simpleaccounting/HomeActivity.kt:195 | the digits-only filter lets through "3000000000", and a day holding it as income throws |
| Calendar.DaysInMonth | app/src/main/java/com/ntou/simpleaccounting/HomeActivity.kt:98 | months have 28 to 31 days; February has 29 exactly in leap years |
| Calendar.NextDay | app/src/main/java/com/ntou/simpleaccounting/HomeActivity.kt:98 | the next day exists and is one day later |
| Calendar.PrevDay | app/src/main/java/com/ntou/simpleaccounting/HomeActivity.kt:98 | the previous day exists and is one day earlier |
| Calendar.AddDays | app/src/main/java/com/ntou/simpleaccounting/HomeActivity.kt:98 | `add(DAY_OF_YEAR, n)` gives an existing date exactly n days away |
| Calendar.OrdinalMonotone | app/src/main/java/com/ntou/simpleaccounting/HomeActivity.kt:98 | calendar order and day count agree |
| Calendar.OrdinalInjective | app/src/main/java/com/ntou/simpleaccounting/HomeActivity.kt:98 | different dates lie a non-zero number of days apart |
| Calendar.PrevNextDay | app/src/main/java/com/ntou/simpleaccounting/HomeActivity.kt:130-134 | Next Day then Previous Day, or the reverse, returns to the same date |
| Calendar.AddDaysUnique | app/src/main/java/com/ntou/simpleaccounting/HomeActivity.kt:98 | the stepped date is the one and only date n days away |
| Calendar.AddDaysRoundTrip | app/src/main/java/com/ntou/simpleaccounting/HomeActivity.kt:95-100 | stepping n days and then -n days returns to the start |
| Calendar.Rollover | app/src/main/java/com/ntou/simpleaccounting/HomeActivity.kt:98 | 28 February is followed by 29 February exactly in leap years, a month's last day by the 1st of the next month, 31 December by 1 January of the next year |
| Calendar.Parse | app/src/main/java/com/ntou/simpleaccounting/HomeActivity.kt:97 | an accepted key names an existing date |
| Calendar.Format | app/src/main/java/com/ntou/simpleaccounting/HomeActivity.kt:100 | the key has the `yyyy-MM-dd` shape: '-' before the two-digit month and day, and exactly ten characters for every year up to 9999 |
| Calendar.ParseFormat | app/src/main/java/com/ntou/simpleaccounting/HomeActivity.kt:97-100 | a formatted `yyyy-MM-dd` key parses back to its date |
| Calendar.FormatInjective | app/src/main/java/com/ntou/simpleaccounting/HomeActivity.kt:65 | two dates share a key exactly when they are equal, so each day has its own bucket |
| Store.ArrayUnionValues | app/src/main/java/com/ntou/simpleaccounting/HomeActivity.kt:244 | `arrayUnion` leaves the stored list unchanged when an equal value is present and appends the value otherwise |
| Store.ArrayUnion | app/src/main/java/com/ntou/simpleaccounting/HomeActivity.kt:244 | the union holds exactly the old records and the new one; it is the old list when an equal record is present, and the old list with `r` appended otherwise |
| Store.SavedBucket | app/src/main/java/com/ntou/simpleaccounting/HomeActivity.kt:242-247 | after saving, the day's bucket contains the record: it is `[r]` when no document exists, and the `arrayUnion` of the stored list with `r` otherwise |
| Store.SnapshotOf | app/src/main/java/com/ntou/simpleaccounting/HomeActivity.kt:214 | reading a bucket never fails in the store itself |
| Store.RecordStore.Fetch | app/src/main/java/com/ntou/simpleaccounting/HomeActivity.kt:214 | the store's read never fails, and loading what it yields gives the day's bucket, or nothing when no document exists |
| Store.RecordStore.Save | app/src/main/java/com/ntou/simpleaccounting/HomeActivity.kt:234-250 | with no user nothing changes; otherwise only the (uid, date) bucket changes, becoming `[r]` when absent and the `arrayUnion` with `r` when present |
| Store.LoadSnapshot | app/src/main/java/com/ntou/simpleaccounting/HomeActivity.kt:213-226 | loading a day reads back exactly its bucket, or nothing when no document exists |
| Store.ArrayUnionEncoded | app/src/main/java/com/ntou/simpleaccounting/HomeActivity.kt:236-244 | the union on records is the union on the stored maps |
| Store.SaveIdempotent | app/src/main/java/com/ntou/simpleaccounting/HomeActivity.kt:242-247 | saving the same record twice leaves the bucket as saving it once |
| Store.SaveKeepsNoDuplicates | app/src/main/java/com/ntou/simpleaccounting/HomeActivity.kt:242-247 | a bucket written only by `saveRecord` never holds two equal records |
| Store.AddKeepsScreenInSync | app/src/main/java/com/ntou/simpleaccounting/HomeActivity.kt:88-89 | when the screen shows the stored day, it still does after adding `r` exactly when `r` was not already there |
| Store.SaveLeavesOtherDays | app/src/main/java/com/ntou/simpleaccounting/HomeActivity.kt:241 | saving leaves every other (uid, date) bucket as it was |
| HomeScreen.Screen.constructor | app/src/main/java/com/ntou/simpleaccounting/HomeActivity.kt:59-66 | empty inputs, "Income" selected, no records, the key of today |
| HomeScreen.Screen.OnAmountChange | app/src/main/java/com/ntou/simpleaccounting/HomeActivity.kt:141-145 | the amount takes the new text only when it is all digits, so it always holds digits only; nothing else changes |
| HomeScreen.Screen.OnDescriptionChange | app/src/main/java/com/ntou/simpleaccounting/HomeActivity.kt:156 | the description takes every edit; nothing else changes |
| HomeScreen.Screen.SelectType | app/src/main/java/com/ntou/simpleaccounting/HomeActivity.kt:166-171 | the buttons set the type to "Income" or "Expense"; nothing else changes |
| HomeScreen.Screen.AddRecord | app/src/main/java/com/ntou/simpleaccounting/HomeActivity.kt:85-93 | with an empty amount or description nothing changes; otherwise the record is appended, saved under the user and current date, and both inputs cleared, with type and date kept |
| HomeScreen.Screen.ChangeDate | app/src/main/java/com/ntou/simpleaccounting/HomeActivity.kt:95-106 | the key becomes that of the date `offset` days on; with a user the list becomes that day's stored records, or empty when the read fails; the inputs are kept |
| HomeScreen.Screen.LoadInitial | app/src/main/java/com/ntou/simpleaccounting/HomeActivity.kt:74-76 | the list becomes the current day's stored records, or empty when the read fails |
| HomeScreen.LoadDay | app/src/main/java/com/ntou/simpleaccounting/HomeActivity.kt:213-231 | the callback receives the day's stored bucket, nothing for a day without a document, and the empty list on failure |
| HomeScreen.AddedRecordTotals | app/src/main/java/com/ntou/simpleaccounting/HomeActivity.kt:195-197 | adding an entry of one to nine digits adds it to income or expense by the selected type, and profit follows |

## Left out

- The userID read at `HomeActivity.kt:68-83` and the "User ID" text are not modelled. Only the records load the read triggers is modelled (`LoadInitial`).
- Timing of the asynchronous calls is not modelled. A load that completes after a later `changeDate` can overwrite the list with an older day's records. A concurrent get-then-update in `saveRecord` can race. Each call is taken as completed in order.
- The `dateFormat.parse(currentDate) ?: Date()` fallback is not modelled: it reads the clock. In the model the key is always a formatted date, so the parse never fails.
- HomeScreen.Screen.ChangeDate: requires the target date to be on or after 1583-01-01, because the model's calendar starts at the first whole Gregorian year. Julian-calendar dates before the 1582 cutover are not modelled.
- Calendar.Parse: accepts only the exact `digits-MM-dd` shape. It does not model `SimpleDateFormat`'s lenient normalisation of out-of-range fields, which the app never feeds it.
- HomeScreen.Screen.OnAmountChange: accepts the ASCII digits '0'..'9' only. `Char.isDigit()` also accepts other Unicode decimal digits, which the model does not include.
- Decimal.ToIntOrNull: handles ASCII digits only, for the same reason.
- Decimal.AllDigits: tests for the ASCII digits '0'..'9' only, while `isDigit()` also accepts other Unicode decimal digits.
- Decimal.NonNumericThrows: counts every non-ASCII character as non-numeric, so it gives a throw for a string such as "٣" (Arabic-Indic three), which `toInt()` parses as 3.
- Locale-dependent digit rendering of the date key is not modelled: the key is always ASCII `yyyy-MM-dd`.
- `saveRecord` registers no failure listener (`HomeActivity.kt:242`). When its read of the day's document fails, nothing is written, while `addRecord` has already listed the record on screen. The model's `Save` always completes, so this screen/store divergence is not modelled. Failures of `set`/`update` are not modelled either.
- Stored documents whose `records` field is not a list are only modelled on the reading side. The store holds well-formed bucket documents only, so `arrayUnion` on a non-list field does not arise.
- Compose layout, the list rendering, the totals text, logout, `LogIn.kt` and `MainActivity.kt` are not part of this model.
