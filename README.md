# Ipoteka bot, modelled in Dafny

Ipoteka is a Telegram bot with two jobs. It keeps a shared loan ledger: one
credit record, an append-only payment history, and token-gated read access
for chats and write access for users. It also runs a small personal finance
tracker: expense categories, monthly budgets, and a per-category summary of
a month's expenses. All state lives in Redis. A monthly service sends every
authorised chat the balance and the payment list.

This project models the bot's core and proves properties of the model. The
modules follow the program's structure:

- `Text` holds the .NET string operations the handlers use: `Split`, `Trim`,
  `ToLower`, `StartsWith`, `Contains`, `Replace`, the decimal rendering of a
  `long` and `long.TryParse`.
- `Keys` holds the key schema of `UtilityKeys`. The `Key` datatype names the
  key families, and `Keys.NameInjective` shows that distinct keys render as
  distinct Redis strings.
- `Models` holds the stored records, and `DateTime` as year, month, day and
  tick of the day.
- `Store` is the Redis database: a `Redis` class whose `data` field maps keys
  to string, set or list values. Its commands are `SADD`, `SREM`, `SET`,
  `DEL`, `RPUSH` and `SMEMBERS`. It also holds `WellTyped`, the schema
  invariant under which no command meets a key of the wrong kind.
- `Outbox` is the Telegram client. Every `SendMessage` and
  `AnswerCallbackQuery` is appended to the `Bot` log with whether it was
  delivered. Whether a call throws is a fixed property of its target. A reply
  is a datatype value that carries what the message reports.
- `Ipoteka` is `IpotekaHandler`: authorisation, `/set`, `/pay`, `/status`,
  `/history` and the broadcast that drops chats a send fails for. The ledger
  itself is also modelled as values (`Replay`), with the running-balance
  invariant proved over any sequence of payments.
- `Finance` is `FinanceHandler`: the finance token, categories, budgets, the
  expense check, and the analytics group-by with its sums.
- `Reminder` is `MonthlyReminderService`: .NET's `AddMonths`, the first
  timer delay, and the monthly broadcast.
- `Router` is `HandleUpdateAsync` in `Program.cs`. A message is routed on its
  lower-cased first word, then on whether it parses as an amount. A callback
  is classified on its data, first match wins. The router performs the two
  direct store updates of the callback branch.

Decimal values are `real`, and Telegram ids are `Long`, the 64-bit subset of
`int`. `decimal.TryParse` is a function-valued parameter of each handler.
The clock readings are method parameters.

## Model

| member | source | states |
|---|---|---|
| Keys.ConstantKeysDistinct | Models/UtilityKeys.cs:5-9 | the five fixed keys are pairwise distinct |
| Keys.FinCategoriesKeyInjective | Models/UtilityKeys.cs:10 | `fin:categories:{u}` determines the user id |
| Keys.IdAndRestInjective | Models/UtilityKeys.cs:11-13 | `prefix + id + ":" + rest` determines both id and rest, because a rendered id has no colon |
| Keys.FinCategoryDataKeyInjective | Models/UtilityKeys.cs:11 | `fin:category:{u}:{c}` determines user and category |
| Keys.FinBudgetKeyInjective | Models/UtilityKeys.cs:12 | `fin:budget:{u}:{m}` determines user and month |
| Keys.FinExpensesKeyInjective | Models/UtilityKeys.cs:13 | `fin:expenses:{u}:{m}` determines user and month |
| Keys.ExpenseTempCategoryKeyInjective | Program.cs:174 | `expense_temp_category:{u}` determines the user id |
| Keys.FinancePrefix | Models/UtilityKeys.cs:5-13 | every finance key starts with `fin:` and no loan-ledger key does |
| Keys.CategoryFamiliesApart | Models/UtilityKeys.cs:10-11 | a `fin:categories:` key never equals a `fin:category:` key |
| Keys.NameInjective | Models/UtilityKeys.cs:5-13 | `Name`, which renders a key through the key function of its family, gives two keys the same string only if they are the same key, so the families never collide |
| Keys.NameMark | Models/UtilityKeys.cs:5-13 | every rendered key is longer than four characters, and its first and fifth characters are the pair `Mark` assigns to its family |
| Text.WordSpec | Handlers/IpotekaHandler.cs:31-38 | word i of `Split(' ')` exists exactly when the text has at least i spaces, and it holds no space |
| Text.SplitJoin | Program.cs:170 | joining pieces that hold no separator and splitting again gives the pieces back |
| Text.JoinSplit | Program.cs:170 | splitting and joining with the same separator gives the text back |
| Text.SplitLength | Program.cs:171 | a split has one piece more than the text has separators |
| Text.SplitHead | Program.cs:66 | the first piece of a split is the text before the first separator |
| Text.SplitAfter | Program.cs:170-173 | splitting at the first separator gives the text before it, then the pieces of the rest |
| Text.SplitTwoAgrees | Handlers/FinanceHandler.cs:50 | `Split(' ', 2)` is the first piece and the rest of the pieces joined back |
| Text.TrimShape | Handlers/IpotekaHandler.cs:38 | `Trim` is an infix of its input, has no white space at its ends, and removed only white space |
| Text.TrimIdempotent | Handlers/FinanceHandler.cs:57 | trimming twice is trimming once |
| Text.ToLowerFixed | Program.cs:66 | text without an upper-case letter is its own lower-case form |
| Text.ToLower | Program.cs:66 | the result has the input's length, no upper-case letter, and each character lower-cased |
| Text.Contains | Program.cs:190 | the ordinal test is true exactly when the needle occurs at some index |
| Text.RemoveChar | Program.cs:134 | the result has no space left and no character the input lacks |
| Text.RemoveCharAppend | Program.cs:134 | removal on a concatenation is the concatenation of the removals |
| Text.RemoveCharSingle | Program.cs:134 | on one character, removal drops exactly the removed character and keeps any other |
| Text.RemoveCharAbsent | Program.cs:134 | a text without the removed character is left as it is |
| Text.ReplaceChar | Program.cs:134 | every comma becomes a point and nothing else changes |
| Text.ReplaceCharAppend | Program.cs:134 | replacement on a concatenation is the concatenation of the replacements |
| Text.ReplaceCharAbsent | Program.cs:134 | a text without the replaced character is left as it is |
| Text.DecInjective | Handlers/IpotekaHandler.cs:41 | distinct ids render as distinct set members |
| Text.ParseDec | Handlers/IpotekaHandler.cs:205 | `long.TryParse` reads a rendered id back as that id |
| Text.ParseDecExactly | Handlers/IpotekaHandler.cs:205 | a rendered id parses as another id only if the two are equal |
| Store.Redis.SetAdd | Handlers/IpotekaHandler.cs:41 | `SADD` adds the member to the set under the key, creating the set when the key is absent, and changes no other key |
| Store.Redis.SetRemove | Handlers/IpotekaHandler.cs:215 | `SREM` removes the member from the set under the key and changes no other key |
| Store.Redis.StringSet | Handlers/IpotekaHandler.cs:94 | `SET` stores the string under the key, replacing what was there, and changes no other key |
| Store.Redis.KeyDelete | Handlers/IpotekaHandler.cs:97 | `DEL` removes the key and changes no other key |
| Store.Redis.ListRightPush | Handlers/IpotekaHandler.cs:144 | `RPUSH` appends the record at the end of the list under the key, an absent key counting as the empty list |
| Store.WithMember | Handlers/IpotekaHandler.cs:41 | `SADD` adds the member to the set and touches no other key |
| Store.WithoutMembers | Handlers/IpotekaHandler.cs:215 | `SREM` removes the members, deletes a set left empty, and touches no other key |
| Store.WithMemberIdempotent | Handlers/IpotekaHandler.cs:41 | adding the same member twice is adding it once, so both authorisations are idempotent |
| Store.Redis.SetMembers | Handlers/IpotekaHandler.cs:202 | `SMEMBERS` lists every member of the set once |
| Outbox.BroadcastReaches | Handlers/IpotekaHandler.cs:203-209 | a broadcast messages exactly the members that parse as a chat id |
| Ipoteka.RecordsBalancedAt | Handlers/IpotekaHandler.cs:137-143 | in a balanced history, record i carries the initial amount less the first i+1 payments |
| Ipoteka.FreshCreditBalanced | Handlers/IpotekaHandler.cs:87-97 | `/set a` starts a ledger with initial and current amount a, an empty history, and the invariant |
| Ipoteka.PaymentKeepsBalance | Handlers/IpotekaHandler.cs:129-144 | one payment keeps the running-balance invariant |
| Ipoteka.ReplayBalanced | Handlers/IpotekaHandler.cs:129-144 | after `/set` and any payments the ledger is balanced and records the payment amounts in order |
| Ipoteka.ReplayStatement | Handlers/IpotekaHandler.cs:87-144 | after `/set a` and payments p1..pn the balance is a - Σp, and record i holds p_i and the balance a - (p1+...+pi) |
| Ipoteka.PrunedRemovesFailed | Handlers/IpotekaHandler.cs:203-216 | the broadcast removes exactly the members that parse and whose send throws, and touches no key but `auth:chats` |
| Ipoteka.PayOutcome | Handlers/IpotekaHandler.cs:129-151 | a payment lowers the balance by the payment, with no floor, appends one record with the new balance, and keeps the invariant; the broadcast changes neither |
| Ipoteka.SetThenStatus | Handlers/IpotekaHandler.cs:70-101 | `/status` after `/set a`, in a chat the broadcast reached, reports a |
| Ipoteka.SetThenHistory | Handlers/IpotekaHandler.cs:97 | `/history` after `/set` reports an empty history |
| Ipoteka.RenderHistory | Handlers/IpotekaHandler.cs:190-195 | the loop lists every payment, oldest first, with date, amount and new balance |
| Ipoteka.IpotekaHandler.HandleAuthorize | Handlers/IpotekaHandler.cs:29-48 | a read or write token adds the chat to `auth:chats`; a missing or wrong token changes nothing; one reply names the outcome |
| Ipoteka.IpotekaHandler.HandleUserAuthorize | Handlers/IpotekaHandler.cs:50-68 | only a write token adds the user to `auth:users`; without a token nothing is stored or sent |
| Ipoteka.IpotekaHandler.HandleSet | Handlers/IpotekaHandler.cs:70-101 | without rights or without an amount nothing changes; otherwise a fresh credit, an empty history, and a broadcast to every authorised chat |
| Ipoteka.IpotekaHandler.HandlePay | Handlers/IpotekaHandler.cs:103-152 | without rights, an amount or a credit nothing changes; otherwise the payment writes, the payer's reply, and, unless that reply throws, the broadcast to every authorised chat once each (`PayAccepted`); the invariant is kept |
| Ipoteka.IpotekaHandler.ShowStatus | Handlers/IpotekaHandler.cs:154-172 | one reply: not authorised, no credit, or the balance; the store is untouched |
| Ipoteka.IpotekaHandler.ShowHistory | Handlers/IpotekaHandler.cs:174-198 | one reply: not authorised, empty, or every record; the store is untouched |
| Ipoteka.IpotekaHandler.NotifyAllChats | Handlers/IpotekaHandler.cs:200-219 | every listed member that parses is sent the message in listing order, and exactly the failed ones are removed |
| Ipoteka.IpotekaHandler.AcceptPayment | Handlers/IpotekaHandler.cs:129-151 | a valid payment writes the reduced credit and appends the record; the payer is told the new balance, and only if that reply gets through is every authorised chat notified, each exactly once, the failed ones being removed (`PayAccepted`) |
| Ipoteka.IpotekaHandler.NotifyMember | Handlers/IpotekaHandler.cs:205-216 | a member that parses as an id is sent the message and removed from `auth:chats` exactly when the send fails; a member that does not parse is skipped and kept |
| Ipoteka.FailedOfMembers | Handlers/IpotekaHandler.cs:205-216 | over a whole listing, the members the loop removes are the listed ones that parse and fail |
| Finance.Groups | Handlers/FinanceHandler.cs:122-126 | one group per category, in order of first appearance, holding that category's total |
| Finance.CategoriesMembers | Handlers/FinanceHandler.cs:124 | a category is grouped exactly when some expense has it |
| Finance.CategoriesDistinct | Handlers/FinanceHandler.cs:124 | no category is grouped twice |
| Finance.CategoriesOrdered | Handlers/FinanceHandler.cs:124 | groups come in order of each category's first expense |
| Finance.AbsentTotalsZero | Handlers/FinanceHandler.cs:125 | a category no expense has totals zero |
| Finance.GroupByAgrees | Handlers/FinanceHandler.cs:122-126 | `GroupBy`, the one-pass grouping, computes exactly `Groups` |
| Finance.GroupsSumToTotal | Handlers/FinanceHandler.cs:128 | the group sums add up to the total of all expenses |
| Finance.GroupByTotal | Handlers/FinanceHandler.cs:128 | the one-pass grouping's sums add up to the total of all expenses |
| Finance.PaddedValue | Handlers/FinanceHandler.cs:113 | zero-padding a number to a width keeps its value and has that width |
| Finance.MonthStampReadsBack | Handlers/FinanceHandler.cs:113 | `yyyy-MM` has seven characters, a dash at index 4, and reads back as the year and month |
| Finance.CategoryNameIsRest | Handlers/FinanceHandler.cs:50-57 | the category name is everything after the first space, trimmed, so names may hold spaces |
| Finance.FinanceHandler.HandleFinAuth | Handlers/FinanceHandler.cs:22-40 | a finance token adds the user to `fin:auth_users`; a missing or wrong token changes nothing |
| Finance.FinanceHandler.HandleFinAddCategory | Handlers/FinanceHandler.cs:42-60 | without access or a name nothing changes; otherwise the trimmed rest is added to the user's set, with no duplicate check |
| Finance.FinanceHandler.HandleFinListCategories | Handlers/FinanceHandler.cs:62-73 | the reply lists every category once, or says there are none; there is no access check |
| Finance.FinanceHandler.HandleFinSetBudget | Handlers/FinanceHandler.cs:75-90 | with fewer than three words or no limit nothing changes; otherwise `{limit, 0}` is written under the trimmed month; there is no access check |
| Finance.FinanceHandler.HandleFinAddExpense | Handlers/FinanceHandler.cs:92-109 | one reply from the access and category checks; the store is untouched |
| Finance.FinanceHandler.HandleFinAnalytics | Handlers/FinanceHandler.cs:111-131 | the month is the second word or the current UTC month; no expenses means no report, otherwise the category groups |
| Reminder.AddMonths | Services/MonthlyReminderService.cs:27 | .NET `AddMonths` yields a valid date whenever it yields one |
| Reminder.NextMonthShape | Services/MonthlyReminderService.cs:27 | `NextMonthStart`: the next date is day 1 of the following month, December rolls over to January, and only December 9999 has none |
| Reminder.YearLength | Services/MonthlyReminderService.cs:28 | in `Ticks`, a year has 366 days exactly when it is a leap year |
| Reminder.DecemberEndsYear | Services/MonthlyReminderService.cs:28 | in `Ticks`, the days before December plus December's 31 make up the year |
| Reminder.DelayPositive | Services/MonthlyReminderService.cs:26-28 | the first delay, the `Ticks` from now to `NextMonthStart`, is positive and at most 31 days |
| Reminder.ReminderAfterPayments | Services/MonthlyReminderService.cs:44-55 | after `/set a` and payments, the reminder reports a - Σp and lists the payments in order, or says there are none |
| Reminder.ReminderReachesAll | Services/MonthlyReminderService.cs:58-72 | every authorised chat that parses is sent the reminder, and no other chat |
| Reminder.MonthlyReminderService.Start | Services/MonthlyReminderService.cs:23-31 | the timer is armed for the next first of the month with a positive delay and a 30-day period, unless `AddMonths` throws |
| Reminder.MonthlyReminderService.SendMonthlyReminders | Services/MonthlyReminderService.cs:33-78 | without a credit nothing is sent; otherwise every listed chat that parses is sent the reminder, failures are skipped, and the store is untouched |
| Router.Lookup | Program.cs:70-131 | the route found is that of an entry with the name, and no route is found only when no entry has it |
| Router.LookupFinds | Program.cs:70-131 | in a table of distinct entries, each entry is the one its own name finds |
| Router.CommandsDistinct | Program.cs:70-131 | the switch's command words are distinct, and so are their handlers |
| Router.CommandReachable | Program.cs:66-131 | a command word in any letter case, alone or before arguments, reaches its handler |
| Router.CommandRouting | Program.cs:66-131 | `Dispatch` picks a command's handler exactly when the lower-cased first word is that command |
| Router.PlannedAmountUnreachable | Program.cs:134-141 | `Dispatch` never takes the planned-amount branch, since its parse is the one that already failed |
| Router.PlannedAmountInputShadowed | Program.cs:238-246 | every non-command text that `IsCategoryPlannedAmountInput` accepts is already routed to the expense-amount branch |
| Router.UnknownExactly | Program.cs:132-147 | `Dispatch` finds a message unknown exactly when its first word is no command and it does not parse as an amount |
| Router.Normalize | Program.cs:134 | the text an amount is parsed from has no space and no comma |
| Router.NormalizeFixed | Program.cs:134 | a text with no space and no comma is passed to the parse unchanged |
| Router.NormalizeIdempotent | Program.cs:134 | normalizing twice is normalizing once |
| Router.NormalizeDropsSpace | Program.cs:134 | a space is dropped wherever it stands, so `1 500` is read as `1500` |
| Router.NormalizeCommaIsPoint | Program.cs:134 | a comma becomes the decimal point wherever it stands, so `12,5` is read as `12.5` |
| Router.CallbackPrefixesExclusive | Program.cs:164-188 | in `ClassifyCallback`, the four callback prefixes exclude one another, so the order of their tests does not matter |
| Router.HistoryShadowsAnalytics | Program.cs:190-195 | `ClassifyCallback` sends any `analytics_month:` data that mentions `expense_history` to the history branch, never to the month branch |
| Router.AmountButtonRemembersCategory | Program.cs:168-179 | in `CallbackStore`, the data `expense_amount:{category}:{amount}` stores exactly that category under the user's temporary key |
| Router.AmountButtonCutsCategory | Program.cs:170-175 | a category name that holds a colon, which `/fin_add_category` accepts, is stored only up to its first colon, because the category is read as the second `Split(':')` piece |
| Router.CallbackTouchesOnlyTempKey | Program.cs:164-204 | in `CallbackStore`, a callback changes no key but the user's temporary category and keeps the schema |
| Router.CancelUndoesPick | Program.cs:168-185 | in `CallbackStore`, cancelling after choosing an amount leaves no temporary category |
| Router.UpdateHandler.HandleMessage | Program.cs:59-147 | the route is the dispatch of the text; `/start`, `/gav` and unknown text send their reply and change nothing; read-only routes change nothing; for the routes handed on to finance members outside the model, the router itself writes nothing and sends nothing |
| Router.UpdateHandler.HandleCallback | Program.cs:156-204 | the store, the answers and the replies are those of the first matching branch; amount and cancel write or delete only the temporary category |

## Left out

- Message texts, emoji and number formatting: a reply is a datatype value that carries the numbers and names the message shows.
- Router.UpdateHandler.HandleMessage: the catch-all at Program.cs:150-154 is not modelled. In the model a send that throws is logged as undelivered, and the handler then stops, as the source does. The error reply the catch then sends is not modelled.
- Router.UpdateHandler.HandleMessage: the store effect of each command route is the contract of that handler method, and is not restated for the router.
- The finance members that Program.cs calls but FinanceHandler.cs does not define are `HandleExpenseAmount`, `HandleCategoryPlannedAmount`, `HandleExpenseHistory`, `HandleExpenseCallback`, `HandleExpenseHistoryCallback` and `ShowExpenseAnalytics`. They are not part of this model. The router returns a `Delegation` value naming the call and its arguments. `Router.Delegated` names the routes that are handed on, and the router's contract claims nothing about what those members do.
- `server.Keys` with the `temp_category:{user}:*` pattern is left out. It is a key scan over a key family none of the modelled code writes, so it is given as the boolean `tempKeysExist`.
- `decimal.TryParse` with `NumberStyles.Currency` or the default style under the invariant culture is a function parameter. The .NET number grammar and decimal overflow are not modelled.
- JSON serialisation: records are stored as datatype values. A stored value that does not deserialise is excluded by `WellTyped`, and so is Redis's WRONGTYPE error.
- Clocks: the Moscow time-zone conversion (Handlers/IpotekaHandler.cs:24-27), `DateTime.UtcNow` and culture calendars are left out. The readings are parameters, and `yyyy-MM` is rendered for the Gregorian calendar.
- Finance.FinanceHandler.HandleFinAnalytics: the percentage `Sum / total` (Handlers/FinanceHandler.cs:129) is rendering and is not modelled. That includes the division by zero when the month's amounts sum to zero.
- Reminder.MonthlyReminderService.Start: the timer's firing, every 30 days after the first, is not modelled. `Start` records the delay and the period it arms.
- Concurrency and `async`: each handler is one sequential step. This also leaves out the read-modify-write race of `/pay`.
- `ToLower` is modelled on ASCII letters only, and culture-specific case mapping is left out. The command words are ASCII.
- Router.UpdateHandler.HandleCallback: `AnswerCallbackQuery` is passed the callback data as the query id (Program.cs:177, 186, 201). The model keeps this, and whether that call throws is abstract, like every other call.
- Polling, `HandlePollingErrorAsync`, host start-up, environment variables and console logging are left out.
- `CategoryRecord` (Models/CategoryModels.cs) is used by none of the modelled code.
- Models/Expense.cs:2 and Models/ExpenseModels.cs:3 both declare `public record ExpenseRecord` in the namespace `Ipoteka.Models`, so the two declarations collide. The model follows Models/ExpenseModels.cs. The handlers read only `Category` and `Amount`, which both declarations carry.
- Keys are values of the `Key` datatype, not strings. `Keys.NameInjective` shows that this loses no distinction the string keys make.
- Text.StartsWith: the test is ordinal. The source's `String.StartsWith(string)` (Program.cs:164, 168, 181, 195) compares under the current culture, which differs from ordinal matching on ignorable characters. The button data the bot builds is ASCII, where the two agree.
- Text.ParseLong: the sign is read as ASCII `-` or `+`, and a trailing NUL character is rejected. `long.TryParse` takes the sign from the current culture's `NumberFormatInfo` and accepts trailing NUL characters. The ids the bot stores are rendered decimal numbers, where the two agree.
