# MiniBank ledger core in Dafny

This project models the core of MiniBank, a small multi-currency bank written in Go:

- **The ledger.** Accounts, users, cards, the transactions log, the per-user daily limits and the administrators' audit trail live in one state object, `Repository.Store`. Each repository function is one atomic method on it: it applies all of its writes or none, as the source's begin / rollback / commit does.
- **Funds movement** (`Funds`). Deposit, Withdraw and Transfer check a request in a fixed order and resolve accounts by card number or phone number. Withdraw and Transfer price an overlimit fee, and each operation ends in one repository step.
- **The daily limit and the overlimit fee** (`Limits`). Amounts are converted to TJS with a fixed rate table. The limit resets when a new day starts, today's usage is summed from the log, and 2% is charged on the part above the ceiling.
- **Blocking and unblocking an account** (`AccountAdmin`). The flag is set together with an audit row.
- **Registration provisioning** (`Registration`). A new user gets one account each in TJS, USD and EUR, one card per account, and then a limit of 1000 TJS.
- **Three error translators:**
  - database error → repository error (`RepositoryErrors`);
  - repository error → service error (`ServiceErrors`);
  - service error → HTTP status and message (`Controller`).
- **The authentication middleware's decision chain** (`Controller.AuthMiddleware`). It is a simplified form of the Bearer scheme of section 2.1 of RFC 6750.
- **Card numbers and CVVs** (`CardDigits`). Each is drawn one decimal digit per random byte.

What stands in for the outside world:

- Money is `real`.
- Tables are sequences, and a row's id is its position plus one.
- The current time `now` is a parameter.
- So is the database's answer to each INSERT that can fail for reasons the model does not see: unique violations when registering, and the audit insert.
- The random bytes of the card generator are a parameter.
- The token parser is a function parameter.

The model follows the code as written, including these behaviours:

- Transfer never checks that the caller owns the sender's account.
- The sender lookup's error is overwritten by the receiver lookup.
- The receiver is credited amount plus fee.
- A transfer to a receiver with no row destroys the money.
- The repository's withdraw has no balance guard.
- A transfer row is logged with no currency, and both the usage query and the history query scan `currency` into a Go string, which fails on NULL. So once a user has sent a transfer, that user's history fails, and for the rest of that day every fee pricing that reads the usage fails too (`Repository.TransferRowBreaksQueries`).
- The withdraw row logged in the history includes the fee. Today's usage sums those rows, so once a user is over the ceiling, every later operation is charged again on the whole excess (`Limits.OverlimitFeeRechargesPriorExcess`).

Where the documented design of the bank asks for something else, the code is followed:

- an ownership check in Transfer;
- the fee kept by the bank rather than credited to the receiver;
- the pre-fee amount as the logged amount.

Modules: `Errs` (error values and `errors.Is`), `Domain` (records and requests), `Repository`, `Limits`, `Funds`, `AccountAdmin`, `Registration`, `CardDigits`, `RepositoryErrors`, `ServiceErrors`, `Controller`.

## Model

| member | source | states |
|---|---|---|
| Domain.MapError | internal/repository/repository.go:32-35 | both translators keep nil as nil and never turn an error into nil; otherwise they apply their translation |
| Errs.IsThroughOneWrap | internal/repository/repository.go:89 | a `%w` wrapper around one error is exactly the sentinels that error is |
| Repository.Store.AccountByCard | internal/repository/transaction_repository.go:132-148 | an account is found iff some card with that number is issued on an account in the requested currency; the result is that account and is in that currency; otherwise "no rows" |
| Repository.Store.AccountByPhone | internal/repository/transaction_repository.go:150-170 | an account is found iff some account in the requested currency belongs to a user with that phone; the result is that account; otherwise "no rows" |
| Repository.FirstCardJoin | internal/repository/transaction_repository.go:134-139 | the row the card join returns satisfies the join, and no row does when none is returned |
| Repository.FirstPhoneJoin | internal/repository/transaction_repository.go:154-159 | the row the phone join returns satisfies the join, and no row does when none is returned |
| Repository.Store.DailyLimitByUserId | internal/repository/limit.go:9-17 | the user's limit row when one exists, "no rows" exactly when none does |
| Repository.Store.DepositToAccount | internal/repository/transaction_repository.go:13-49 | succeeds iff the account exists; credits exactly `amount` to that row only and logs one deposit in the account's own currency, keeping the log in time order when no row is dated after now; an unknown id fails with its message and changes nothing |
| Repository.Store.WithdrawFromAccount | internal/repository/transaction_repository.go:51-85 | succeeds iff the row with that id has that currency; debits exactly `amount` with no balance guard and logs one withdrawal, keeping the log in time order when no row is dated after now; otherwise fails and changes nothing |
| Repository.Store.TransferFunds | internal/repository/transaction_repository.go:87-130 | succeeds iff the sender exists and its balance covers `amount`; then debits the sender, credits the receiver id (nobody if it has no row) and logs one transfer with no currency against the sender, keeping the log in time order when no row is dated after now; otherwise fails with the insufficient-funds message and changes nothing |
| Repository.TotalAdjust | internal/repository/transaction_repository.go:21 | a balance update changes the sum of all balances by exactly the delta, or by nothing when no row has that id |
| Repository.TransferConservesTotal | internal/repository/transaction_repository.go:101-115 | a transfer between existing accounts keeps the sum of balances; to a missing receiver it destroys `amount` |
| Repository.TransferMovesAmount | internal/repository/transaction_repository.go:101-112 | a transfer between distinct accounts moves exactly `amount` and leaves every other row, and every other column, unchanged |
| Repository.Store.GetTransactionHistory | internal/repository/transaction_repository.go:172-195 | fails with the scan error, returning nothing, iff a row on the user's accounts has no currency; otherwise the loop returns exactly the history of the user's accounts, latest row first |
| Repository.HistoryComplete | internal/repository/transaction_repository.go:174-178 | every log row on one of the user's accounts appears in the history under its own id |
| Repository.HistoryEntriesFromLog | internal/repository/transaction_repository.go:174-178 | every history entry is a copy of a log row on one of the user's accounts |
| Repository.HistoryIdsDecrease | internal/repository/transaction_repository.go:179 | history entries are listed by strictly decreasing row id |
| Repository.HistoryNewestFirst | internal/repository/transaction_repository.go:179 | with the log written in time order, the history is newest first |
| Repository.AppendKeepsChronological | internal/repository/transaction_repository.go:118 | appending a row dated no earlier than the others keeps the log in time order |
| Repository.Store.GetTodayUsageInTJS | internal/repository/limit.go:19-56 | fails with the scan error iff a row it selects has no currency; otherwise the loop's total is today's usage: the user's withdrawals and transfers dated today, each weighed by its rate |
| Repository.TransferRowBreaksQueries | internal/repository/transaction_repository.go:118 | after a transfer row is logged, both the sender's owner's usage query for that day and that owner's history query fail |
| Repository.ScanFailuresPersist | internal/repository/limit.go:27-40 | appending rows never makes a failing usage or history query succeed again |
| Repository.UsageAfterAppend | internal/repository/limit.go:27-34 | a deposit never changes today's usage; a counted row adds its amount times its rate |
| Repository.UsageNonNegative | internal/repository/limit.go:43-55 | usage is non-negative when every logged amount is |
| Repository.UsageZeroWithoutMatches | internal/repository/limit.go:43-55 | with no counted row, usage is 0 |
| Repository.Store.CreateDailyLimitForUser | internal/repository/limit.go:58-63 | on success the user's row holds the given daily amount and last reset now; a failed insert changes nothing |
| Repository.Store.ResetDailyLimit | internal/repository/limit.go:65-70 | only that user's last reset becomes now; the daily amount and other users' rows are unchanged |
| Repository.Store.SetAccountBlock | internal/repository/account.go:11-40 | an unknown account fails first and changes nothing; a failed audit insert rolls the flag back; otherwise the flag of that account only is set and one audit row appended; repeating the same value still appends a row |
| Repository.Store.GetAuditLogs | internal/repository/account.go:42-56 | the loop returns all audit rows in reverse of insertion order |
| Repository.AuditNewestFirst | internal/repository/account.go:44 | with the audit rows written in time order, the reversed list is newest first |
| Repository.Store.CreateUser | internal/repository/user.go:9-22 | a successful insert appends the row and returns its new id; a failure changes nothing |
| Repository.Store.CreateAccount | internal/repository/user.go:35-47 | a successful insert appends the row and returns its new id; a failure changes nothing |
| Repository.Store.CreateCard | internal/repository/card.go:12-36 | a successful insert appends the card; a failure changes nothing |
| Limits.RatesPositive | internal/service/limit.go:12-16 | every rate of the table is at least 1 |
| Limits.ConvertToBaseCurrency | internal/service/limit.go:19-27 | succeeds iff the currency is TJS, USD or EUR, otherwise "unsupported currency"; TJS amounts are unchanged; dividing the result by the rate gives the amount back |
| Limits.ConvertMonotone | internal/service/limit.go:19-27 | conversion keeps the order of amounts and never shrinks a non-negative amount |
| Limits.UsageRateAgrees | internal/repository/limit.go:21-25 | the repository weighs logged rows with the service's rate table, and any other currency at rate 1 |
| Limits.CalculateOverlimitFee | internal/service/limit.go:88-102 | the fee is one fiftieth of the amount, between 0 and the amount for a non-negative amount |
| Limits.FeeOfHundredIsTwo | internal/service/service_test.go:230-234 | the fee on an excess of 100 is 2, the value the service tests expect |
| Limits.IsNewDay | internal/service/limit.go:105-108 | true iff the calendar dates differ; the time of day is ignored |
| Limits.OverlimitFeeIsTwoPercentOfExcess | internal/service/limit.go:66-80 | no fee up to the ceiling; above it, the fee times the rate is 2% of usage plus amount minus the ceiling; never negative |
| Limits.OverlimitFeeAtMostTwoPercent | internal/service/limit.go:66-80 | starting within the ceiling, the fee is at most 2% of the amount |
| Limits.OverlimitFeeRechargesPriorExcess | internal/service/limit.go:66-80 | once today's usage is over the ceiling, the fee exceeds 2% of the amount |
| Limits.FeeExample | internal/service/limit.go:66-80 | ceiling 1000 TJS, 950 TJS spent, 10 USD more: the fee is 2% of 42.1 / 9.21 USD |
| Limits.FeeForBounds | internal/service/limit.go:30-85 | the fee is defined iff the currency is priced and, unless a new day starts for a user with a limit row, the usage query succeeds; the error is the unsupported-currency one or the scan error; the fee is never negative; with no limit row it is 0; within the ceiling it is at most 2% of the amount |
| Limits.LimitsAfterCheckTouchesOneRow | internal/service/limit.go:48-56 | pricing a fee resets at most the user's own row, never changes a daily amount, and leaves no reset row out of date |
| Limits.CheckLimitAndCalculateFee | internal/service/limit.go:30-85 | the fee or error is exactly the one the fee rule gives for the state before the call, and the limits table afterwards is the one with only a new-day reset applied |
| Funds.Resolve | internal/service/transaction_service.go:23-29 | the card number is used when given, else the phone; the account found is in the requested currency and joins that card or phone; the only failure is "no rows" |
| Funds.OwnAccount | internal/service/transaction_service.go:23-42 | without an identifier the request fails; a resolved account is unblocked, the caller's own, and in the requested currency (TJS when none is given) |
| Funds.DepositCheck | internal/service/transaction_service.go:15-42 | an amount of 0 or less fails first; otherwise the account credited is the caller's own, unblocked account in the request's currency |
| Funds.Deposit | internal/service/transaction_service.go:11-45 | a failed check changes nothing; otherwise exactly the requested amount is credited to that account with no fee and no limit check, and one deposit row is logged |
| Funds.WithdrawCheck | internal/service/transaction_service.go:51-89 | an amount of 0 or less fails first; an account that passes is the caller's own, unblocked, in the currency, with a balance covering the amount; an amount above the balance fails with "insufficient funds" before any fee is priced |
| Funds.LocateWithdrawal | internal/service/transaction_service.go:51-89 | the step-by-step checks give exactly the outcome of the withdrawal's checks |
| Funds.Withdraw | internal/service/transaction_service.go:47-107 | a failed check changes nothing; otherwise the outcome is the one `WithdrawalSettled` describes |
| Funds.SettleWithdrawal | internal/service/transaction_service.go:91-106 | the limit row is refreshed; a pricing error, or amount plus fee above the balance, changes nothing else; otherwise exactly amount plus fee is debited and logged as one withdraw row |
| Funds.WithdrawNeverOverdraws | internal/service/transaction_service.go:98-106 | a debit of amount plus fee no larger than the balance leaves a non-negative balance and lowers the total by exactly that sum |
| Funds.RecordedWithdrawIncludesFee | internal/service/transaction_service.go:104-106 | the logged withdraw row raises today's usage by amount plus fee at the currency's rate |
| Funds.TransferCheck | internal/service/transaction_service.go:109-148 | parties that pass the checks are unblocked, in the requested currency, the sender existing and its balance covering the amount; the receiver is a real account or the zero account |
| Funds.CurrencyOrDefault | internal/service/transaction_service.go:15-17 | the currency is never empty: an empty request currency becomes TJS and any other is kept |
| Funds.Seek | internal/service/transaction_service.go:118-128 | an account is looked up iff a card number or a phone number is given; a lookup that succeeds gives an existing account in the requested currency |
| Funds.LookupErrorIsLastOutcome | internal/service/transaction_service.go:118-132 | when a receiver is named, its lookup alone decides the error, a failed one included; otherwise the sender's lookup decides it |
| Funds.SenderLookupErrorIsLost | internal/service/transaction_service.go:118-145 | a failed sender lookup followed by a successful receiver lookup ends at "invalid balance format" from the zero account, not at the lookup error |
| Funds.ResolveTransfer | internal/service/transaction_service.go:109-148 | the step-by-step checks give exactly the outcome of the transfer's checks |
| Funds.Transfer | internal/service/transaction_service.go:109-171 | a failed check changes nothing; otherwise the outcome is the one `TransferSettled` describes; no check compares the sender's owner with the caller |
| Funds.SettleTransfer | internal/service/transaction_service.go:150-170 | the limit row of the sender's owner is refreshed; a pricing error, or amount plus fee above the balance, changes nothing else; otherwise amount plus fee leaves the sender, the same sum reaches the receiver, and one transfer row is logged |
| Funds.HistoryLogs | internal/service/transaction_service.go:173-176 | the repository's scan error exactly when it fails, otherwise the caller's history, every entry being a row on one of the caller's accounts |
| AccountAdmin.ActionFor | internal/service/account.go:21 | the action is "block" iff the flag is set, "unblock" iff it is not |
| AccountAdmin.BlockUnblockAccount | internal/service/account.go:11-27 | an empty reason fails before any write; otherwise the result is the repository's, with an audit row carrying the account, administrator, action and reason unchanged |
| AccountAdmin.AuditRowOfBlock | internal/service/account.go:18-26 | the appended audit row names the account, the administrator and the reason, and its action matches the flag |
| AccountAdmin.AuditLogs | internal/service/account.go:29-31 | the repository's rows, newest first when written in time order |
| Registration.ExpiryFrom | internal/utils/card.go:38-40 | the expiry is the same month and day `years` later, so after today for any positive number of years |
| Registration.CreateCardForAccount | internal/service/card_service.go:12-35 | the card is "4000" and twelve digits, a three-digit CVV, the holder's name and an expiry four years ahead; a failed insert gives one fixed message and no card |
| Registration.Provision | internal/service/auth.go:74-95 | provisioning completes iff every round creates its account and card; otherwise it stops at the first failing round, and every earlier round succeeded |
| Registration.ProvisionRound | internal/service/auth.go:76-92 | one round: a failed account insert changes nothing; otherwise the account is appended, and then its card or the card failure |
| Registration.Register | internal/service/auth.go:48-105 | a failed user insert returns the empty user and changes nothing; otherwise the user is added, followed by the accounts and cards of the rounds before the stop; the 1000 TJS limit only after all three rounds; the user or the empty user and the translated error for each stop |
| Registration.ProvisionCounts | internal/service/auth.go:74-102 | at most one account more than cards, at most three accounts, and the limit only when rounds TJS, USD and EUR all succeed |
| Registration.CardsMatchAccounts | internal/service/auth.go:76-92 | each card is issued on the account of the same round (in that round's currency), in the user's full name, with a 16-digit number starting 4000 and a 3-digit CVV |
| CardDigits.DigitsOf | internal/utils/card.go:15-19 | one digit per byte, each the byte modulo 10 |
| CardDigits.DigitsAgreeIffResidues | internal/utils/card.go:17 | two byte strings print the same digits iff they agree modulo 10 byte by byte |
| CardDigits.GenerateRandomDigits | internal/utils/card.go:11-20 | the loop's result is exactly the digits of the bytes, so it is as long as the bytes and all digits |
| CardDigits.GenerateCardNumber | internal/utils/card.go:23-30 | "4000" and twelve digits: 16 characters, all digits; never an error |
| CardDigits.GenerateCVV | internal/utils/card.go:33-35 | exactly 3 digits; never an error |
| RepositoryErrors.ToLower | internal/repository/repository.go:57 | same length, each character lower-cased |
| RepositoryErrors.ToLowerIdempotent | internal/repository/repository.go:57 | lower-casing twice is lower-casing once |
| RepositoryErrors.DriverTextIsNotNoRows | internal/repository/repository.go:40-47 | a driver error's text is never the "no rows" text |
| RepositoryErrors.Translate | internal/repository/repository.go:36-90 | "no rows" becomes user-not-found; the result is never a driver error; it is a database error iff the input is neither "no rows" nor a driver error, and then its text is prefixed; a unique violation becomes one of four results |
| RepositoryErrors.UniqueViolationIgnoresCase | internal/repository/repository.go:55-71 | the outcome of a unique violation does not depend on the case of the detail |
| RepositoryErrors.EmailMentionWins | internal/repository/repository.go:58-61 | a detail mentioning the email reports the email, whatever else it mentions |
| RepositoryErrors.CapitalEmailIsReported | internal/repository/repository.go:57-61 | a detail spelling EMAIL in capitals still reports the email |
| RepositoryErrors.ConstraintMessages | internal/repository/repository.go:72-80 | foreign-key, not-null and check violations give their messages |
| RepositoryErrors.OtherCodesAreDatabaseErrors | internal/repository/repository.go:81-83 | every other PostgreSQL code gives "database error: " followed by the server's message |
| ServiceErrors.Translate | internal/service/service.go:27-41 | the result is the input or one of the five sentinels; an input that is none of the five repository sentinels passes through unchanged |
| ServiceErrors.TranslateIsFirstMatch | internal/service/service.go:27-41 | the switch is the first match of the five-row table, with the error itself as the default |
| ServiceErrors.TranslateIdempotent | internal/service/service.go:27-41 | every result is a fixed point of the translation |
| ServiceErrors.UnclassifiedDatabaseErrorSurvives | internal/service/service.go:36-38 | a database error the repository could not classify is the database sentinel after the service |
| ServiceErrors.MissingUserIsInvalidCredentials | internal/service/service.go:28-29 | "no rows" reaches the service as invalid credentials |
| Controller.TranslateError | internal/controller/controller.go:24-58 | no reply iff there is no error; the status is one of 400, 401, 403, 409 or 500, and it is 500 exactly when the message is "Database error" or "Internal server error" |
| Controller.ReplyClasses | internal/controller/controller.go:24-58 | no reply iff there is no error; the status is one of 400, 401, 403, 409 or 500; a database error is always 500 "Database error"; a status other than 500 is only given to an error that is a sentinel the switch names |
| Controller.SentinelStatus | internal/controller/controller.go:29-57 | each sentinel alone gets the status of its case, and 500 when the switch does not name it |
| Controller.UnauthorizedSentinels | internal/controller/controller.go:32-33 | invalid credentials, invalid token, expired token and expired refresh token are 401 |
| Controller.BadRequestSentinels | internal/controller/controller.go:40-53 | insufficient funds, invalid amount, daily limit exceeded and operation not allowed are 400 |
| Controller.ConflictAndForbiddenSentinels | internal/controller/controller.go:34-39 | user already registered is 409; access denied and account blocked are 403 |
| Controller.InternalSentinels | internal/controller/controller.go:30-31 | the database sentinel, and the repository's not-found sentinels, are 500 |
| Controller.UnnamedSentinels | internal/controller/controller.go:54-56 | user already exists, card already exists and invalid operation get the default reply |
| Controller.EarliestCaseWins | internal/controller/controller.go:29-33 | an error wrapping both invalid credentials and a database error gets the database reply |
| Controller.MessageErrorsAreInternal | internal/controller/controller.go:54-56 | an error built from a message alone gets the default 500 reply whatever its text |
| Controller.UnclassifiedFailureIsDatabaseError | internal/controller/controller.go:30-31 | through all three translators, an unclassified database failure is 500 "Database error" |
| Controller.MissingRowIsUnauthorized | internal/controller/controller.go:32-33 | through all three translators, "no rows" is 401 "Invalid credentials" |
| Controller.DuplicateUnnamedIsConflict | internal/controller/controller.go:34-35 | a duplicate whose detail names no known field is 409 "User already exists" |
| Controller.DuplicateNamedIsInternal | internal/controller/controller.go:54-56 | a duplicate email, phone or card number gets the default 500 reply |
| Controller.JoinSplit | internal/controller/controller.go:68 | splitting on spaces and joining again gives the header back, and no piece holds a space |
| Controller.SplitAfterWord | internal/controller/controller.go:68 | a word, a space and a rest split into the word followed by the pieces of the rest |
| Controller.SplitWithoutSpace | internal/controller/controller.go:68 | a string without spaces is one piece |
| Controller.AuthMiddleware | internal/controller/controller.go:60-91 | a missing header is 401; every refusal is 401, or 403 for a role mismatch; a request proceeds only with "Bearer ", a token without spaces that the parser accepts, and a matching role when one is required |
| Controller.BearerTokenReachesParser | internal/controller/controller.go:68-89 | conversely, "Bearer " and a token without spaces always reaches the parser, whose answer and the role decide the rest |
| Controller.MalformedHeaderRefused | internal/controller/controller.go:68-72 | another scheme, or a second space, is refused as malformed before any parsing |

## Left out

- Concurrency and isolation: each repository function is one atomic step, and interleavings are not modelled.
- float64 arithmetic, `strconv.ParseFloat` and the "%.2f" formatting of balances: money is `real`. A balance that does not parse exists only as the empty text of a zero-valued account.
- Repository failures from the connection, from `RowsAffected`, from the currency re-read in DepositToAccount and from the reset: only the outcomes the model's tables decide are modelled. Of the usage and history queries' failures, only the NULL-currency scan error is modelled.
- The schema of the `transactions` table is not part of this model. The model takes its `currency` column to have no default, so a transfer row holds NULL.
- The source's tests are written against a newer repository (method receivers, typed sentinels). The model follows the repository shown and its plain message errors.
- Funds.Withdraw, Funds.Transfer: the second "unsupported currency" check while pricing is unreachable once the conversion has succeeded, so it is not modelled.
- RepositoryErrors.ToLower: lower-cases ASCII letters only, where Go's `strings.ToLower` folds all of Unicode.
- Repository.Store.GetTransactionHistory, Repository.Store.GetAuditLogs: these order rows by insertion, which is newest first by date only when rows are written in time order (as `HistoryNewestFirst` and `AuditNewestFirst` assume). Ties in `created_at` are not ordered the way the database orders them.
- Repository.Store.CreateDailyLimitForUser: a second limit row for the same user replaces the first, where the database would hold two.
- Registration.Register: bcrypt hashing and its failure are left out; the hash is an input.
- JWT issuing and parsing, Login and RefreshToken are left out. The middleware receives the parser as a function.
- The Redis cache, HTTP binding and routing, logging and `fmt.Printf` are left out.
- Registration.ExpiryFrom: does not normalise 29 February plus four years as Go's `AddDate` does.
- CardDigits.GenerateRandomDigits: a failure of `crypto/rand` is not modelled. The random bytes are an input, and the source ignores that failure.
- Field-copy converters and type declarations are represented only by the model's datatypes.
