# Wallet ledger service, modelled in Dafny

This project models the in-memory ledger service of the `wallet` Go library
(`pkg/wallet/service.go`, with the records of `pkg/types/types.go`). The service
is one sequential state machine owning a list of accounts, a list of payments, a
list of favorites and a `NextAccountID` counter. It offers registration,
lookups, deposits, payments, rejections (refunds), repeats, favorites and
payments from favorites.

Each state-changing operation is a pure Dafny function from the state before
the call to an `Outcome`: the result (a value or one of six sentinel errors)
paired with the state after the call. The three lookups change nothing and
return a bare `Result`. The source's linear scans are one generic first-match
scan, `Scan.FirstIndex`. Where the source mutates a record through the pointer
such a scan returned, the model replaces the sequence element at that index.
Where a Go test observes a change through a pointer it kept, the model looks the
record up again by its identifier in the later state.

Files:

- `scan.dfy`: `Option` and the first-match scan.
- `types.dfy`: `Money`, `PaymentStatus`, `Payment`, `Favorite`, `Account`.
- `wallet.dfy`: the service state, the sentinel errors and every operation.
- `invariants.dfy`: the state invariant `Valid` and one preservation lemma per operation.
- `trace.dfy`: command sequences from the zero-value service, and the invariant over any such sequence.
- `properties.dfy`: properties relating several calls, and the scenarios of the tests and the command-line program.

The UUIDs the source draws for new payments and favorites (`service.go:116`,
`service.go:166`) are parameters of `Pay`, `Repeat`, `PayFromFavorite` and
`FavoritePayment`. The operations accept any identifier, as the code would.
The lemmas that depend on identifiers being new require that the identifier is
not yet in use.

The amount guards differ from their error text. `ErrAmountMustBePositive` reads
"amount must be greater then zero" (`service.go:17`). But the guards at
`service.go:75` and `service.go:96` reject only negative amounts. So a zero
deposit and a zero payment both succeed (`Properties.ZeroAmountAccepted`). The
model follows the code, and the invariant says amounts are at least 0. Deposit
and Pay use the same guard.

## Model

| member | source | states |
|---|---|---|
| Scan.FirstIndex | pkg/wallet/service.go:30-55 | The scan returns the position of the first element with the key, with no earlier match, or None exactly when no element has the key |
| Wallet.FindAccountById | pkg/wallet/service.go:30-37 | Fails with AccountNotFound exactly when no account has the ID; otherwise returns the first account with that ID |
| Wallet.FindPaymentById | pkg/wallet/service.go:39-46 | Fails with PaymentNotFound exactly when no payment has the ID; otherwise returns the first payment with that ID |
| Wallet.FindFavorite | pkg/wallet/service.go:48-55 | Fails with FavoriteNotFound exactly when no favorite has the ID; otherwise returns the first favorite with that ID |
| Wallet.RegisterAccount | pkg/wallet/service.go:57-72 | A phone already present gives PhoneRegistered and no change; otherwise exactly one account {counter+1, phone, 0} is appended and the counter goes up by one |
| Wallet.Deposit | pkg/wallet/service.go:74-93 | Negative amount gives AmountMustBePositive, then an unknown account gives AccountNotFound, both with no change; otherwise only the first matching account's balance rises by the amount |
| Wallet.Pay | pkg/wallet/service.go:95-126 | Errors in the order AmountMustBePositive, AccountNotFound, LowBalance, each with no change; on success only that account loses the amount and exactly one in-progress payment with the given ID is appended |
| Wallet.Reject | pkg/wallet/service.go:128-141 | Unknown payment gives PaymentNotFound with no change; otherwise the payment is marked FAIL, and the owner is credited its amount, or AccountNotFound is returned with the payment still marked FAIL |
| Wallet.Repeat | pkg/wallet/service.go:144-156 | Unknown payment gives PaymentNotFound with no change; otherwise the result and the new state are those of Pay on the payment's account, amount and category |
| Wallet.FavoritePayment | pkg/wallet/service.go:158-175 | Unknown payment gives PaymentNotFound with no change; otherwise exactly one favorite copying the payment's account, amount and category, with the given name and ID, is appended |
| Wallet.PayFromFavorite | pkg/wallet/service.go:177-194 | Unknown favorite gives FavoriteNotFound with no change; otherwise the call is Pay on the favorite's stored account, amount and category |
| Invariants.EmptyIsValid | pkg/wallet/service.go:23-28 | The zero-value service satisfies the invariant |
| Invariants.SequentialLookup | pkg/wallet/service.go:64-70 | With sequential IDs an account ID exists exactly when it is in 1..n, and its scan stops at position ID-1 |
| Invariants.UniquePaymentLookup | pkg/wallet/service.go:39-46 | With unique payment IDs the scan for a stored payment stops at that payment |
| Invariants.RegisterPreservesValid | pkg/wallet/service.go:57-72 | Registration keeps IDs sequential, phones unique and every other invariant |
| Invariants.DepositPreservesValid | pkg/wallet/service.go:74-93 | Deposit keeps balances non-negative, since negative amounts are refused, and keeps the rest of the invariant |
| Invariants.PayPreservesValid | pkg/wallet/service.go:95-126 | With a new payment ID, Pay keeps balances and payment amounts non-negative, owners existing and payment IDs unique |
| Invariants.RejectPreservesValid | pkg/wallet/service.go:128-141 | Reject keeps the invariant: refunding a non-negative amount cannot make a balance negative |
| Invariants.RepeatPreservesValid | pkg/wallet/service.go:144-156 | With a new payment ID, Repeat keeps the invariant |
| Invariants.FavoritePaymentPreservesValid | pkg/wallet/service.go:158-175 | With a new favorite ID, FavoritePayment keeps favorite amounts non-negative, owners existing and favorite IDs unique |
| Invariants.PayFromFavoritePreservesValid | pkg/wallet/service.go:177-194 | With a new payment ID, PayFromFavorite keeps the invariant |
| Trace.ApplyPreservesValid | pkg/wallet/service.go:57-194 | Any single call with a new identifier keeps the invariant |
| Trace.RunPreservesValid | pkg/wallet/service.go:57-194 | Any sequence of calls with new identifiers keeps the invariant |
| Trace.ReachableStatesAreValid | pkg/wallet/service.go:75-136 | From the zero value, after any sequence of calls with new identifiers, balances and amounts are at least 0, phones are unique, IDs are 1..n, and payments and favorites name existing accounts |
| Properties.RegisterIssuesNextId | pkg/wallet/service_test.go:8-24 | Under the invariant a new phone gets ID n+1, and the lookup by that ID finds the new account |
| Properties.RegisterTwiceRejected | pkg/wallet/service.go:58-62 | Registering a phone a second time fails with PhoneRegistered and changes nothing; the store gains at most one account, and exactly one when the phone was new |
| Properties.RegisterAllAppends | pkg/wallet/service.go:64-70 | Registering distinct new phones appends one zero-balance account per phone, with IDs continuing the count, and keeps the earlier accounts |
| Properties.NthRegistrationGetsIdN | pkg/wallet/service.go:64-70 | From the zero value, the n-th registration of distinct phones gets ID n |
| Properties.EmptyServiceFindsNothing | pkg/wallet/service_test.go:26-36 | On the zero-value service the three lookups and Reject return their NotFound errors |
| Properties.FindAccountIsPositional | pkg/wallet/service.go:30-37 | Under sequential IDs the lookup for ID k returns account number k-1, and any ID outside 1..n is not found |
| Properties.ZeroAmountAccepted | pkg/wallet/service.go:75-98 | Depositing zero succeeds and changes nothing; paying zero from a non-negative balance succeeds |
| Properties.PayThenRejectRestoresBalance | pkg/wallet/service.go:111-141 | Pay then Reject of that payment succeeds, restores every account exactly, and the payment looked up again reads FAIL |
| Properties.DoubleRejectRefundsTwice | pkg/wallet/service.go:128-141 | Rejecting the same payment twice succeeds both times and credits the owner twice the amount |
| Properties.RejectNeverMissesAccount | pkg/wallet/service.go:134-140 | Under the invariant Reject never returns AccountNotFound |
| Properties.RejectOrphanPaymentStillFails | pkg/wallet/service.go:133-140 | For any payment whose account is missing (payment IDs unique), Reject returns AccountNotFound, leaves the accounts as they were, and the payment looked up again reads FAIL |
| Properties.RejectOrphanPaymentExample | pkg/wallet/service.go:133-140 | On a service with one payment "p" for the never-registered account 7, Reject returns AccountNotFound and the stored payment reads FAIL |
| Properties.RepeatCopiesSource | pkg/wallet/service.go:144-156 | A successful repeat appends an in-progress payment with a different ID and the source's account, amount and category |
| Properties.FavoriteSurvivesReject | pkg/wallet/service.go:165-173 | The new favorite is found by its ID, and rejecting the source payment leaves it unchanged |
| Properties.PayFromNewFavoriteIsRepeat | pkg/wallet/service.go:177-194 | Paying from a favorite just made from a payment is the same call as repeating that payment |
| Properties.CommandLineScenario | cmd/main/main.go:10-37 | Three registrations get IDs 1, 2, 3, and the deposit of 10 leaves account 1 with balance 10 |
| Properties.RejectScenario | pkg/wallet/service_test.go:38-82 | Register, deposit 2500, pay 2500, reject: the payment is found, then reads FAIL, the balance returns to 2500, and a larger payment fails with LowBalance |

## Left out

- `ExportToFile` and `ImportFromFile`: the command-line program calls them, but their source is not part of this model, so the file format is not modelled.
- The `Messenger` interface and the `Telegram` stub (`pkg/types/types.go:45-59`): declared but not used by the service.
- The `Error` string type and the error message texts (`service.go:10-21`): errors are the six constructors of `Wallet.Error`.
- UUID generation: the identifier is a caller-supplied parameter; lemmas that need it new say so in their requires.
- Trace.ReachableStatesAreValid: callers writing the exported `NextAccountID` field (`service.go:24`) are not modelled; the sequential-ID invariant assumes none do. A caller starting from a non-zero counter, or resetting it, would get IDs outside 1..n or duplicate IDs.
- Go pointer aliasing: a caller that keeps a returned pointer and writes through it is not modelled; a mutation replaces the element at the scanned index.
- Wallet.Deposit: does not model int64 wrap-around of `Balance += amount`, because `Money` is an unbounded integer.
- Wallet.Reject: does not model int64 wrap-around of the refund, for the same reason.
- Wallet.RegisterAccount: does not model int64 wrap-around of the ID counter, for the same reason.
- `main` in `cmd/main/main.go`: printing and logging are not modelled; its register and deposit steps appear in `Properties.CommandLineScenario`.
