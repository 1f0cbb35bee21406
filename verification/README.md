# Vyper ledgers in Dafny

A model of the store-side core of the Vyper loyalty and running-account
system, a Next.js application backed by Supabase. The model covers these
parts:

- **Debt ledger** (`cuenta corriente`): the `debt-transactions` route posts
  charges and payments. It keeps `balance_after` on each row and the cached
  `debt_balance` on the client, and mirrors every payment as a sale.
- **Coin ledger** (`Vyper Coins`): the `coin-transactions` route logs each
  posting and never touches `coin_balance`; its `PUT` and `DELETE` edit and
  remove log rows. The coins admin page orchestrates the balance write and
  the log row, and the reversal.
- **POS sale route**: finds or creates a client by phone, then adds earned
  coins and, on credit, the amount to the debt.
- **Clients API**: `toBool` coercion, phone de-duplication of an import, the
  upsert, and the `PUT`/`DELETE` id checks.
- **Debt page**: the client filter, the suggestions, the balance preview and
  the submit guards.
- **Analytics route**: monthly, category, weekday and branch aggregation,
  the least-squares forecast shape, and the last three months.
- **BI page**: the "Varios" small-category fold, the KPI cards and the
  combined chart series.
- **BuilderBot notifier**: phone cleaning and the boolean result contract.

The store is a value `Basics.Db` holding these tables:

- `users`, the clients, with cached `coin_balance`/`debt_balance`;
- `coin_transactions`;
- `debt_transactions`;
- `sales`;
- the POS `transactions` log.

Each table is a sequence of rows. `Basics.Single` is Supabase's
`.eq().single()`: exactly one match, otherwise an error. `Basics.Where`,
`Basics.UpdateWhere` and `Basics.DeleteWhere` act on every match.

A route handler is a pure function from the store, the request and a record
of which store calls fail to a `Step`. A `Step` holds:

- the HTTP answer (`Ok(body)` or `Err(status)`);
- the new store;
- the notifications sent.

A page handler returns a `PageStep`. It holds the outcome (`Idle`,
`Rejected` before any request, `Failed` after some request, `Done`), the
store, how many requests were issued, and the notices.

Money is whole pesos (`int`). `Math.floor(x / 1000)` is Dafny's `/` on a
positive divisor. JavaScript truthiness is explicit: `TruthyNum`,
`TruthyStr`, `StrOr`, `OrZero`.

Modules, one per source file: `DebtLedger`, `CoinLedger`, `CoinsPage`,
`PosSale`, `ClientsApi`, `DebtPage`, `Analytics`, `BiPage`, `Notifier`.
Two shared modules correspond to no source file of their own: `Basics`
(the store, its rows and the table operations) and `Text` (the string
operations the handlers and pages call).

Two places where the code does something other than its obvious reading; the model follows the code:

- The BI fold tests `(value / total) * 100 < 1` with JavaScript division.
  Over a zero total, a negative category is therefore folded into "Varios"
  (`-Infinity < 1`), while a non-negative one is kept. Over a negative
  total the comparison flips.
- The analytics timeline is ordered by month-key string. That equals the
  code's date order for well-formed `YYYY-MM` keys.

## Model

| member | source | states |
|---|---|---|
| Basics.Single | src/app/api/debt-transactions/route.ts:55-63 | `.single()` yields a row exactly when one row matches; otherwise the lookup counts as an error |
| Basics.UpdateWhere | src/app/api/debt-transactions/route.ts:98-101 | an `.update().eq()` changes every matching row and leaves every other row where and as it was |
| Basics.DeleteWhere | src/app/api/debt-transactions/route.ts:155-158 | a `.delete().eq()` drops every matching row and keeps every other one |
| Basics.Where | src/app/api/clients/route.ts:104-108 | the `.select()` after an update returns the matching rows, all of them and only them |
| Text.Lower | src/app/admin/debt/page.tsx:65 | `toLowerCase` keeps the length, leaves no upper-case letter and keeps every other character |
| Text.LowerIdempotent | src/app/admin/debt/page.tsx:65 | lower-casing twice is lower-casing once |
| Text.Trim | src/app/api/analytics/route.ts:34 | `trim` returns a piece of its input with no white space at either end, and only white space is cut; white space is every ECMAScript white-space character and line terminator |
| Text.ContainsAt | src/app/admin/debt/page.tsx:64-67 | `includes` holds exactly when the term occurs at some position |
| Text.ContainsEmpty | src/app/admin/debt/page.tsx:64-67 | every string includes the empty term |
| Text.Contains | src/app/admin/debt/page.tsx:64-67 | `includes`: a match is never longer than the text it is found in, and a pattern as long as the text is found iff it is the text |
| Text.LessTransitive | src/app/api/analytics/route.ts:127 | the default string sort order is transitive |
| Text.LessTotal | src/app/api/analytics/route.ts:127 | any two different strings are ordered one way or the other |
| Text.Less | src/app/api/analytics/route.ts:127 | the month-key order: a string never sorts before itself, and of two strings one of which starts the other, the shorter sorts first |
| DebtLedger.ParseKind | src/app/api/debt-transactions/route.ts:50-52 | only `charge` and `payment` are accepted kinds, each mapping to its own kind |
| DebtLedger.NextBalance | src/app/api/debt-transactions/route.ts:65-76 | a charge adds the amount to the current balance and a payment subtracts it |
| DebtLedger.Opposite | src/app/api/debt-transactions/route.ts:50-52 | each of the two kinds has an opposite different from itself |
| DebtLedger.NextBalanceUndo | src/app/api/debt-transactions/route.ts:65-76 | posting an amount and then the same amount with the opposite kind restores the balance |
| DebtLedger.Lookup | src/app/api/debt-transactions/route.ts:55-63 | the client lookup yields a row of the table with the requested id, and yields one exactly when one row carries that id |
| DebtLedger.Validate | src/app/api/debt-transactions/route.ts:46-52 | a request passes iff `client_id`, `amount` and `transaction_type` are truthy (0 counts as missing) and the type is `charge` or `payment`; the accepted fields are the request's |
| DebtLedger.OverpaymentGoesNegative | src/app/api/debt-transactions/route.ts:65-76 | the new balance is not clamped: paying more than is owed gives a negative balance |
| DebtLedger.StoredNotes | src/app/api/debt-transactions/route.ts:88 | the stored notes are the notes if given, else `Sucursal: <branch>` if a branch is given, else null |
| DebtLedger.MirrorSale | src/app/api/debt-transactions/route.ts:109-119 | the mirrored sale carries the payment amount and the branch, defaulting to `Rawson` |
| DebtLedger.Post | src/app/api/debt-transactions/route.ts:41-146 | 400 before any store access on bad input; 404 iff the client is not found; 500 with no write iff the insert fails; on success one row is appended with `balance_after` = cached balance ± amount, the cache is updated unless that write fails, a payment (never a charge) adds one sale unless that insert fails, and a notice goes out iff the client has a phone |
| DebtLedger.SideEffectFailuresAreSilent | src/app/api/debt-transactions/route.ts:98-125 | a failed balance write or sale insert never changes the answer |
| DebtLedger.Delete | src/app/api/debt-transactions/route.ts:148-165 | without an id, 400; a failed delete, 500 and no write; otherwise the rows with that id are gone, every other row stays, and the clients, sales, coin rows, POS log and id counter are unchanged |
| DebtLedger.ChainEndsAtSum | src/app/api/debt-transactions/route.ts:65-101 | when each row's `balance_after` extends its predecessor's, the last `balance_after` is the signed sum of the client's rows |
| DebtLedger.ConsistentMatchesSum | src/app/api/debt-transactions/route.ts:65-101 | a cache that equals the last `balance_after` of a well-formed trail equals the signed sum of the rows |
| DebtLedger.AppendRow | src/app/api/debt-transactions/route.ts:79-90 | appending a row moves the client's sum by its signed amount and makes it the client's last row; the trail stays well formed iff its `balance_after` extends the previous one |
| DebtLedger.PostMovesClient | src/app/api/debt-transactions/route.ts:65-106 | a fault-free posting moves both the client's cached balance and its audit-trail sum by the row's signed amount |
| DebtLedger.ChargeThenPaymentCancel | src/app/api/debt-transactions/route.ts:65-106 | posting a charge and then a payment of the same amount for one client restores its cached balance and leaves its audit-trail sum unchanged |
| DebtLedger.PostKeepsLedgerConsistent | src/app/api/debt-transactions/route.ts:65-106 | a posting keeps every client's cache equal to its last `balance_after`, except the posted client's when the balance write fails |
| DebtLedger.FailedBalanceWriteLeavesDrift | src/app/api/debt-transactions/route.ts:98-106 | when the balance write fails after the insert, the call succeeds and the cache no longer equals the last `balance_after` |
| DebtLedger.DebtSumDelete | src/app/api/debt-transactions/route.ts:155-158 | deleting rows takes exactly their signed amounts out of the client's sum |
| DebtLedger.DeleteLeavesBalanceStale | src/app/api/debt-transactions/route.ts:148-161 | deleting a non-zero row succeeds, leaves the client as it was, and breaks cache = sum |
| DebtLedger.Reverse | src/app/api/debt-transactions/route.ts:148-161 | the corrected delete: it succeeds iff the row and its client exist; it removes the row and moves the client's cache back by the row's signed amount; sales, coin rows, the POS log and the id counter stay as they were |
| DebtLedger.ReverseKeepsCacheMatchingSum | src/app/api/debt-transactions/route.ts:148-161 | the corrected delete keeps every client's cache equal to the signed sum of its rows |
| DebtLedger.RemoveRowKeepsMatch | src/app/api/debt-transactions/route.ts:148-161 | removing a client's row while moving its cache back by the row's signed amount keeps every client's cache equal to the sum of its rows |
| DebtLedger.DeleteOneRow | src/app/api/debt-transactions/route.ts:155-158 | deleting the one row with an id takes exactly that row's signed amount out of its client's sum and leaves every other client's sum alone |
| DebtLedger.SetDebtLookup | src/app/api/debt-transactions/route.ts:98-101 | writing the cached balance of the one client with an id changes that client's `.single()` lookup to the new balance and no other client's |
| CoinLedger.Post | src/app/api/coin-transactions/route.ts:20-72 | 400 iff `client_id` or `amount` is falsy or `coins_added` is undefined (0 allowed); 500 with no write iff the insert fails; on success exactly one row with the request's fields is appended; the client table and the POS log are never written; a notice goes out iff the client is found with a phone |
| CoinLedger.LookupFailureIsSilent | src/app/api/coin-transactions/route.ts:45-65 | a failed client lookup changes neither the answer nor the store; it only suppresses the notice |
| CoinLedger.Put | src/app/api/coin-transactions/route.ts:74-92 | without a truthy id, 400; a failed update, 500 with no write; otherwise only the rows with that id change, on each of them every supplied column (`client_id`, `client_name`, `amount`, `coins_added`) is written and every absent one kept, and the rows are returned |
| CoinLedger.PatchTx | src/app/api/coin-transactions/route.ts:81-85 | the coin-row patch never changes a row's id, and patching twice is patching once |
| CoinLedger.Delete | src/app/api/coin-transactions/route.ts:94-111 | without an id, 400; otherwise only coin rows with that id are removed, every other row survives, and no client balance changes |
| CoinLedger.PutAddressesOne | src/app/api/coin-transactions/route.ts:81-85 | after an update, `.single()` on the addressed id finds the old row with the supplied columns written over it, and on any other id what it found before |
| CoinLedger.PutIdempotent | src/app/api/coin-transactions/route.ts:74-92 | sending the same update twice leaves the store as the first one did |
| CoinLedger.DeleteKeepsOthers | src/app/api/coin-transactions/route.ts:101-104 | after a delete, `.single()` on any other id finds what it found before |
| CoinLedger.CoinSumAppend | src/app/api/coin-transactions/route.ts:29-38 | an inserted row adds its coins to its client's log sum only |
| CoinLedger.CoinSumDelete | src/app/api/coin-transactions/route.ts:101-104 | deleting rows takes exactly their coins out of the sum |
| CoinLedger.PostAloneDrifts | src/app/api/coin-transactions/route.ts:29-50 | a posting of non-zero coins on its own leaves the cached balance behind the log |
| CoinLedger.PostKeepsOthersConsistent | src/app/api/coin-transactions/route.ts:29-50 | a posting keeps cache = log sum for every client it does not credit |
| CoinLedger.DeleteRemovesCoins | src/app/api/coin-transactions/route.ts:94-107 | a delete removes the row's coins from its client's sum and from no other client's sum, and leaves every cache unchanged |
| CoinLedger.DeleteOneRow | src/app/api/coin-transactions/route.ts:101-104 | deleting a uniquely identified row takes only its coins out of the sum |
| CoinsPage.CoinsToAdd | src/app/admin/vyper-coins/page.tsx:68 | `floor(amount/1000)`: the greatest whole number of thousands not above the amount, never negative for a non-negative amount |
| CoinsPage.PreviewBalance | src/app/admin/vyper-coins/page.tsx:69 | the preview is the selected client's balance (0 when absent) plus the coins to add |
| CoinsPage.Submit | src/app/admin/vyper-coins/page.tsx:71-127 | without a client or with `amount <= 0` the page rejects and sends nothing; otherwise the balance write goes first, a failed write stops before any log row, a failed log insert leaves the advanced balance, and success writes both |
| CoinsPage.SubmitStore | src/app/admin/vyper-coins/page.tsx:88-112 | the store a purchase leaves, by how far it got |
| CoinsPage.SubmitKeepsCoinsConsistent | src/app/admin/vyper-coins/page.tsx:88-112 | a purchase from a fresh snapshot keeps every client's cache equal to its log sum unless the log insert fails |
| CoinsPage.PurchaseKeepsMatch | src/app/admin/vyper-coins/page.tsx:88-112 | raising the client's balance by the coins a purchase earns while logging the same coins keeps every client's cache equal to its log sum |
| CoinsPage.FailedInsertLeavesDrift | src/app/admin/vyper-coins/page.tsx:98-112 | when the log insert fails after the balance write, the cache runs ahead of the log |
| CoinsPage.StaleSnapshotLosesUpdate | src/app/admin/vyper-coins/page.tsx:68-96 | a purchase computed from a stale balance overwrites the newer one and breaks cache = log sum |
| CoinsPage.Find | src/app/admin/vyper-coins/page.tsx:141 | `find` yields none iff no loaded client has the id, and otherwise a loaded client with that id |
| CoinsPage.ConfirmDelete | src/app/admin/vyper-coins/page.tsx:134-184 | nothing happens without a row; a row whose client is not loaded is deleted with no balance change; otherwise the balance is set to the loaded balance minus the row's coins before the delete, and a failed balance write stops the delete |
| CoinsPage.ConfirmStore | src/app/admin/vyper-coins/page.tsx:139-174 | the store a reversal leaves, by how far it got |
| CoinsPage.PatchCoinsOnly | src/app/admin/vyper-coins/page.tsx:148-155 | the reversal's body changes the coin balance and no other column |
| CoinsPage.UnbumpKeepsConsistent | src/app/admin/vyper-coins/page.tsx:144-174 | moving the stored balance back by the row's coins and deleting the row keeps cache = log sum |
| CoinsPage.ReversalKeepsCoinsConsistent | src/app/admin/vyper-coins/page.tsx:134-174 | a completed reversal with a fresh client list keeps every client's cache equal to its log sum |
| CoinsPage.PurchaseThenReversalRestores | src/app/admin/vyper-coins/page.tsx:68-174 | a purchase then the reversal of its row restores the log and the client's balance (an absent balance comes back as 0) and changes no other client |
| CoinsPage.ReverseAfterPurchase | src/app/admin/vyper-coins/page.tsx:139-174 | on the store a purchase leaves, the reversal completes, restores the log and writes back the original balance |
| CoinsPage.SetCoinsTwice | src/app/admin/vyper-coins/page.tsx:145-155 | of two balance writes to one client, the second stays |
| PosSale.EarnedCoins | src/app/api/sale/route.ts:15-16 | the coins earned are the whole thousands in the amount |
| PosSale.NewClient | src/app/api/sale/route.ts:32-47 | an unknown phone gets a `CLIENT` row with that phone, both balances 0 and the given name or `Cliente <phone>` |
| PosSale.NewDebt | src/app/api/sale/route.ts:57 | the debt grows by the amount on credit and is unchanged on cash |
| PosSale.NewCoins | src/app/api/sale/route.ts:58 | the coins grow by the earned coins, on credit or not |
| PosSale.Credit | src/app/api/sale/route.ts:56-118 | a failed update returns 500 and writes nothing; otherwise only the buyer's two balances change, a POS log row is added unless its insert fails, and the webhook announces the computed balances |
| PosSale.Post | src/app/api/sale/route.ts:6-124 | 400 on a falsy phone or amount; 500 on a failed fetch, create or update, and every error past validation is a 500, with no trace except a client already created; on success the answer reports exactly the new balances, no coin or debt ledger row is written, and the webhook goes to the typed number |
| PosSale.SaleStore | src/app/api/sale/route.ts:60-73 | a successful sale leaves the client table as one balance update of the buyer |
| PosSale.Settle | src/app/api/sale/route.ts:63-68 | the sale's update sets both balances to the computed values on any client, and never changes a phone or an id |
| PosSale.SaleIsFoundNext | src/app/api/sale/route.ts:19-68 | after a sale to a phone held by at most one client, the next lookup of that phone finds the updated buyer |
| PosSale.DuplicatePhoneCreatesAgain | src/app/api/sale/route.ts:19-54 | when two or more clients hold the phone, `.single()` finds none, the sale creates yet another client, and the phone still finds none |
| PosSale.SaleBypassesCoinLog | src/app/api/sale/route.ts:56-84 | coins earned at the till raise the cache without a coin row, breaking cache = log sum |
| PosSale.TwoSalesAddUp | src/app/api/sale/route.ts:19-73 | two sales to a phone that names one client add both coin amounts and both credit amounts to its balances |
| PosSale.CreditTwice | src/app/api/sale/route.ts:57-58 | applying two sales' balance updates adds both earnings and both credits |
| PosSale.SaleOnKnownPhone | src/app/api/sale/route.ts:19-73 | a sale to a phone that names one client succeeds unless the fetch or update fails, and credits that client |
| ClientsApi.ToBool | src/app/api/clients/route.ts:42-50 | undefined, null and `''` read as true; a boolean is itself; a string is true iff trimmed and lower-cased it is `true`, `1`, `yes` or `si`; a number is true iff non-zero; an object is true |
| ClientsApi.ToBoolIgnoresCase | src/app/api/clients/route.ts:46-47 | case does not change how a string reads |
| ClientsApi.ToBoolRejectsOtherWords | src/app/api/clients/route.ts:43-48 | a non-empty string that is not a yes-word reads as false, while an empty or missing cell reads as true |
| ClientsApi.ToRow | src/app/api/clients/route.ts:52-66 | the import keeps phone, name and observations, uses `CLIENT` for a missing or empty profile and 0 for missing balances, and reads both flags through `toBool`, so a missing flag is true |
| ClientsApi.ToRows | src/app/api/clients/route.ts:52-66 | `inserts` maps every record, in order |
| ClientsApi.IndexOfPhone | src/app/api/clients/route.ts:69-76 | the first position of a phone, or -1 exactly when it is absent |
| ClientsApi.LastIndexOfPhone | src/app/api/clients/route.ts:69-76 | the last position of a phone, or -1 exactly when it is absent |
| ClientsApi.StepSkip | src/app/api/clients/route.ts:71-74 | a record without a phone leaves the map as it was and keeps its promise |
| ClientsApi.StepOverwrite | src/app/api/clients/route.ts:72 | a repeated phone overwrites its entry in place and keeps the promise |
| ClientsApi.StepAppend | src/app/api/clients/route.ts:72 | a new phone is appended at the end and keeps the promise |
| ClientsApi.DedupMeetsSpec | src/app/api/clients/route.ts:68-76 | the de-duplication keeps every phone of the input once, drops phone-less records, keeps for each phone its last record, and lists phones in order of first occurrence |
| ClientsApi.Dedup | src/app/api/clients/route.ts:68-78 | the de-duplicated list is never longer than the input, and every kept record has a phone |
| ClientsApi.Import | src/app/api/clients/route.ts:35-95 | a failed upsert gives 500 and no write; otherwise the count is the number of de-duplicated records, never more than the input; after the upsert some client with each kept record's phone carries that record's balances; every client whose phone no record names survives; the ledgers and the POS log are untouched |
| ClientsApi.UpsertOneWrites | src/app/api/clients/route.ts:80-83 | after one upserted record, a client with its phone carries its balances |
| ClientsApi.UpsertOneKeeps | src/app/api/clients/route.ts:80-83 | a client with another phone passes through one upserted record untouched |
| ClientsApi.UpsertOneKeepsAll | src/app/api/clients/route.ts:80-83 | upserting one record never shrinks the table and keeps every client with another phone |
| ClientsApi.UpsertAll | src/app/api/clients/route.ts:80-83 | upserting the records never shrinks the table and keeps every client whose phone no record names |
| ClientsApi.UpsertCarriesAll | src/app/api/clients/route.ts:80-83 | after upserting records with distinct phones, some client with each record's phone carries that record's balances |
| ClientsApi.KeptPhonesImported | src/app/api/clients/route.ts:68-78 | a phone none of the imported items has is the phone of no kept record |
| ClientsApi.UpsertOverwritesBalances | src/app/api/clients/route.ts:63-83 | after the upsert of distinct phones, every imported phone belongs to a client carrying the imported balances, whatever the ledgers say |
| ClientsApi.Put | src/app/api/clients/route.ts:97-115 | without a truthy id, 400; a failed update, 500 with no write; otherwise exactly the clients with that id change, each supplied column (name, phone, observations, profile and both balances) is written as given and each absent one kept; nothing else changes; the updated rows are returned |
| ClientsApi.Patch | src/app/api/clients/route.ts:104-108 | the client patch never changes a client's id, and patching twice is patching once |
| ClientsApi.Delete | src/app/api/clients/route.ts:117-134 | without an id, 400; otherwise no client with that id remains, every other client survives, no survivor is new, and no ledger changes |
| ClientsApi.PutAddressesOne | src/app/api/clients/route.ts:104-108 | after an update, `.single()` on the addressed id finds the old client with the supplied columns written over it, and on any other id what it found before |
| ClientsApi.PutIdempotent | src/app/api/clients/route.ts:97-115 | sending the same update twice leaves the store as the first one did |
| ClientsApi.DeleteKeepsOthers | src/app/api/clients/route.ts:124-127 | after a delete, `.single()` on any other id finds what it found before |
| ClientsApi.DeleteIdempotent | src/app/api/clients/route.ts:117-134 | deleting the same id twice leaves the store as the first delete did |
| DebtPage.Filtered | src/app/admin/debt/page.tsx:64-67 | every suggestion matches the term and every matching client is suggested |
| DebtPage.MatchIndexes | src/app/admin/debt/page.tsx:64-67 | the positions of the matching clients: in range, increasing, and covering every match |
| DebtPage.FilteredInOrder | src/app/admin/debt/page.tsx:64-67 | the k-th suggestion is the client at the k-th matching position, so the filter keeps list order |
| DebtPage.FilteredFromClients | src/app/admin/debt/page.tsx:64-67 | every suggestion is a loaded client |
| DebtPage.FilteredEmptyIff | src/app/admin/debt/page.tsx:64-67 | the filter is empty iff no client matches |
| DebtPage.FilteredKeepsAll | src/app/admin/debt/page.tsx:64-67 | when every client matches, the whole list is kept |
| DebtPage.EmptyTermMatches | src/app/admin/debt/page.tsx:64-67 | the empty term matches exactly the clients with a name or a phone |
| DebtPage.NameSearchIgnoresCase | src/app/admin/debt/page.tsx:65 | on names, the term's case does not matter |
| DebtPage.Suggestions | src/app/admin/debt/page.tsx:216-228 | at most 10 suggestions, a prefix of the filter, none with a client selected or an empty term |
| DebtPage.Preview | src/app/admin/debt/page.tsx:126-130 | the preview is the current balance (0 when absent) plus the amount for a charge and minus it for a payment |
| DebtPage.KindName | src/app/admin/debt/page.tsx:86-95 | the type the page sends is one the route accepts, as the same kind |
| DebtPage.Submit | src/app/admin/debt/page.tsx:69-112 | without a client or with `amount <= 0` the page rejects and sends nothing; otherwise it posts once and succeeds iff the route appends the row it asked for |
| DebtPage.PreviewAgreesWithServer | src/app/admin/debt/page.tsx:126-130 | with a fresh snapshot, the previewed balance is the `balance_after` the server records and, unless the write fails, the new cached balance |
| Notifier.CleanPhone | src/lib/builderbot.ts:28 | the cleaned phone holds only digits, is no longer than the input, and an all-digit phone is unchanged |
| Notifier.CleanPhoneConcat | src/lib/builderbot.ts:28 | cleaning distributes over concatenation |
| Notifier.CleanPhoneChar | src/lib/builderbot.ts:28 | one character is kept iff it is a digit, so the result is the input's digits in order |
| Notifier.CleanPhoneIdempotent | src/lib/builderbot.ts:28 | cleaning twice is cleaning once |
| Notifier.SendWhatsApp | src/lib/builderbot.ts:12-78 | without URL or key nothing is sent and the result is false; otherwise the request goes to the cleaned number with the configured URL and key, and the result is true iff the answer is OK, never an exception |
| Analytics.Upsert | src/app/api/analytics/route.ts:68 | the key gets `f` of its old value (or of the initial one) and is added if new; every other key keeps its value and every row its place |
| Analytics.SortedUpsertSpec | src/app/api/analytics/route.ts:48-49 | an upsert into a key-sorted list keeps it sorted and has the same lookups as the plain upsert |
| Analytics.SortedUpsert | src/app/api/analytics/route.ts:48-49 | adding to a month map never drops a month |
| Analytics.UpsertAppends | src/app/api/analytics/route.ts:68 | a category not yet present is appended at the end with its first amount |
| Analytics.UpsertSum | src/app/api/analytics/route.ts:68 | an upsert moves a weighted sum by exactly the change in the key's weight |
| Analytics.SortedUpsertSum | src/app/api/analytics/route.ts:48-49 | the same for the sorted upsert |
| Analytics.MonthKey | src/app/api/analytics/route.ts:33 | the month key is the date's prefix of length 7, or the whole date when shorter |
| Analytics.NormalizeBranch | src/app/api/analytics/route.ts:34 | a falsy branch is `Unknown` and any other branch is trimmed |
| Analytics.SaleMonthsSpec | src/app/api/analytics/route.ts:43-59 | the sales pass yields sorted months whose sales add up to all sales and whose expenses are 0 |
| Analytics.SaleMonths | src/app/api/analytics/route.ts:43-59 | the per-month sales map is ordered by month key |
| Analytics.MonthStep | src/app/api/analytics/route.ts:48-49 | adding to one month changes that month's entry only, starting from zero when it is new |
| Analytics.NoSaleNoSum | src/app/api/analytics/route.ts:43-59 | a month (and branch) with no sale has a sales total of 0 |
| Analytics.SaleMonthsAt | src/app/api/analytics/route.ts:43-59 | each month key maps to the sum of that month's sales, and is absent iff no sale falls in it |
| Analytics.ExpenseMonthsSpec | src/app/api/analytics/route.ts:62-75 | the expenses pass keeps the months sorted and the sales sum, and adds every expense |
| Analytics.ExpenseMonths | src/app/api/analytics/route.ts:62-75 | adding expenses to an ordered month map keeps it ordered |
| Analytics.NoExpenseNoSum | src/app/api/analytics/route.ts:62-75 | a month (and branch) with no expense has an expense total of 0 |
| Analytics.ExpenseMonthsAt | src/app/api/analytics/route.ts:62-75 | each month key gains exactly the sum of that month's expenses, and months without expenses keep their entry |
| Analytics.TimelineSpec | src/app/api/analytics/route.ts:42-78 | the timeline is sorted; its sales sum to all sales and its expenses to all expenses, uncategorised ones included |
| Analytics.Timeline | src/app/api/analytics/route.ts:42-78 | the timeline is ordered by month key |
| Analytics.TimelineMonths | src/app/api/analytics/route.ts:42-78 | for every month key, the timeline holds exactly that month's sales and expenses totals, and has no entry iff the month has neither |
| Analytics.NoMentionNoTotal | src/app/api/analytics/route.ts:67-69 | a category no expense names totals 0 |
| Analytics.CategoriesSpec | src/app/api/analytics/route.ts:67-69 | a category is listed iff some expense names it (the empty name never), with the total of those expenses; the list sums to the categorised expenses |
| Analytics.Categories | src/app/api/analytics/route.ts:67-69 | every category listed is non-empty and is named by some expense |
| Analytics.InsertDescending | src/app/api/analytics/route.ts:150-152 | inserting into a descending list keeps it descending and a permutation |
| Analytics.RankDescending | src/app/api/analytics/route.ts:150-152 | the category sort is descending by value and a permutation of its input |
| Analytics.RankKeepsSum | src/app/api/analytics/route.ts:150-152 | sorting keeps the total |
| Analytics.RankKeepsDescending | src/app/api/analytics/route.ts:150-152 | the sort is stable: an already descending list comes back unchanged |
| Analytics.WeekdayTotals | src/app/api/analytics/route.ts:51-53 | there are always seven weekday totals |
| Analytics.WeekdayTotalsSpec | src/app/api/analytics/route.ts:43-59 | each weekday's total is the sum of that day's sales, and the seven add up to all sales |
| Analytics.WeekdayStats | src/app/api/analytics/route.ts:117-123 | seven rows with distinct day names, Monday first and Sunday last with Sunday's total |
| Analytics.WeekdayStatsCover | src/app/api/analytics/route.ts:118-123 | every weekday appears with its name and its total |
| Analytics.WeekdayStatsSum | src/app/api/analytics/route.ts:118-123 | the rows add up to the seven totals |
| Analytics.AgreeStep | src/app/api/analytics/route.ts:55-58 | one sale or expense moves the month totals and the branch totals of that month alike |
| Analytics.BranchSaleMonthsAgree | src/app/api/analytics/route.ts:55-58 | the branch months of the sales pass have the timeline's keys and its sales per month |
| Analytics.BranchExpenseMonthsAgree | src/app/api/analytics/route.ts:71-74 | the expenses pass keeps that agreement |
| Analytics.BranchMonthsAgree | src/app/api/analytics/route.ts:42-75 | branch months and timeline have the same months, and per month the branches add up to the month's totals |
| Analytics.BranchMonths | src/app/api/analytics/route.ts:42-75 | the per-month branch map is ordered by month key |
| Analytics.BranchStep | src/app/api/analytics/route.ts:55-58 | adding to one branch of one month changes that cell only, starting from zero when it is new |
| Analytics.BranchSaleMonthsAt | src/app/api/analytics/route.ts:55-58 | each (month, branch) cell holds the sum of the sales of that branch in that month, and is absent iff there are none |
| Analytics.BranchExpenseMonthsAt | src/app/api/analytics/route.ts:71-74 | each (month, branch) cell gains exactly the sum of that branch's expenses in that month |
| Analytics.BranchMonthsCells | src/app/api/analytics/route.ts:42-75 | each (month, branch) cell holds exactly that branch's sales and expenses totals in that month, and is absent iff it has neither |
| Analytics.LastThree | src/app/api/analytics/route.ts:127-129 | at most three entries, the last ones of the list, still sorted, and every dropped month is earlier than every kept one |
| Analytics.BranchComparisonSpec | src/app/api/analytics/route.ts:125-146 | the comparison has `min(3, months)` entries, sorted, each a month of the timeline |
| Analytics.BranchComparisonLatest | src/app/api/analytics/route.ts:125-146 | every timeline month the comparison leaves out is earlier than every month it shows |
| Analytics.GetSorted | src/app/api/analytics/route.ts:127-129 | in a month map ordered by key, looking up an entry's key finds that entry |
| Analytics.BranchComparisonCells | src/app/api/analytics/route.ts:125-146 | every compared month holds, per branch, exactly that branch's sales and expenses totals in that month |
| Analytics.DenominatorAppend | src/app/api/analytics/route.ts:83-92 | one more offset raises `n*sumXX - sumX*sumX` by the squared spread of the old offsets around the new one |
| Analytics.DenominatorNonNegative | src/app/api/analytics/route.ts:92 | the regression denominator is never negative |
| Analytics.DenominatorPositive | src/app/api/analytics/route.ts:92-93 | two different month offsets make the denominator positive |
| Analytics.MaxZero | src/app/api/analytics/route.ts:105 | `Math.max(0, x)` is at least 0 and at least x, and is one of them |
| Analytics.Project | src/app/api/analytics/route.ts:99-107 | each forecast point is never negative and is dated `i` months after the last month |
| Analytics.Forecast | src/app/api/analytics/route.ts:80-109 | the forecast has 0 or 3 points, 3 exactly when there are two or more months and the denominator is not 0; the points are the next three months, none negative |
| Analytics.ForecastWhenOffsetsDiffer | src/app/api/analytics/route.ts:80-93 | two months at different offsets yield three forecast points |
| Analytics.LinearSums | src/app/api/analytics/route.ts:86-90 | on points on a line, `sumY` and `sumXY` follow from `sumX` and `sumXX` |
| Analytics.SlopeOfLine | src/app/api/analytics/route.ts:94 | on points on a line, the fitted slope is the line's slope |
| Analytics.FitOfLine | src/app/api/analytics/route.ts:94-95 | on points on a line, slope and intercept are the line's |
| Analytics.ProjectOnLine | src/app/api/analytics/route.ts:99-105 | with an exact line, a projected point is the line's value, floored at 0 |
| Analytics.ForecastExtendsExactTrend | src/app/api/analytics/route.ts:80-109 | when sales lie on a line, the forecast continues that line, floored at 0 |
| Analytics.Analyze | src/app/api/analytics/route.ts:6-162 | a failed fetch gives 500; no sales give five empty lists even with expenses; otherwise the timeline holds, for every month key, exactly the month's sales and expenses (absent iff the month has neither); categories are descending with the categorised total; the forecast has 0 or 3 points; the weekdays are seven adding up to all sales; and the branch comparison covers the last `min(3, months)` months, each holding per branch exactly that branch's sales and expenses in that month, with every month it leaves out earlier than every month it shows |
| BiPage.ScaledPercentage | src/app/admin/bi/page.tsx:51-52 | the fold's test is the percentage test whenever the quotient is exact |
| BiPage.SmallIsUnderOnePercent | src/app/admin/bi/page.tsx:51-52 | over a non-zero total, a category is small iff `(value / total) * 100 < 1` |
| BiPage.FirstIndex | src/app/admin/bi/page.tsx:54 | `findIndex` yields the first entry with the name, or -1 exactly when there is none |
| BiPage.FoldKeepsSum | src/app/admin/bi/page.tsx:49-64 | the processed categories add up to the input categories |
| BiPage.FoldStepMerge | src/app/admin/bi/page.tsx:54-56 | a small category joins the existing `Varios` entry |
| BiPage.FoldStepFirst | src/app/admin/bi/page.tsx:57-58 | the first small category appends one `Varios` entry |
| BiPage.FoldStepKeep | src/app/admin/bi/page.tsx:60-61 | a category that is not small is kept as it is |
| BiPage.FoldSpec | src/app/admin/bi/page.tsx:50-64 | the kept categories stay in order with their values, with at most one `Varios` entry, present iff something was small and holding the small values' sum |
| BiPage.AddToVarios | src/app/admin/bi/page.tsx:54-58 | adding a small amount to `Varios` adds at most one category |
| BiPage.Fold | src/app/admin/bi/page.tsx:49-64 | folding never lengthens the category list |
| BiPage.Processed | src/app/admin/bi/page.tsx:49-64 | the chart's categories are never more than the input's, and their amounts add up to the same total |
| BiPage.SmallJoinsNamedVarios | src/app/admin/bi/page.tsx:54-56 | small categories merge into a category that is itself named `Varios` |
| BiPage.ZeroTotalFoldsNegatives | src/app/admin/bi/page.tsx:49-52 | over a zero total a negative category is folded and a positive one is kept |
| BiPage.CardsMatchLedger | src/app/admin/bi/page.tsx:88-100 | with sales, the cards show all sales, all expenses and their difference as the net balance |
| BiPage.NoSalesHidesExpenses | src/app/admin/bi/page.tsx:88-100 | without sales the cards show 0 whatever the expenses |
| BiPage.SumOfNet | src/app/admin/bi/page.tsx:88-100 | the net over the timeline is total sales minus total expenses |
| BiPage.NetBalance | src/app/admin/bi/page.tsx:88-100 | the net balance card is the sum of each month's sales minus expenses |
| BiPage.DashboardOf | src/app/admin/bi/page.tsx:49-100 | a report shows total sales and expenses equal to the timeline's, a net equal to their difference, categories adding up to the report's and never more of them, and one chart point per timeline month and forecast month |
| BiPage.Combined | src/app/admin/bi/page.tsx:43-46 | the chart series is as long as the timeline and the forecast together |
| BiPage.CombinedSplits | src/app/admin/bi/page.tsx:43-46 | the series splits back into the timeline (no forecast values) and the forecast (no sales or expenses) |
| BiPage.ViewAsWritten | src/app/admin/bi/page.tsx:25-46 | a failed request shows the error message; the render crashes exactly when the answer is an `{ error }` body; a report body shows the cards and chart of that report |
| BiPage.FetchFailureCrashesPage | src/app/admin/bi/page.tsx:25-46 | a failed analytics fetch crashes the page as written |
| BiPage.Render | src/app/admin/bi/page.tsx:41-46 | the corrected page never crashes and otherwise shows what the page as written shows |
| BiPage.ViewOfAnalytics | src/app/admin/bi/page.tsx:25-64 | with the error body handled, the page shows the error message iff the fetch failed; otherwise the net card is all sales minus all expenses and the categories add up to the categorised expenses |

## Left out

- The Supabase client, HTTP transport, `fetch`/`axios` and JSON parsing. Store calls are pure functions of a table snapshot, and each failing call is a boolean fault input.
- Concurrency. Every handler runs alone, so the lost update between the debt route's balance read and write is not modelled. `CoinsPage.StaleSnapshotLosesUpdate` covers the single-threaded form of the stale-snapshot problem.
- Clock and dates: `new Date()`, `date`/`last_load_date` columns, `getMonth`, the current-month window of the GET routes.
- Weekdays and month arithmetic are inputs. `getDay(parseISO(date))`, `differenceInMonths` and `addMonths`/`format` are the `Analytics.Calendar` parameter. Invalid dates (`getDay` giving NaN) are not modelled.
- Floating point. Amounts are whole pesos, `parseFloat`/`parseInt` are the identity on them, and the regression uses exact reals. `toLocaleString` and message texts are not modelled.
- Analytics.Analyze: the timeline is ordered by month-key string rather than by `Date`. These agree on well-formed `YYYY-MM` keys, but malformed dates are not followed.
- Analytics.Analyze: the branch comparison keeps per-month, per-branch totals. It does not flatten them into `<branch>_sales` object keys, so key collisions between branch names are not modelled.
- Analytics.Categories: JavaScript's own-key order (integer-like keys first) is not modelled. Categories are kept in insertion order before the descending sort.
- BiPage.FoldSpec: proved only when no input category is itself named `Varios`. `BiPage.SmallJoinsNamedVarios` shows what happens otherwise.
- BiPage.Fold: the model is a pure function, but the page pushes each kept category object itself into the accumulator (src/app/admin/bi/page.tsx:61). When a kept category is named `Varios`, adding small values to it (line 56) mutates `data.expenseCategories`, so a re-render folds the already-increased value again. This aliasing is not modelled.
- ClientsApi.UpsertOverwritesBalances: requires distinct phones among the rows. The de-duplication provides that.
- DebtLedger.Reverse: the income row a payment mirrors into `sales` (src/app/api/debt-transactions/route.ts:109-124) stays after the reversal. The route inserts it with no column that refers back to the debt row, so no store operation can find it; the corrected delete therefore leaves `sales` unchanged rather than guessing a match by amount and date.
- Analytics.SortedUpsert: its own contract only says that no month is dropped. Its full effect on every key is stated by `Analytics.SortedUpsertSpec` and `Analytics.MonthStep`.
- ClientsApi.ToRow: the random `client_id`, the spreadsheet column aliases, `last_load_date`, password, photo and image columns are not modelled.
- PosSale.NewClient: the random `client_id`, `last_load_date`, `user_view` and `user_status` columns are not modelled. `isCredit` is read as a boolean.
- Text.Lower: lower-cases ASCII letters only. Non-ASCII case mapping is not modelled.
- `sendDebtNotification` is not in the notifier source. The debt route's notice records the call but not its outcome, which never affects the answer.
- The GET handlers of every route, the pages' loading state, rendering, toasts and timers.
- The PDF report, the Excel import components and the other UI components.

## Findings

| source | as written | input that shows it | evidently intended | confidence | as-written member | corrected member |
|---|---|---|---|---|---|---|
| src/app/api/debt-transactions/route.ts:148-161 | DELETE removes the debt row but leaves the client's cached `debt_balance` as it was | a client owing 500 through one charge row of 500; deleting that row leaves the balance at 500 with no rows | deleting a row moves the balance back by the row's signed amount, as the coins page does for coin rows | not executed | DebtLedger.Delete + DebtLedger.DeleteLeavesBalanceStale | DebtLedger.Reverse + DebtLedger.ReverseKeepsCacheMatchingSum |
| src/app/admin/bi/page.tsx:25-46 | the page stores any JSON body as `data`, including the `{ error }` body of a 500, then reads `data.timeline.map` | the analytics route failing to fetch its tables (status 500, body `{ error: "Failed to fetch data" }`) | a failed analytics answer shows "Error loading data." like a failed request | not executed | BiPage.ViewAsWritten + BiPage.FetchFailureCrashesPage | BiPage.Render + BiPage.ViewOfAnalytics |
