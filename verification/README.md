# A verified model of the VexPay gateway

The project models the parts of VexPay where a mistake costs money: the invoice lifecycle, the reading
of payments from a chain explorer, exact amounts and fiat conversion, the two repositories, and the
signed webhook deliveries. Every claim below is about the model and holds for all inputs.

How the program is rendered:

- Objects the program updates in place are classes with those fields (`Invoices.Invoice`,
  `Repository.MemRepository`, `Sqlite.SqliteRepo`, `Rates.Oracle`, `Sandbox.Adapter`, `Services.Emitter`,
  `Services.Service`, which holds the oracle it asks for prices); loops are loops. Each method is tied by
  its contract to a function on values, and what the program promises is proved about those functions.
- What the world answers (observations, provider prices, clock readings, failing lookups, failing writes)
  is a parameter of each operation and a label of each step of a run, so "every run" means every
  combination of answers and failures.
- `Runs` is the engine one sync at a time, each on a copy equal to the stored record; `Interleaving` splits
  a sync into its read (or listing), observe, write and notification and lets any number of callers hold
  copies of any age. `Changes` and `Notifications` are about the order in which statuses are written and
  told there. `Gateway` adds around that engine the creations, each in its own three steps (price, index,
  insert), the price cache, the per-merchant counters and the simulated chain. `Services` ties the methods
  to these.
- Go's 64-bit arithmetic, uint32 counters, truncating division, saturating time differences and shifts are
  written out.

Where the code does less than its comments or the obvious reading suggest, the model follows the code and
the exact condition is proved:

- A terminal status can change: `Update` overwrites blindly, so a stale copy can put pending back over
  paid (`Interleaving.StaleWriteUndoesPaid`). The stored status survives a write exactly when what its writer
  saw upholds it (`Interleaving.TerminalSurvivesIff`). In the order they are written, each invoice's status
  changes always form one chain ending in its stored status if and only if no saved write finds another
  status stored than the one its writer started from (`Changes.ChangesChainIff`). Even stale writes never
  invent a payment (`Interleaving.NeverFalselyPaid`).
- `Sync` writes first and notifies afterwards, with no lock around the two: even when every write starts from
  the stored record, paid can be told before confirming (`Notifications.FreshWritesTellAcross`). In whatever
  order the outstanding changes are told, each invoice's notifications stay one chain, if and only if every
  saved write finds the status it started from and, when it changes that, no earlier change of the invoice
  untold (`Notifications.ChainsToldIff`). In any case each change is told exactly once or still outstanding
  (`Notifications.EachChangeIsToldOnce`).
- Rising amounts do not by themselves keep a status from falling: from a negative amount an invoice can
  fall back from underpaid to pending, exactly when `Lifecycle.FallsBackIff` says.
- A pending or expired invoice may hold a received amount that its adapter no longer reports;
  `Lifecycle.StatusImpliedIff` says when the status still follows from the stored fields.
- A total read before the transaction list can include a payment that is gone by then
  (`Bitcoin.VanishedPaymentIsCounted`). A total reported deep enough was paid that deep exactly when the sums
  read first count no more than the history holds (`Bitcoin.ReportedIsDeepIff`), and an invoice is settled
  rightly exactly when the history holds its amount (`Lifecycle.SettledRightlyIff`, and over runs
  `Interleaving.SettledRightlyIffPaid`). The reads need not be one snapshot.
- A late small payment holds back an otherwise settled bitcoin invoice; `Lifecycle.SettlesIff` gives the exact
  condition for every status of an invoice on one snapshot of the chain.
- Sandbox addresses depend only on the index, and indexes are counted per merchant as uint32, so two
  merchants' first invoices share an address (`Gateway.MerchantsShareAddresses`). Two invoices share one
  exactly when the numbers of their allocations, each within its merchant, differ by a multiple of 2^32
  (`Gateway.SharedAddressIff`), and a payment to one is seen for the other exactly then
  (`Gateway.PaymentReaches`).
- `ParseDecimal` accepts one sign more than a decimal has, before everything else that is written, because
  big.Int accepts one ("--5" is 5, ".-5" is -0.05 in BTC), and reads a lone sign or point as zero
  (`Money.InnerSignsParse`, `Money.LoneMarksAreZero`). `Money.ParseNumeralExact` and
  `Money.ParseDecimalAccepts` say for every text whether it parses, and to what.
- The tolerance check of `Verify` also admits times so far ahead that the age saturates
  (`Webhook.ToleranceIff`).
- At the 35th retry the default backoff overflows to a negative delay (`Dispatcher.BackoffOverflows`); the
  total waiting meets its bound exactly for up to 35 attempts (`Dispatcher.WaitedIsBounded`).

## Model

The main results come first, then the rest module by module.

| member | source | states |
|---|---|---|
| Interleaving.EveryRecordIsGenuine | internal/invoice/service.go:188-241 | Under every interleaving each stored record, held copy and emitted snapshot is sound and has created terms |
| Changes.ChangesChainIff | internal/invoice/service.go:208-233 | At every moment of a run each invoice's changes, in the order written, form one chain ending in its stored status, if and only if every saved write finds stored the status its writer started from; fresh writes always do |
| Notifications.FreshWritesTellAcross | internal/invoice/service.go:231-239 | A run of two callers, every write fresh, in which paid is told before confirming, so that the notifications are no chain |
| Notifications.ChainsToldIff | internal/invoice/service.go:208-240 | At every moment of a run every order of telling what is outstanding leaves each invoice's notifications one chain, ending in its stored status once all are told, if and only if every saved write finds stored the status it started from and, if it changes that, no earlier change of the invoice untold |
| Notifications.EachChangeIsToldOnce | internal/invoice/service.go:231-239 | In every run each change written has been told exactly once or is yet to be told by its writer |
| Interleaving.TerminalSurvivesIff | internal/invoice/memrepo.go:46-54 | A stored terminal status survives a write exactly when its writer saw: for paid the exact amount at the required depth, for overpaid more at that depth, for expired too little after the window; a fresh write never meets one |
| Interleaving.StaleWriteUndoesPaid | internal/invoice/memrepo.go:46-54 | A run of two callers in which pending is written over paid |
| Interleaving.FreshRunsSerialise | internal/invoice/service.go:188-241 | If no write comes from a stale copy, the store is that of a proper serialised run, and the changes in the order written are what that run tells |
| Interleaving.EveryStatusWasDecided | internal/invoice/service.go:188-241 | However syncs interleave, every status but pending was decided from an observation some sync of that invoice made |
| Interleaving.NeverFalselyPaid | internal/invoice/service.go:188-271 | Under every interleaving a bitcoin invoice stored or announced as settled was decided so from an observation of it at which its amount was there at the required depth |
| Interleaving.SettledRightlyIffPaid | internal/invoice/service.go:188-271 | Assuming nothing of the sums read, it was settled rightly exactly when at that look the history held its amount |
| Runs.EventsFormChain | internal/invoice/service.go:221-240 | In every run, whatever fails, each invoice's events form one chain from pending that ends in its stored status |
| Runs.AtMostThreeEvents | internal/invoice/service.go:245-271 | With monotone observations an invoice tells at most three events, each strictly further along |
| Runs.SettledWasPaidDeep | internal/invoice/service.go:188-271 | In every run a bitcoin invoice stored as settled was decided so by a sync of it that was stored, at which its amount was there at the required depth |
| Lifecycle.SettlesIff | internal/chain/btc/backend.go:70-105 | On one exact snapshot each status is decided exactly by the history: paid or overpaid when the total is the amount or more and every payment is deep enough, confirming when it is but some is not, underpaid, pending or expired when it falls short, by amount and window |
| Lifecycle.SettledRightlyIff | internal/invoice/service.go:245-271 | A decision to settle is right exactly when the history, as it stands, holds the amount |
| Lifecycle.FallsBackIff | internal/invoice/service.go:249-261 | With rising amounts the decision falls back exactly from a negative amount to zero within the window |
| Lifecycle.StatusImpliedIff | internal/invoice/service.go:213-226 | The stored status follows from the stored fields exactly when seen, or nothing was ever received, or the window lapsed on too little |
| Bitcoin.ReportedIsDeepIff | internal/chain/btc/backend.go:70-105 | A total reported at the required depth was paid that deep exactly when the sums read count no more than the history holds |
| Bitcoin.DepthReachedIff | internal/chain/btc/backend.go:70-105 | On one exact snapshot a payment is seen exactly when the history holds one, confirmed or not, with its total, and the depth is reported as reached exactly when a payment is listed and none at all is shallower |
| Bitcoin.SeenIff | internal/chain/btc/btc.go:94-109 | On any reading a payment is seen exactly when the sums are not zero; depth and identifier are those of the first paying transaction listed |
| Services.TickIsPointwise | internal/invoice/service.go:274-286 | A failing invoice keeps its record, every other open one is advanced by its own observation, each tells its own events |
| Services.WatcherTellsChains | internal/watcher/watcher.go:28-44 | However long the watcher runs and whatever is created or synced between ticks, as long as syncs do not overlap, notifications of an invoice form one chain ending in its stored status |
| Services.CallerSession | internal/invoice/service.go:234-239 | However long a caller syncs and overwrites its object, earlier snapshots keep their values and the repository moves only by the syncs |
| Gateway.EveryInvoiceAsksForMoney | internal/invoice/service.go:91-173 | Every stored invoice has the whole payment window, asks for at least one smallest unit however it was priced, and a sandbox or bitcoin invoice's URI asks for exactly its amount at its address |
| Gateway.BitcoinSettledRightlyIff | internal/chain/btc/btc.go:41-53 | In every run of the gateway a bitcoin invoice stored or announced as settled was decided so from an observation of it, rightly exactly when the history then held its amount; its adapter always requires a confirmation |
| Gateway.StoredAmountIsFresh | internal/rates/rates.go:53-106 | In every run with a monotone clock and slash-free symbols each stored amount and rate is the one given, or the least count covering the fiat amount at a price the run's own oracle obtained for the invoice's symbol and currency by the call that priced it or less than the TTL before |
| Gateway.StatusFollowsFields | internal/api/sandbox.go:82-84 | Under every interleaving of callers, watcher and simulated payments, the status of each sandbox record stored, held or told is what its stored fields imply |
| Gateway.SharedAddressIff | internal/chain/mock/mock.go:52-59 | In every run two stored sandbox invoices, of whatever merchants, share an address exactly when their indexes are equal, exactly when their allocation numbers differ by a multiple of 2^32 |
| Gateway.PaymentReaches | internal/chain/mock/mock.go:62-93 | Simulating a payment to one sandbox invoice is seen for another exactly when they share an index, and otherwise changes nothing seen of it |
| Gateway.SharedBitcoinAddressIff | internal/chain/btc/btc.go:61-90 | The address of a stored bitcoin invoice is derived from the wallet it was ordered with at its own index; two share one exactly when derivation agrees there, and a merchant's never do up to 2^32 allocations unless two indexes collide |
| Gateway.SimulationAdvances | internal/api/sandbox.go:36-88 | In every state of a run the payment simulator stores the invoice advanced by that very payment and tells of the change; paying exactly the amount with enough confirmations settles it as paid |
| Sqlite.EngineRunsOnEither | internal/invoice/repository.go:7-21 | Under every interleaving the gateway issues its five repository operations only in ways on which the table answers like the memory, and the memory they leave is the run's store and counters, so it cannot tell which repository it runs on |
| Repository.PagesListEachOnce | internal/invoice/memrepo.go:70-96 | Going through the pages lists each of the merchant's invoices exactly once, newest first with ties in insertion order |
| Money.RoundTrip | internal/money/money.go:42-129 | Printing then parsing gives back every amount, of either sign and any precision, also with white space around it |
| Money.ParseNumeralExact | internal/money/money.go:42-73 | For every numeral: refused exactly for too many places or when neither digits[.digits] (either part may be empty, then zero) nor such with one inner sign; without one the units are the written value times 10^decimals, with one the signed digits after it, scaled |
| Money.URICarriesAmount | internal/chain/btc/btc.go:111-114 | A payment URI read back gives exactly the amount and the address it was made from (BIP 21, section "Transfer amount/size") |
| Rates.UnitsAreLeast | internal/rates/rates.go:99-103 | The converted units are the least that cover the fiat price |
| Rates.EveryPriceIsFresh | internal/rates/rates.go:53-84 | In every run with a monotone clock and symbols without slashes, each price was obtained for that symbol and, up to case, that currency, from the first provider with a positive answer when asked in lower case, by this call or by one less than the TTL ago |
| Webhook.AcceptedMeansUntampered | internal/webhook/signer.go:22-73 | Unless the signatures of the two messages collide, accepted means within tolerance and the body is the one signed |
| Webhook.ToleranceIff | internal/webhook/signer.go:53-61 | The check admits exactly the times within tolerance and those so far ahead that the age saturates |
| Webhook.ReadersAgree | sdks/php/src/Webhook.php:70-92 | On plain headers either reader takes what the other takes, exactly when the time is unsigned, fits 64 bits and the signature is not empty; PHP reads a longer time as the largest integer |
| Webhook.PhpLenientByUnderASecond | sdks/php/src/Webhook.php:49-65 | PHP accepts every signed delivery Go accepts, and nothing Go would refuse with one more second of tolerance |
| Dispatcher.WaitedIsBounded | internal/webhook/dispatcher.go:112-128 | Total waiting never exceeds 2^(n-1)-1 seconds up to six attempts and 31+30(n-6) beyond, and equals it exactly up to 35 attempts |
| Lifecycle.DecideMeaning | internal/invoice/service.go:245-271 | Each status is decided exactly when its meaning holds: full amount in sight keeps an invoice from expiring, at the required depth it settles it, anything less lapses with the window |
| Lifecycle.AdvanceOk | internal/invoice/service.go:205-226 | A sync keeps paid = amount, overpaid > amount, both at the required depth, payment time exactly when settled; terms never move; what was last seen is kept when nothing is seen |
| Lifecycle.NoFalsePaid | internal/invoice/service.go:245-271 | A bitcoin invoice is decided settled only when its amount has been sent to its address in transactions at least as deep as it requires |
| Lifecycle.DecideMovesForward | internal/invoice/service.go:245-271 | Without retraction the decision only moves forward, whatever confirmations do; expiry only from pending or underpaid |
| Lifecycle.SecondSyncIsQuiet | internal/invoice/service.go:185-187 | Syncing is idempotent: same observation, no deadline crossed, nothing emitted and nothing moved but the update time |
| Bitcoin.PaysAddress | internal/chain/btc/backend.go:107-114 | Finds whether any output goes to the address |
| Bitcoin.ReadAddressStatus | internal/chain/btc/backend.go:70-105 | The requests, the selection loop and its early exits compute the status of the newest paying transaction; a failed request is never an answer |
| Bitcoin.ReportedDepthIsSafe | internal/chain/btc/backend.go:96-101 | 64-bit wrap-around can only make the reported depth smaller than the true one |
| Bitcoin.NewestIsShallowest | internal/chain/btc/backend.go:90-103 | When the newest paying transaction is deep enough, every payment is |
| Bitcoin.ReportedIsDeep | internal/chain/btc/btc.go:94-109 | The total reported at a number of confirmations was paid in transactions at least that deep, also across reads that are not one snapshot |
| Bitcoin.VanishedPaymentIsCounted | internal/chain/btc/backend.go:70-105 | A counted mempool payment that is gone when the list is read: a reading that fails the condition of ReportedIsDeepIff |
| Runs.RunKeepsRecords | internal/invoice/service.go:188-241 | In every run every stored record is sound, under its own identifier, with the terms it was created with |
| Runs.StoredIffCreated | internal/invoice/service.go:91-145 | Exactly the created invoices are stored |
| Runs.TerminalOnlyLast | internal/invoice/invoice.go:32-40 | In such a chain only the last event can be terminal |
| Runs.TerminalStays | internal/invoice/invoice.go:32-40 | In a serialised run a terminal record never changes again |
| Runs.StatusWasDecided | internal/invoice/service.go:208-226 | Every status but pending was decided by a sync of that invoice that was stored |
| Interleaving.WritesKeepTerms | internal/invoice/service.go:212-233 | A write, however stale, replaces a record by one with the same terms |
| Interleaving.CopiesAreEqual | internal/invoice/memrepo.go:35-68 | Reading and listing hand out copies equal to what is stored, listing only of open invoices |
| Services.ResolvedAmountIsPositive | internal/invoice/service.go:150-173 | Whatever the providers answer, the amount is in the chain's asset and at least one smallest unit; priced in fiat it is the least that covers the price at what the oracle answered |
| Services.Service.Resolve | internal/invoice/service.go:150-173 | Resolving an amount asks the oracle only for a fiat price and leaves its cache as the call does |
| Services.CreatedURIAsksForAmount | internal/invoice/service.go:117-128 | The payment URI of a created invoice asks for its amount at its address |
| Services.Service.Create | internal/invoice/service.go:91-145 | Priced by its own oracle, creation is a create step of the engine with exactly these fields: the window from now, the oracle's rate when priced in fiat, the derived target; a refused request changes nothing but the price cache; a failed derivation or insert only burns an index |
| Services.Service.Absorb | internal/invoice/service.go:207-226 | Decides and assigns the observation to the invoice's fields |
| Services.Service.Sync | internal/invoice/service.go:188-241 | On a copy of any age: the copy takes the observation, the store and the log move only when the write succeeds, the snapshot is a new object, earlier snapshots keep what they said |
| Services.SyncOfFreshCopy | internal/invoice/service.go:188-241 | On a copy equal to the stored record a sync is a step of the serialised engine |
| Services.FailedSyncKeeps | internal/invoice/service.go:188-233 | A sync that learns nothing, or of a terminal copy, changes nothing at all; one whose write fails changes only the copy |
| Services.SyncIsThreeActs | internal/invoice/service.go:188-241 | On any copy it is an observe, a write and a notification of the interleaved engine with nothing in between |
| Services.Service.ProcessOpen | internal/invoice/service.go:274-286 | One tick syncs every invoice that was open, each with its own answers; one failure stops nothing |
| Services.SyncsArePointwise | internal/invoice/service.go:279-284 | Syncing a list acts on each invoice by itself |
| Services.SyncsTellTheirOwn | internal/invoice/service.go:279-284 | And each tells its own events |
| Services.LateTickLeavesConfirming | internal/invoice/service.go:274-286 | After a fault-free tick past the deadline only confirming invoices are open |
| Services.RepeatedTickIsQuiet | internal/invoice/service.go:274-286 | A repeated tick with the same observation of an invoice and no deadline crossed tells nothing of it and moves only its update time |
| Services.RepeatedTickIsSilent | internal/invoice/service.go:274-286 | If that holds of every open invoice the whole repeated tick emits nothing |
| Services.TicksAreARun | internal/watcher/watcher.go:28-44 | Tick after tick is a run of the serialised engine |
| Services.TurnsAreARun | internal/watcher/watcher.go:28-44 | So is any alternation of ticks with creations and single syncs |
| Services.TurnsAreIndexed | internal/watcher/watcher.go:28-44 | Ticks go over exactly the stored invoices, each once |
| Services.Watch | internal/watcher/watcher.go:28-44 | The watcher's loop makes the ticks one by one and no notification already made changes |
| Services.Emitter.Emit | internal/invoice/invoice.go:83-87 | A notification is added and every earlier one still says what it said |
| Repository.MemRepository.Create | internal/invoice/memrepo.go:27-33 | The value is stored and listed last; with a fresh identifier the repository stays consistent |
| Repository.MemRepository.Get | internal/invoice/memrepo.go:35-44 | A new object equal to the stored value, or not found |
| Repository.MemRepository.Update | internal/invoice/memrepo.go:46-54 | Replaces the stored value blindly, or reports not found |
| Repository.MemRepository.ListOpen | internal/invoice/memrepo.go:56-68 | New, distinct objects for exactly the open invoices, in insertion order |
| Repository.MemRepository.ListByMerchant | internal/invoice/memrepo.go:70-96 | New objects for one page of the merchant's invoices, newest first |
| Repository.MemRepository.NextDerivationIndex | internal/invoice/memrepo.go:98-104 | Hands out the counter and advances it as a uint32 |
| Repository.OpenIdsInOrder | internal/invoice/memrepo.go:56-68 | Open invoices are listed in insertion order |
| Repository.ByMerchantCounts | internal/invoice/memrepo.go:74-79 | Each invoice of the merchant is collected once, nobody else's at all |
| Repository.ByMerchantInOrder | internal/invoice/memrepo.go:74-79 | They are collected in insertion order |
| Repository.NewestFirstSorts | internal/invoice/memrepo.go:80-81 | The sort is newest first, a permutation, and keeps ties in insertion order |
| Repository.StableSortUnique | internal/invoice/memrepo.go:80-81 | Only one listing has those properties |
| Repository.PagesArePrefix | internal/invoice/memrepo.go:83-89 | The first n pages together are the first n * limit invoices |
| Sqlite.StoredRowReadsBack | internal/store/sqlite.go:89-103 | What is inserted is what scanning the row gives |
| Sqlite.SixColumnsSufficeIff | internal/store/sqlite.go:114-129 | Setting the six columns stores a record whole exactly when its terms are the row's |
| Sqlite.StepSimulates | internal/store/sqlite.go:89-163 | Each operation keeps table and memory alike and gives the same answer |
| Sqlite.ListsAgree | internal/store/sqlite.go:131-139 | The open rows decode to exactly the open records |
| Sqlite.TableAnswersLikeMemory | internal/store/sqlite.go:89-163 | On every sequence of operations the service may issue, the table answers as the memory does |
| Sqlite.SqliteRepo.Create | internal/store/sqlite.go:89-103 | Inserts the row, or fails on a taken identifier |
| Sqlite.SqliteRepo.Get | internal/store/sqlite.go:105-112 | The decoded row as a new object, no row, or an undecodable row |
| Sqlite.SqliteRepo.Update | internal/store/sqlite.go:114-129 | Sets six columns of the row, or reports not found |
| Sqlite.SqliteRepo.ListOpen | internal/store/sqlite.go:131-139 | Scans every open row once, failing on one that does not decode |
| Sqlite.SqliteRepo.NextDerivationIndex | internal/store/sqlite.go:154-163 | Upserts the counter and truncates it to uint32 |
| Sandbox.Adapter.CheckPayment | internal/chain/mock/mock.go:62-75 | Reports the ledger entry of the address, or unseen |
| Sandbox.Adapter.Pay | internal/chain/mock/mock.go:85-93 | Replaces the address's entry and touches no other |
| Sandbox.AddressInjective | internal/chain/mock/mock.go:52-59 | Zero-padded rendering gives different indexes different addresses |
| Money.ParseDecimalAccepts | internal/money/money.go:42-73 | A text between white space parses exactly when it is such a numeral, and to its value |
| Money.EveryTextIsPadded | internal/money/money.go:43 | Every text is of that form |
| Money.TakeApartMeaning | internal/money/money.go:47-54 | The leading minus, the text before the first point and the text after it make up the text, but for a point with nothing after it |
| Money.DecimalTextParses | internal/money/money.go:42-73 | On -?digits[.digits], white space around it or not, parsing gives the written value times 10^decimals, exactly, or refuses the text for too many places |
| Money.CoinsAreHundredMillion | internal/money/money.go:42-73 | On either bitcoin network "1" parses to 10^8 units |
| Money.PrintsNumeral | internal/money/money.go:106-129 | An amount prints as such a text with exactly the asset's decimals and its value |
| Money.InnerSignsParse | internal/money/money.go:50-70 | Texts with a sign too many that parse, and one that does not |
| Money.LoneMarksAreZero | internal/money/money.go:50-70 | Lone signs and a lone point parse to zero |
| Money.AmountTextInjective | internal/money/money.go:106-129 | The printed form identifies the amount |
| Rates.CeilIsCeiling | internal/rates/rates.go:113-121 | The true ceiling, for negative rationals too |
| Rates.CeilIgnoresCommonFactors | internal/rates/rates.go:99-104 | Reducing a fraction before rounding changes nothing |
| Rates.UnitsMonotone | internal/rates/rates.go:99-103 | A dearer purchase never costs fewer units, a dearer coin never more |
| Rates.UnitsSubadditive | internal/rates/rates.go:99-103 | Splitting a price never saves a unit |
| Rates.ConvertedIsPositive | internal/rates/rates.go:94-105 | A converted amount is at least one smallest unit of the asset |
| Rates.ConvertSucceedsIff | internal/rates/rates.go:89-97 | Conversion fails exactly without a price or a positive fiat amount, and with which error |
| Rates.CacheKeyInjective | internal/rates/rates.go:54-55 | Cache keys of symbols without a slash determine symbol and currency |
| Rates.LowerMeaning | internal/rates/rates.go:54-55 | The lower-cased currency is the one text without capitals that differs from it in case only |
| Rates.SameLowerIff | internal/rates/rates.go:54-55 | Two currencies share a cache key's currency exactly when they agree letter by letter up to ASCII case |
| Rates.FirstPositive | internal/rates/rates.go:64-79 | The price of the first provider with a positive answer, none exactly when no provider has one |
| Rates.PriceResult | internal/rates/rates.go:53-84 | Fails exactly when there is no fresh entry and no provider with a positive price |
| Rates.Oracle.Price | internal/rates/rates.go:53-84 | Lookup, ordered fallback and caching compute the specified price and cache |
| Rates.Oracle.CryptoAmount | internal/rates/rates.go:89-106 | Converts at that price and asks for at least one unit |
| Rates.CacheEntriesHaveSource | internal/rates/rates.go:74-76 | Every cached price was fetched by a call with that key at that time |
| Rates.ObtainedPriceIsKept | internal/rates/rates.go:53-84 | A price obtained is kept: until the TTL has passed a call for the same symbol and currency, in whatever case, gets it without asking |
| Webhook.MessageInjective | internal/webhook/signer.go:68-73 | Equal signed messages have equal times and bodies, negative times and dots included |
| Webhook.SignedHeaderParses | internal/webhook/signer.go:22-52 | Reading a signed header gives back its time and signature |
| Webhook.ToleranceNearby | internal/webhook/signer.go:53-61 | For times a clock can be near that is the distance in seconds |
| Webhook.InstantWraps | internal/webhook/signer.go:54 | The instant compared is the time in seconds, or 2^64 seconds earlier once adding the offset wraps |
| Webhook.Verify | internal/webhook/signer.go:30-66 | The loop over the parts and the checks after it compute the verdict |
| Webhook.SignedHeaderVerdict | internal/webhook/signer.go:22-73 | A signed header is accepted exactly when its time is within tolerance and the signatures coincide |
| Webhook.ParseHeader | sdks/php/src/Webhook.php:70-92 | The PHP loop computes its reading of the header |
| Webhook.VerifySignature | sdks/php/src/Webhook.php:49-65 | The PHP checks compute its verdict |
| Webhook.SameMessage | sdks/php/src/Webhook.php:57-63 | PHP signs the text Go signs |
| Webhook.PhpReadsSignedHeader | sdks/php/src/Webhook.php:70-92 | PHP reads the same time and signature from a signed header as Go, and refuses times before 1970 |
| Dispatcher.BackoffDoubles | internal/webhook/dispatcher.go:69-75 | The delay doubles from one second and is capped at thirty, up to the 34th attempt |
| Dispatcher.BackoffOverflows | internal/webhook/dispatcher.go:69-75 | After the 35th it overflows to a negative delay |
| Dispatcher.BackoffWraps | internal/webhook/dispatcher.go:69-75 | For every attempt the delay is the doubled second in 64-bit arithmetic, capped at thirty seconds |
| Dispatcher.DeliverWithRetry | internal/webhook/dispatcher.go:112-128 | Delivery stops at the first success, or after exactly the allowed attempts, or when cancelled, having waited as specified, the interrupted wait included |
| Gateway.CreationCreates | internal/invoice/service.go:91-145 | The three steps of a creation store exactly the record, field by field, that Service.Create does when nothing fails |
| Gateway.BitcoinOrderIsStored | internal/invoice/service.go:91-145 | A sound bitcoin order whose address can be derived is stored at that address |
| Gateway.RegisteredIff | internal/app/app.go:50-68 | Which chains can be ordered on |
| Gateway.GatewayIsGenuine | internal/invoice/service.go:91-241 | In every run of the gateway, whatever is answered, each record stored, held or told is sound and has the terms of an insert: window, confirmations, asset, URI and derived address of its chain |
| Gateway.PricesAreARun | internal/rates/rates.go:53-84 | The cache of a run is what its own calls left |
| Gateway.CounterCounts | internal/invoice/memrepo.go:98-104 | A merchant's counter is the number of its allocations modulo 2^32 |
| Gateway.IndexIsAllocationNumber | internal/invoice/memrepo.go:98-104 | The index of a stored sandbox or bitcoin invoice is the number of its merchant's allocations before its own, modulo 2^32 |
| Gateway.IndexesDiffer | internal/invoice/memrepo.go:98-104 | Up to 2^32 allocations a merchant's sandbox and bitcoin invoices have pairwise distinct indexes |
| Gateway.AllocatedApart | internal/invoice/service.go:108-115 | No two invoices come of one allocation |
| Gateway.PaymentsDoNotMix | internal/chain/mock/mock.go:52-93 | Up to 2^32 allocations a merchant's sandbox invoices have distinct addresses, and paying one never changes what is seen of another |
| Gateway.MerchantsShareAddresses | internal/chain/mock/mock.go:54 | A run in which two merchants' first invoices share an address |
| Text.TrimTakesEnds | internal/money/money.go:43 | Trimming takes white space away at both ends and nothing else |
| Sandbox.AddressShape | internal/chain/mock/mock.go:54 | After the prefix stands the index in eight digits, more only when it has more |

## Left out

- HTTP handlers, routing, authentication, dashboard, QR rendering, configuration and the PHP client: plumbing.
- Requests and JSON decoding of the explorer and the price provider: their decoded answers are inputs.
- Extended-key derivation and address encoding (BIP 32, BIP 84): an arbitrary function of the wallet settings and the index.
- HMAC-SHA256: an arbitrary function that prints hexadecimal; that signatures cannot be forged is not stated, and comparison in constant time is not modelled.
- Invoice metadata, JSON event bodies and time formatting: not modelled; times are integers of nanoseconds.
- SQL text, drivers and transactions: rows are records and each statement acts at once. The SQLite listing by merchant orders by time text and treats a non-positive limit differently from memory, so it refines nothing here.
- Sqlite.SqliteRepo.ListOpen: returns the rows in any order, because the statement orders by time text, which is not chronological.
- Sqlite.SqliteRepo.NextDerivationIndex: the stored counter is unbounded, so the 64-bit limit after 2^63 allocations is not modelled.
- Fresh identifiers: reuse is excluded by assumption; memory would overwrite and SQLite refuse.
- An absent emitter and a failing listing: the model always has an emitter and the in-memory listing cannot fail.
- Delivery order: the dispatcher sends each notification on its own, so the order of arrival is not modelled; `Interleaving.State.log` is the order of emission.
- The payment time is held by value: the program's copies share a pointer to it, which no method writes through.
- Locks: each repository, ledger and cache operation is one step. Two concurrent price lookups may both fetch; only calls one after the other are modelled.
- Syntax of rationals and the displayed rate text: fiat amounts and prices are rationals already, the rate an arbitrary text.
- Letter case beyond ASCII in currency codes, and byte lengths of non-ASCII texts, which are refused in any case.
- Invalid UTF-8: texts, headers and bodies are sequences of characters.
- Negative page offsets: the API never passes one, and the listing would panic on it.
- API keys, chain registry and identifier generation: easy or random; a missing adapter is one of the answers of the world.
