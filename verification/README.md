# A verified model of the REMchain node

This project models the parts of the REMchain node that decide what happens to tokens, swaps and keys, and
the machinery around them, and proves what they guarantee.

* **The ledger.** Three transaction families (accounts, atomic swaps, public keys) share one map from addresses to
  records. `AccountFamily`, `SwapFamily` and `KeyFamily` give the ten operations as functions from what a transaction
  may read to the records it writes or the reason it is refused; `Forms` is the check of texts before them, and
  `Ledger` puts all this together into single transactions, events and runs. `Transitions` states the same machine
  once more as a relation over whole states, and `Effects` and `Acceptance` prove that the two agree in both
  directions; `Requests` spells out, down to the constants, when each operation is accepted, and `Environment` what
  clock and settings are. All theorems about runs (`Supply`, `Room`, `Overflow`, `Balances`, `SwapHistory`,
  `SwapLifecycle`, `TimeLock`, `KeyRegistry`) follow from the relation.
* **Execution.** `CacheContext` and `Handlers` are the imperative form: handlers read through a cache that they fill
  as they go, change their own copies of records, and their result is committed in one write. They are proved equal to
  the functions above.
* **Scheduling.** `Reading` shows that a handler's answer depends only on what its reads give. `Scheduling` and
  `SwapClient` deal with declared inputs and outputs: independent transactions may be applied in any order, and the
  swap client declares enough. `Parsing` shows that in documented runs no record is ever read as a message of another
  kind.
* **Connections.** `MessageRouter`, `Backoff`, `EventIndex` and `Notifications` model correlation of replies, retries,
  the index from event types to subscriptions, and de-duplication of notifications; `Replies` tells every future and
  the queue from the events alone; `Deliveries` lets several consumers of one connection interleave between looking a
  hash up and adding it.
* **Blocks.** `BlockInfo` models block addresses and the query for a window of blocks; `AddressText` relates the
  classified addresses of the ledger to their texts.

`Counterexamples` holds concrete runs and states in which a plausible expectation fails; the theorems state the exact
conditions under which it holds.

## What the model takes for granted

* Hashes, signature checks and number parsing are functions in `Records.Crypto` about which nothing is assumed. No
  theorem needs them to be free of collisions.
* An address is classified by its namespace: account, swap and key addresses, the zero and genesis addresses,
  settings, block configuration, blocks. `AddressText.SameTextIff` says exactly when this is justified: different
  classified addresses have different texts, unless the hashed key of a setting collides.
* A declared input or output is one full address or a region of addresses, such as all those under a prefix.
* A stored record read as the message it was written as gives that message. What the message library makes of it when
  it is read as another kind is a parameter (`StateView.Parser`): the cache, the handlers and scheduling are proved
  for every such parser, and `Parsing.RunsDoNotDependOnTheParser` shows that documented runs do not depend on it. The
  other theorems leave it out and let such a read give nothing. Those about runs do not ask that REVOKE names a key
  address; for runs in which it names another, they rest on such a read giving nothing.
* Texts are ASCII where the forms look for digits and blanks.
* Time is whole seconds, in UTC: the code compares local times, which agrees with this on nodes whose zone has no
  clock changes. Amounts and balances are uint64; assigning a value that does not fit is a failure of its own
  (`OutOfRange`), and so is an unreadable key or setting.
* The context a transaction runs in refuses addresses outside the declared inputs and outputs; a refused write writes
  nothing. It may report a missing record as an empty entry or leave it out; both are covered.
* Settings and blocks are written by other families and appear in runs as events.
* Theorems over runs ask that the receiver of a new swap is an account or the zero address, as the documentation of
  the field says ("Remme receiver account address"). The handler does not check it; the form refuses the zero address.
* `BlockInfo.QueryFailsIff` asks that the node refuses exactly the texts that are no state addresses.

## Where code and documentation differ

The model follows the code.

* STORE_AND_PAY by a signer who is also the owner writes the owner's record as it was before the charge, so the zero
  address is paid and nobody pays: ten tokens are created (`Supply.ConservationIff`,
  `Counterexamples.SelfPaymentOverflows`).
* GENESIS replaces its signer's record. With the economy switched off before it, keys the signer already registered
  vanish from its list for good (`KeyRegistry.AgreementIff`, `Counterexamples.GenesisForgetsKeys`).
* The forms turn a text of digits into a number. Zero then counts as missing, and any other number makes the match
  against hex digits fail. So neither the zero address nor an account whose hash has no letter can be named as a
  recipient, and a swap id without a letter is never accepted (`Forms.AddressFieldIff`, `Forms.SwapIdIff`). The model
  treats both failures as a bad form. It is the form, not the handler, that keeps transfers from the zero address,
  which the handler lets through.
* SET_SECRET_LOCK is described as Bob's operation; the code does not look at the signer.
* The secret lock is documented as a SHA-256 or SHA-512 hash; the code compares a keccak hash.
* The default block query asks for one block more than it needs: the one before the oldest (`BlockInfo.QueryIsExact`).
* A block address has 70 characters only for numbers below 16^62 (`BlockInfo.AddressLength`).

## Model

| member | source | states |
|---|---|---|
| Effects.ProcessIsTransition | remme/tp/basic.py:119-177 | every accepted transaction, of any family, is a step of the transition relation over whole states: its guards held, and the new state is the old one with exactly the named records changed |
| Acceptance.AcceptedIff | remme/tp/basic.py:140-169 | with its addresses declared and its signatures good, a well-formed transaction is accepted with outcome t if and only if the transition relation leads to t, for all ten operations |
| Requests.GenesisIff | remme/tp/account.py:67-88 | in every state GENESIS of any supply but zero is accepted iff it was not done, and leaves the signer a fresh account with the supply |
| Requests.TransferIff | remme/tp/account.py:104-141 | in every state a transfer is accepted iff it names another account the form takes, a value above zero and within the sender's balance, and the receiver has room; exactly the value moves, keys stay |
| Requests.TransferRefusals | remme/tp/account.py:104-128 | for which of its reasons a transfer is refused when several apply |
| Requests.InitIff | remme/tp/atomic_swap.py:140-194 | in every state the client's INIT is accepted iff id, receiver and amount pass the form, the id is free, there is a block, and the sender can pay amount and a positive commission for which the zero address has room |
| Requests.InitLeaves | remme/tp/atomic_swap.py:152-194 | an accepted INIT leaves exactly this record, these two balances, and all else as it was |
| Requests.SetLockIff | remme/tp/atomic_swap.py:196-225 | in every state the client's SET_SECRET_LOCK is accepted iff the swap is open and has no lock and the given lock is not missing, from any signer; it changes lock and state alone |
| Requests.ApproveIff | remme/tp/atomic_swap.py:227-262 | in every state the client's APPROVE is accepted iff its signer sent this initiator's swap and a lock is provided; it changes the state alone |
| Requests.ExpireIff | remme/tp/atomic_swap.py:264-311 | in every state the client's EXPIRE is accepted iff its signer sent this open swap, 24 hours (initiator) or 48 hours have passed, and the sender has room |
| Requests.CloseIff | remme/tp/atomic_swap.py:313-356 | in every state the client's CLOSE towards the stored receiver is accepted iff the swap is open, the secret is a preimage of its lock, an initiator's swap is approved, and the receiver has room |
| Requests.StoreIff | remme/tp/pub_key.py:270-340 | in every state STORE is accepted iff key and dates are given, the key verifies, is valid for 365 days at most and is not registered, and with the economy on the signer has ten tokens and the zero address room |
| Requests.StoreLeaves | remme/tp/pub_key.py:304-340 | an accepted STORE leaves the key registered for the signer, at the end of its list unless listed, the price moved, and all else as it was |
| Requests.StoreForIff | remme/tp/pub_key.py:342-430 | in every state STORE_AND_PAY is accepted iff, besides, the owner signed, and the signer can pay |
| Requests.StoreForLeaves | remme/tp/pub_key.py:400-430 | an accepted STORE_AND_PAY leaves the key registered for the owner, at the end of the owner's list, the owner's balance as before even if the owner pays, the price moved from another payer, and all else as it was |
| Requests.RevokeIff | remme/tp/pub_key.py:457-475 | in every state REVOKE of a key is accepted iff it is registered, its owner signs and it is not revoked, and revokes it; the form takes every key address |
| Environment.EnvironmentIsLatest | remme/tp/atomic_swap.py:121-138 | after any run the block time is that of the last block, the commission the number last set, and the economy is on unless the last setting says otherwise |
| Environment.EntryIff | remme/settings/helper.py:34-41 | the first entry under a key counts |
| KeyFamily.EnabledSpellings | remme/tp/pub_key.py:436-437 | a stored setting leaves the economy on iff it spells "true", in any case |
| Forms.SwapIdIff | remme/shared/forms/_fields.py:13-19 | the form takes as swap id exactly the texts of at least 64 characters whose first 64 are lower-case hex digits and of which some character is no digit |
| Forms.AddressFieldIff | remme/shared/forms/base.py:35-44 | every swap and key address passes as an address field; of the zero, genesis and account addresses exactly the accounts with a letter in their hash do |
| Forms.FieldTextIff | remme/shared/forms/_fields.py:4-10 | any address passes iff its text starts with 70 hex digits and has a letter |
| Forms.GivenIff | remme/shared/forms/base.py:42-42 | a required text of digits is taken iff it is no row of zeros, any other iff it is not blank |
| Supply.TransitionSupply | remme/tp/account.py:126-141 | in every well-formed state every step changes the sum of all balances and live swaps by exactly what it issues |
| Supply.ConservationIff | remme/tp/pub_key.py:411-430 | in every well-formed state an accepted transaction keeps the total if and only if it is no GENESIS that changes its signer's balance and no STORE_AND_PAY to the payer itself with the economy on |
| Supply.TokenConservation | remme/tp/atomic_swap.py:170-194 | after any run the total is 0 before GENESIS, and afterwards the genesis supply plus ten for every self-paid registration |
| Supply.GenesisFixesSupply | remme/tp/account.py:71-79 | a run accepts at most one GENESIS, and its supply is all that is ever issued |
| Room.RestFits | remme/tp/pub_key.py:411-443 | after any run the tokens outside the zero address never exceed the genesis supply: what self-paid registrations create stays at the zero address |
| Room.PartiesHaveRoom | remme/tp/atomic_swap.py:301-351 | in every reachable state the sender and the receiver of every live swap have room for its amount |
| Overflow.OverflowIff | remme/tp/account.py:126-132 | in every state, any transaction of the ten operations fails for want of room in a uint64 if and only if it is well-formed, its signatures are good, what it reads is declared, all its other guards hold, and the one balance it credits plus the amount exceeds 2^64 - 1; GENESIS, SET_SECRET_LOCK, APPROVE and REVOKE never do |
| Overflow.RunOverflowIff | remme/tp/pub_key.py:229-245 | after any run a transaction overflows if and only if it is INIT, STORE or STORE_AND_PAY, all else about it is in order, and the zero address has no room for the commission or the price; transfers, withdrawals and closes never overflow |
| Overflow.NoOverflow | remme/tp/atomic_swap.py:182-189 | corollary: while the total fits a uint64 no transaction makes any balance overflow or go below zero, the second debit of INIT included |
| Overflow.RunsDoNotOverflow | remme/tp/atomic_swap.py:301-304 | corollary: no transaction after any run overflows, as long as supply and self-paid registrations fit a uint64 |
| Overflow.TransferOverflowIff | remme/tp/account.py:126-132 | in every state, some transfer to an account the form takes overflows if and only if the two balances together do not fit a uint64 |
| Counterexamples.SelfPaymentOverflows | remme/tp/pub_key.py:411-430 | a run of GENESIS, one self-paid registration, a commission and a block leaves ten tokens too many, and INIT with any id and receiver overflows although its sender can pay |
| Counterexamples.GenesisForgetsKeys | remme/tp/account.py:78-88 | a run from the empty state: with the economy switched off a key is registered, then its owner signs GENESIS, and keys and lists no longer agree |
| Balances.TransitionBalance | remme/tp/account.py:115-141 | what every operation adds to and takes from every account |
| Balances.BalanceIsItsStatement | remme/tp/account.py:131-132 | after any run every account holds what came in less what went out |
| Balances.ZeroAddressOnlyReceives | remme/tp/pub_key.py:229-245 | after any run the zero address holds exactly ten for every charged registration plus every commission: no transfer and no swap reaches it; its balance never falls |
| Invariants.RunKeepsWellFormed | remme/tp/basic.py:165-169 | in every reachable state records stand at addresses of their own family and swap parties are accounts |
| SwapHistory.SwapsAreExplained | remme/tp/atomic_swap.py:140-356 | every swap record of every reachable state is the outcome of one of eight histories of accepted operations, which fix all its fields; an address without a record was never operated on |
| SwapLifecycle.RecordShape | remme/tp/atomic_swap.py:154-164 | in reachable states an opened swap lacks a lock iff it is an initiator's, provided and approved swaps are initiators' and locked, closed ones hold a preimage of their lock, all others no key |
| SwapLifecycle.ClosedInitiatorHistory | remme/tp/atomic_swap.py:217-258 | a closed initiator's swap saw exactly INIT by its sender, one SET_SECRET_LOCK, APPROVE by that sender, and CLOSE with a preimage, in this order |
| SwapLifecycle.ClosedSolicitorHistory | remme/tp/atomic_swap.py:336-351 | a swap opened with a lock was closed with a preimage of that lock |
| SwapLifecycle.EventRaisesRank | remme/tp/atomic_swap.py:70-70 | every accepted operation raises the rank of its swap and nothing else moves it; finished records and the terms of INIT never change |
| SwapLifecycle.AtMostFourOps | remme/tp/atomic_swap.py:212-225 | at most four operations on a swap are accepted in any run |
| SwapLifecycle.FinishedIsFinal | remme/tp/atomic_swap.py:331-334 | a finished swap stays as it is and accepts nothing more for the rest of any run |
| SwapLifecycle.PaidOutOnce | remme/tp/atomic_swap.py:301-351 | in any run a swap is finished iff exactly one event paid it out; that event is a CLOSE for a closed and an EXPIRE for an expired swap, and credits exactly the amount to the receiver or the sender respectively, and nothing to any other account |
| TimeLock.ExpiredOnlyAfterTimeLock | remme/tp/atomic_swap.py:281-299 | with block times that do not go back, no swap is expired before 24 hours (initiator) or 48 hours (otherwise) |
| TimeLock.WithdrawalIff | remme/tp/atomic_swap.py:264-311 | in every state the sender's request to withdraw a live swap is accepted if and only if the time lock has run out and the sender's balance has room for the amount |
| TimeLock.FundsAreNeverStuck | remme/tp/atomic_swap.py:264-311 | in every reachable state the sender's request to withdraw a live swap is accepted iff its lock has run out, and then returns exactly the amount and expires the swap; room for it is always there |
| TimeLock.SecretIsEnough | remme/tp/atomic_swap.py:313-356 | in every reachable state anybody's request to close a live swap towards its receiver is accepted iff it brings a preimage of the lock and an initiator's swap is approved, and then pays exactly the amount |
| KeyRegistry.TransitionAgreesIff | remme/tp/pub_key.py:304-340 | registered keys and account lists stay in agreement iff the step is no GENESIS signed by an account that lists keys |
| KeyRegistry.AgreementIff | remme/tp/account.py:78-88 | after any run a key is listed at an address iff it is registered with an owner there, and no list repeats a key, if and only if no accepted GENESIS was signed by an account that already listed keys; while this holds no key is in two lists, and once lost it never returns |
| KeyRegistry.RegistryAgrees | remme/tp/pub_key.py:391-455 | corollary: keys and lists agree after every run in which storing is charged for until GENESIS |
| KeyRegistry.RegisteredAtMostOnce | remme/tp/pub_key.py:215-227 | a run accepts one registration of each stored key and none of others, for 365 days at most |
| KeyRegistry.KeysAreKept | remme/tp/pub_key.py:316-319 | owner and payload of a key never change and a revoked key stays revoked |
| KeyRegistry.RevokedByOwner | remme/tp/pub_key.py:457-475 | a revoked key was revoked by an accepted transaction of its owner |
| Reading.AnswersDependOnReads | remme/tp/context.py:27-59 | every handler gives the same answer on any two contexts that answer its reads alike, whatever else they hold |
| Parsing.ParserIsIrrelevant | remme/tp/context.py:51-59 | in a well-formed state a documented transaction gets the same outcome whatever the message library makes of data of another kind |
| Parsing.RunsDoNotDependOnTheParser | remme/tp/context.py:51-59 | every documented run from the empty state is the same for every such parser |
| Parsing.ParserDecides | remme/tp/context.py:51-59 | what the message library makes of data of another kind is what is read |
| Scheduling.HandlerReadsOnlyInputs | remme/tp/context.py:27-65 | a handler's answer is the same for states that agree on the declared inputs, for any parser |
| Scheduling.IndependentCommute | remme/tp/basic.py:165-169 | transactions whose outputs meet neither the other's inputs nor outputs, full addresses and prefixes alike, get the same verdicts and lead to the same state in both orders, for any parser |
| Scheduling.OrderDoesNotMatter | remme/tp/basic.py:165-169 | any two orders of pairwise independent transactions lead to the same state |
| Scheduling.ApplyAllIsRun | remme/tp/basic.py:119-169 | applying transactions one after the other is the run that submits them |
| Scheduling.FullAddressesIff | remme/tp/basic.py:165-169 | transactions that declare full addresses are independent iff no output of one is among the other's inputs or outputs |
| SwapClient.DeclaredIsEnough | remme/clients/atomic_swap.py:79-143 | in every state the addresses the client declares suffice for each swap operation |
| SwapClient.DeclaredExactly | remme/clients/atomic_swap.py:79-143 | the addresses the client declares as inputs and outputs of each operation, and no others |
| SwapClient.CloseIsCovered | remme/clients/atomic_swap.py:134-143 | a closing request fails for its addresses iff all other checks pass and the stored receiver is not among them |
| CacheContext.StateContext.SetState | remme/tp/context.py:64-65 | entries within the declared outputs are written together, others not at all |
| CacheContext.CacheContextService.PreloadState | remme/tp/context.py:19-25 | preloading caches what the context holds at the full addresses given, and nothing else than what it holds |
| CacheContext.CacheContextService.GetCachedData | remme/tp/context.py:27-59 | with any sound cache and any parser, each read gives one result per resolver in order, equal to reading the state directly, and the cache stays sound |
| CacheContext.ReadAllIsPointwise | remme/tp/context.py:27-59 | reading directly succeeds iff all addresses are declared, and gives in order what each holds, decoded as asked by any parser |
| CacheContext.CacheContextService.GetData | remme/tp/basic.py:69-78 | a single read through the cache equals reading the state |
| Handlers.Apply | remme/tp/basic.py:119-177 | applying a transaction through the cache gives exactly the state or the error of the pure step; a refused transaction changes nothing |
| Handlers.GetSetting | remme/settings/helper.py:34-41 | the first entry with the key, read through the cache |
| Handlers.Genesis | remme/tp/account.py:67-88 | the cached handler equals the function for GENESIS |
| Handlers.TransferFrom | remme/tp/account.py:104-141 | the cached handler equals the function for transfers, including the order of its refusals |
| Handlers.LatestTime | remme/tp/atomic_swap.py:123-138 | the cached reader equals the function for the latest block's time |
| Handlers.SwapInit | remme/tp/atomic_swap.py:140-194 | the cached handler equals the function for INIT |
| Handlers.SwapSetLock | remme/tp/atomic_swap.py:196-225 | the cached handler equals the function for SET_SECRET_LOCK |
| Handlers.SwapApprove | remme/tp/atomic_swap.py:227-262 | the cached handler equals the function for APPROVE |
| Handlers.SwapExpire | remme/tp/atomic_swap.py:264-311 | the cached handler equals the function for EXPIRE |
| Handlers.SwapClose | remme/tp/atomic_swap.py:313-356 | the cached handler equals the function for CLOSE |
| Handlers.ChargeForStoring | remme/tp/pub_key.py:229-245 | the cached handler equals the function for the storing charge |
| Handlers.StoreKey | remme/tp/pub_key.py:270-340 | the cached handler equals the function for STORE |
| Handlers.StoreKeyFor | remme/tp/pub_key.py:342-430 | the cached handler equals the function for STORE_AND_PAY |
| Handlers.RevokeKey | remme/tp/pub_key.py:457-475 | the cached handler equals the function for REVOKE |
| MessageRouter.MessagesAreAccounted | remme/shared/messaging.py:159-234 | in any run with fresh ids every routed message is the result of exactly one future, a queue entry in order of arrival, or a late reply to a finished future, and the numbers add up; right after a disconnect nothing is pending |
| Replies.RouterIsItsHistory | remme/shared/messaging.py:159-234 | in every run, with any ids, the router holds under every id exactly what the events say, and the queue is the unclaimed messages that were not taken, in order |
| Replies.FirstAnswerCounts | remme/shared/messaging.py:176-223 | an expected id stays pending until the first reply, timeout or disconnect, which gives its future the message, the cancellation or the error |
| Replies.QueuedIff | remme/shared/messaging.py:225-234 | a message is queued iff nothing is held under its id, so always if the id was never expected |
| MessageRouter.FinishedNeverChanges | remme/shared/messaging.py:199-217 | no event changes a finished future |
| MessageRouter.MessageRouter.ExpectReply | remme/shared/messaging.py:176-180 | the id waits with a pending future |
| MessageRouter.MessageRouter.SetReply | remme/shared/messaging.py:199-206 | only a pending future takes a result |
| MessageRouter.MessageRouter.FailReply | remme/shared/messaging.py:208-217 | only a pending future is failed |
| MessageRouter.MessageRouter.FailAll | remme/shared/messaging.py:219-223 | exactly the pending futures are failed |
| MessageRouter.MessageRouter.RouteMsg | remme/shared/messaging.py:225-234 | a message goes to the future of its id if there is one, else to the end of the queue |
| MessageRouter.MessageRouter.IncomingNowait | remme/shared/messaging.py:169-174 | the oldest queued message leaves the queue |
| MessageRouter.MessageRouter.FinishReply | remme/shared/messaging.py:187-197 | when waiting ends the future leaves the table |
| Backoff.Backoff.DoBackoff | remme/shared/messaging.py:57-73 | each pause doubles the next until the retries are used up |
| Backoff.Send | remme/shared/messaging.py:84-111 | for any pattern of refusals: at most one write more than retries, stopping at the first that is not refused, having slept interval times 2^r - 1 after r refusals |
| Backoff.SendWithDefaults | remme/shared/messaging.py:94-108 | with the values used at most four writes and 1400 ms of sleep |
| EventIndex.BuildIndex | remme/rpc_api/event/_handlers.py:332-339 | for any handler table a name is under a type iff the name listens to the type |
| EventIndex.SubscribedTypesRouteBack | remme/rpc_api/event/_handlers.py:116-122 | a type is subscribed to for some names iff it leads back to one of them |
| Notifications.EventServer.Subscribe | remme/rpc_api/event/_event.py:39-121 | a granted subscription is recorded and its connection gets a set of hashes if it has none |
| Notifications.EventServer.Unsubscribe | remme/rpc_api/event/_event.py:124-144 | exactly the named subscription goes; the hashes stay |
| Notifications.EventServer.Disconnect | remme/rpc_api/_base.py:96-108 | everything kept for the connection goes |
| Notifications.EventServer.Notify | remme/rpc_api/event/_event.py:200-250 | one event under one name sends at most one notification, never one whose hash was sent |
| Notifications.EventServer.ProcessMsg | remme/rpc_api/event/_event.py:175-250 | sent notifications keep pairwise distinct hashes, the kept set is exactly theirs and grows by all that the events call for, and every new one answers a current subscription |
| Notifications.DueIff | remme/rpc_api/event/_event.py:191-236 | a hash is due iff an event of some type leads to a subscribed name whose handler has a response with that hash |
| Deliveries.SentTwiceIff | remme/rpc_api/event/_event.py:238-250 | for any interleaving of any number of consumers, a hash is sent twice iff at some moment a check of it passes while another consumer is still sending it |
| Deliveries.EachConsumerSendsOnce | remme/rpc_api/event/_event.py:238-250 | no consumer sends a hash twice, and exactly what was sent is kept or being sent by its consumer |
| Deliveries.OneConsumerNeverRepeats | remme/rpc_api/event/_event.py:160-172 | a connection with one consumer is sent nothing twice |
| Deliveries.SentIff | remme/rpc_api/event/_event.py:238-250 | a hash is sent iff a consumer that is not busy checks it |
| Deliveries.AddEndsSending | remme/rpc_api/event/_event.py:248-250 | a consumer that adds its hash is free again, and the hash is kept from then on |
| AddressText.TextsSpelledOut | remme/tp/basic.py:179-187 | the texts of all addresses, prefix by prefix |
| AddressText.SameIdsIff | remme/tp/basic.py:185-187 | two public keys or swap ids share an address iff their hashes are equal |
| AddressText.SameTextIff | remme/tp/basic.py:179-187 | two addresses have the same text if and only if they are the same, or one is a setting whose hashed key equals another setting's or spells the rest of the zero or genesis address |
| BlockInfo.AddressRoundTrip | remme/clients/block_info.py:57-59 | the block number can be read back from its address |
| BlockInfo.AddressesDiffer | remme/clients/block_info.py:57-59 | different blocks have different addresses |
| BlockInfo.AddressLength | remme/clients/block_info.py:57-59 | a block address has 70 characters iff the number is below 16^62 |
| BlockInfo.OneDigitAddress | remme/clients/block_info.py:57-59 | the address of a block below sixteen, digit by digit |
| BlockInfo.NeverTheConfigAddress | remme/clients/block_info.py:9-11 | no block address is the configuration address |
| BlockInfo.NegativeHasNoBlock | remme/clients/block_info.py:57-59 | the address of a negative number is no block's |
| BlockInfo.GetBlocksInfo | remme/clients/block_info.py:23-49 | the loop and its reversal give the answer of the query function, for all integers and any node |
| BlockInfo.ListingIsExact | remme/clients/block_info.py:41-49 | a listing holds exactly the stored blocks of its range, each once, newest first |
| BlockInfo.QueryIsExact | remme/clients/block_info.py:23-49 | a start and a limit are answered with exactly the stored blocks n with max(0, start - limit) <= n < start, newest first; start 0 means up to the latest block, limit 0 from the block before the oldest (or zero); there is no answer iff one of these lookups is refused, and an empty one when a needed configuration is missing |
| BlockInfo.QueryFailsIff | remme/clients/block_info.py:41-47 | against a node that refuses what is no state address, a query of any integers fails iff it reaches below zero or beyond 16^62 |

## Left out

- Cryptography (RSA, ECDSA, Ed25519, keccak, sha512, the owner's signature): foreign libraries, taken as arbitrary functions.
- Protobuf encoding, and form validation of fields the model's payloads do not have (creation time and foreign address of INIT, entity hash, enumerations) or hold as bytes (only that they are not empty; a base64 text of zeros alone is refused as well): library behaviour.
- Events emitted after a commit, and the e-mail and foreign address fields of a swap: carried through unchanged.
- The choice of a hash for a notification and the content of responses: arbitrary functions in `Notifications.Behaviour`.
- Interleaving inside the processing of one message or one subscription, other than between checking and adding a hash (`Deliveries`): in `Notifications` each operation is one step.
- The validator, its sockets and the receiver loop, the websocket server, metrics, logging, configuration files and genesis batch writing: input and output.
- Client and RPC wrappers other than the swap client's declared addresses and the block query: they only forward requests.
- What CLOSE writes when the receiver of a swap is not an account address: it depends on how protobuf reads and re-serialises another message. Theorems over runs ask for account receivers, those about the parser also that REVOKE names a key address.
