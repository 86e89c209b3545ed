# SettleKit: a model and proofs of its core

This project models the parts of SettleKit that handle money and evidence of payment, and proves what
they are for. `dafny verify dfyconfig.toml` checks all of it.

- **The RefundProtocol escrow contract** (`RefundLedger`, `RefundProtocol`, `Ledger*`). The repository
  carries the contract only as EVM bytecode with its ABI. The model follows the bytecode.
  `RefundLedger` says what each entry point does to the contract's storage; the class
  `RefundProtocol.Contract` writes storage step by step as the contract does, undoes it when a call
  reverts, and is proved to do exactly what `RefundLedger` says. The `Ledger*` modules prove what holds
  of single calls and of every run: any list of transactions, from any callers, any of which may revert.
- **Signed webhook headers** (`Webhooks`): the signer, the tolerant verifier, secret rotation, and the
  replay window in Go's clock arithmetic.
- **Admin analytics** (`Csv`, `Calendar`, `DayBuckets`): CSV export against a reader for section 2 of
  RFC 4180, and day buckets over the Gregorian calendar of section 21.4.1 of ECMA-262.
- **The x402 gateway** (`Base64`, `Floats`, `Gateway`): configuration, challenge, payment header,
  local verification and the decision to forward, with the base64 decoders of RFC 4648 (sections 3.2, 4
  and 5) modelled symbol by symbol.
- **The admin store** (`AdminStore`) under actions that interleave across an await, and **the agent
  console's double aggregation** (`AgentConsole`).

`Results`, `Sums`, `Text` and `Bytes` hold what these share.

## Reading the bytecode

Everything about the contract comes from one line, `apps/arc-escrow/lib/constants.ts:34`. The runtime
code starts after the constructor's `f3fe`. Offsets into it, and the storage slots:

| entry point | offset | | slot | holds |
|---|---|---|---|---|
| `depositArbiterFunds` (132ad4a3) | 0x0464 | | 2 | token |
| `setLockupSeconds` (69093f4d) | 0x0679 | | 3 | nonce |
| `withdraw` (983d95ce) | 0x08a9 | | 4 | arbiter |
| `refundByArbiter` | 0x0d79 | | 5 | lockupSeconds |
| `updateRefundTo` | 0x1130 | | 6 | payments |
| `refundByRecipient` | 0x13b4 | | 7 | balances |
| `withdrawArbiterFunds` | 0x1601 | | 8 | debts |
| `pay` | 0x1870 | | 9 | withdrawalHashes |
| `earlyWithdrawByArbiter` | 0x1bdf | | | |
| `settleDebt` | 0x24c7 | | | |
| the refund shared by both routes | 0x26df | | | |
| checked addition, checked subtraction | 0x3378, 0x3405 | | | |

Words are 256 bits wide, and every sum and difference is checked. The token moves exactly what it is
asked to move, or reverts; `tokenAccepts` in a message says whether it is willing to.

## Where code and documentation differ

The model follows the code.

- The ABI gives `PaymentDoesNotBelongToRecipient` an argument; the bytecode raises it without one.
- A withdraw of somebody else's payment reverts with `CallerNotAllowed`, and of a locked one with
  `PaymentIsStillLocked(id)`. That error, `setLockupSeconds` and `LockupSecondsExceedsMax` are in the
  bytecode but not in the ABI.
- An early withdrawal compares each amount with the payment's whole amount and not with what is left of
  it, so a payment can pay out more than it holds: `LedgerPayments.EarlyWithdrawalCanExceedAPayment` is
  such a run, and `EarlyWithdrawalKeepsWithinAmount` says exactly when it does not happen.
- The webhook verifier documents that a timestamp must be within the tolerance of now. A timestamp so far
  ahead that the difference leaves Go's `Duration` is accepted as well:
  `Webhooks.FarFutureCountsAsFresh` is one, and `ReplayWindow` gives the exact set.
- The gateway compares amounts as rounded floating-point numbers. It never refuses a sufficient amount,
  but takes a smaller one that rounds to the same number: `Gateway.SufficientAmountIsEnough`. A configured
  price of `NaN` is accepted and then never met: `Gateway.EchoIsForwarded`.
- The CSV export is read back exactly by a reader that takes every line break as a separator. A reader
  that takes a final break as the end of the last record, which section 2 of RFC 4180 allows, loses an empty last cell
  of a one-column table, and nothing else: `Csv.FinalBreakReaderAgrees`.

## Model

| member | source | states |
|---|---|---|
| RefundProtocol.Contract.constructor | apps/arc-escrow/lib/constants.ts:34 | a deployed contract starts with an empty ledger, whatever tokens exist |
| RefundProtocol.Contract.DepositArbiterFunds | apps/arc-escrow/lib/constants.ts:34 | at 0x0464: only the arbiter; pulls the tokens and credits the arbiter's balance, or leaves storage as it was |
| RefundProtocol.Contract.WithdrawArbiterFunds | apps/arc-escrow/lib/constants.ts:34 | at 0x1601: only the arbiter, at most its balance; the reverse of a deposit |
| RefundProtocol.Contract.SetLockupSeconds | apps/arc-escrow/lib/constants.ts:34 | at 0x0679: only the arbiter, at most 15552000 seconds |
| RefundProtocol.Contract.Pay | apps/arc-escrow/lib/constants.ts:34 | at 0x1870: pulls the tokens, stores the payment under the nonce with its release time, credits the payee, counts the nonce up, and undoes all of it on any overflow |
| RefundProtocol.Contract.SettleDebt | apps/arc-escrow/lib/constants.ts:34 | at 0x24c7: pays the arbiter the smaller of debt and balance, the arbiter's balance being read after the payee's is written |
| RefundProtocol.Contract.DrawPayments | apps/arc-escrow/lib/constants.ts:34 | withdraw's loop over stored payments, which sees its own earlier writes, equals the recursive DrawAll with the same first error |
| RefundProtocol.Contract.Withdraw | apps/arc-escrow/lib/constants.ts:34 | at 0x08a9: settle, loop, deduct, transfer; any failure restores all that was written |
| RefundProtocol.Contract.PayOut | apps/arc-escrow/lib/constants.ts:34 | the end of withdraw: deducts the total from the caller's balance and sends it |
| RefundProtocol.Contract.ExecuteRefund | apps/arc-escrow/lib/constants.ts:34 | at 0x26df: sends the whole amount to the refund address and marks the payment, unless it is marked |
| RefundProtocol.Contract.RefundByRecipient | apps/arc-escrow/lib/constants.ts:34 | at 0x13b4: the payee's balance pays the refund, all or nothing |
| RefundProtocol.Contract.RefundByArbiter | apps/arc-escrow/lib/constants.ts:34 | at 0x0d79: the payee's balance pays or else the arbiter's, which the payee then owes, all or nothing |
| RefundProtocol.Contract.UpdateRefundTo | apps/arc-escrow/lib/constants.ts:34 | at 0x1130: only the current refund address, and not to zero |
| RefundProtocol.Contract.TakePayments | apps/arc-escrow/lib/constants.ts:34 | the early withdrawal's loop over stored payments equals the recursive TakeAll with the same first error |
| RefundProtocol.Contract.EarlyWithdrawByArbiter | apps/arc-escrow/lib/constants.ts:34 | at 0x1bdf: the checks in their order, the loop, the payout; any failure restores all that was written |
| RefundProtocol.Contract.PayEarly | apps/arc-escrow/lib/constants.ts:34 | the end of an early withdrawal: fee to the arbiter, rest to the recipient, hash marked; no debt is settled |
| LedgerAccounts.StepAccounts | apps/arc-escrow/lib/constants.ts:34 | every entry point keeps each payee's balance less debt equal to its claim, and moves the arbiter's position by exactly its income and the surplus of tokens by exactly its gifts |
| LedgerAccounts.DrawAllAccounts | apps/arc-escrow/lib/constants.ts:34 | withdraw's loop takes out of the caller's claim what it adds to the total, and out of no other |
| LedgerAccounts.TakeAllAccounts | apps/arc-escrow/lib/constants.ts:34 | the early withdrawal's loop takes the sum of the listed amounts out of the recipient's claim, and out of no other |
| LedgerAccounts.ChargeOrLendAccounts | apps/arc-escrow/lib/constants.ts:34 | for the payee a refund that the arbiter lends weighs exactly as one it pays itself |
| LedgerRuns.LedgerEquation | apps/arc-escrow/lib/constants.ts:34 | after every run, a payee's balance less its debt is what its unrefunded payments still hold less what its refunded ones had paid out |
| LedgerRuns.SolvencyEquation | apps/arc-escrow/lib/constants.ts:34 | after every run, the tokens held are all balances, the tokens held at the start, and what was given to the contract |
| LedgerRuns.Solvency | apps/arc-escrow/lib/constants.ts:34 | after every run the tokens held cover all balances, and exactly so if and only if there were none at the start and nothing was given; payee and arbiter may be the same |
| LedgerRuns.ArbiterMadeWhole | apps/arc-escrow/lib/constants.ts:34 | after every run the arbiter owes nothing, and its balance and all debts are its deposits and fees less its withdrawals, plus its claim where it was a payee |
| LedgerRuns.SettlingNeverReverts | apps/arc-escrow/lib/constants.ts:34 | in a reachable state the checked addition of settleDebt never overflows |
| LedgerRuns.CreditsNeverOverflow | apps/arc-escrow/lib/constants.ts:34 | in a reachable state a deposit never panics, and a pay call exactly where its release time or its nonce overflows |
| LedgerBalances.StepBooks | apps/arc-escrow/lib/constants.ts:34 | every balance and every debt on every call: a refund by the arbiter is paid by the payee wherever its balance covers it and only otherwise lent, settling moves the smaller of debt and balance, and an early withdrawal settles nothing |
| LedgerBalances.DebtsMoveOnlyBy | apps/arc-escrow/lib/constants.ts:34 | anyone comes to owe more exactly by a refund of its payment that its balance does not cover, and less exactly by settling |
| LedgerBalances.RunBooks | apps/arc-escrow/lib/constants.ts:34 | after every run each balance and each debt is the sum of what the run's calls booked |
| LedgerTransfers.StepTransfers | apps/arc-escrow/lib/constants.ts:34 | an effective call moves the tokens that its terms say between the two holders they say, and changes no other holder's |
| LedgerTransfers.TokensAreConserved | apps/arc-escrow/lib/constants.ts:34 | after every run each holder has what it had and what the calls' transfers brought it, and the supply is the same |
| LedgerTransfers.RefundedAtMostOnce | apps/arc-escrow/lib/constants.ts:34 | over any run the refunds of a payment send 0 or exactly its amount, the latter if and only if it ends up marked refunded, whichever routes were tried |
| LedgerPayments.StepEvolves | apps/arc-escrow/lib/constants.ts:34 | who may change what of a payment, in one step: payee, amount and release never; withdrawals, refunds and redirections only by whom and by what they are meant to be |
| LedgerPayments.DrawAllPayment | apps/arc-escrow/lib/constants.ts:34 | withdraw's loop empties exactly the listed payments, each of them due to the caller |
| LedgerPayments.TakeAllPayment | apps/arc-escrow/lib/constants.ts:34 | the early withdrawal's loop adds to each payment all amounts listed for it, repeated ids included |
| LedgerPayments.DigestUsedAtMostOnce | apps/arc-escrow/lib/constants.ts:34 | over any run signed early-withdrawal terms take effect at most once, and exactly if their hash becomes marked |
| LedgerPayments.LockIsFixedAtPayment | apps/arc-escrow/lib/constants.ts:34 | every payment was made by one pay call, and its payee, amount and release time, at most 180 days after that call, are still those, whatever lockups were set since |
| LedgerPayments.TermsNeverChange | apps/arc-escrow/lib/constants.ts:34 | payee, amount and release time of a payment survive every run |
| LedgerPayments.LockupIsLastSet | apps/arc-escrow/lib/constants.ts:34 | a payee's lockup is always what the last effective setLockupSeconds gave it |
| LedgerPayments.RefundToIsLastSet | apps/arc-escrow/lib/constants.ts:34 | a payment's refund address is the one its pay call gave, or that the holder of the address before passed it to, and never zero |
| LedgerPayments.PaidOutWholeOrNotAtAll | apps/arc-escrow/lib/constants.ts:34 | a payment never withdrawn early has paid out nothing or exactly its amount, and nothing before its release |
| LedgerPayments.EarlyWithdrawalKeepsWithinAmount | apps/arc-escrow/lib/constants.ts:34 | an effective early withdrawal leaves all payments within their amounts if and only if the amounts listed for each are together within what was left of it |
| LedgerPayments.EarlyWithdrawalCanExceedAPayment | apps/arc-escrow/lib/constants.ts:34 | a run in which a payment of 10 pays out 20 |
| LedgerPayments.OverdrawnIsNeverWithdrawn | apps/arc-escrow/lib/constants.ts:34 | no withdraw that lists a payment beyond its amount succeeds |
| LedgerWithdraw.DrawAllClosedForm | apps/arc-escrow/lib/constants.ts:34 | withdraw's loop succeeds exactly if every listed payment is due and the sum over the set of ids fits a word, and then adds that sum and empties that set |
| LedgerWithdraw.BatchIsASet | apps/arc-escrow/lib/constants.ts:34 | order and repetition in a batch do not matter |
| LedgerWithdraw.BatchEqualsSequence | apps/arc-escrow/lib/constants.ts:34 | in a reachable state withdraw(xs + ys) succeeds exactly if xs and then ys succeed, with the same final state, though the debt is settled once or twice |
| LedgerWithdraw.SettleTwiceIsSettleOnce | apps/arc-escrow/lib/constants.ts:34 | settleDebt is idempotent, leaves no debt or no balance, and keeps the sum of balances |
| LedgerWithdraw.DebtBeforePayout | apps/arc-escrow/lib/constants.ts:34 | a withdraw that pays anything leaves its caller without debt |
| LedgerWithdraw.PayeesArePaid | apps/arc-escrow/lib/constants.ts:34 | a payee none of whose payments was refunded after a payout or overdrawn can always withdraw its released, unrefunded payments in full, whatever it owes |
| LedgerProgress.PayingInSucceeds | apps/arc-escrow/lib/constants.ts:34 | exactly when pay, depositArbiterFunds and withdrawArbiterFunds succeed in a reachable state |
| LedgerProgress.WithdrawSucceeds | apps/arc-escrow/lib/constants.ts:34 | a withdraw succeeds exactly if all listed payments are due to the caller and together within its balance less its debt: the contract never lacks the tokens |
| LedgerProgress.RefundByRecipientSucceeds | apps/arc-escrow/lib/constants.ts:34 | exactly when a payee's refund succeeds in a reachable state |
| LedgerProgress.RefundByArbiterSucceeds | apps/arc-escrow/lib/constants.ts:34 | exactly when the arbiter's refund succeeds: the payee's balance covers it or the arbiter can lend it |
| LedgerProgress.TakeAllSucceeds | apps/arc-escrow/lib/constants.ts:34 | the early withdrawal's loop succeeds exactly if each amount is within its payment, each payment is the recipient's and unrefunded, and all sums fit a word |
| LedgerProgress.EarlyWithdrawSucceeds | apps/arc-escrow/lib/constants.ts:34 | exactly when an early withdrawal succeeds in a reachable state, which no debt of the recipient prevents |
| LedgerProgress.SettingSucceeds | apps/arc-escrow/lib/constants.ts:34 | exactly when updateRefundTo and setLockupSeconds succeed; the longest lockup is 180 days |
| LedgerProgress.WordsHave256Bits | apps/arc-escrow/lib/constants.ts:34 | the bound of the checked arithmetic |
| LedgerErrors.DrawAllErrs | apps/arc-escrow/lib/constants.ts:34 | the error of withdraw's loop names a listed payment that was wrong before the loop began, or an overdrawn payment or sum |
| LedgerErrors.TakeAllErrs | apps/arc-escrow/lib/constants.ts:34 | the error of the early withdrawal's loop names a listed payment or amount that was wrong before the loop began |
| LedgerErrors.RevertsAreJustified | apps/arc-escrow/lib/constants.ts:34 | in a reachable state the error of every call that reverts states something true of the call and the storage before it |
| Webhooks.ComputeSignature | sdks/go/webhooks.go:64-68 | the header is t= and the timestamp, a comma, v1= and the hexadecimal hash of the timestamp, a point and the body |
| Webhooks.HexDecodeInvertsEncode | sdks/go/webhooks.go:67 | hexadecimal printing is undone by decoding |
| Webhooks.HexText | sdks/go/webhooks.go:67 | the text of bytes: two lower-case digits for each, the high half first |
| Webhooks.HexDecodeExactly | sdks/go/webhooks.go:127 | decoding accepts exactly the texts that are in lower case the text of bytes, and gives those bytes |
| Webhooks.ParseInt64InvertsDecimal | sdks/go/webhooks.go:110 | a printed timestamp parses to itself over all 64-bit integers |
| Webhooks.ParseInt64Exactly | sdks/go/webhooks.go:110 | the value of a numeral with or without a sign, and where it does not fit |
| Webhooks.TimestampsAreNumerals | sdks/go/webhooks.go:110 | nothing but such numerals parses |
| Text.ParseDigitsByPosition | sdks/go/webhooks.go:110 | a numeral is read by position, in base ten |
| Webhooks.CutExactly | sdks/go/webhooks.go:92-95 | a segment has a key exactly if it has an equals sign, of which the first ends the key |
| Webhooks.ReadSegments | sdks/go/webhooks.go:88-104 | the loop keeps the last t and, in order, every v1 that is not empty |
| Webhooks.VerifySignatureWithTolerance | sdks/go/webhooks.go:87-133 | a header is accepted exactly if its last t is not empty, is fresh where the replay check is on, and some v1 decodes to the hash of that t, a point and the body |
| Webhooks.AcceptedIsSigned | sdks/go/webhooks.go:87-133 | an accepted header has a last t, in the window where the replay check is on, and a v1 that decodes to the hash of that t, a point and the body |
| Webhooks.SignedIsAccepted | sdks/go/webhooks.go:87-133 | every such header is accepted |
| Webhooks.SignedTextIsInjective | sdks/go/webhooks.go:66 | equal signed texts with timestamps without a point have the same timestamp and the same body |
| Webhooks.SignatureBindsTimestampAndBody | sdks/go/webhooks.go:87-133 | with the replay check on, a signature without a second text of the same hash is good for the timestamp and the body it was made for and no other |
| Webhooks.SomeCandidateSigns | sdks/go/webhooks.go:123-132 | some collected candidate decodes to the expected hash exactly if some segment of the header signs |
| Webhooks.ReplayWindow | sdks/go/webhooks.go:109-121 | the replay check accepts exactly the timestamps within the tolerance of now and those whose difference saturates to the most negative Duration |
| Webhooks.FarFutureCountsAsFresh | sdks/go/webhooks.go:114-118 | a timestamp three centuries ahead that the check accepts |
| Webhooks.SignedHeaderIsAccepted | sdks/go/webhooks.go:87-133 | a header with the timestamp and one signature per active secret, in any order and with any white space around segments, is accepted under each of the secrets |
| Webhooks.ComputedHeaderIsAccepted | sdks/go/webhooks.go:64-68 | the header ComputeSignature makes is accepted within the tolerance, for every body and 64-bit timestamp |
| Webhooks.UnknownSegmentsAreIgnored | sdks/go/webhooks.go:91-104 | inserting a segment without a key or with another key never changes the outcome |
| Csv.ReadPrintedField | apps/admin/lib/analytics.ts:87-93 | a printed field reads back as the text of its cell, whatever follows it |
| Csv.ReadCsvInvertsToCsv | apps/admin/lib/analytics.ts:102-108 | with at least one column, reading the export gives a record for the header and one for each row; field j is the header of column j, or what column j takes from the row, whatever quotes, commas and line breaks that holds |
| Csv.ToCsvIsInjective | apps/admin/lib/analytics.ts:102-108 | equal exports over the same columns come from equal tables |
| Csv.ToCsvAppends | apps/admin/lib/analytics.ts:104-107 | each further row is a further line behind CR LF |
| Csv.BareLineSplits | apps/admin/lib/analytics.ts:103-106 | a line of bare fields splits at its commas into the texts of its cells |
| Csv.FieldIsBareExactly | apps/admin/lib/analytics.ts:87-93 | a field is its bare text exactly if that holds no quote, comma, CR or LF, and stands between quotes otherwise; no value prints as nothing |
| Csv.EscapeDoublesQuotes | apps/admin/lib/analytics.ts:90 | escaping joins by two quotes what one quote separates |
| Csv.FinalBreakReaderAgrees | apps/admin/lib/analytics.ts:101-108 | exactly when a reader that takes a final line break as an end also gets the table back |
| Calendar.DateOfCountsDays | apps/admin/lib/analytics.ts:28-33 | the date of the next day number is the next date of the calendar, over month ends, leap days and years |
| Calendar.DayZero | apps/admin/lib/analytics.ts:29 | day 0 is the first of January 1970 |
| Calendar.DayOfInvertsDateOf | apps/admin/lib/analytics.ts:32 | year, month and day determine the day number |
| Calendar.DateOfInvertsDayOf | apps/admin/lib/analytics.ts:32 | every date of the calendar is the date of its day number |
| Calendar.PrintDayIsInjective | apps/admin/lib/analytics.ts:28-33 | isoDay prints different days differently, in every year |
| Calendar.PrintReadsBack | apps/admin/lib/analytics.ts:31-32 | a printed date reads back as year, month and day, in that order, the latter two of two digits |
| Calendar.DateOfClockTime | apps/admin/lib/analytics.ts:28-33 | every millisecond from a date's midnight to its last falls on that date |
| DayBuckets.CountDays | apps/admin/lib/analytics.ts:49-54 | the map counts, for every date, the items with a valid time that print as it |
| DayBuckets.BucketByDay | apps/admin/lib/analytics.ts:43-64 | bucketByDay gives the last `days` days with their counts, and throws exactly where the window leaves the range of time values |
| DayBuckets.BucketByDayShowsDates | apps/admin/lib/analytics.ts:43-64 | the last bucket is the anchor's date, each other the date as many days before, and each counts the items from its date's midnight up to the next, in milliseconds |
| DayBuckets.IsoDayPrintsTheDate | apps/admin/lib/analytics.ts:28-33 | isoDay prints the date between whose midnights the time lies |
| DayBuckets.BucketsAreConsecutiveDays | apps/admin/lib/analytics.ts:38-63 | there are exactly `days` buckets, of consecutive and pairwise distinct dates that end at the anchor's |
| DayBuckets.CountOnDay | apps/admin/lib/analytics.ts:50-61 | counting by printed date is counting by day number |
| DayBuckets.CountsAreComplete | apps/admin/lib/analytics.ts:43-64 | the counts add up to the number of items with a valid time in the window |
| Base64.DecodeInvertsEncode | services/x402-gateway/payment.go:97-103 | each of the four encodings is undone by its decoder |
| Base64.Alphabets | services/x402-gateway/payment.go:58-63 | the standard and the URL-safe alphabet |
| Base64.SextetsSpellBytes | services/x402-gateway/payment.go:58-63 | three bytes are one number of 24 bits, spelled from the highest six |
| Base64.EncodedLength | services/x402-gateway/payment.go:58-63 | how long an encoding is, with padding and without |
| Base64.EncodedEnd | services/x402-gateway/payment.go:58-63 | how many padding characters end it |
| Base64.OnlyLineBreaksAreIgnored | services/x402-gateway/payment.go:57-73 | CR and LF are passed over wherever they stand; any other character outside the alphabet makes a decoder fail, padding of a padded text aside |
| Base64.DecodersAgree | services/x402-gateway/payment.go:57-73 | two of the four decoders that accept the same text return the same bytes |
| Base64.DecodeBase64Flexible | services/x402-gateway/payment.go:57-73 | the loop returns the bytes of the first encoding that accepts |
| Base64.FlexibleIsAnyDecoder | services/x402-gateway/payment.go:57-73 | the result is that of any encoding that accepts, so the order of trials never matters, and there is none exactly if none accepts |
| Base64.FlexibleInvertsEncode | services/x402-gateway/payment.go:57-73 | every byte string decodes from each of its four encodings, line breaks inserted anywhere |
| Floats.RoundingIsMonotone | services/x402-gateway/payment.go:107-113 | rounding to nearest never swaps two numbers, however ties are broken |
| Gateway.LoadConfig | services/x402-gateway/config.go:68-137 | succeeds exactly on environments that give every required variable and usable values, and names exactly the missing ones; every error is true of the environment; a loaded configuration has a trimmed, parsed price that is not negative, a known network and a source of nonces |
| Gateway.MissingNames | services/x402-gateway/config.go:86-107 | the list holds exactly the required variables that are blank |
| Gateway.FieldsAreVariables | services/x402-gateway/config.go:58-84 | each field of a loaded configuration is its own variable, trimmed; two have a default |
| Gateway.ChallengeStatesRequirements | services/x402-gateway/requirements.go:52-67 | every challenge states the configured price, currency, network, payee, product and resource, and the configured or derived nonce; it gives no reason exactly where no payment was presented |
| Gateway.Handler.ParseHeader | services/x402-gateway/payment.go:30-54 | the steps from header to proof, with the reason of the first that fails |
| Gateway.Handler.ServeHTTP | services/x402-gateway/gateway.go:60-92 | challenge without a reason where there is no payment, with the reason where it is malformed or refused, forward otherwise |
| Gateway.HeaderKinds | services/x402-gateway/payment.go:30-54 | exactly when a header presents nothing, is not base64, or is not JSON |
| Gateway.RefusalNamesTheField | services/x402-gateway/payment.go:76-93 | an incomplete proof is refused for its first missing field or unknown network, and a complete one is not refused |
| Gateway.ForwardedExactlyIfPaid | services/x402-gateway/verify.go:40-55 | in local mode a request is forwarded exactly if its header decodes, in any encoding, to a proof with transaction hash, sender, amount and nonce, a known network, the expected nonce and network, and an amount that parses to at least the price |
| Gateway.ForwardedExactlyIfVerified | services/x402-gateway/verify.go:112-117 | with a verifier configured, exactly if the header decodes to such a complete proof and the verifier has no objection |
| Gateway.EncodedHeaderIsParsed | services/x402-gateway/payment.go:93-103 | encodePaymentHeader is undone by parsePaymentHeader, whatever white space surrounds it |
| Gateway.AnswerIsForwardedIfEnough | services/x402-gateway/gateway.go:60-92 | for every loaded configuration, a complete proof that answers the challenge is forwarded exactly if it pays enough |
| Gateway.EchoIsForwarded | services/x402-gateway/requirements.go:52-91 | a proof that echoes the challenge's nonce, network and amount is forwarded, for every loaded configuration whose price is not NaN, and for no other |
| Gateway.SufficientAmountIsEnough | services/x402-gateway/payment.go:105-113 | an amount numerically at least the price is never refused, and a smaller one is taken exactly where both round to the same number |
| Gateway.SlightlyLessCanBeEnough | services/x402-gateway/payment.go:112 | a price and a smaller amount that round to the same number |
| AdminStore.ReplaceById | apps/admin/lib/store.ts:69-81 | replaces every entry that matches, keeps the others and the order, and reports the last replaced one |
| AdminStore.Store.Decide | apps/admin/lib/service.ts:124-136 | sets the review state of the profile with the id and of nothing else |
| AdminStore.Store.Retry | apps/admin/lib/service.ts:149-170 | a failed run succeeds with one more attempt; any other is returned as it is; nothing is found exactly if no run has the id |
| AdminStore.Store.BeginReplay | apps/admin/lib/service.ts:206-209 | a replay starts exactly if the event is there |
| AdminStore.Store.EndReplay | apps/admin/lib/service.ts:248-258 | the outcome is recorded on the event as it is after the wait |
| AdminStore.NoReplayIsLost | apps/admin/lib/service.ts:206-259 | however actions interleave, each event's attempts grow by exactly its completed replays, it shows the outcome and error of the last and the time of the last delivery, and the list keeps its events and their order |
| AdminStore.CompletedWereStarted | apps/admin/lib/service.ts:206-259 | every started replay completes once or still waits |
| AdminStore.LastDecisionStands | apps/admin/lib/service.ts:117-136 | however actions interleave, a profile is in the state of the last decision on it, since then, and otherwise unchanged |
| AdminStore.RetryFixesOne | apps/admin/lib/service.ts:149-170 | a retry lowers failedDeliveries by exactly one if its run had failed, and otherwise changes nothing |
| AdminStore.RunsAreRetriedAtMostOnce | apps/admin/lib/service.ts:149-170 | over any interleaving a run is retried at most once, only if it had failed, with one attempt more and only the actions with an error rerun |
| AdminStore.RetriesAddUp | apps/admin/lib/service.ts:105 | failedDeliveries falls by exactly the number of effective retries, and by nothing else |
| AgentConsole.Counters.Record | apps/agent-console/lib/data.ts:421-432 | both maps hold, for every slug, the sums over the usages recorded so far |
| AgentConsole.Counters.RecordAgent | apps/agent-console/lib/data.ts:402-433 | the inner loop records exactly the known requests of some units, in order, and its counters are their sums |
| AgentConsole.GetAgentConsoleContext | apps/agent-console/lib/data.ts:394-503 | agents, services, usages and the total spend are the sums over all recorded usages |
| AgentConsole.RequestsAreRecorded | apps/agent-console/lib/data.ts:401-433 | every request for a listed slug and a positive number of units is recorded, under the number of such requests before it, and nothing else is |
| AgentConsole.RowIsTheAgents | apps/agent-console/lib/data.ts:435-449 | each agent's row has its own id, requests, units and spend |
| AgentConsole.ListingIsTheServices | apps/agent-console/lib/data.ts:453-468 | each service's row has its own slug and the sums over the usages with that slug |
| AgentConsole.AgentsAddUp | apps/agent-console/lib/data.ts:435-449 | the agents' spend and requests add up to those of all usages |
| AgentConsole.BothSumsAgree | apps/agent-console/lib/data.ts:453-483 | the services' revenue and requests add up to those of all usages exactly if every usage that counts has a slug listed once |
| AgentConsole.DistinctSlugsAgree | apps/agent-console/lib/data.ts:394-503 | with distinct slugs the agents' and the services' sums are equal, for spend and for requests |

## Left out

- The token beyond moving exactly the amount or reverting; the contract ignores the boolean it returns.
- Re-entrancy through the token, events, gas and ABI decoding of the contract.
- EIP-712 hashing and signature recovery: the digest and the recovered signer are part of the terms.
- A contract that calls itself: its code never does, so it is never the sender of a transaction.
- HMAC-SHA256: a function of secret and message of which nothing is assumed but, in round trips, a hash that is not empty.
- Constant-time comparison, and `VerifySignature`, which only fixes the tolerance.
- Invalid UTF-8 and lone UTF-16 surrogates: strings are sequences of Unicode scalar values.
- The text form of a value in a CSV cell (`String(value)`): a cell is empty or already text.
- The parsing of timestamps (`Date.parse`): a function to an optional time value; a fractional `days` or anchor.
- JSON in the gateway: a pair of functions, inverse on the proofs the round trips speak of.
- Floats.RoundingIsMonotone: is about any rounding to nearest over the reals; binary64's exponent range enters only as the limit within which numerals are parsed.
- The remote verifier, the reverse proxy, response headers, logging, and the wording of the gateway's reasons, which are values here.
- The order in which LoadConfig, and a contract call, reports the first of several things that are wrong: the bodies have the source's order, the contracts say that what is reported is wrong.
- Reading the admin store from Postgres, its other lists and pages, and the counts of platformOverview other than failedDeliveries.
- What a webhook delivery does while a replay waits: its outcome is a value that arrives at the end.
- The price of a usage in the agent console (`recordAgentUsage`): an arbitrary charge for each usage, in whole smallest units.
- Sorting and cutting the activity to 25 rows, ratings, budgets, citations and proofs in the agent console.
- `countBy` and `sumSettledVolume`: the counting loop and the sum are instances of what is proved elsewhere.
- The operator vault and escrow contracts that contracts/README.md describes: their Solidity is not part of this model.
- Pagination, redirects, status tables, React components, SDK HTTP calls and shell commands: nothing spans two functions there.
