# Hedge vault: a model and its proofs

The hedge vault is a Solana program. Depositors ask for shares, holders ask to redeem them, and both wait
in a queue until the vault's net asset value (NAV) is posted in a later epoch; fees are paid by minting
shares. This project models that program in Dafny and proves what it guarantees over whole runs.

`dafny verify dfyconfig.toml` checks everything.

## How the model is built

- `Words`, `Arithmetic`, `Tables`: machine words with checked operations that return an error, floor
  quotients, balance tables and their totals.
- `VaultModel`: the vault account as a value and each of its operations in unbounded integers.
  `VaultAccount`: the same account as a class whose methods assign fields one after another in checked 64-
  and 128-bit words. Each method is proved to leave exactly the account of `VaultModel` and to fail with
  exactly its error, so an overflow happens only where the exact computation says so.
- `Requests`, `Protocol`: requests, and the program as a function from accounts and an instruction to
  accounts and an event, or an error. What others can do to these accounts (donate, transfer and burn
  shares, trade with the idle balance) are instructions too.
- `TokenProgram`, `Program`: the handlers as methods that change loaded accounts and call the token
  program, and the transaction that rolls an error back. Each is proved to do what `Protocol` says, or to
  report the error that comes first.
- `Runs`: runs from a new vault under a clock that never goes back, with the log of events.
- `Frames`, `Posting`, `Solvency`, `Escrow`, `Tracing`, `ForwardPricing`, `HighWaterMark`, `FeeTimelock`,
  `Outflow`, `Drift`, `SpeedLimit`, `Closing`, `FeeLaws`: one law each. `Invariant` puts them together and
  proves that every run keeps them; `Guarantees` and `FeeGuarantees` draw the conclusions.
- `Payees`, `RateRequests`, `BoundedPosts`, `Wallets`, `Settings`, `Refusals`: what instructions do to whom, told
  from the fields of the accounts and the arguments: who is charged and paid, which rates were asked for, how far
  an update moves NAV, which wallets move, what settings bind, and what errors mean.
- `SettlementOrder`, `ClaimErasure`: pairs of runs that must agree. `Founding`, `LateSettlement`,
  `FeeRounding`: concrete runs.
- `PayoutRent`: the lamports a request escrows for its payout account, as functions and as a class.
  `Transactions`: an instruction together with the lamports it moves; the handlers of `Program` do both.
  `RentRuns`, `RentGuarantees`: runs with lamports and what holds in every state they reach.
- `JupiterRoute`, `JupiterSwap`, `JupiterAccounts`: the swap relay.

## Where the code and its documentation differ

- An epoch is 14,400 s (`programs/hedge_vault/src/constants.rs:23`), not 86,400 s.
- "Worth exactly the fee at the new NAV" (`programs/hedge_vault/src/state/vault.rs:345`) holds if and only if
  both share quotients and the quotient of the recorded NAV come out even (`FeeLaws.WorthExactlyIfEven`, and
  over every successful post `FeeGuarantees.PostWorthTheFee`). It fails in the run of `FeeRounding.FeeOfTen`, at the
  post of `FeeLaws.FeeNotWorthExactly`. Otherwise it holds up to the rounding that `FeeLaws.DilutionFair` bounds,
  and never in excess.
- The escrow equals the pending total exactly if nobody donated to it (`Guarantees.EscrowsMirrorRequests`,
  with a counterexample in `Guarantees.DonationBreaksEquality`). A donation also keeps a vault from being
  closed (`Guarantees.ClosingStrandsNobody`).
- "A request settles at the first NAV posted in a later epoch" (the repository's `README.md:53-54`,
  `README.md:111-112`) fails if it is left unsettled past another post (`LateSettlement.SettledAtSecondPost`):
  it gets the NAV in force when it is settled, always of a later epoch (`Guarantees.RequestsArePricedForward`).
  It is the first one exactly under the condition of `Guarantees.WhenSettledAtFirstPost`, and always while the
  NAV epoch directly follows the request's (`Guarantees.NextEpochIsFirst`).
- The outflow cap is computed but not enforced (`programs/hedge_vault/src/state/vault.rs:483-494`).

## Model

| member | source | states |
|---|---|---|
| `Guarantees.AlwaysSolvent` | `programs/hedge_vault/src/state/vault.rs:276-391` | In every reachable state `nav_per_share` times the virtual supply (minted plus both unclaimed fee counters) is at most `total_assets * NAV_PRECISION`, and any amount of existing shares redeems for at most `total_assets`. |
| `Guarantees.DriftIsBounded` | `programs/hedge_vault/src/state/vault.rs:444-499` | Since the latest post, which left S > 0 shares, the assets not owed to any share are never negative and, without holder burns, at most (S-1) + m(nav-1) + n(P-1) after m deposit and n withdrawal settlements. |
| `Guarantees.RequestsArePricedForward` | `programs/hedge_vault/src/state/withdrawal_request.rs:69-85` | For every settlement in the log of a reachable run: its NAV is that of the latest post, that post is later in the log and strictly later in time than every create call merged into the request, the request held exactly their sum, and the output is the floor quotient at that NAV. |
| `Guarantees.WhenSettledAtFirstPost` | `README.md:111-112` | For every settlement in the log of a reachable run: the NAV it got is the first one posted in an epoch after its last contribution if and only if no other post of a later epoch lies between that contribution and the post in force, and if and only if the post before the one in force is not of a later epoch. |
| `Guarantees.NextEpochIsFirst` | `README.md:111-112` | Read off the state before settling: a live request that can be settled gets the first NAV of a later epoch exactly if the previous post was not of one, and always if the NAV epoch directly follows that of the request. |
| `Founding.Founds` | `README.md:111-112` | Any new vault that takes the deposit reaches, by the first post and the settlement, exactly the state that holds all of it in shares at par. |
| `Founding.NewVaultIsAsGiven` | `programs/hedge_vault/src/state/vault.rs:141-180` | A new vault holds the limits, rates, mints and authority it was asked for, and accepts its first deposit exactly within them. |
| `LateSettlement.LateRun` | `README.md:53-54` | A concrete reachable run: a deposit of epoch 1, posts in epochs 2 and 3, and only then the settlement. |
| `LateSettlement.SettledAtSecondPost` | `README.md:111-112` | In that run the deposit of 10 gets 2 shares, at the NAV of epoch 3, where the first NAV after it, that of epoch 2, would have given 5. |
| `Guarantees.EscrowsMirrorRequests` | `programs/hedge_vault/src/state/vault.rs:422-473` | In every reachable state each pending total is the sum of the live requests, each escrow holds that sum plus what was donated, so the two are equal exactly if nothing was donated; and the mint supply is the wallets plus the share escrow. |
| `Guarantees.DonationBreaksEquality` | `docs/accounts.md:236-237` | For every new vault and every user with five tokens, a donation leads to a reachable state whose deposit escrow holds 5 while nothing is pending. |
| `Guarantees.RejectReturnsTokens` | `programs/hedge_vault/src/state/vault.rs:439-442` | In every reachable state the vault's side of rejecting a live deposit succeeds whatever the status gates say, and credits exactly what its owner put in since it opened. |
| `Guarantees.RejectReturnsShares` | `programs/hedge_vault/src/state/vault.rs:470-473` | The same for a withdrawal request and its shares. |
| `Guarantees.CancelReturnsTokens` | `programs/hedge_vault/src/state/vault.rs:439-442` | In every reachable state the vault's side of cancelling a deposit that is not matured at a positive NAV succeeds, and credits exactly what its owner put in. |
| `Guarantees.CancelReturnsShares` | `programs/hedge_vault/src/state/vault.rs:470-473` | The same for a withdrawal that is not matured. |
| `Guarantees.DepositEntry` | `programs/hedge_vault/src/state/vault.rs:422-437` | Over reachable states a deposit request is accepted exactly if the gates are open, the amount is positive and held, the live request is of this epoch, NAV is positive, the minimum is met and assets, pending deposits and amount stay within the cap; no sum overflows. |
| `Guarantees.WithdrawalEntry` | `programs/hedge_vault/src/state/vault.rs:460-468` | Over reachable states a withdrawal request is accepted exactly if the gates are open, the shares are positive and held, the live request is of this epoch, and the minimum is met or the whole balance withdrawn. |
| `Guarantees.WithdrawalExits` | `programs/hedge_vault/src/state/withdrawal_request.rs:78-94` | Each pending withdrawal is at every moment exactly one of cancellable or resolvable; cancelling then always works, and resolving works exactly if the gates are open and the idle balance covers the payout, so its arithmetic never fails. |
| `Guarantees.DepositExits` | `programs/hedge_vault/src/state/deposit_request.rs:78-96` | Each pending deposit is at every moment exactly one of cancellable or (matured at a positive NAV); then it resolves exactly if the gates are open, the share quotient is positive, and neither supply nor assets leave u64. |
| `Guarantees.MaturedStaysMatured` | `programs/hedge_vault/src/state/withdrawal_request.rs:69-94` | A withdrawal that can be resolved stays as it is and never becomes cancellable again, over every continuation that does not close it. |
| `Guarantees.ClosingStrandsNobody` | `programs/hedge_vault/src/instructions/vault_close.rs:78-95` | Over reachable states the close guards pass exactly if the vault is open and there is no request, no strategy record, no share in any wallet, no unclaimed fee, no asset, no idle token and no donation. |
| `Guarantees.RecordsAreCounted` | `programs/hedge_vault/src/instructions/vault_close_strategy.rs:79-81` | The open-strategy counter is the number of live records, ids are distinct, and closing a live, emptied record through an open gate never fails. |
| `Guarantees.OnlyPostsMoveNav` | `docs/architecture-evolution.md:28-32` | NAV per share changes only inside a post. |
| `Guarantees.OutflowIsWhatWasPaid` | `programs/hedge_vault/src/state/vault.rs:475-499` | In every reachable state the outflow counter is the sum of what withdrawals were paid since the latest post. |
| `Wallets.WalletsFollowTheLog` | `programs/hedge_vault/src/instructions/deposit_request_resolve.rs:140-166` | No instruction of the program moves any wallet, in tokens or shares, but as its log entry says. |
| `Wallets.StatementsBalance` | `programs/hedge_vault/src/lib.rs:22-180` | Over every run in which others leave a wallet alone, it holds what it held and what the entries of the log have brought in since, in tokens and in shares. |
| `Wallets.EntriesTellTheTruth` | `programs/hedge_vault/src/lib.rs:22-180` | The entry of a request instruction names its user, the amount given or all that the request held, and the NAV in force; no other instruction makes such an entry. |
| `Wallets.RequestsGrow` | `programs/hedge_vault/src/state/deposit_request.rs:44-76` | A request opens with its first contribution, in the epoch and at the time of that, or grows by what is added in the same epoch; no other request changes. |
| `Wallets.DepositPaysTheWorth` | `programs/hedge_vault/src/state/vault.rs:444-458` | The shares minted for a deposit are its worth at the NAV in force, short of less than one share. |
| `Wallets.WithdrawalPaysTheWorth` | `programs/hedge_vault/src/state/vault.rs:475-499` | The tokens paid for a withdrawal are its worth at the NAV in force, short of less than one unit. |
| `Refusals.RefusalsAreTrue` | `programs/hedge_vault/src/error.rs:1-182` | Whenever an instruction on requests, NAV, claims, strategies or the end of the vault is refused, the reason that its error names is there, read off the accounts and the instruction. |
| `Settings.GatesHold` | `programs/hedge_vault/src/state/vault.rs:229-275` | Deposits are taken and settled only while protocol and vault are normal and deposits are not paused; withdrawals also while either only reduces; likewise for opening and closing strategies. |
| `Settings.RefundsAreUngated` | `programs/hedge_vault/src/instructions/deposit_request_reject.rs:54-144` | Cancelling, rejecting and claiming do the same whatever the status gates say. |
| `Settings.PostsAreUngated` | `programs/hedge_vault/src/instructions/nav_update.rs:30-87` | So does posting a NAV. |
| `Settings.VaultUpdateMovesWhatItNames` | `programs/hedge_vault/src/instructions/vault_update.rs:28-95` | A vault update leaves each limit, minimum, status and pause flag as given, or as it was, and nothing else but the fee schedule changed. |
| `Settings.VaultUpdateAccepted` | `programs/hedge_vault/src/instructions/vault_update.rs:28-95` | It goes through exactly if the vault is open, no minimum is zero and, if it touches fees, both resulting rates are at most 100% and the due time of an increase fits. |
| `Settings.PauseStops` | `programs/hedge_vault/src/instructions/vault_pause.rs:19-51` | A pause sets the status of the vault to paused and changes nothing else. |
| `Settings.UpdatesBind` | `programs/hedge_vault/src/instructions/vault_update.rs:28-95` | The request that comes next obeys the minimum, cap, pause and status that were set. |
| `Settings.ConfigUpdateMovesWhatItNames` | `programs/hedge_vault/src/instructions/config_update.rs:34-147` | A config update leaves each role, rate, cap and status as given, or as it was, and nothing else changed. |
| `Settings.ConfigUpdateAccepted` | `programs/hedge_vault/src/instructions/config_update.rs:34-147` | It is refused exactly for a zero key, and else for a rate above 100% or a zero cap on slippage, with the error of the first. |
| `FeeGuarantees.MarkIsThePeak` | `programs/hedge_vault/src/state/vault.rs:377-379` | The high-water mark is the maximum of NAV_PRECISION and every NAV ever recorded. |
| `FeeGuarantees.PerformanceFeeNeedsNewPeak` | `programs/hedge_vault/src/state/vault.rs:311-318` | A performance fee is due only if gross NAV exceeds NAV_PRECISION and every NAV ever recorded. |
| `FeeGuarantees.RepostingChargesNothing` | `programs/hedge_vault/src/state/vault.rs:307-318` | After a post, any run without settlements, burns or posts of other assets (claims, requests and trades included) charges no performance fee, however many posts it holds. |
| `FeeGuarantees.PendingPairIsAnIncrease` | `programs/hedge_vault/src/state/vault.rs:505-540` | A pending fee pair exceeds the live pair in some rate, is the pair the latest fee update asked for, and is due the delay after it. |
| `FeeGuarantees.RatesRiseOnlyAfterDelay` | `programs/hedge_vault/src/state/vault.rs:382-383` | A live rate rises only inside a NAV post, at least 604,800 s after the latest fee update, to exactly the pair that update requested. |
| `FeeGuarantees.HoldersHaveNotice` | `programs/hedge_vault/src/state/vault.rs:505-550` | From a state with no increase due, no run shorter than the delay raises any live rate. |
| `FeeTimelock.PostChargesOldRates` | `programs/hedge_vault/src/state/vault.rs:382-383` | The outcome of a post does not depend on the pending pair: the post that makes it live charges the old rates. |
| `RateRequests.UpdateAsksForArguments` | `programs/hedge_vault/src/state/vault.rs:505-540` | A successful fee update sets the latest pair, which is the pending one if there is one and else the live one, to the arguments it was given, performance to performance and management to management, leaves a rate left out as it was, and logs that pair. |
| `RateRequests.UpdateOnlyLowers` | `programs/hedge_vault/src/state/vault.rs:520-538` | It makes the pair live at once exactly if neither rate rises; otherwise the live pair stays and the new one is due after the delay. |
| `RateRequests.LatestStays` | `programs/hedge_vault/src/state/vault.rs:542-550` | Nothing else moves the latest pair, the post that makes it live included. |
| `RateRequests.RatesAreAsked` | `programs/hedge_vault/src/state/vault.rs:505-550` | Along every run from the opening of a vault, the live pair, or the pending one while there is one, is made of the last performance rate and the last management rate that a successful update was given, or the vault opened with. |
| `FeeGuarantees.NavSpeedLimit` | `programs/hedge_vault/src/state/vault.rs:393-405` | Over reachable runs of posts held to a bound of at most b basis points, NAV moves by at most the factors (10000-b)/10000 and (10000+b)/10000 per epoch, compounded over the epochs between any two posts. |
| `BoundedPosts.UpdateIsBounded` | `programs/hedge_vault/src/instructions/nav_update.rs:63-73` | A `nav_update` that succeeds with shares outstanding moves NAV per share by at most the configured share of it: the move times 10,000 is at most NAV times `max_nav_deviation_bps`. |
| `BoundedPosts.UpdateIsBoundedOverride` | `programs/hedge_vault/src/state/vault.rs:364-366` | A `nav_update` succeeds exactly if the override of the same assets would and, with shares outstanding, would stay within the configured bound; both leave the same accounts. |
| `BoundedPosts.UpdatesAreSlow` | `programs/hedge_vault/src/state/vault.rs:393-405` | Over every run of transactions whose posts are all `nav_update` under a configured bound of at most b, with shares outstanding, NAV moves by at most the factors (10000-b)/10000 and (10000+b)/10000 for each epoch gone by. |
| `FeeGuarantees.ZeroNavStaysZero` | `programs/hedge_vault/src/state/vault.rs:364-366` | A zero NAV stays zero until an override or an empty supply. |
| `FeeGuarantees.PostIsDefined` | `programs/hedge_vault/src/state/vault.rs:277-391` | From a reachable state, less than 2^50 s after the last post, every product and sum of a post fits 128 bits; the post succeeds exactly if the vault is open, the assets cover the idle balance, the epoch is new, the virtual supply fits u64, and (with supply) fees are below assets, NAV is within its bound, and NAV and counters fit u64; and it reports an overflow only if the virtual supply or a fee counter leaves u64. |
| `FeeGuarantees.PostIsFair` | `programs/hedge_vault/src/state/vault.rs:320-362` | With T assets, fees F, supply S before and S' after: the fee shares f satisfy 0 <= F S' - f T <= 2(T-F-1), old holders keep S T >= (T-F) S', and each payee gets less than its fee times (S'+1)/S'. |
| `FeeGuarantees.PostWorthTheFee` | `programs/hedge_vault/src/state/vault.rs:345-362` | For every successful post that charges a fee: the shares it accrues redeem at the NAV it records for at most the fee, and for exactly the fee if and only if both share quotients and the NAV quotient are even. |
| `Payees.EachAtItsOwnRates` | `programs/hedge_vault/src/state/vault.rs:320-338` | Manager and platform are each due what the same post would charge in all if the other's rates were zero. |
| `Payees.EachIsProportional` | `programs/hedge_vault/src/state/vault.rs:320-338` | Each is due its management rate on the assets for the time since the last post plus its performance rate on the eligible profit, short of less than two units. |
| `Payees.PostDuesAreProportional` | `programs/hedge_vault/src/instructions/nav_update.rs:63-73` | The same of a post in a vault: the manager by the vault's own rates, the platform by those of the configuration, for the time since the recorded post. |
| `Payees.PostPaysEach` | `programs/hedge_vault/src/state/vault.rs:346-374` | A successful post raises each counter by the shares that the payee's own fee buys: the floor of fee times supply over the assets net of fees. |
| `Payees.NoRatesNoShares` | `programs/hedge_vault/src/state/vault.rs:320-374` | A post with both vault rates zero accrues no manager shares, and one with both platform rates zero no platform shares. |
| `Payees.ManagerIsPaid` | `programs/hedge_vault/src/instructions/vault_claim_manager_fee.rs:33-80` | The manager's claim brings the vault's authority exactly the manager counter, zeroes that counter, and moves no other wallet, counter or balance but the supply. |
| `Payees.PlatformIsPaid` | `programs/hedge_vault/src/instructions/config_claim_platform_fee.rs:39-94` | The same of the platform's claim, the platform counter and the treasury authority. |
| `FeeGuarantees.ClaimsMatchAccruals` | `programs/hedge_vault/src/state/vault.rs:371-374` | In every reachable state, what each payee has claimed and what it may still claim is together exactly what the posts accrued to it, and every claim for the manager went to the vault's authority. |
| `Payees.KeepsFeesTraced` | `programs/hedge_vault/src/state/vault.rs:552-568` | Every instruction keeps that balance. |
| `FeeLaws.WorthExactlyIfEven` | `programs/hedge_vault/src/state/vault.rs:345-365` | At the NAV recorded, fee shares are worth exactly the fee, before and after the floor of a redemption, if and only if both share quotients and the NAV quotient are even; they are never worth more. |
| `FeeLaws.FeeNotWorthExactly` | `programs/hedge_vault/src/state/vault.rs:345` | A failing input: 1010 assets, 700 shares and a fee of 10 make both share quotients even, and yet the 7 fee shares redeem for 9 at the NAV recorded. |
| `FeeRounding.FeeOfTen` | `programs/hedge_vault/src/state/vault.rs:345` | That input occurs: a run of a vault that charges 1% a year reaches it, and its next post accrues the 7 shares. |
| `FeeLaws.ExactRatioIfEven` | `programs/hedge_vault/src/state/vault.rs:346-354` | At the unrounded ratio of assets to supply, even share quotients are enough, and necessary. |
| `FeeLaws.DilutionFair` | `programs/hedge_vault/src/state/vault.rs:346-358` | The dilution inequalities for all assets, supplies and fees. |
| `FeeLaws.PayeeBounded` | `programs/hedge_vault/src/state/vault.rs:346-358` | Neither payee alone gets its fee times (S'+1)/S' or more. |
| `FeeLaws.ManagementFeeOfAYear` | `programs/hedge_vault/src/state/vault.rs:407-412` | A year at b basis points costs exactly that share of the assets. |
| `FeeLaws.ManagementFeeAccrues` | `programs/hedge_vault/src/state/vault.rs:407-412` | Splitting a period over two posts never charges more management fee, and at most one unit less. |
| `FeeLaws.ProfitIsAboveMark` | `programs/hedge_vault/src/state/vault.rs:308-318` | Taking the whole eligible profit would still leave every share at the mark, and misses less than one unit and one share of it. |
| `FeeLaws.PerformanceFeesWithinProfit` | `programs/hedge_vault/src/state/vault.rs:414-418` | Two rates that sum to at most 100% take at most the profit. |
| `FeeLaws.ProfitFeesSpareMark` | `programs/hedge_vault/src/state/vault.rs:346-362` | Fees within the eligible profit never dilute NAV below the mark they were measured from. |
| `ClaimErasure.ClaimsNeverMatter` | `programs/hedge_vault/src/state/vault.rs:293-296` | Deleting a fee claim from any reachable run leaves every event but the claims, and the final assets, NAV, mark, requests, escrows and wallets of others unchanged, if supplies fit u64 and no step asks a wallet for shares that it holds in only one of the two runs. |
| `ClaimErasure.SparesEnough` | `programs/hedge_vault/src/state/vault.rs:293-296` | That condition binds claimants only, and they meet it by using no more shares than they hold in both runs, and in a withdrawal no less than the minimum. |
| `ClaimErasure.ClaimIsInvisible` | `programs/hedge_vault/src/state/vault.rs:552-568` | A claim changes nothing but where the fee shares are counted. |
| `SettlementOrder.OrderDoesNotMatter` | `programs/hedge_vault/src/instructions/withdrawal_request_resolve.rs:117-176` | Two permutations of the same deposit and withdrawal settlements that both go through end in the same accounts, and each settlement emits what the starting accounts determine. |
| `SettlementOrder.RunSettles` | `programs/hedge_vault/src/state/vault.rs:444-499` | A run of settlements ends in a closed form that depends only on the sets of users settled. |
| `Invariant.StepKeepsStanding` | `programs/hedge_vault/src/lib.rs:22-180` | Every transaction, successful or rolled back, keeps the whole invariant. |
| `Invariant.ReachableIsGood` | `programs/hedge_vault/src/lib.rs:22-180` | Every reachable state satisfies the invariant. |
| `Solvency.SurplusGrows` | `programs/hedge_vault/src/state/vault.rs:444-499` | Between posts no instruction, fee claims and burns included, lowers the surplus of assets over what shares are worth. |
| `Solvency.DepositSurplus` | `programs/hedge_vault/src/instructions/deposit_request_resolve.rs:64-177` | A deposit settlement raises the surplus by less than one share price. |
| `Solvency.WithdrawalSurplus` | `programs/hedge_vault/src/instructions/withdrawal_request_resolve.rs:65-187` | A withdrawal settlement raises the surplus by less than one unit. |
| `Solvency.PostSurplus` | `programs/hedge_vault/src/instructions/nav_update.rs:30-87` | A post leaves the vault solvent, with less than one unit of surplus per share. |
| `Solvency.RoundTripNeverProfits` | `programs/hedge_vault/src/state/vault.rs:444-499` | Depositing and withdrawing at one NAV returns at most the amount, and loses less than one unit and one share price. |
| `Solvency.ReverseTripNeverProfits` | `programs/hedge_vault/src/state/vault.rs:444-499` | Withdrawing and depositing at one NAV returns at most the shares. |
| `Solvency.MergingNeverCosts` | `programs/hedge_vault/src/state/deposit_request.rs:69-76` | Merging deposits into one request costs no shares and gains at most one. |
| `Escrow.KeepsMirrored` | `programs/hedge_vault/src/state/vault.rs:422-473` | Every instruction keeps pending totals, escrows, requests and mint supply in agreement. |
| `Escrow.TokensConserved` | `programs/hedge_vault/src/instructions/deposit_request_resolve.rs:140-166` | No instruction of the program creates or loses deposit tokens. |
| `Tracing.KeepsTraced` | `programs/hedge_vault/src/state/deposit_request.rs:69-76` | Every instruction keeps each live request equal to what the log says its owner put in, all in one epoch. |
| `Tracing.KeepsNavPosted` | `programs/hedge_vault/src/state/vault.rs:385-388` | NAV, NAV epoch and NAV time are always those of the latest post in the log. |
| `ForwardPricing.KeepsFairlyClosed` | `programs/hedge_vault/src/state/deposit_request.rs:69-85` | Every instruction keeps the log fairly closed: refunds exact, settlements priced forward. |
| `HighWaterMark.KeepsMarked` | `programs/hedge_vault/src/state/vault.rs:377-379` | Every instruction keeps the mark equal to the peak of the log. |
| `HighWaterMark.RepostingIsFree` | `programs/hedge_vault/src/state/vault.rs:307-318` | From any state without unrealized profit, runs without flows charge no performance fee. |
| `HighWaterMark.FeesSplit` | `programs/hedge_vault/src/state/vault.rs:320-338` | The fees due are the management fees for the elapsed time plus the performance fees on the eligible profit. |
| `FeeTimelock.KeepsTimelocked` | `programs/hedge_vault/src/state/vault.rs:505-550` | Every step keeps a pending pair equal to the latest request, due after the delay, and above the live pair. |
| `FeeTimelock.RatesAfter` | `programs/hedge_vault/src/instructions/vault_update.rs:28-95` | Only posts and fee-touching updates move rates, and they move them as the timelock says; a status-only update leaves a pending delay alone. |
| `Outflow.KeepsOutflowCovered` | `programs/hedge_vault/src/state/vault.rs:475-499` | What was paid since the post plus what the matured requests are worth stays within u64, so the outflow counter never overflows. |
| `Drift.KeepsDriftBounded` | `programs/hedge_vault/src/state/vault.rs:444-499` | Every instruction keeps the surplus within the dust that the log allows. |
| `SpeedLimit.RunWithinSpeed` | `programs/hedge_vault/src/state/vault.rs:393-405` | The speed limit, for every log of linked posts. |
| `Closing.KeepsStrategiesCounted` | `programs/hedge_vault/src/instructions/jupiter_initialize_strategy.rs:71-82` | Every instruction keeps the counter equal to the number of records, with distinct ids below the next one. |
| `Closing.KeepsNothingStranded` | `programs/hedge_vault/src/instructions/vault_close.rs:78-95` | A closed vault never has a request or a strategy record. |
| `Closing.StrategyOpens` | `programs/hedge_vault/src/instructions/jupiter_initialize_strategy.rs:32-93` | A record opens exactly through open gates, on a mint that is neither of the vault's and not in use, under the next id, and both counters step. |
| `Closing.StrategyCloses` | `programs/hedge_vault/src/instructions/vault_close_strategy.rs:33-110` | A record goes exactly if it is there, the way out is open and its position is emptied; no other record goes. |
| `Closing.CloseCloses` | `programs/hedge_vault/src/instructions/vault_close.rs:51-130` | A successful close closes an open vault and changes nothing else. |
| `Closing.ClosedForGood` | `programs/hedge_vault/src/instructions/vault_close.rs:51-130` | However a run goes on, a closed vault stays closed, with its account, requests, records, escrows and idle balance as they were. |
| `Posting.InstructionIsPosted` | `programs/hedge_vault/src/instructions/nav_update.rs:30-87` | What a successful post leaves in the vault: NAV of the posted assets over the diluted supply, or NAV_PRECISION on an empty supply, within its bound. |
| `VaultAccount.Vault.New` | `programs/hedge_vault/src/state/vault.rs:141-180` | A new account: NAV and mark at NAV_PRECISION, NAV epoch 0, the time of its creation as NAV time, the given limits and rates, and zero elsewhere. |
| `VaultAccount.Vault.UpdateNav` | `programs/hedge_vault/src/state/vault.rs:277-391` | The checked, field-by-field post leaves exactly the account of the unbounded computation and fails with exactly its error. |
| `VaultAccount.Vault.ValidateNavDeviation` | `programs/hedge_vault/src/state/vault.rs:393-405` | The checked deviation test passes exactly within the bound. |
| `VaultAccount.Vault.CheckedManagementFee` | `programs/hedge_vault/src/state/vault.rs:407-412` | The checked fee is the exact quotient, and overflows exactly if the full product does. |
| `VaultAccount.Vault.CheckedPerformanceFee` | `programs/hedge_vault/src/state/vault.rs:414-418` | The checked fee is the exact quotient. |
| `VaultAccount.Vault.RequestDeposit` | `programs/hedge_vault/src/state/vault.rs:422-437` | New account and errors of a deposit request, in the order of the checks. |
| `VaultAccount.Vault.CancelDeposit` | `programs/hedge_vault/src/state/vault.rs:439-442` | Pending deposits less the amount, or an underflow error. |
| `VaultAccount.Vault.ResolveDeposit` | `programs/hedge_vault/src/state/vault.rs:444-458` | Shares minted, new account and errors of a deposit settlement. |
| `VaultAccount.Vault.RequestWithdrawal` | `programs/hedge_vault/src/state/vault.rs:460-468` | New account and errors of a withdrawal request. |
| `VaultAccount.Vault.CancelWithdrawal` | `programs/hedge_vault/src/state/vault.rs:470-473` | Pending shares less the amount, or an underflow error. |
| `VaultAccount.Vault.ResolveWithdrawal` | `programs/hedge_vault/src/state/vault.rs:475-499` | Payout, new account and errors of a withdrawal settlement, whatever the outflow cap. |
| `VaultAccount.Vault.RecordNav` | `programs/hedge_vault/src/state/vault.rs:375-379` | The new NAV is recorded and the mark raised to it if it is higher; nothing else moves. |
| `VaultAccount.Vault.UpdateFees` | `programs/hedge_vault/src/state/vault.rs:505-540` | New rates and schedule of a fee update. |
| `VaultAccount.Vault.ApplyPendingFees` | `programs/hedge_vault/src/state/vault.rs:542-550` | A due pair becomes live and the schedule is cleared. |
| `VaultAccount.Vault.ClaimManagerFee` | `programs/hedge_vault/src/state/vault.rs:552-559` | The counter is returned and zeroed, or nothing is there to claim. |
| `VaultAccount.Vault.ClaimPlatformFee` | `programs/hedge_vault/src/state/vault.rs:561-568` | The same for the platform. |
| `VaultAccount.Vault.OpenStrategy` | `programs/hedge_vault/src/instructions/jupiter_initialize_strategy.rs:71-82` | Both strategy counters step up, or the step overflows. |
| `VaultAccount.Vault.CloseStrategy` | `programs/hedge_vault/src/state/vault.rs:225-227` | The counter steps down, or underflows. |
| `Requests.RequestAccount.Add` | `programs/hedge_vault/src/state/deposit_request.rs:69-76` | A request accumulates within its own epoch only. |
| `Program.HedgeVault.VaultInitialize` | `programs/hedge_vault/src/instructions/vault_initialize.rs:90-164` | Succeeds exactly if the sender is a whitelisted manager, the protocol is operational, both rates are at most 100%, both minima are positive, the mint is allowed and a vault id is left; then it takes the id and leaves the state that runs start from, and else it reports the first of these that fails. |
| `Program.HedgeVault.DepositRequestCreate` | `programs/hedge_vault/src/instructions/deposit_request_create.rs:52-149` | The handler does what the protocol function says of the vault and the rent functions say of lamports: the request account, the checks, the mint, the payout rent and the deposit, in this order, with the first error met. |
| `Program.HedgeVault.DepositRequestCancel` | `programs/hedge_vault/src/instructions/deposit_request_cancel.rs:49-112` | Likewise for the cancellation of a deposit, with the payout account recreated at the owner's cost once the request is loaded. |
| `Program.HedgeVault.DepositRequestReject` | `programs/hedge_vault/src/instructions/deposit_request_reject.rs:54-144` | Likewise for the rejection of a deposit, with no status gate and the payout account created out of the escrow before the refund. |
| `Program.HedgeVault.DepositRequestResolve` | `programs/hedge_vault/src/instructions/deposit_request_resolve.rs:64-177` | Likewise for the settlement of a deposit, with the payout account created between pricing and transfers. |
| `Program.HedgeVault.WithdrawalRequestCreate` | `programs/hedge_vault/src/instructions/withdrawal_request_create.rs:54-148` | Likewise for a withdrawal request. |
| `Program.HedgeVault.WithdrawalRequestCancel` | `programs/hedge_vault/src/instructions/withdrawal_request_cancel.rs:49-112` | Likewise for the cancellation of a withdrawal. |
| `Program.HedgeVault.WithdrawalRequestReject` | `programs/hedge_vault/src/instructions/withdrawal_request_reject.rs:55-145` | Likewise for the rejection of a withdrawal, with no status gate. |
| `Program.HedgeVault.WithdrawalRequestResolve` | `programs/hedge_vault/src/instructions/withdrawal_request_resolve.rs:65-187` | Likewise for the settlement of a withdrawal: idle check, burn, and payout account and transfer only for a positive payout. |
| `Program.HedgeVault.NavUpdate` | `programs/hedge_vault/src/instructions/nav_update.rs:30-87` | The handler does what the protocol function says of a bounded post, error for error. |
| `Program.HedgeVault.NavOverride` | `programs/hedge_vault/src/instructions/nav_override.rs:31-88` | Likewise for a post without a bound. |
| `Program.HedgeVault.ClaimManager` | `programs/hedge_vault/src/instructions/vault_claim_manager_fee.rs:33-80` | Likewise for the manager's claim. |
| `Program.HedgeVault.ClaimPlatform` | `programs/hedge_vault/src/instructions/config_claim_platform_fee.rs:39-94` | Likewise for the platform's claim. |
| `Program.HedgeVault.VaultUpdate` | `programs/hedge_vault/src/instructions/vault_update.rs:28-95` | Likewise for a vault update: fees are touched only when asked. |
| `Program.HedgeVault.VaultPause` | `programs/hedge_vault/src/instructions/vault_pause.rs:19-51` | Likewise for a pause. |
| `Program.HedgeVault.ConfigUpdate` | `programs/hedge_vault/src/instructions/config_update.rs:34-147` | Likewise for a config update: roles, rates, caps and status, optional fields validated and assigned one after another. |
| `Program.HedgeVault.StrategyInitialize` | `programs/hedge_vault/src/instructions/jupiter_initialize_strategy.rs:32-93` | Likewise for a new Jupiter strategy record, whose mint must be neither of the vault's. |
| `Program.HedgeVault.StrategyClose` | `programs/hedge_vault/src/instructions/vault_close_strategy.rs:33-110` | Likewise for the closing of a record. |
| `Program.HedgeVault.VaultClose` | `programs/hedge_vault/src/instructions/vault_close.rs:51-130` | Likewise for the closing of the vault: guards in order, then three token accounts in a loop. |
| `Program.HedgeVault.Process` | `programs/hedge_vault/src/lib.rs:22-180` | A transaction of a modelled instruction leaves vault and lamports as the functions say, or reports the first error met and leaves every account as it was. |
| `Transactions.GoesThrough` | `programs/hedge_vault/src/lib.rs:22-180` | An instruction goes through exactly if the vault, the lamports and, for a deposit request, the mint each allow it, does then what each says, and fails only for a reason that one of them gives. |
| `Transactions.FirstRefusal` | `programs/hedge_vault/src/instructions/deposit_request_cancel.rs:49-112` | Where several things stand in the way of a cancellation, rejection or settlement, which of them is reported. |
| `Transactions.FirstRefusalOfOpening` | `programs/hedge_vault/src/instructions/deposit_request_create.rs:52-149` | The same for opening a request: its account, the gates and the amount, the mint, the payout rent, and then the rest. |
| `PayoutRent.RentLedger.InitRequestAccount` | `programs/hedge_vault/src/instructions/deposit_request_create.rs:24-31` | A request account is created once, at its owner's cost. |
| `PayoutRent.RentLedger.EscrowPayoutRent` | `programs/hedge_vault/src/utils/payout.rs:38-62` | The larger rent of the two payout accounts moves from payer to request, or nothing moves. |
| `PayoutRent.RentLedger.CreatePayoutAccount` | `programs/hedge_vault/src/utils/payout.rs:67-92` | A missing payout account is created at the payer's cost and the payer repaid out of the request. |
| `PayoutRent.SettlementIsFree` | `programs/hedge_vault/src/utils/payout.rs:64-92` | With the escrow that opening charged, whoever settles ends with the lamports it began with, the request never drops below its own rent, and its owner receives rent plus unspent escrow, for every mint, prefunding and rent, and also where a zero payout creates no account. |
| `PayoutRent.CancellingConserves` | `programs/hedge_vault/src/instructions/deposit_request_cancel.rs:49-112` | Cancelling a request conserves lamports. |
| `PayoutRent.FreeExactlyIfCovered` | `programs/hedge_vault/src/utils/payout.rs:75-92` | The payer ends whole exactly if escrow and request cover the shortfall; requests from before the escrow existed are the other case. |
| `PayoutRent.PayoutWorks` | `programs/hedge_vault/src/utils/payout.rs:67-92` | Creating the payout account succeeds exactly if the payer can front the shortfall. |
| `PayoutRent.OpeningHoldsRent` | `programs/hedge_vault/src/utils/payout.rs:38-62` | Opening leaves the request with its own rent and an escrow that covers either payout account. |
| `PayoutRent.OpeningCosts` | `programs/hedge_vault/src/utils/payout.rs:38-62` | Opening costs the owner, and nobody else, what the request lacks of its rent and the smallest escrow that covers either payout account. |
| `PayoutRent.CancellingCosts` | `programs/hedge_vault/src/instructions/deposit_request_cancel.rs:49-112` | A cancellation costs the owner what a missing payout account lacks, returns all that the request held, and moves nothing else. |
| `PayoutRent.OpeningConserves` | `programs/hedge_vault/src/utils/payout.rs:38-62` | Opening a request conserves lamports. |
| `PayoutRent.CreationTopsUp` | `programs/hedge_vault/src/utils/payout.rs:79-85` | A new account ends with its rent, or with what its address held if that is more, and its payer pays the difference. |
| `PayoutRent.SettlingConserves` | `programs/hedge_vault/src/utils/payout.rs:67-92` | Settling a request conserves lamports. |
| `RentRuns.RunKeepsRents` | `programs/hedge_vault/src/instructions/deposit_request_create.rs:97-114` | Every run of instructions, lamport transfers and openings and closings of token accounts keeps each live request, and no other, holding its rent and an escrow that covers either payout account. |
| `RentGuarantees.SettlementIsAlwaysFree` | `programs/hedge_vault/src/utils/payout.rs:64-66` | In every state such a run reaches, whoever settles or rejects a request ends with the lamports it began with, and the owner gets all the request held but what the payout account was short of. |
| `RentGuarantees.ClosingNeedsFronting` | `programs/hedge_vault/src/utils/payout.rs:67-92` | There a settlement or rejection goes through exactly if the vault allows it and the sender can front what the payout account is short of. |
| `RentGuarantees.CancellingNeedsPayment` | `programs/hedge_vault/src/instructions/deposit_request_cancel.rs:49-112` | There a cancellation goes through exactly if the vault allows it and the owner can pay for a payout account it has closed. |
| `RentGuarantees.OpeningNeedsPayment` | `programs/hedge_vault/src/instructions/deposit_request_create.rs:52-149` | There a request goes through exactly if the vault accepts it, the mint is allowed and the user can pay the request account and the payout rent; adding to a live request is free. |
| `RentGuarantees.RejectionReturnsTokens` | `programs/hedge_vault/src/instructions/deposit_request_reject.rs:54-144` | There rejecting a live deposit goes through, whatever the status gates say, exactly if the sender can front the shortfall, and returns exactly what the owner put in. |
| `RentGuarantees.RejectionReturnsShares` | `programs/hedge_vault/src/instructions/withdrawal_request_reject.rs:55-145` | The same for a withdrawal and its shares. |
| `RentGuarantees.LamportsAreConserved` | `programs/hedge_vault/src/utils/payout.rs:38-92` | No such run creates or loses a lamport. |
| `JupiterRoute.VariantIsItsDiscriminator` | `programs/hedge_vault/src/protocol/jupiter.rs:46-62` | Data is of a variant exactly if it starts with its discriminator, whatever the order of matching. |
| `JupiterRoute.LowestFirst` | `programs/hedge_vault/src/protocol/jupiter.rs:93-108` | The words in the data are little-endian: what follows n bytes weighs 256 to the n. |
| `JupiterRoute.ParseReadsBack` | `programs/hedge_vault/src/protocol/jupiter.rs:88-112` | For every prefix, parsing an encoded tail returns exactly the encoded amount, quote and slippage. |
| `JupiterRoute.ParsedWasEncoded` | `programs/hedge_vault/src/protocol/jupiter.rs:88-112` | Whatever parses ends in the encoding of what was parsed. |
| `JupiterRoute.LedgerParseReadsBack` | `programs/hedge_vault/src/protocol/jupiter.rs:114-135` | The same round trip for token-ledger routes, which carry no amount. |
| `JupiterRoute.MinAmountOutBounds` | `programs/hedge_vault/src/protocol/jupiter.rs:138-144` | The minimum exists exactly if the cap is at most 100%, and is the floor of the capped quote. |
| `JupiterRoute.MaxAmountInBounds` | `programs/hedge_vault/src/protocol/jupiter.rs:146-152` | The maximum exists exactly if it fits u64, and is the floor of the capped quote. |
| `JupiterRoute.EncodedRouteChecks` | `programs/hedge_vault/src/protocol/jupiter.rs:167-198` | An encoded route is admitted exactly if the amount matches and its slippage is at most the caller's, and that at most the cap. |
| `JupiterRoute.EncodedLedgerRouteChecks` | `programs/hedge_vault/src/protocol/jupiter.rs:167-198` | A token-ledger route is admitted exactly if the amount is positive and slippages are in order. |
| `JupiterSwap.SwapVault.Swap` | `programs/hedge_vault/src/instructions/jupiter_swap.rs:59-209` | The handler returns what the checks of gates, mints, strategy and route before the call and of the balances after it say, whatever the call does to the two balances. |
| `JupiterSwap.AcceptedSwapIsWithinPrice` | `programs/hedge_vault/src/instructions/jupiter_swap.rs:143-195` | An accepted exact-in swap received more than the quote less the cap, short of one unit; an accepted exact-out swap received the amount and spent at most the quote plus the cap. |
| `JupiterSwap.JudgedByPrice` | `programs/hedge_vault/src/instructions/jupiter_swap.rs:176-195` | The checks accept exactly the moves within the price. |
| `JupiterSwap.AcceptedByTheBytes` | `programs/hedge_vault/src/instructions/jupiter_swap.rs:143-195` | An accepted swap whose data starts with one of the two exact-out discriminators received the amount signed and spent at most the signed quote plus the cap; any other starts with one of the three exact-in ones and received the signed quote less the cap, short of one unit. |
| `JupiterSwap.WithinTheBytesIsAccepted` | `programs/hedge_vault/src/instructions/jupiter_swap.rs:143-195` | Once admitted, a swap is accepted exactly if its balances moved within these bounds and the bound exists in 64 bits. |
| `JupiterSwap.AdmittedByTheBytes` | `programs/hedge_vault/src/protocol/jupiter.rs:167-198` | Admitted data has its signed slippage at most the caller's and that at most the cap in force, and the signed amount is the caller's, or the amount is positive for a token-ledger route. |
| `JupiterSwap.SwapsTargetOnly` | `programs/hedge_vault/src/instructions/jupiter_swap.rs:88-137` | The checks before the call pass exactly if protocol and vault are normal, the legs differ, one is the deposit mint and the other the target of the strategy at hand, and none is bought into the share mint. |
| `JupiterAccounts.BuildAccountLists` | `programs/hedge_vault/src/protocol/jupiter.rs:200-388` | The two vectors built in place, in order and with repetitions: accounts handed over, and accounts named, which are the fixed slots followed by the remaining accounts not consumed by them; or the first check that fails. |
| `JupiterAccounts.SlotRoles` | `programs/hedge_vault/src/protocol/jupiter.rs:215-388` | Among the fixed slots of every variant the vault alone signs, only source, destination and Jupiter's own two accounts are writable, and they stand in that order. |
| `JupiterAccounts.SlotPrograms` | `programs/hedge_vault/src/protocol/jupiter.rs:215-388` | Where programs, mints and optional accounts stand in each variant. |
| `JupiterAccounts.RemainingAccepted` | `programs/hedge_vault/src/protocol/jupiter.rs:290-305` | A token-ledger route is accepted exactly with a first remaining account that is Jupiter's ledger of the source account; a shared route exactly with three remaining accounts. |
| `JupiterAccounts.RemainingAreHanded` | `programs/hedge_vault/src/protocol/jupiter.rs:215-388` | Every remaining account is handed to the call, in its place after the program's own accounts, of which the token ledger, where there is one, is the seventh. |
| `JupiterAccounts.RebuildInvertsExtract` | `utils/jupiter.ts:54-66` | For every client-supported variant and every list, rebuilding from remaining accounts with the extracted keys gives the same keys in the same order exactly if the fixed slots hold the keys the program expects, whatever became of the flags. |
| `JupiterAccounts.RebuildInvertsEntries` | `utils/jupiter.ts:54-66` | With unchanged flags the same holds entry for entry. |
| `JupiterAccounts.ExtractInvertsRebuild` | `utils/jupiter.ts:54-66` | Extracting from what the program built gives back the remaining accounts, key for key. |
| `JupiterAccounts.ClientSupports` | `utils/jupiter.ts:54-66` | The client accepts exactly the variants without a token ledger, whatever the account list. |
| `JupiterAccounts.InfosCoverMetas` | `programs/hedge_vault/src/protocol/jupiter.rs:200-388` | Every account the instruction names is among those handed to the call exactly if the SPL Token program is. |

## Left out

- Program.HedgeVault.DepositRequestCreate: takes as given whether the deposit mint's extensions are allowed: the
  table of extensions is the token library's.
- Program.HedgeVault.VaultInitialize: leaves out addresses and names, and what the new accounts cost. Runs start from
  what it leaves, at a clock past the Unix epoch, possibly with tokens already sent to the vault.
- The Phoenix and Meteora initializers: they write the same record and step the same counters, after checks of their
  own on accounts of those programs.
- Other vaults under the same configuration: a run follows one vault.
- Program.HedgeVault.StrategyClose: takes the close of the protocol account behind a record as a yes or no: that
  account is another program's, and no rule for it is the vault's.
- Program.HedgeVault.Process: covers the instructions modelled here. Trades of strategies are one instruction that
  sets the idle balance to anything, which allows more than any of them does.
- VaultAccount.Vault.ResolveWithdrawal: claims nothing of the outflow cap, which the program computes
  without enforcing it.
- ClaimErasure.ClaimsNeverMatter: cannot hold of a claimant that uses shares it owns only through the claim, since
  these do not exist in the run without it; a supply past u64 stops a claim and not the counters.
- JupiterSwap.SwapVault.Swap: the call into Jupiter leaves the two balances anywhere, or fails; what it does to
  other accounts is not modelled.
- PayoutRent.RentLedger.CreatePayoutAccount: takes the length of a Token-2022 account as a parameter of the mint,
  as the library computes it, and the associated token program to charge exactly the shortfall to the rent
  minimum.
- Guarantees.DepositEntry: speaks of the vault's side of an instruction, as do the other members of `Guarantees`;
  what lamports add is said in `RentGuarantees`.
- RentRuns.RunKeepsRents: takes the rent rate and the two mints' account lengths to stay what they are during a
  run. Lamports are unbounded; their total never grows.
- Account loading, address derivation, signer and owner checks: identities are taken as given, and an
  instruction is assumed to be sent by whoever may send it.
- Reserved, bump and identity fields of accounts, and fields that events carry beyond amounts and prices;
  pause flags are booleans.
- The token program beyond exact balance moves: transfer fees and hooks are what the mint checks of
  `programs/hedge_vault/src/utils/token.rs` exclude, and these checks are not part of this model.
- Accepting an admin nomination, keeping the manager whitelist and migrating accounts: they move no funds, and no
  run of a vault reads what they write. Pausing the protocol is one of the changes of `config_update`.
- The off-chain valuation: posted assets are any u64 at or above the idle balance.
- Meteora, Phoenix and Ember instructions, the treasury's share of claimed Meteora fees included: they relay into
  programs whose accounting is not in this repository, and reach the vault only through the idle balance.
- The TypeScript code other than the extraction of remaining accounts: network calls and address derivation.
