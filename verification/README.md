# ShadowLend, verified

A Dafny model of the ShadowLend lending program (`programs/shadow-lend/src/lib.rs`), with the
base-58 encoder and the account gathering of its browser client (`app/sl-client.js`) and two of the
planned privacy circuits (`arcium/src/circuits.rs`).

`dafny verify dfyconfig.toml` checks everything.

## What is modelled

The state is a ledger: for every mint a *book* with the market account, the supply of the mint, the
token vault, and, by wallet, the position, the token balance and the claim receipt (`State.dfy`).
Each instruction is a function from a ledger to a new ledger or to the error that reverts it
(`Instructions.dfy`). All of Rust's 64-bit and 128-bit widths, saturating operators, checked
operators and flooring divisions are written out (`Arith.dfy`).

`Program.dfy` is the program in the form the source has: accounts are read into `MarketAccount`,
`PositionAccount` and `TokenAccount` objects, updated in place, walked by the two account loops, and
written back only when nothing failed. Every method is proved to do exactly what its instruction
function says, errors and unchanged state included. Everything else is proved about those functions:

| file | subject |
|---|---|
| `Interest.dfy` | the lazy borrow index: any chain of restatements, any schedule of accruals |
| `Valuation.dfy` | the two price conversions and how far they are from being inverses |
| `Health.dfy` | the account loops compute a sum, and over a complete listing it is the user's whole exposure |
| `Sums.dfy`, `Bookkeeping.dfy`, `LedgerRuns.dfy` | stored totals, solvency, the ledger law and token conservation, over every run |
| `HealthGuards.dfy`, `HealthRuns.dfy` | the guards of `borrow`, `withdraw` and `liquidate` are complements, over every run within a slot |
| `Effects.dfy` | what each instruction does when it goes through, to the last field |
| `Acceptance.dfy`, `Refusals.dfy` | exactly when each instruction goes through, and which error it returns otherwise |
| `CurrentDebts.dfy` | listed debts are valued as stored: what that can and cannot hide |
| `Samples.dfy` | ledgers the program reaches, for the results that need an example |
| `StaleDebts.dfy`, `NegativeInterest.dfy`, `OverstatedDebts.dfy` | what debts hidden from the guards, and debts lowered by interest, lead to |
| `LiquidationBounds.dfy`, `LiquidationLimits.dfy` | the bonus is a cap; when a liquidation does not deepen the shortfall, and that it can otherwise |
| `BankRun.dfy`, `RoundTrips.dfy` | when everybody can leave; what one call undoes |
| `Base58.dfy`, `Circuits.dfy`, `Client.dfy` | the encoder, the multiply-out checks, the account list and what the program makes of it |

A *run* is any sequence of steps: the eight instructions by any users with any arguments, in any
order, interleaved with token accounts being opened, transfers between wallets, and transfers into
vaults from outside. A refused step leaves the ledger as it was. Slots, prices and the further
accounts are arguments of each step. A position account named in a call is looked up in the ledger;
a price update carries its content; anything else is an account of some owner with undecodable data.

The repository's README says that liquidation and interest do not exist yet (`README.md:37-40`). The
program implements both, and the model follows the program.

## What turned out not to hold as one might expect

- **Accrual can lower a debt.** It happens exactly when the index moved and the debt times its own
  snapshot no longer fits 128 bits (`Interest.RestateShrinksIff`). The program gets there: in
  `NegativeInterest.InterestCanBeNegative` a reachable debt shrinks, and total_borrowed ends above the
  sum of debts. It cannot happen in a market whose index is at most 2^64 + 1, about 18.4 times its
  start (`LedgerRuns.SmallIndicesFit`).
- **The guards do not see all current debt.** The comment at `programs/shadow-lend/src/lib.rs:394-395`
  says that health is measured on current debt. That is true of the main positions; the listed ones
  are valued at their stored debt (lines 759-767 and 811-819). Provided no debt shrinks on restating
  (`CurrentDebts.Growing`; it is enough that debts times snapshots fit 128 bits,
  `CurrentDebts.FittingDebtsGrow`), stored debts do not overstate
  (`CurrentDebts.StoredNoWorseThanCurrent`) and agree with current ones exactly when restating changes
  no value (`CurrentDebts.StoredIsCurrentIff`). They can fall short enough to pass a guard
  (`StaleDebts.StaleGuardCanPass`), and to be liquidated right after passing it
  (`StaleDebts.GuardedUserCanBeLiquidated`). Whoever is within the limit on current debts cannot be
  liquidated through two markets outside which no debt shrinks, restated or not
  (`CurrentDebts.SafeMeansUnliquidatable`). Where one does shrink, stored debts overstate
  (`NegativeInterest.StoredDebtCanOverstate`) and such a user can be liquidated
  (`OverstatedDebts.WithinLimitCanBeLiquidated`).
- **Tokens to dollars and back can lose more than one atom.** The unit test at
  `programs/shadow-lend/src/lib.rs:1359-1366` allows one for its example; nine atoms at price 1 lose all
  nine (`Valuation.TokenRoundTripCanLoseAll`). Below the decimal point the loss is exactly
  ceil((amount * p mod m) / p) atoms, m being the power of ten divided by (`Valuation.TokenRoundTripLoss`),
  and `Valuation.TokenRoundTripWithinOneIff` says for all inputs when it is at most one. At or above the
  decimal point the trip is exact if and only if nothing saturates or there is at most one atom
  (`Valuation.TokenRoundTripExact`).
- **A liquidation can deepen the shortfall,** for either of two reasons. One is the LTV, which the program
  accepts up to 9999 bps: among liquidations whose repayment relieves at least its own value of debt, as
  every repayment of a debt worth less than 2^128 - 1 units does, up to 9523 bps none deepens a shortfall
  by more than one unit, and at every LTV above that some do (`LiquidationLimits.LtvLimitIsExact`). The
  other is saturation: a debt worth more than 128 bits can say is relieved of nothing, and at every LTV
  one atom can then take all the collateral (`LiquidationLimits.SaturatedLiquidation`).
- **Depositors cannot always all leave once the debts are paid,** even when they owe nothing in any market
  themselves. Such depositors can exactly when the interest recognised and the donations cover what is
  still owed (`BankRun.BankRunSucceedsIff`); shrunken debts count as negative interest, and in
  `NegativeInterest.DebtFreeMarketCanBeShort` they leave the one depositor of a market without debts short.
- **The base-58 encoder is not faithful on all-zero input,** the empty string included: it writes one
  character too many (`Base58.FaithfulIff`). It is injective all the same (`Base58.Injective`).

## Model

| member | source | states |
|---|---|---|
| Program.MarketAccount.Accrue | programs/shadow-lend/src/lib.rs:671-683 | Advances only index and slot of the account, to what `AccrueMarket` says; the lemmas below bound that function over every schedule. |
| Program.PositionAccount.Accrue | programs/shadow-lend/src/lib.rs:688-701 | Restates only debt and snapshot, to what `AccruePosition` says, without ever dividing by zero. |
| Interest.AccrueFormula | programs/shadow-lend/src/lib.rs:671-683 | An accrual in a later slot moves the index by index * rate * slots / 1e18, product and sum cut off at 2^128 - 1, and the slot to the present one; an accrual in the same or an earlier slot changes nothing; no other field is touched. |
| Interest.RestateFormula | programs/shadow-lend/src/lib.rs:688-701 | A restatement takes the debt to debt * index / snapshot, cut off at 128 and then 64 bits, unless the index stood still or the snapshot is zero, and always adopts the index; no other field is touched. |
| Interest.AccrueTwice | programs/shadow-lend/src/lib.rs:685-701 | Both accruals are idempotent within a slot. |
| Interest.RestateUpper | programs/shadow-lend/src/lib.rs:696-699 | One restatement never charges more than debt * index / snapshot, saturated and clamped or not. |
| Interest.RestateShrinksIff | programs/shadow-lend/src/lib.rs:688-701 | With a rising index, restating lowers a debt if and only if the index moved and debt * snapshot exceeds 128 bits. |
| Interest.RestateCanShrink | programs/shadow-lend/src/lib.rs:696-699 | A market at the steepest rate is at index 1.94e19 after one slot and at 3.6e20 after two, and a debt of 1.8e19 taken at the first is restated to 1.75e19 at the second. |
| NegativeInterest.InterestCanBeNegative | programs/shadow-lend/src/lib.rs:688-701 | A ledger reached from genesis in which the next restatement lowers a debt; one repayment later total_borrowed exceeds the sum of debts, which it equalled before. |
| Interest.StagedDebtUpper | programs/shadow-lend/src/lib.rs:688-701 | Any chain of restatements at non-decreasing indices ends at or below floor(debt * final / initial), even with saturation. |
| Interest.StagedDebtLower | programs/shadow-lend/src/lib.rs:688-701 | If nothing saturates or clamps, a chain loses, per unit of index, less than the sum of the reciprocals of the indices it was restated at. |
| Interest.StagedDebtFloor | programs/shadow-lend/src/lib.rs:1165-1167 | The same in units of debt: debt' > debt * final / initial - sum of final / index_k. |
| Interest.AccrueEvolves | programs/shadow-lend/src/lib.rs:671-683 | One accrual over any number of slots never lowers index or slot and stays inside compound interest, index' * scale^n <= index * (scale + rate)^n (Bernoulli's inequality). |
| Interest.EvolvesThrough | programs/shadow-lend/src/lib.rs:668-683 | The envelope composes: two stretches inside it are one stretch inside it. |
| Interest.IndexEnvelope | programs/shadow-lend/src/lib.rs:668-683 | However often the market is touched, the index stays inside the compound-interest envelope, unconditionally. |
| Interest.IndexFloor | programs/shadow-lend/src/lib.rs:668-683 | Without saturation, k growing calls lose at most k - 1 index units against simple interest in one call over the whole span. |
| Interest.DebtEnvelope | programs/shadow-lend/src/lib.rs:671-701 | A debt restated after any evolution of its market satisfies debt' * scale^n <= debt * (scale + rate)^n. |
| Valuation.TokenUsdFormula | programs/shadow-lend/src/lib.rs:636-647 | The dollar value, for every price, exponent and number of decimals, in terms of amount * price * 10^(8 + exponent - decimals): rounded down, cut off at 2^128 - 1, with both fallbacks past 10^38, and zero for prices that are not positive. |
| Valuation.UsdToTokenFormula | programs/shadow-lend/src/lib.rs:651-666 | The token amount likewise, for all inputs, in terms of value / (price * 10^(8 + exponent - decimals)). |
| Valuation.QuotedValues | programs/shadow-lend/src/lib.rs:1319-1375 | The values the repository's own unit tests state, at the negative exponents real feeds have. |
| Valuation.TokenUsdMonotone | programs/shadow-lend/src/lib.rs:636-647 | More tokens are never worth less, on every branch, for negative prices and overflowing powers too. |
| Valuation.TokenUsdSum | programs/shadow-lend/src/lib.rs:636-647 | Valuing two parts apart is at most one unit short of valuing the whole, and never above it while the whole is not saturated. |
| Valuation.UsdRoundTrip | programs/shadow-lend/src/lib.rs:636-666 | Dollars to tokens and back never gains, for every value, price, exponent and decimals. |
| Valuation.TokenRoundTrip | programs/shadow-lend/src/lib.rs:636-666 | Tokens to dollars and back never gains, for all inputs. |
| Valuation.TokenRoundTripLoss | programs/shadow-lend/src/lib.rs:644-663 | For a positive price p and a divisor m = 10^k, 1 <= k <= 38, tokens to dollars and back loses exactly ceil((amount * p mod m) / p) atoms, hence at most ceil((m - 1) / p). |
| Valuation.TokenRoundTripTiny | programs/shadow-lend/src/lib.rs:644-663 | For a divisor past 10^38, where the program falls back to one, the trip loses nothing. |
| Valuation.TokenRoundTripWithinOneIff | programs/shadow-lend/src/lib.rs:1358-1366 | For all inputs, the trip loses at most one atom if and only if: the price is not positive and there is at most one atom; or the divisor is m = 10^k and amount * p mod m <= p; or it is past 10^38; or the shift is at least zero and amount <= 2 or (amount - 1) * p * 10^shift fits 128 bits. |
| Valuation.TokenRoundTripCanLoseAll | programs/shadow-lend/src/lib.rs:636-666 | An input, price 1 at exponent 0 and 9 decimals, at which nine atoms lose all nine. |
| Valuation.TokenRoundTripExact | programs/shadow-lend/src/lib.rs:640-660 | For a shift of at least zero the round trip is exact if and only if amount * price * 10^shift fits 128 bits or the amount is at most one atom. |
| Valuation.Pow10Fits | programs/shadow-lend/src/lib.rs:641-662 | The checked power succeeds exactly up to 10^38, which is where both fallbacks begin. |
| Program.AccumulatePosition | programs/shadow-lend/src/lib.rs:703-716 | Adds one position's collateral value times LTV / 10000 and its debt value to running totals, product and sums cut off at 2^128 - 1; saturating step by step equals clamping the exact sum. |
| Program.AccumulateRemainingSkip | programs/shadow-lend/src/lib.rs:723-770 | For any accounts whatever, the loop accepts a list exactly when it is even and every pair outside the skip keys is a position of this user kept by this program, with a recent update of its feed kept by the oracle if it has a balance; refuses it for what is wrong with the first other pair; and returns min(2^128 - 1, start + sum) of the positions' values. |
| Program.AccumulateRemaining | programs/shadow-lend/src/lib.rs:772-822 | The single-skip loop does the same, and so returns what the other loop returns for a one-element skip list, on every input, errors included. |
| Health.AssessDecides | programs/shadow-lend/src/lib.rs:723-822 | The specification shared by both loops gives that verdict: which lists are accepted, the error of the first pair that is not acceptable, and the sum. |
| Health.ScanPermutation | programs/shadow-lend/src/lib.rs:735-769 | Permuting the pairs changes neither whether they are accepted nor the sum. |
| Health.AssessPermutation | programs/shadow-lend/src/lib.rs:772-822 | Reordering the account list pair by pair changes neither acceptance nor the totals either loop returns. |
| Health.ScanErrors | programs/shadow-lend/src/lib.rs:743-758 | A listing of whole pairs can be refused only as a bad position, a bad feed or a stale price. |
| Health.ScanIsExposure | programs/shadow-lend/src/lib.rs:735-769 | Over a complete listing without duplicates, an accepted walk computes exactly the user's exposure in all markets not skipped. |
| Health.OneMainIsExposure | programs/shadow-lend/src/lib.rs:196-214 | One main position plus the listed ones is the exposure over the whole ledger. |
| Health.TwoMainIsExposure | programs/shadow-lend/src/lib.rs:447-478 | Two main positions plus the listed ones is the same exposure, so liquidation sees what borrowing saw. |
| Program.TokenTransfer | programs/shadow-lend/src/lib.rs:136-146 | A token transfer succeeds exactly when the source has the amount and the target can hold it; otherwise both balances stay. |
| Program.LendingProgram.InitializeMarket | programs/shadow-lend/src/lib.rs:32-59 | In place, does what the instruction's function says: an empty market at index 1e18, or `BadLtv`, or no second market on a mint. |
| Program.LendingProgram.SetClaimAmount | programs/shadow-lend/src/lib.rs:61-69 | Changes the claim amount for the market's admin alone, else `NotAdmin` and nothing changes. |
| Program.LendingProgram.ClaimFaucet | programs/shadow-lend/src/lib.rs:73-114 | Mints, issues the receipt and counts it, or fails and changes nothing. |
| Program.LendingProgram.Supply | programs/shadow-lend/src/lib.rs:118-169 | The in-place steps, from accruing or creating the position to the checked totals, commit exactly the specified ledger or revert with the specified error. |
| Program.LendingProgram.Withdraw | programs/shadow-lend/src/lib.rs:175-253 | Withdrawing commits exactly the specified ledger or reverts with the specified error, the health guard being measured on the position as it would become. |
| Program.LendingProgram.Borrow | programs/shadow-lend/src/lib.rs:258-344 | Borrowing commits exactly the specified ledger or reverts with the specified error, its guards failing in the order the program checks them. |
| Program.LendingProgram.Repay | programs/shadow-lend/src/lib.rs:348-383 | Repaying, capped at the debt, commits exactly the specified ledger or reverts with the specified error; a fresh position reverts with `NothingToRepay`. |
| Program.LendingProgram.Liquidate | programs/shadow-lend/src/lib.rs:391-567 | Liquidating commits exactly the specified changes to two markets, two positions, two vaults and two wallets, or reverts with the specified error and changes none of them. |
| Program.LendingProgram.WeighUser | programs/shadow-lend/src/lib.rs:191-214 | The guard's two accumulations and the loop yield the totals the guards of `withdraw` and `borrow` are specified by, and these are already within 128 bits. |
| Program.LendingProgram.WeighBorrower | programs/shadow-lend/src/lib.rs:430-478 | Two prices, two main positions and the two-key loop yield the totals the guard of `liquidate` is specified by, already within 128 bits. |
| Program.LendingProgram.SettleLiquidation | programs/shadow-lend/src/lib.rs:511-556 | Both transfers and all four account updates take effect together, or neither book changes. |
| Program.DepositTokens | programs/shadow-lend/src/lib.rs:136-159 | Transfer into the vault, then two checked additions, ending in the specified book or the specified error. |
| Program.LendTokens | programs/shadow-lend/src/lib.rs:314-334 | Transfer out of the vault, then the new debt and the checked stored total. |
| Program.PayDebt | programs/shadow-lend/src/lib.rs:357-373 | Transfer into the vault, then saturating updates of debt and stored total. |
| Program.SeizeCollateral | programs/shadow-lend/src/lib.rs:532-556 | Transfer out of the vault, then saturating updates of collateral and stored total. |
| Effects.InitializeSucceedsIff | programs/shadow-lend/src/lib.rs:39-42 | A market is opened exactly when its mint has none and the LTV is above 0 and below 10000 bps; otherwise the error says which. |
| Effects.InitializeDoes | programs/shadow-lend/src/lib.rs:44-57 | It has the admin, claim amount, LTV, feed and rate given, index 1e18 in the slot it is opened in, and is otherwise empty, so nothing accrues in that slot; no other market changes. |
| Effects.SetClaimAmountDoes | programs/shadow-lend/src/lib.rs:61-69 | The claim amount can be set exactly by the market's admin, and nothing else changes with it. |
| Effects.OnlyAdminSetsClaimAmount | programs/shadow-lend/src/lib.rs:61-69 | Over any run the admin of a market stays who it was, and its claim amount changes only by a successful call of that admin. |
| Effects.ClaimDoes | programs/shadow-lend/src/lib.rs:78-105 | A claim adds the market's claim amount to supply and claimer's wallet, records it in a new receipt, and adds one to the count; nothing else changes. |
| Effects.SupplyDoes | programs/shadow-lend/src/lib.rs:118-159 | A deposit moves the amount from the user's wallet to the vault and adds it to the position, restated or new with the market's parameters, and to total_supplied; nothing else changes. |
| Effects.WithdrawDoes | programs/shadow-lend/src/lib.rs:175-243 | A withdrawal moves the amount from the vault to the user's wallet and takes it from the restated position and from total_supplied; nothing else changes. |
| Effects.BorrowDoes | programs/shadow-lend/src/lib.rs:258-334 | A loan moves the amount from the vault to the user's wallet and adds it to the restated debt and to total_borrowed; nothing else changes. |
| Effects.RepayDoes | programs/shadow-lend/src/lib.rs:348-373 | A repayment moves the smaller of amount and restated debt from the user's wallet to the vault and takes it from the debt and, down to zero, from total_borrowed; nothing else changes. |
| Effects.LiquidationAmounts | programs/shadow-lend/src/lib.rs:484-504 | What is repaid is the smaller of the amount asked and the debt; what is seized is the smaller of the collateral held and 105% of the repayment's value, converted at the collateral's price. |
| Effects.LiquidateDoes | programs/shadow-lend/src/lib.rs:511-556 | The repayment goes from the liquidator's wallet to the debt vault and off the debt; the seizure goes from the collateral vault to the liquidator's wallet and off the collateral and total_supplied; every other wallet, position, receipt, claim amount and market is as before. |
| Effects.SelfLiquidationRefused | programs/shadow-lend/src/lib.rs:406-409 | Nobody liquidates themself. |
| Effects.ForeignPositionRefused | programs/shadow-lend/src/lib.rs:411-420 | A position account that says it is somebody else's is refused as such, in any ledger. |
| Bookkeeping.SupplyStep | programs/shadow-lend/src/lib.rs:118-159 | A deposit keeps every invariant of its book; vault + debts - deposits changes by the interest recognised and nothing else. |
| Bookkeeping.ReleaseStep | programs/shadow-lend/src/lib.rs:220-243 | A withdrawal or seizure keeps every invariant of its book; vault + debts - deposits changes by the interest recognised and nothing else. |
| Bookkeeping.LendStep | programs/shadow-lend/src/lib.rs:311-334 | A loan does the same, and the stored total of debts stays at or below the true sum if it was. |
| Bookkeeping.PayDownStep | programs/shadow-lend/src/lib.rs:357-373 | A repayment does the same, in spite of the saturating update of the stored total. |
| Bookkeeping.MintStep | programs/shadow-lend/src/lib.rs:78-105 | A claim keeps wallets + vault = supply = receipts, and the claim count equal to the number of receipts. |
| Bookkeeping.TokensFit | programs/shadow-lend/src/lib.rs:223-234 | In a ledger that conserves tokens no transfer can overflow its target; only the source can be short. |
| Bookkeeping.SuppliedWithinTotal | programs/shadow-lend/src/lib.rs:240-243 | One position's collateral is covered by the market's stored total, before and after the accrual. |
| LedgerRuns.StepOfBook | programs/shadow-lend/src/lib.rs:26-567 | Every step, by whomever, moves every book by exactly the interest and donations of that step and keeps every invariant, both books of a liquidation included. |
| LedgerRuns.ReachableInv | programs/shadow-lend/src/lib.rs:32-567 | In every reachable ledger: positions carry their market's feed, LTV and decimals and 1e18 <= snapshot <= index; total_supplied is the sum of deposits; vault + total_borrowed >= total_supplied; wallets + vault = minted = receipts; claim_count = number of receipts. |
| LedgerRuns.LedgerLaw | programs/shadow-lend/src/lib.rs:136-556 | Over every run from genesis, in every market: vault + sum of debts = sum of deposits + interest recognised + donations, to the last unit. |
| LedgerRuns.StoredDebtBelowSum | programs/shadow-lend/src/lib.rs:327-373 | While no debt restated in a market overflows 128 bits, the interest the market recognises over the run is not negative and its total_borrowed never exceeds the sum of its debts. |
| LedgerRuns.StoredDebtCoversPrincipal | programs/shadow-lend/src/lib.rs:148-373 | Over every run from genesis, without condition: total_borrowed is at least the sum of debts less the interest recognised, so vault + total_borrowed covers all deposits and all donations. |
| LedgerRuns.SmallIndicesFit | programs/shadow-lend/src/lib.rs:696-698 | A market whose index is at most 2^64 + 1 cannot hold a debt that overflows, whatever the other markets do. |
| LedgerRuns.ZeroRateRun | programs/shadow-lend/src/lib.rs:327-373 | At rate zero the index stays 1e18 and total_borrowed equals the sum of debts for the whole run. |
| LedgerRuns.OnlySupplyOpens | programs/shadow-lend/src/lib.rs:124-134 | No step but the user's own `supply` leaves a new position behind; `repay` on a fresh one does not. |
| LedgerRuns.StepLeavesPosition | programs/shadow-lend/src/lib.rs:116-567 | A step that does not name a position as a main account leaves it as it was. |
| LedgerRuns.UntouchedBorrower | programs/shadow-lend/src/lib.rs:668-701 | Whatever everybody else does for however long, an untouched debt next restated obeys debt' * scale^n <= debt * (scale + rate)^n. |
| LedgerRuns.WithdrawNeverOverflows | programs/shadow-lend/src/lib.rs:240-243 | `withdraw` cannot return `Overflow`, nor overflow a token account. |
| LedgerRuns.LiquidationSubtractsExactly | programs/shadow-lend/src/lib.rs:546-556 | A successful liquidation subtracts exactly what it seized and repaid: no subtraction from collateral, debt or total_supplied saturates. |
| LedgerRuns.OneClaimForEver | programs/shadow-lend/src/lib.rs:71-114 | After any run a receipt still stands with the amount it was issued for, and a second claim by that wallet is refused. |
| Acceptance.ClaimSucceedsIff | programs/shadow-lend/src/lib.rs:73-114 | A claim goes through exactly when the wallet has no receipt and the mint's supply and the count still fit. |
| Acceptance.SupplySucceedsIff | programs/shadow-lend/src/lib.rs:118-159 | `supply` goes through exactly when the amount is positive, the payer has it and the stored total still fits; its other overflow check cannot fail. |
| Acceptance.RepaySucceedsIff | programs/shadow-lend/src/lib.rs:348-373 | `repay` goes through exactly when there is a debt and the payer holds the smaller of debt and amount. |
| Acceptance.BorrowSucceedsIff | programs/shadow-lend/src/lib.rs:258-334 | Over a complete listing at current prices, `borrow` goes through exactly when the vault has the tokens, the user supplies none, the sums fit, the price is recent and of the right feed, every listed account is acceptable and the exposure including the new debt is within the limit. |
| Acceptance.WithdrawSucceedsIff | programs/shadow-lend/src/lib.rs:175-243 | `withdraw` goes through exactly when user and vault have the amount, the price is recent and of the right feed, every listed account is acceptable and the exposure left behind is within the limit. |
| Acceptance.LiquidateSucceedsIff | programs/shadow-lend/src/lib.rs:391-556 | Over a complete listing, `liquidate` goes through exactly when its accounts exist, the liquidator is not the borrower, an amount is asked for, a debt owed and collateral held, the prices are recent and of the right feeds, every listed account is acceptable, the borrower's exposure is beyond the limit, something can be seized, the vault holds it and the liquidator holds the repayment. |
| Refusals.ClaimRefusal | programs/shadow-lend/src/lib.rs:73-114 | A claim that fails says which of its checks, in the program's order, was the first to fail. |
| Refusals.SupplyRefusal | programs/shadow-lend/src/lib.rs:119-159 | So does a deposit. |
| Refusals.RepayRefusal | programs/shadow-lend/src/lib.rs:349-367 | So does a repayment. |
| Refusals.WithdrawRefusal | programs/shadow-lend/src/lib.rs:176-243 | A withdrawal over a complete listing says, in this order: no position, no amount, not enough collateral, an unusable price, what is wrong with the list, exposure beyond the limit, an empty vault. |
| Refusals.BorrowRefusal | programs/shadow-lend/src/lib.rs:259-334 | A loan says, in this order: no position, no amount, collateral in the same market, a debt past 64 bits, an empty vault, an unusable price, what is wrong with the list, exposure beyond the limit, a stored total past 64 bits. |
| Refusals.LiquidateRefusal | programs/shadow-lend/src/lib.rs:392-543 | A liquidation says, in this order: accounts missing, no amount, the borrower's own, nothing owed or held, unusable prices, what is wrong with the list, exposure within the limit, nothing to seize, an empty vault, a liquidator who cannot pay. |
| HealthGuards.SupplyImproves | programs/shadow-lend/src/lib.rs:116-169 | At any prices, against the ledger its own accruals produce, `supply` never lowers total collateral at LTV and never raises total debt. |
| HealthGuards.RepayImproves | programs/shadow-lend/src/lib.rs:346-383 | At any prices, against the ledger its own accruals produce, `repay` never raises total debt and never lowers total collateral at LTV. |
| HealthGuards.BorrowLeavesWithin | programs/shadow-lend/src/lib.rs:285-309 | A successful `borrow` leaves its user's exposure over all markets within the limit. |
| HealthGuards.WithdrawLeavesWithin | programs/shadow-lend/src/lib.rs:190-218 | A successful `withdraw` leaves its user's exposure over all markets within the limit. |
| HealthGuards.TwoMainSeesExposure | programs/shadow-lend/src/lib.rs:445-478 | `liquidate` weighs exactly the exposure of the ledger its accruals produce, whichever two positions are its main ones. |
| HealthGuards.LiquidateRefusedIffWithin | programs/shadow-lend/src/lib.rs:479-482 | Once health is weighed, `PositionHealthy` is returned if and only if that exposure is within the limit: the same test the other guards make. |
| CurrentDebts.SafeMeansUnliquidatable | programs/shadow-lend/src/lib.rs:445-482 | A user whose debts, all of them current, are within the limit cannot be liquidated by anyone through two markets outside which no debt of the user shrinks on restating, whether or not the debts are restated; `PositionHealthy` is the answer once health is weighed. |
| CurrentDebts.RefusedIffCurrentlyWithin | programs/shadow-lend/src/lib.rs:445-482 | When every debt whose value is out of date lies in the two main markets, the health guard of `liquidate` refuses if and only if the borrower is within the limit on current debts. |
| CurrentDebts.FittingDebtsGrow | programs/shadow-lend/src/lib.rs:688-701 | While debts times snapshots fit 128 bits no debt shrinks on restating, which is what the results on current debts ask for. |
| HealthRuns.StepKeepsSafe | programs/shadow-lend/src/lib.rs:116-567 | Within a slot at fixed prices, no step by anyone takes a user who is within the limit on current debts, none of which shrinks on restating, out of that state, the user's own guarded calls being careful: made with the other debts restated, or leaving the user in that state. |
| HealthRuns.GuardMakesSafe | programs/shadow-lend/src/lib.rs:190-309 | Passing the guard of `borrow` or `withdraw` with the other debts restated puts the user within the limit on current debts, none of which shrinks on restating in that slot. |
| HealthRuns.RunKeepsSafe | programs/shadow-lend/src/lib.rs:116-567 | Nor does any run of such steps by anyone: still within the limit on current debts, and still none of them shrinking. |
| HealthRuns.HealthyUserCannotBeLiquidated | programs/shadow-lend/src/lib.rs:445-482 | After a user's successful `borrow` or `withdraw`, made with the other debts restated or leaving the user within the limit on current debts none of which shrinks on restating, and any run by anyone in the slot in which the user's own guarded calls do likewise, every liquidation of that user in that slot fails, with `PositionHealthy` if it gets as far as health. |
| HealthRuns.RestatedRunIsCareful | programs/shadow-lend/src/lib.rs:190-309 | From the moment all the user's debts are restated, the user's guarded calls in the slot are all careful. |
| HealthRuns.RestatedUserCannotBeLiquidated | programs/shadow-lend/src/lib.rs:445-482 | So if the other debts were restated before the first guarded call, nothing at all is asked of the run beyond complete listings and current prices. |
| CurrentDebts.StoredNoWorseThanCurrent | programs/shadow-lend/src/lib.rs:759-767 | Valuing listed positions at stored debts never overstates exposure when no debt shrinks on restating, so whoever is within the limit on current debts passes. |
| CurrentDebts.StoredIsCurrentIff | programs/shadow-lend/src/lib.rs:811-819 | For a user none of whose debts shrinks on restating, stored and current exposure are equal if and only if restating changes the value of none of them. |
| CurrentDebts.ValuesCurrentSame | programs/shadow-lend/src/lib.rs:811-819 | For any user, they are equal if restating changes the value of no debt. |
| CurrentDebts.RestatedValuesCurrent | programs/shadow-lend/src/lib.rs:811-819 | Once every debt is restated in the slot, restating again changes the value of none. |
| StaleDebts.StaleGuardCanPass | programs/shadow-lend/src/lib.rs:394-395 | A ledger reached from genesis whose user is within the limit on stored debts (1000 of 1600) and beyond it on current ones (2000). |
| StaleDebts.GuardedUserCanBeLiquidated | programs/shadow-lend/src/lib.rs:190-218 | In that ledger the user's `withdraw` passes its guard with a complete listing at current prices, and a liquidation of the user succeeds in the same slot: passing a guard does not by itself protect. |
| NegativeInterest.StoredDebtCanOverstate | programs/shadow-lend/src/lib.rs:759-767 | A reachable ledger in which a debt shrinks on restating, so that the exposure on stored debts exceeds that on current ones. |
| OverstatedDebts.WithinLimitCanBeLiquidated | programs/shadow-lend/src/lib.rs:445-482 | A reachable ledger with three markets in which a user within the limit on current debts is liquidated with a complete listing at current prices, a listed debt being one that shrinks: the condition of `SafeMeansUnliquidatable` on the other markets cannot be dropped. |
| Samples.LoanIsReachable | programs/shadow-lend/src/lib.rs:32-344 | The example ledgers are reached by a run of nine instructions and three token-program steps, for every rate, deposit, collateral, LTV and loan in a range. |
| LiquidationBounds.BonusIsACap | programs/shadow-lend/src/lib.rs:484-510 | Every successful liquidation seizes at most 105% of the value it repays, at any prices and through every saturating branch, and no more than the position holds of either. |
| LiquidationBounds.PowerLostBound | programs/shadow-lend/src/lib.rs:703-716 | At an LTV of at most 9523 bps, what a seizure costs in collateral at LTV is at most the value repaid plus one unit, through every floor. |
| LiquidationLimits.LtvLimitIsExact | programs/shadow-lend/src/lib.rs:484-556 | Among the LTVs a market can have, exactly those up to 9523 bps are such that no liquidation in any reachable ledger whose repayment lowers the debt's value by at least its own deepens the shortfall by more than one unit. |
| LiquidationLimits.DeepeningLiquidation | programs/shadow-lend/src/lib.rs:391-567 | For every LTV from 9524 to 9999, a reachable ledger and a successful liquidation, nothing saturating, that takes the shortfall from 1 to 105 * ltv - 999,999 units, at least 21. |
| LiquidationLimits.SaturatedLiquidation | programs/shadow-lend/src/lib.rs:636-666 | For every LTV a market can have, a reachable ledger and a successful liquidation in which the debt's value saturates: repaying one atom relieves nothing, takes the whole collateral, and deepens the shortfall by 200 * ltv units. |
| LiquidationBounds.LiquidationDoesNotDeepen | programs/shadow-lend/src/lib.rs:484-556 | Up to a collateral LTV of 9523 bps, and for a repayment that lowers the debt's value by at least its own value, debt minus collateral at LTV over all markets grows by at most one unit of 1e-8 USD in a liquidation. |
| LiquidationBounds.ShortfallChange | programs/shadow-lend/src/lib.rs:484-556 | To the unit, and without condition: the shortfall grows by the collateral at LTV that the seizure costs, less the debt value that the repayment relieves. |
| LiquidationBounds.UnsaturatedRepaymentCounts | programs/shadow-lend/src/lib.rs:636-647 | Every repayment of a debt valued below 2^128 - 1 lowers the debt's value by at least its own. |
| BankRun.DepositorLeavesIff | programs/shadow-lend/src/lib.rs:175-253 | A debt-free depositor with a fresh price gets the whole deposit out if and only if the vault holds it. |
| BankRun.EverybodyLeaves | programs/shadow-lend/src/lib.rs:175-253 | While the vault covers total_supplied, any such depositors can withdraw everything one after the other, in any order, whoever else stays or owes. |
| BankRun.BankRunSucceeds | programs/shadow-lend/src/lib.rs:175-253 | From genesis, after any run in which no debt restated in this market overflowed, once nobody owes it anything every such sequence of withdrawals succeeds. |
| BankRun.EverybodyWasCovered | programs/shadow-lend/src/lib.rs:175-253 | If all depositors of a market, none of whom owes anything in any market, did get everything out, the vault covered total_supplied to begin with. |
| BankRun.BankRunSucceedsIff | programs/shadow-lend/src/lib.rs:136-253 | After every run from genesis, all depositors of a market, if none of them owes anything in any market, can withdraw everything, in a given order and hence in any, if and only if the debts still owed to the market are at most the interest it recognised plus what was donated. |
| NegativeInterest.DebtFreeMarketCanBeShort | programs/shadow-lend/src/lib.rs:175-253 | A reachable ledger in which nobody owes a market anything and its one depositor, owing nothing anywhere and asking with a fresh price, cannot withdraw everything. |
| RoundTrips.BorrowThenRepay | programs/shadow-lend/src/lib.rs:258-383 | Borrowing and repaying the same amount within a slot gives back the ledger, but for the accruals. |
| RoundTrips.SupplyThenWithdraw | programs/shadow-lend/src/lib.rs:118-253 | Supplying and withdrawing the same amount gives back the ledger, but for the accruals and the opened position. |
| Base58.Base58Encode | app/sl-client.js:634-655 | The nested in-place loops produce a one per leading zero byte followed by the canonical base-58 digits of the rest. |
| Base58.Absorb | app/sl-client.js:639-650 | One outer iteration multiplies the number the digit array spells by 256, adds the byte and keeps the array canonical; the carry stays below 256 and no shift or truncation leaves 32 bits. |
| Base58.WriteOut | app/sl-client.js:651-653 | The two output loops write the ones and then the digits from the most significant down. |
| Base58.DigitsAreCanonical | app/sl-client.js:638-650 | The digits of a number spell it, with a nonzero top digit unless the number is zero. |
| Base58.CanonicalIsUnique | app/sl-client.js:638-650 | No other canonical digit array spells it. |
| Base58.DecodeEncoded | app/sl-client.js:634-655 | Decoding the output returns the input, one zero byte longer if the input has only zero bytes. |
| Base58.FaithfulIff | app/sl-client.js:634-655 | The encoder is faithful if and only if some byte is nonzero. |
| Base58.Injective | app/sl-client.js:634-655 | Different byte strings never encode alike. |
| Circuits.OnePositionAgrees | arcium/src/circuits.rs:9-31 | For one position the multiply-out check is the on-chain check, and the liquidation circuit at the same factor is its negation. |
| Circuits.ManyPositionsAgree | arcium/src/circuits.rs:9-31 | For n positions of one LTV, passing on chain implies passing on the totals, and passing on the totals means exceeding the on-chain limit by at most n - 1. |
| Circuits.SlackIsReached | arcium/src/circuits.rs:9-17 | The n - 1 is reached, for every n up to 10000. |
| Client.CollectCrossAccounts | app/sl-client.js:660-673 | When the client's configuration knows every market once, the list it builds holds every other active position exactly once, each with an update for its market's feed, and nothing else. |
| Client.CollectedListable | app/sl-client.js:657-673 | With recent updates for the right feeds, the program accepts every account on that list. |
| Client.ClientBorrowSucceedsIff | programs/shadow-lend/src/lib.rs:258-334 | End to end: with that list and live prices, `borrow` is decided by vault, own deposit, 64-bit sums and the exposure over all markets alone. |
| Client.ClientWithdrawSucceedsIff | programs/shadow-lend/src/lib.rs:175-243 | Likewise `withdraw`, by deposit, vault and exposure. |

## Left out

- Program.LendingProgram.Liquidate: requires two different markets; naming one market twice makes the runtime keep two copies of the same accounts, and which one is written back last is not part of this model.
- HealthRuns.HealthyUserCannotBeLiquidated: requires the calls that weigh this user to list each further active position once at one price per feed, and the user's own guarded calls to be careful; the program itself demands neither, and `StaleDebts.GuardedUserCanBeLiquidated` shows why the second is needed.
- Client.CollectCrossAccounts: the positions are read from the ledger and the latest update per feed is a parameter; a disconnected wallet, network failures and changes between reading and sending are not modelled.
- Base58.DecodeEncoded: the decoder is the base-58 format's own reading of a text; the repository has none.
- Account validation, derived addresses, bumps, rent, serialisation and events: a position is keyed by user and mint, and a missing or already existing account is an error.
- The oracle: an update has a feed, a price and an exponent and is either recent or not; confidence intervals and publication times are not part of this model.
- The exponent of a price is an unbounded integer, so the 32-bit sum of line 639 does not overflow here; with the overflow checks of the release profile an overflow would abort the transaction.
- The token program: balances, transfers and the 64-bit supply only; every wallet has at most one account per mint, nothing is burned, frozen or delegated.
- Addresses and feed ids are natural numbers compared for equality; the all-zero address that marks a fresh position is taken to be nobody's wallet.
- Timestamps of claims (`claimed_at`), as nothing depends on them.
- `init_user_stats` and `record_action`: self-reported counters.
- The interest circuit and `app/src/arcium.ts`: an unused sketch and stubs.
- The rest of the client, the page, the migrations, the interface description and the tests: input, output and configuration.
