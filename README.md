# metpack token and team contracts, modelled in Dafny

This project models the two live contracts of the metpack repository.

**The `metpacktoken` ledger.** This is an `eosio.token`-style contract with two tables.
- The `stat` table holds one currency record per symbol code: the supply, the maximum supply and the issuer.
- Each owner's `accounts` table holds one balance row per symbol code: a balance and a `claimed` flag.

Every action is a short sequence of guarded table operations: find, emplace, modify and erase. When an assertion fails, the whole action is undone. The model is the class `Token.Ledger`, which holds both tables as maps.
- The currency records are keyed by symbol code.
- The balance rows are keyed by the pair (owner, symbol code).

Each action is a method. It returns `Ok` or `Abort(error)`, and after an abort it restores the tables it changed. Every action keeps the ledger invariant `Token.Consistent`:
- every supply lies between 0 and the maximum supply;
- no balance is negative;
- every row belongs to an existing currency;
- for every currency, the balances add up to its supply.

`Holdings.Total` is the sum of the balances held under one code. The pure functions `Holdings.Debited`, `Holdings.Credited` and `Holdings.Claimed` give the rows after `sub_balance`, `add_balance` and `do_claim`. The rows after a transfer, an issue and a recover are given in the same way by `Token.TransferredRows`, `Token.IssuedRows` and `Token.Recovered`. The action methods are proved to produce exactly these rows.

**The `metpackteam` registry.** The model is the class `Team.Vault`, which holds the `stats` listings and the `team` members as maps keyed by their primary keys. `addtoken` inserts or overwrites a listing and resets its `totalCredit` to 0. `addmember` adds the member's credit to the listing's `totalCredit`, then inserts the member once. A second insert of the same member aborts, and the abort also undoes the credit already added. `totalCredit` is an unsigned 64-bit field to which a signed amount is added, so the addition wraps modulo 2^64 (`Team.AddWrapping`). Each successful `addmember` on a listing takes its `totalCredit` one `AddWrapping` step further. `Team.Accumulated` is the result of a run of such steps, and `Team.AccumulatedIsSumModulo` proves that it is the starting total plus the sum of the credits, modulo 2^64. So after a run of `addmember` calls on one listing since its last `addtoken`, the listing's `totalCredit` is the sum of their credits modulo 2^64. This is not a statement about the whole `team` table. Member rows are not tied to a listing, and an `addtoken` that overwrites a listing resets its total while the members stay.

The crowdsale's `chcktransfer` action is a cross-contract call. Here it is the parameter `hook` of `Transfer` and `Issue`, of type `Token.Hook`. It receives the sender, the quantity and the sender's balance before the transfer. A `false` verdict aborts the transfer, and the check is skipped when the sender is `mptcrowdsale`. An inline action runs after the body of the action that sends it. So the verdict is applied last, and a rejected transfer is rolled back.

Account names and symbol codes are kept as their raw 64-bit values. `Eosio.Crowdsale` is the encoding of the name `mptcrowdsale`.

`addtoken` resets `totalCredit` to 0 when it overwrites a listing as well as when it inserts one (contracts/metpackteam/metpackteam.cpp:29, :39).

## Model

| member | source | states |
|---|---|---|
| Holdings.Debited | contracts/metpacktoken/metpacktoken.cpp:189-202 | the sender's row loses exactly `amount`; it is erased exactly when it held `amount`, and otherwise keeps its claim flag; no other row changes; the total of its code falls by `amount`; non-negativity and claims are kept |
| Holdings.Credited | contracts/metpacktoken/metpacktoken.cpp:204-218 | the row gains exactly `amount`; a missing row is created with the given claim flag, and an existing row keeps its flag; no other row changes; the total of its code rises by `amount` |
| Holdings.Claimed | contracts/metpacktoken/metpacktoken.cpp:142-165 | the row keeps its balance and becomes claimed; an already claimed row leaves the table unchanged; no other row and no total changes |
| Holdings.ClaimIdempotent | contracts/metpacktoken/metpacktoken.cpp:150-164 | claiming twice is the same as claiming once |
| Holdings.TotalPick | contracts/metpacktoken/metpacktoken.cpp:189-218 | the sum of a code's balances is that row's share plus the sum over the other rows, whichever row is taken out |
| Holdings.TotalFrame | contracts/metpacktoken/metpacktoken.cpp:189-218 | a change confined to one row moves the total by exactly that row's change |
| Holdings.TotalFrameAll | contracts/metpacktoken/metpacktoken.cpp:189-218 | the same, for every code at once |
| Holdings.FramePair | contracts/metpacktoken/metpacktoken.cpp:128-135 | a change confined to one row is confined to any pair of rows that includes it |
| Holdings.TotalUnheld | contracts/metpacktoken/metpacktoken.cpp:24-28 | a code in which nobody holds a row has total 0, so a new currency's supply of 0 matches its rows |
| Holdings.TotalNonNegative | contracts/metpacktoken/metpacktoken.cpp:189-202 | with no negative balance, every total is non-negative |
| Holdings.HeldBelowTotal | contracts/metpacktoken/metpacktoken.cpp:204-218 | with no negative balance, no row holds more than its code's total, so `+=` on a balance stays within the asset range |
| Token.SupplyMoved | contracts/metpacktoken/metpacktoken.cpp:69-73 | moving a currency's supply by `delta` and its rows' total by the same `delta` keeps the ledger consistent |
| Token.IssueChecks | contracts/metpacktoken/metpacktoken.cpp:55-67 | issue passes its checks exactly when the memo fits in 256 bytes, the currency exists, the quantity is valid and positive, the symbol matches and the quantity fits under the maximum supply; for each of the six checks, when every earlier check passes and that one fails, its error is the one reported |
| Token.Withdrawn | contracts/metpacktoken/metpacktoken.cpp:128-129 | the sender's row ends up claimed and `amount` poorer; it is erased exactly when it held `amount`; no other row changes; the total falls by `amount` |
| Token.TransferredRows | contracts/metpacktoken/metpacktoken.cpp:128-135 | the sender loses and the receiver gains exactly the amount; only those two rows change; the sender's row is erased when emptied and claimed otherwise; the receiver's row is claimed exactly when the sender is not the issuer or the row was claimed before; no total changes |
| Token.IssuedRows | contracts/metpacktoken/metpacktoken.cpp:73-79 | the total of the code rises by the quantity; when `to` is the issuer, the issuer's row gains it; otherwise `to` gains it and the issuer's net balance is unchanged, with the issuer's row erased exactly when it was empty before; only those two rows change |
| Token.Recovered | contracts/metpacktoken/metpacktoken.cpp:181-186 | the unclaimed row's whole balance moves to the issuer and the row is removed; an issuer recovering its own row just claims it; the total, non-negativity and claims are kept |
| Token.Resupplied | contracts/metpacktoken/metpacktoken.cpp:69-71 | only the supply of the one currency changes, by exactly `delta` |
| Token.IssueTransferCommits | contracts/metpacktoken/metpacktoken.cpp:75-79 | the nested transfer of an issue commits exactly when the issue's own condition on the crowdsale check holds |
| Token.Ledger.SubBalance | contracts/metpacktoken/metpacktoken.cpp:189-202 | aborts when there is no row or the balance is too small, with no row changed; otherwise the rows become `Debited` |
| Token.Ledger.AddBalance | contracts/metpacktoken/metpacktoken.cpp:204-218 | aborts only when the asset's `+=` range check fails; otherwise the rows become `Credited` |
| Token.Ledger.DoClaim | contracts/metpacktoken/metpacktoken.cpp:142-165 | aborts when the owner has no row; otherwise the rows become `Claimed` |
| Token.Ledger.Create | contracts/metpacktoken/metpacktoken.cpp:10-29 | commits exactly when the maximum supply is valid and positive and the symbol is new, inserting supply 0 with the given maximum and issuer; rows are untouched; consistency is kept |
| Token.Ledger.Update | contracts/metpacktoken/metpacktoken.cpp:31-49 | commits exactly when the currency exists with that exact symbol; only the issuer changes, never the supply or the maximum |
| Token.Ledger.Transfer | contracts/metpacktoken/metpacktoken.cpp:106-136 | commits exactly when `TransferCommits` holds, including the crowdsale check on the sender's prior balance; supply never changes; an abort changes no row; a commit leaves the rows as `TransferredRows`; consistency is kept |
| Token.Ledger.Mint | contracts/metpacktoken/metpacktoken.cpp:69-73 | the supply rises by the amount and the issuer's row is credited, a new row claimed; consistency is kept |
| Token.Ledger.Issue | contracts/metpacktoken/metpacktoken.cpp:51-80 | commits exactly when `IssueCommits` holds; then the supply rises by the quantity and the rows become `IssuedRows`, and otherwise nothing changes; consistency, and so supply <= max supply, is kept |
| Token.Ledger.Retire | contracts/metpacktoken/metpacktoken.cpp:82-104 | commits exactly when the checks pass and the issuer holds at least the quantity; then the supply and the issuer's row fall by the same amount, and otherwise nothing changes |
| Token.Ledger.Claim | contracts/metpacktoken/metpacktoken.cpp:138-140 | commits exactly when the row exists and leaves it `Claimed` |
| Token.Ledger.Recover | contracts/metpacktoken/metpacktoken.cpp:167-187 | aborts exactly when no currency record exists; a missing or claimed row leaves everything unchanged; an unclaimed row goes to the issuer as `Recovered`; no claim is ever undone |
| Token.Ledger.Open | contracts/metpacktoken/metpacktoken.cpp:220-237 | commits exactly when the currency exists with that symbol; inserts an empty unclaimed row only when there is none, and never alters an existing row |
| Token.Ledger.Close | contracts/metpacktoken/metpacktoken.cpp:239-247 | commits exactly when the row exists with balance 0, and then removes exactly that row |
| Team.AddWrapping | contracts/metpackteam/metpackteam.cpp:84 | the new total is congruent to the old total plus the credit modulo 2^64, and equals it when that sum is in range |
| Team.AccumulatedIsSumModulo | contracts/metpackteam/metpackteam.cpp:82-85 | the fold of wrapping additions over a sequence of credits is the starting total plus the sum of the credits, modulo 2^64; this is how `totalCredit` ends up after a run of `addmember` calls on one listing |
| Team.AccumulatedExact | contracts/metpackteam/metpackteam.cpp:82-85 | with non-negative credits and no overflow, `totalCredit` is the exact sum |
| Team.SumNonNegative | contracts/metpackteam/metpackteam.cpp:84 | a sum of non-negative credits is non-negative |
| Team.Vault.AddToken | contracts/metpackteam/metpackteam.cpp:12-44 | as written: the lookup uses the raw symbol code; a missing row is inserted under the contract's name and aborts when that key is taken; a found row is overwritten and aborts unless its key is the contract's name; on success the one listing becomes the new row with `totalCredit` 0; members are untouched |
| Team.Vault.AddMember | contracts/metpackteam/metpackteam.cpp:71-94 | commits exactly when the listing exists and the member does not; a missing listing and an existing member give their errors and change nothing, the credit bump included; on success exactly that listing's `totalCredit` grows (wrapping) by the credit and exactly one member row is inserted |
| Team.AddTokenTwiceAborts | contracts/metpackteam/metpackteam.cpp:19-30 | adding the same token again after a first success aborts with a duplicate primary key |
| Team.Vault.AddTokenKeyed | contracts/metpackteam/metpackteam.cpp:97-105 | looked up under its primary key, `addtoken` never aborts and leaves exactly its one listing with the new fields and `totalCredit` 0 |
| Team.AddTokenKeyedTwiceUpdates | contracts/metpackteam/metpackteam.cpp:32-41 | with the keyed lookup, a second `addtoken` overwrites the listing, and a member can then be added against it |

## Left out

- Symbol validity (`symbol::is_valid`, the name and precision encoding): every symbol is taken as valid. A symbol is its code and its precision, compared as a pair.
- Authorization (`require_auth`) and `is_account( to )`: the model has no permissions, and every account exists.
- `require_recipient` notifications, RAM payers and `same_payer`. `open`'s `ram_payer` parameter is dropped, because it only chooses who pays for the row.
- `SEND_INLINE_ACTION` and the deferral mechanics: the nested transfer of `issue` is a sequential call in the same transaction.
- `checktransfer` and `get_balance`: the crowdsale's `chcktransfer` is the `hook` parameter. Its effects on the crowdsale's own state are not part of this model.
- The dispatch macros.
- The crowdsale contract (contracts/mptcrowdsale/mptcrowdsale.cpp): every action body is empty.
- contracts/metpackteam/mpt.team.hpp, which is entirely commented out, and the commented-out `withdraw`. There is no payout path.
- The header that declares the tables, metpacktoken.hpp, is not part of this model. The row layout comes from the code that uses it. A row created by `open` is taken to be unclaimed, which assumes the header's default for `claimed` is `false`.
- The asset range checks on the subtractions (`s.supply -= quantity`, `a.balance -= value`) and on the issue's `s.supply += quantity`: under the ledger invariant they can never fail, so they are not written out. Only `add_balance`'s `+=` check is modelled (`AdditionOverflow`), and it is proved never to fire inside an action.

## Findings

| source | as written | input that shows it | evidently intended | confidence | as-written member | corrected member |
|---|---|---|---|---|---|---|
| contracts/metpackteam/metpackteam.cpp:19 | `addtoken` looks for an existing listing under `curr.code().raw()`, but listings are stored under `tokencontract.value` (line 104) | `addtoken(tokencontract = name with value 1, curr = code 2)` twice: the second call finds nothing under key 2 and tries to insert a second row under key 1, which aborts | the lookup uses the primary key `tokencontract.value`, so a repeated `addtoken` modifies the listing, as the comment "Modification possible during testing" says | high (not executed) | Team.AddTokenTwiceAborts (on Team.Vault.AddToken) | Team.Vault.AddTokenKeyed (shown by Team.AddTokenKeyedTwiceUpdates) |
