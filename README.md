# anchor-timelock, modelled in Dafny

A model of the Solana timelock escrow program in
`programs/anchor-timelock/src/lib.rs`. The program has two instructions:

- `lock` creates a `Timelock` record. The record lives at a program-derived
  address computed from the receiver's key and a bump. It stores the receiver,
  the receiver's token account, the bump and an unlock time of
  `now + lock_duration`. The addition is checked, and an overflow fails with
  `DurationOverflow`. `lock` then makes that address the owner of the
  initializer's token account (`set_authority`).
- `unlock` refuses to run before the unlock time (`HasntUnlockedYet`). It
  requires the receiver and the receiver's token account to be the ones the
  record names. The timelock signs with its own seeds to transfer the whole
  custody balance to the receiver, and the record is closed.

Files:

- `wrappers.dfy`: module `Wrappers`. The result types `Option`, `Result` and
  `Outcome`.
- `bounded_ints.dfy`: module `BoundedInts`. Holds `uint8`, `uint64` and `int64`,
  and `CheckedAdd`, which is `i64::checked_add` computed from the machine's
  wrapped sum and overflow test. Its contract says what `checked_add` promises.
- `accounts.dfy`: module `Accounts`. An address is either `Key` (on the curve:
  someone may hold its secret key) or `Derived` (off the curve: only the program
  can sign for it). It also holds `DeriveAddress` (injective), the canonical
  bump, and the errors.
- `token_program.dfy`: module `TokenProgram`. Token accounts (owner, amount) and
  the two token-program instructions the timelock uses: `SetOwner` (which is
  `set_authority` with the `AccountOwner` authority) and `Transfer`. Also holds
  `Supply`, the total of all balances.
- `timelock.dfy`: module `Timelock`. The record, the account structs `Lock` and
  `Unlock`, their constraints, and the two instructions as functions from ledger
  state to result (`LockStep`, `UnlockStep`). Also the class `Ledger`, whose
  `Lock` and `Unlock` methods update the token accounts and timelock accounts in
  place. Each method either fails and changes nothing, or commits the whole
  step. Each is proved equal to its step function and to keep every record at
  its derived address.
- `transactions.dfy`: module `Transactions`. Histories of transactions mixing
  the two instructions with direct token-program calls by key holders. It proves
  what holds over every history: records stay at their derived addresses,
  there is one live timelock per receiver, tokens are conserved, locked tokens
  leave custody only through an on-time unlock, records are write-once and close
  only with the release, and a release happens only once.
- `scenarios.dfy`: module `Scenarios`. The repository's integration test,
  written as a client of `Ledger`, plus timeline, overflow and non-owner
  scenarios as lemmas, and the history behind the finding below.

Every instruction takes a `Revision`. `AsWritten` is the program in lib.rs.
`CustodyBound` is the same program with the correction from "## Findings":
`lock` stores the custody account in the record's `temp_token_account_pubkey`
field, and `unlock` refuses any other custody account. All history lemmas
except those about where released tokens go hold for both revisions.

Notes on the code:

- Any `i64` duration is accepted, so a negative one gives an unlock time in the
  past.
- The checks at lib.rs:94, 110 and 111 are Anchor `constraint` checks. The
  program reports them all as Anchor's raw-constraint error. The model names
  them `InitializerNotOwner` and `ReceiverMismatch`.
- A missing record fails with Anchor's `AccountNotInitialized`.
- `init` with `bump = timelock_bump` (lib.rs:87-88) is taken to re-derive the
  address with `find_program_address` and to refuse any bump but the canonical
  one, with `ConstraintSeeds`. This is what the Anchor releases with
  `#[error]` and `ProgramResult` are understood to do. The Anchor version itself
  is not part of lib.rs.

## Model

| member | source | states |
|---|---|---|
| BoundedInts.CheckedAdd | programs/anchor-timelock/src/lib.rs:32-35 | `checked_add` returns a value exactly when `now + lock_duration` fits in `i64`, and that value is the exact sum |
| Accounts.DeriveAddressInjective | programs/anchor-timelock/src/lib.rs:87-88 | the address is determined by receiver and bump alone, different (receiver, bump) pairs give different addresses, and no derived address is a key anyone can sign with |
| TokenProgram.SetOwner | programs/anchor-timelock/src/lib.rs:40-50 | `set_authority` succeeds exactly when the current authority owns the account and signs; it then changes that account's owner and nothing else, and keeps the token supply |
| TokenProgram.Transfer | programs/anchor-timelock/src/lib.rs:60-74 | `transfer` succeeds exactly when the owner signs, the balance covers the amount and the destination has room; it debits the source and credits the destination by the amount, changes no owner and no other account, and keeps the supply |
| Timelock.LockStep | programs/anchor-timelock/src/lib.rs:30-53 | `lock` succeeds exactly when the account constraints hold (derived address with the canonical bump, not in use, signing initializer who owns the tokens, existing receiver token account) and `now + lock_duration` fits in `i64`. It fails with `DurationOverflow` exactly when only the sum overflows. It never overwrites a live record and fails unless the initializer owns the tokens. On success it adds a record storing the receiver, the receiver token account, the bump and `now + lock_duration`; the custody field stays zero as written and holds the locked account with the fix. The locked account then belongs to the timelock address with its amount unchanged, and no other account changes |
| Timelock.UnlockStep | programs/anchor-timelock/src/lib.rs:55-77 | `unlock` succeeds exactly when the record exists, the receiver and its token account match it (and, with the fix, the custody account does), `now >= unlock_timestamp`, and the timelock owns the custody account and can sign for it. It fails with `HasntUnlockedYet` exactly when the accounts are valid and the time is early. Without a record it fails with `AccountNotInitialized`. On success the record is closed and the custody balance goes to zero. The receiver's account grows by that balance, no owner or other account changes, and the supply is kept |
| Timelock.Ledger.Lock | programs/anchor-timelock/src/lib.rs:30-53 | the in-place `lock` either reports `LockStep`'s error and leaves the ledger unchanged, or leaves it exactly as `LockStep` says; it keeps every record at its derived address with the canonical bump |
| Timelock.Ledger.Unlock | programs/anchor-timelock/src/lib.rs:55-77 | the in-place `unlock` either reports `UnlockStep`'s error and leaves the ledger unchanged, or leaves it exactly as `UnlockStep` says; it keeps every record at its derived address, and on a valid ledger it succeeds once the time has come, the timelock owns the custody account and the receiver has room |
| Transactions.RunKeepsConsistent | programs/anchor-timelock/src/lib.rs:68-71 | in every history, each live record sits at the address derived from its stored receiver and canonical bump, so the seeds `unlock` signs with name the record's own address |
| Transactions.RunConservesSupply | programs/anchor-timelock/src/lib.rs:60-74 | no history creates or deletes a token account, and the total number of tokens never changes |
| Transactions.ApplyNeverRewritesRecord | programs/anchor-timelock/src/lib.rs:31-38 | a record's fields are written only when it is created; afterwards every transaction leaves it as it was or closes it |
| Transactions.ApplyClosesOnlyByRelease | programs/anchor-timelock/src/lib.rs:105-113 | a record disappears only through a successful `unlock` of that address, at or after its unlock time and into the token account it names, in the same step that empties the custody account |
| Transactions.ApplyKeepsCustody | programs/anchor-timelock/src/lib.rs:55-77 | in any transaction signed by key holders, refused unlocks included, an account owned by a derived address keeps its owner, and its balance falls only when the transaction is an accepted unlock naming it, through the timelock that owns it and is live, at or after that record's unlock time, into the record's receiver token account, closing the record |
| Transactions.RunKeepsCustody | programs/anchor-timelock/src/lib.rs:55-77 | over any history signed by key holders, such an account keeps its owner, and its balance ends lower only if some transaction of the history released it in that way |
| Transactions.LockedTokensStayInCustody | programs/anchor-timelock/src/lib.rs:40-50 | after a `lock`, whatever key holders do, the initializer included, the locked tokens stay owned by the timelock address, and their balance falls below the locked amount only if some transaction was an accepted, on-time `unlock` of them through the owning timelock |
| Transactions.RunKeepsCustodyRecorded | programs/anchor-timelock/src/lib.rs:11 | with the fix, in every key-signed history each live record's custody account exists and is owned by the record's address |
| Transactions.ApplyKeepsBound | programs/anchor-timelock/src/lib.rs:94 | with the fix, no key-signed transaction creates a record for a custody account owned by a derived address, so every record for it keeps releasing into the same receiver token account |
| Transactions.ReleasesPayBoundReceiver | programs/anchor-timelock/src/lib.rs:115-116 | with the fix, over any key-signed history, every accepted release from a custody account whose records all name one receiver token account pays that account |
| Transactions.LockedTokensReachOnlyReceiver | programs/anchor-timelock/src/lib.rs:115-116 | with the fix, after a key-signed `lock`, every accepted release of the locked tokens in any key-signed history pays the receiver token account named at lock time |
| Transactions.RunKeepsClosed | programs/anchor-timelock/src/lib.rs:109 | once closed, an address holds no record until another `lock` creates one there |
| Transactions.ReleaseIsOneShot | programs/anchor-timelock/src/lib.rs:107-113 | after a successful `unlock`, every later `unlock` of the same address fails with `AccountNotInitialized` unless a new `lock` at that address comes in between |
| Transactions.OneTimelockPerReceiver | programs/anchor-timelock/src/lib.rs:83-89 | two live timelocks naming the same receiver are the same account |
| Transactions.LockWhileLiveFails | programs/anchor-timelock/src/lib.rs:83-89 | while a receiver's timelock is live, every `lock` for that receiver fails, whatever bump it passes |
| Transactions.UnlockSucceedsWhenDue | programs/anchor-timelock/src/lib.rs:56-74 | at or after the unlock time, the matching `unlock` succeeds whenever the timelock still owns the custody account and the receiver's balance has room |
| Scenarios.UnlockTimeline | programs/anchor-timelock/src/lib.rs:56-58 | 100 tokens locked at 1000 for 3600 s: the unlock time is 4600, an unlock at 4599 fails with `HasntUnlockedYet`, and one at 4600 pays the receiver 100 and closes the record |
| Scenarios.DurationOverflowRefused | programs/anchor-timelock/src/lib.rs:32-35 | a duration of `i64::MAX` at time 1000 fails with `DurationOverflow` |
| Scenarios.StrangerCannotLock | programs/anchor-timelock/src/lib.rs:94 | a signer who does not own the tokens cannot lock them |
| Scenarios.StrangerRedirectsRelease | programs/anchor-timelock/src/lib.rs:115-116 | as written, a five-transaction history signed by key holders only ends with a stranger holding the 100 locked tokens and the receiver holding none |
| Scenarios.CustodyBoundStopsRedirect | programs/anchor-timelock/src/lib.rs:115-116 | with the fix, the same history leaves the 100 tokens in custody and pays the stranger nothing |

`Scenarios.RepositoryTest` follows `tests/anchor-timelock.ts`, driven through
`Ledger`. It shows that an unlock in the same second as a 50-second lock is
refused: the test's sleep at line 102 is commented out. Fifty seconds later the
receiver ends with the full 1000 tokens that the test expects at line 114.

## Findings

| source | as written | input that shows it | evidently intended | confidence | as-written member | corrected member |
|---|---|---|---|---|---|---|
| programs/anchor-timelock/src/lib.rs:115-116 | `unlock` releases from any token account the timelock address owns; the record's `temp_token_account_pubkey` (lib.rs:11) is never written, and `unlock` needs no signature | the wallet locks 100 tokens for the receiver; once they are due, a stranger makes the timelock address owner of an empty account, unlocks through it (closing the record), locks again at the same address naming their own token account, and unlocks the original custody account into it | the locked tokens reach only the receiver token account named at lock time: `lock` stores the custody account and `unlock` accepts no other | medium, not executed | Scenarios.StrangerRedirectsRelease | Transactions.LockedTokensReachOnlyReceiver |

## Left out

- Address derivation internals: the SHA-256 hash, the program id and the search
  for an off-curve bump. `DeriveAddress` is an injective constructor, and every
  bump yields a valid address, so the canonical bump is 255 for every receiver.
- Anchor and Solana plumbing: account discriminators, deserialization, the
  `space` computation, rent, the lamport refund of `close = receiver` (modelled
  as deleting the record), and the checks on `system_program` and
  `token_program`. A closed address can hold a record again in a later
  transaction.
- The token program beyond the owner change and the transfer: mints, decimals,
  frozen accounts and delegates are not modelled. `receiver_tokens` is not
  checked against the receiver or the mint, in the program or in the model. A
  transfer from an account to itself is a no-op, as in the current token
  program.
- Token accounts and timelock accounts are kept in two separate maps. An address
  holding both kinds of account is not modelled.
- `Clock::get()`: the current time is the `now` parameter of each instruction.
  Clock monotonicity is not assumed.
- Which error is reported when several checks fail at once follows the order of
  the account declarations, then the instruction body. The contracts pin down
  `DurationOverflow`, `HasntUnlockedYet` and the missing-record error exactly.
  For the other constraints they state only that the call fails.
- `unlock`'s transaction signers: the transfer's authority is the timelock
  address, which only the program can sign for. The only signer the model passes
  to the transfer is the derived one.
- The error message strings (lib.rs:128-132).
- `tests/anchor-timelock.ts` as network code (mint creation, RPC, confirmations).
  Only its lock/unlock sequence is kept, in `Scenarios.RepositoryTest`.
- Concurrency: each transaction is one atomic step. Histories are sequential.
