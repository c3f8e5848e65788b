/** The timelock program: the `Timelock` record, the account constraints of the
    `lock` and `unlock` instructions, each instruction as a function from the
    ledger state to its result, and the `Ledger` that executes them in place. */
module Timelock {
  import opened Wrappers
  import opened BoundedInts
  import opened Accounts
  import opened TokenProgram

  /** The program as written, and the program with the fix for the one flaw
      the model exhibits: as written, `lock` never fills in the record's custody
      field and `unlock` releases from any token account the timelock owns; with
      the fix, `lock` stores the custody account and `unlock` releases from it
      alone. */
  datatype Revision = AsWritten | CustodyBound

  /** The data held in a timelock account. */
  datatype Timelock = Timelock(
    receiverAccount: Pubkey,       // who is entitled to the tokens
    receiverTokenAccount: Pubkey,  // the token account they are released into
    tempTokenAccount: Pubkey,      // the custody account (left at its zero value as written)
    unlockTimestamp: int64,        // no release before this time
    bump: uint8                    // completes the derivation of the account's address
  )

  /** The accounts passed to `lock`. */
  datatype LockAccounts = LockAccounts(
    timelock: Pubkey, initializer: Pubkey, tokensToLock: Pubkey,
    receiver: Pubkey, receiverTokens: Pubkey)

  /** The accounts passed to `unlock`. */
  datatype UnlockAccounts = UnlockAccounts(
    timelock: Pubkey, timelockedTokens: Pubkey, receiver: Pubkey, receiverTokens: Pubkey)

  /** The part of the ledger the program touches: token accounts and timelock
      accounts, each by address. */
  datatype Chain = Chain(tokens: Tokens, timelocks: map<Pubkey, Timelock>)

  /** Every timelock account sits at the address derived from the receiver and
      bump it stores, so the program can sign for it with those two values, and
      that bump is the receiver's canonical one. */
  predicate Consistent(timelocks: map<Pubkey, Timelock>)
  {
    forall addr <- timelocks ::
      && addr == DeriveAddress(timelocks[addr].receiverAccount, timelocks[addr].bump)
      && timelocks[addr].bump == CanonicalBump(timelocks[addr].receiverAccount)
  }

  /** The account constraints of `lock`: the timelock address is derived from
      the receiver and its canonical bump and not yet in use, the initializer signs and owns
      the tokens to lock, and the receiver's token account exists. */
  predicate LockAccountsValid(c: Chain, a: LockAccounts, bump: uint8, signers: set<Pubkey>)
  {
    && a.timelock == DeriveAddress(a.receiver, bump)
    && bump == CanonicalBump(a.receiver)
    && a.timelock !in c.timelocks
    && a.initializer in signers
    && a.tokensToLock in c.tokens
    && c.tokens[a.tokensToLock].owner == a.initializer
    && a.receiverTokens in c.tokens
  }

  /** `lock`: create the timelock record at the derived address, with its unlock
      time `now + lockDuration`, and hand the tokens to lock over to it. */
  function LockStep(rev: Revision, c: Chain, a: LockAccounts, bump: uint8, lockDuration: int64,
                    now: int64, signers: set<Pubkey>): (r: Result<Chain, Error>)
    // when it succeeds, and the one failure the program itself raises
    ensures r.Ok? <==> LockAccountsValid(c, a, bump, signers)
                       && INT64_MIN <= now as int + lockDuration as int <= INT64_MAX
    ensures r == Err(DurationOverflow) <==>
              LockAccountsValid(c, a, bump, signers)
              && !(INT64_MIN <= now as int + lockDuration as int <= INT64_MAX)
    // a live timelock is never overwritten; only the owner of the tokens can lock them
    ensures a.timelock in c.timelocks ==> r.Err?
    ensures a.tokensToLock in c.tokens && c.tokens[a.tokensToLock].owner != a.initializer ==> r.Err?
    // the new record
    ensures r.Ok? ==> a.timelock == DeriveAddress(a.receiver, bump)
    ensures r.Ok? ==> r.value.timelocks.Keys == c.timelocks.Keys + {a.timelock}
                      && forall k <- c.timelocks :: r.value.timelocks[k] == c.timelocks[k]
    ensures r.Ok? ==> var t := r.value.timelocks[a.timelock];
                      && t.unlockTimestamp as int == now as int + lockDuration as int
                      && t.receiverAccount == a.receiver
                      && t.receiverTokenAccount == a.receiverTokens
                      && t.bump == bump
                      && (rev.AsWritten? ==> t.tempTokenAccount == DefaultKey)
                      && (rev.CustodyBound? ==> t.tempTokenAccount == a.tokensToLock)
    // custody: the timelock now owns the locked tokens, and nothing else moved
    ensures r.Ok? ==> r.value.tokens.Keys == c.tokens.Keys
                      && r.value.tokens[a.tokensToLock] == TokenAccount(a.timelock, c.tokens[a.tokensToLock].amount)
                      && forall k <- c.tokens :: k != a.tokensToLock ==> r.value.tokens[k] == c.tokens[k]
    ensures r.Ok? ==> Supply(r.value.tokens) == Supply(c.tokens)
  {
    if a.timelock != DeriveAddress(a.receiver, bump) || bump != CanonicalBump(a.receiver) then
      Err(ConstraintSeeds)
    else if a.timelock in c.timelocks then Err(AccountInUse)
    else if a.initializer !in signers then Err(MissingSigner)
    else if a.tokensToLock !in c.tokens then Err(AccountNotInitialized)
    else if c.tokens[a.tokensToLock].owner != a.initializer then Err(InitializerNotOwner)
    else if a.receiverTokens !in c.tokens then Err(AccountNotInitialized)
    else match CheckedAdd(now, lockDuration)
      case None => Err(DurationOverflow)
      case Some(unlockTimestamp) =>
        var custody := if rev.CustodyBound? then a.tokensToLock else DefaultKey;
        var record := Timelock(a.receiver, a.receiverTokens, custody, unlockTimestamp, bump);
        match SetOwner(c.tokens, a.tokensToLock, a.initializer, a.timelock, signers)
        case Err(e) => Err(e)
        case Ok(tokens) => Ok(Chain(tokens, c.timelocks[a.timelock := record]))
  }

  /** The account constraints of `unlock`: the timelock record and both token
      accounts exist, and the receiver and its token account are the ones the
      record names; with the fix, so is the custody account. */
  predicate UnlockAccountsValid(rev: Revision, c: Chain, a: UnlockAccounts)
  {
    && a.timelock in c.timelocks
    && a.timelockedTokens in c.tokens
    && a.receiverTokens in c.tokens
    && c.timelocks[a.timelock].receiverAccount == a.receiver
    && c.timelocks[a.timelock].receiverTokenAccount == a.receiverTokens
    && (rev.CustodyBound? ==> c.timelocks[a.timelock].tempTokenAccount == a.timelockedTokens)
  }

  /** The transfer of the whole custody balance goes through: the timelock,
      signing with its own seeds, owns the custody account, and the receiver's
      balance has room for the tokens. */
  predicate ReleaseAuthorized(rev: Revision, c: Chain, a: UnlockAccounts)
    requires UnlockAccountsValid(rev, c, a)
  {
    && c.tokens[a.timelockedTokens].owner == a.timelock
    && a.timelock == DeriveAddress(a.receiver, c.timelocks[a.timelock].bump)
    && (a.timelockedTokens == a.receiverTokens
        || c.tokens[a.receiverTokens].amount as int + c.tokens[a.timelockedTokens].amount as int <= UINT64_MAX)
  }

  /** `unlock`: once the unlock time has come, move the whole custody balance to
      the receiver's token account and close the record. */
  function UnlockStep(rev: Revision, c: Chain, a: UnlockAccounts, now: int64): (r: Result<Chain, Error>)
    ensures r.Ok? <==> && UnlockAccountsValid(rev, c, a)
                       && now >= c.timelocks[a.timelock].unlockTimestamp
                       && ReleaseAuthorized(rev, c, a)
    // the time gate
    ensures r == Err(HasntUnlockedYet) <==>
              UnlockAccountsValid(rev, c, a) && now < c.timelocks[a.timelock].unlockTimestamp
    ensures r.Ok? ==> now >= c.timelocks[a.timelock].unlockTimestamp
    // no record, no release: this is how a second unlock fails
    ensures a.timelock !in c.timelocks ==> r == Err(AccountNotInitialized)
    // the receiver binding
    ensures (&& a.timelock in c.timelocks
             && (|| c.timelocks[a.timelock].receiverAccount != a.receiver
                 || c.timelocks[a.timelock].receiverTokenAccount != a.receiverTokens)) ==> r.Err?
    // with the fix, the custody binding
    ensures (&& rev.CustodyBound? && a.timelock in c.timelocks
             && c.timelocks[a.timelock].tempTokenAccount != a.timelockedTokens) ==> r.Err?
    // the record is closed in the same step as the release
    ensures r.Ok? ==> r.value.timelocks == c.timelocks - {a.timelock}
    // the whole custody balance moves to the receiver, and nothing else moves
    ensures r.Ok? ==> r.value.tokens.Keys == c.tokens.Keys
                      && forall k <- c.tokens :: r.value.tokens[k].owner == c.tokens[k].owner
    ensures r.Ok? ==> forall k <- c.tokens :: k != a.timelockedTokens && k != a.receiverTokens
                                             ==> r.value.tokens[k] == c.tokens[k]
    ensures r.Ok? && a.timelockedTokens != a.receiverTokens ==>
              && r.value.tokens[a.timelockedTokens].amount == 0
              && r.value.tokens[a.receiverTokens].amount as int
                 == c.tokens[a.receiverTokens].amount as int + c.tokens[a.timelockedTokens].amount as int
    ensures r.Ok? ==> Supply(r.value.tokens) == Supply(c.tokens)
  {
    if a.timelock !in c.timelocks then Err(AccountNotInitialized)
    else if a.timelockedTokens !in c.tokens || a.receiverTokens !in c.tokens then Err(AccountNotInitialized)
    else
      var record := c.timelocks[a.timelock];
      if record.receiverAccount != a.receiver || record.receiverTokenAccount != a.receiverTokens then
        Err(ReceiverMismatch)
      else if rev.CustodyBound? && record.tempTokenAccount != a.timelockedTokens then
        Err(CustodyMismatch)
      else if now < record.unlockTimestamp then Err(HasntUnlockedYet)
      else
        var signer := DeriveAddress(a.receiver, record.bump);
        match Transfer(c.tokens, a.timelockedTokens, a.receiverTokens, a.timelock,
                       c.tokens[a.timelockedTokens].amount, {signer})
        case Err(e) => Err(e)
        case Ok(tokens) => Ok(Chain(tokens, c.timelocks - {a.timelock}))
  }

  /** The ledger as the runtime holds it, changed in place by each instruction.
      An instruction either fails and leaves it as it was, or commits whole. */
  class Ledger {
    const revision: Revision
    var tokens: Tokens
    var timelocks: map<Pubkey, Timelock>

    ghost predicate Valid()
      reads this
    {
      Consistent(timelocks)
    }

    function State(): Chain
      reads this
    {
      Chain(tokens, timelocks)
    }

    constructor (revision: Revision, tokens: Tokens)
      ensures Valid()
      ensures this.revision == revision && this.tokens == tokens && timelocks == map[]
    {
      this.revision := revision;
      this.tokens := tokens;
      timelocks := map[];
    }

    method Lock(a: LockAccounts, bump: uint8, lockDuration: int64, now: int64, signers: set<Pubkey>)
      returns (r: Outcome<Error>)
      requires Valid()
      modifies this
      ensures Valid()
      ensures var step := LockStep(revision, old(State()), a, bump, lockDuration, now, signers);
              && (r.Pass? <==> step.Ok?)
              && (r.Pass? ==> State() == step.value)
              && (r.Fail? ==> step == Err(r.error) && State() == old(State()))
    {
      // #[account(init, seeds = [receiver.key()], bump = timelock_bump)]
      if a.timelock != DeriveAddress(a.receiver, bump) || bump != CanonicalBump(a.receiver) {
        return Fail(ConstraintSeeds);
      }
      if a.timelock in timelocks {
        return Fail(AccountInUse);
      }
      if a.initializer !in signers {
        return Fail(MissingSigner);
      }
      if a.tokensToLock !in tokens {
        return Fail(AccountNotInitialized);
      }
      if tokens[a.tokensToLock].owner != a.initializer {
        return Fail(InitializerNotOwner);
      }
      if a.receiverTokens !in tokens {
        return Fail(AccountNotInitialized);
      }

      // the freshly created account starts zeroed and is filled in field by field
      var timelock := Timelock(DefaultKey, DefaultKey, DefaultKey, 0, 0);
      var unlockTimestamp := CheckedAdd(now, lockDuration);
      if unlockTimestamp.None? {
        return Fail(DurationOverflow);
      }
      timelock := timelock.(unlockTimestamp := unlockTimestamp.value);
      timelock := timelock.(receiverAccount := a.receiver);
      timelock := timelock.(receiverTokenAccount := a.receiverTokens);
      timelock := timelock.(bump := bump);
      if revision.CustodyBound? {
        timelock := timelock.(tempTokenAccount := a.tokensToLock);
      }

      var custody := SetOwner(tokens, a.tokensToLock, a.initializer, a.timelock, signers);
      // set_authority cannot fail here: the constraints above are the ones it checks
      assert custody.Ok?;
      tokens := custody.value;
      timelocks := timelocks[a.timelock := timelock];
      r := Pass;
    }

    method Unlock(a: UnlockAccounts, now: int64) returns (r: Outcome<Error>)
      requires Valid()
      modifies this
      ensures Valid()
      ensures var step := UnlockStep(revision, old(State()), a, now);
              && (r.Pass? <==> step.Ok?)
              && (r.Pass? ==> State() == step.value)
              && (r.Fail? ==> step == Err(r.error) && State() == old(State()))
      // a valid ledger pays out once the time has come: the seeds the timelock
      // signs with are those of its own address
      ensures (&& UnlockAccountsValid(revision, old(State()), a)
               && now >= old(timelocks)[a.timelock].unlockTimestamp
               && old(tokens)[a.timelockedTokens].owner == a.timelock
               && (|| a.timelockedTokens == a.receiverTokens
                   || old(tokens)[a.receiverTokens].amount as int
                      + old(tokens)[a.timelockedTokens].amount as int <= UINT64_MAX)) ==> r.Pass?
    {
      if a.timelock !in timelocks || a.timelockedTokens !in tokens || a.receiverTokens !in tokens {
        return Fail(AccountNotInitialized);
      }
      var timelock := timelocks[a.timelock];
      if timelock.receiverAccount != a.receiver || timelock.receiverTokenAccount != a.receiverTokens {
        return Fail(ReceiverMismatch);
      }
      if revision.CustodyBound? && timelock.tempTokenAccount != a.timelockedTokens {
        return Fail(CustodyMismatch);
      }

      if now < timelock.unlockTimestamp {
        return Fail(HasntUnlockedYet);
      }
      // the timelock signs for the transfer with the seeds of its own address
      var signer := DeriveAddress(a.receiver, timelock.bump);
      var released := Transfer(tokens, a.timelockedTokens, a.receiverTokens, a.timelock,
                               tokens[a.timelockedTokens].amount, {signer});
      if released.Err? {
        return Fail(released.error);
      }
      tokens := released.value;
      // close = receiver
      timelocks := timelocks - {a.timelock};
      r := Pass;
    }
  }
}
