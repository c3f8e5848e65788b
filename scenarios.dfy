/** Concrete runs: the repository's integration test, driven through the
    `Ledger`, the lock/unlock timeline with its overflow case as lemmas about
    the instruction functions, and the history in which a stranger redirects a
    release. */
module Scenarios {
  import opened Wrappers
  import opened BoundedInts
  import opened Accounts
  import opened TokenProgram
  import opened Timelock
  import opened Transactions

  const Wallet: Pubkey := Key(1)
  const WalletsTokens: Pubkey := Key(2)
  const Receiver: Pubkey := Key(3)
  const ReceiverTokens: Pubkey := Key(4)
  const Bump: uint8 := 255

  function Opening(amount: uint64): Tokens
  {
    map[WalletsTokens := TokenAccount(Wallet, amount), ReceiverTokens := TokenAccount(Receiver, 0)]
  }

  /** The integration test: the wallet locks its 1000 tokens for 50 seconds and
      the receiver unlocks them.  Unlocking in the same second as the lock, as
      the test does with its sleep commented out, is refused by the time gate;
      50 seconds later the receiver ends with the full 1000, and a further
      unlock finds no record. */
  method RepositoryTest()
  {
    var now: int64 := 1_700_000_000;
    var timelock := DeriveAddress(Receiver, Bump);
    var ledger := new Ledger(AsWritten, Opening(1000));

    var locked := ledger.Lock(LockAccounts(timelock, Wallet, WalletsTokens, Receiver, ReceiverTokens),
                              Bump, 50, now, {Wallet});
    assert locked == Pass;
    assert ledger.tokens[WalletsTokens].owner == timelock;

    var unlock := UnlockAccounts(timelock, WalletsTokens, Receiver, ReceiverTokens);
    var early := ledger.Unlock(unlock, now);
    assert early == Fail(HasntUnlockedYet);

    var released := ledger.Unlock(unlock, now + 50);
    assert released == Pass;
    assert ledger.tokens[ReceiverTokens].amount == 1000;
    assert ledger.tokens[WalletsTokens].amount == 0;

    var again := ledger.Unlock(unlock, now + 50);
    assert again == Fail(AccountNotInitialized);
  }

  /** 100 tokens locked at time 1000 for 3600 seconds unlock at 4600 and not a
      second earlier; the release pays the receiver and closes the record. */
  lemma UnlockTimeline()
    ensures var timelock := DeriveAddress(Receiver, Bump);
            var c := Chain(Opening(100), map[]);
            var lock := LockStep(AsWritten, c, LockAccounts(timelock, Wallet, WalletsTokens, Receiver, ReceiverTokens),
                                 Bump, 3600, 1000, {Wallet});
            var unlock := UnlockAccounts(timelock, WalletsTokens, Receiver, ReceiverTokens);
            && lock.Ok?
            && lock.value.timelocks[timelock].unlockTimestamp == 4600
            && UnlockStep(AsWritten, lock.value, unlock, 4599) == Err(HasntUnlockedYet)
            && UnlockStep(AsWritten, lock.value, unlock, 4600).Ok?
            && UnlockStep(AsWritten, lock.value, unlock, 4600).value.tokens[ReceiverTokens].amount == 100
            && timelock !in UnlockStep(AsWritten, lock.value, unlock, 4600).value.timelocks
  {
  }

  /** A duration that carries the unlock time past the largest i64 is refused,
      and no record is created. */
  lemma DurationOverflowRefused()
    ensures var timelock := DeriveAddress(Receiver, Bump);
            var c := Chain(Opening(100), map[]);
            LockStep(AsWritten, c, LockAccounts(timelock, Wallet, WalletsTokens, Receiver, ReceiverTokens),
                     Bump, INT64_MAX as int64, 1000, {Wallet}) == Err(DurationOverflow)
  {
  }

  /** Someone who does not own the tokens cannot lock them, even when signing. */
  lemma StrangerCannotLock()
    ensures var stranger := Key(9);
            var timelock := DeriveAddress(Receiver, Bump);
            var c := Chain(Opening(100), map[]);
            LockStep(AsWritten, c, LockAccounts(timelock, stranger, WalletsTokens, Receiver, ReceiverTokens),
                     Bump, 3600, 1000, {stranger}) == Err(InitializerNotOwner)
  {
  }

  const Stranger: Pubkey := Key(5)
  const StrangersTokens: Pubkey := Key(6)
  const StrangersDecoy: Pubkey := Key(7)
  const StrangersStake: Pubkey := Key(8)

  /** The wallet's 100 tokens, the receiver's empty account, and three empty
      accounts of a stranger's. */
  function Crowd(): Tokens
  {
    map[WalletsTokens := TokenAccount(Wallet, 100), ReceiverTokens := TokenAccount(Receiver, 0),
        StrangersTokens := TokenAccount(Stranger, 0), StrangersDecoy := TokenAccount(Stranger, 0),
        StrangersStake := TokenAccount(Stranger, 0)]
  }

  /** `k` is a token account owned by `owner` holding `amount`. */
  predicate Holds(c: Chain, k: Pubkey, owner: Pubkey, amount: uint64)
  {
    k in c.tokens && c.tokens[k] == TokenAccount(owner, amount)
  }

  /** The record the wallet's lock creates, and the one the stranger's creates. */
  predicate LiveFor(c: Chain, receiverTokens: Pubkey)
  {
    var timelock := DeriveAddress(Receiver, Bump);
    && timelock in c.timelocks
    && c.timelocks[timelock].receiverAccount == Receiver
    && c.timelocks[timelock].receiverTokenAccount == receiverTokens
    && c.timelocks[timelock].unlockTimestamp == 1050
    && c.timelocks[timelock].bump == Bump
  }

  /** The wallet locks its tokens for the receiver for 50 seconds.  When they
      are due, the stranger, who signs only for their own accounts, hands an
      empty account to the timelock address, unlocks through it (paying the
      receiver nothing and closing the record), locks again at the same
      address naming their own token account as the receiver's, and unlocks
      the original custody account into it. */
  function Redirect(): seq<Transaction>
  {
    var timelock := DeriveAddress(Receiver, Bump);
    [ Transaction(LockIx(LockAccounts(timelock, Wallet, WalletsTokens, Receiver, ReceiverTokens), Bump, 50),
                  1000, {Wallet}),
      Transaction(SetOwnerIx(StrangersDecoy, Stranger, timelock), 1050, {Stranger}),
      Transaction(UnlockIx(UnlockAccounts(timelock, StrangersDecoy, Receiver, ReceiverTokens)), 1050, {Stranger}),
      Transaction(LockIx(LockAccounts(timelock, Stranger, StrangersStake, Receiver, StrangersTokens), Bump, 0),
                  1050, {Stranger}),
      Transaction(UnlockIx(UnlockAccounts(timelock, WalletsTokens, Receiver, StrangersTokens)), 1050, {Stranger}) ]
  }

  lemma {:induction false} RunFive(rev: Revision, c: Chain, txs: seq<Transaction>)
    requires |txs| == 5
    ensures Run(rev, c, txs)
            == Apply(rev, Apply(rev, Apply(rev, Apply(rev, Apply(rev, c, txs[0]), txs[1]), txs[2]), txs[3]), txs[4])
  {
    var c1 := Apply(rev, c, txs[0]);
    var c2 := Apply(rev, c1, txs[1]);
    var c3 := Apply(rev, c2, txs[2]);
    var c4 := Apply(rev, c3, txs[3]);
    assert Run(rev, c4, txs[4..]) == Apply(rev, c4, txs[4]) by {
      assert txs[4..][1..] == [];
    }
    assert Run(rev, c3, txs[3..]) == Run(rev, c4, txs[4..]) by { assert txs[3..][1..] == txs[4..]; }
    assert Run(rev, c2, txs[2..]) == Run(rev, c3, txs[3..]) by { assert txs[2..][1..] == txs[3..]; }
    assert Run(rev, c1, txs[1..]) == Run(rev, c2, txs[2..]) by { assert txs[1..][1..] == txs[2..]; }
  }

  lemma RedirectLock(rev: Revision, c: Chain)
    requires c == Chain(Crowd(), map[])
    ensures var next := Apply(rev, c, Redirect()[0]);
            && LiveFor(next, ReceiverTokens)
            && next.timelocks.Keys == {DeriveAddress(Receiver, Bump)}
            && (rev.CustodyBound? ==> next.timelocks[DeriveAddress(Receiver, Bump)].tempTokenAccount == WalletsTokens)
            && Holds(next, WalletsTokens, DeriveAddress(Receiver, Bump), 100)
            && Holds(next, ReceiverTokens, Receiver, 0)
            && Holds(next, StrangersTokens, Stranger, 0)
            && Holds(next, StrangersDecoy, Stranger, 0)
            && Holds(next, StrangersStake, Stranger, 0)
  {
  }

  lemma RedirectDecoy(rev: Revision, c: Chain)
    requires LiveFor(c, ReceiverTokens)
    requires Holds(c, WalletsTokens, DeriveAddress(Receiver, Bump), 100) && Holds(c, ReceiverTokens, Receiver, 0)
    requires Holds(c, StrangersTokens, Stranger, 0) && Holds(c, StrangersDecoy, Stranger, 0)
    requires Holds(c, StrangersStake, Stranger, 0)
    ensures var next := Apply(rev, c, Redirect()[1]);
            && next.timelocks == c.timelocks
            && Holds(next, WalletsTokens, DeriveAddress(Receiver, Bump), 100)
            && Holds(next, ReceiverTokens, Receiver, 0)
            && Holds(next, StrangersTokens, Stranger, 0)
            && Holds(next, StrangersDecoy, DeriveAddress(Receiver, Bump), 0)
            && Holds(next, StrangersStake, Stranger, 0)
  {
  }

  lemma RedirectEmptyUnlock(c: Chain)
    requires LiveFor(c, ReceiverTokens)
    requires Holds(c, WalletsTokens, DeriveAddress(Receiver, Bump), 100) && Holds(c, ReceiverTokens, Receiver, 0)
    requires Holds(c, StrangersTokens, Stranger, 0) && Holds(c, StrangersDecoy, DeriveAddress(Receiver, Bump), 0)
    requires Holds(c, StrangersStake, Stranger, 0)
    requires c.timelocks.Keys == {DeriveAddress(Receiver, Bump)}
    ensures var next := Apply(AsWritten, c, Redirect()[2]);
            && next.timelocks == map[]
            && Holds(next, WalletsTokens, DeriveAddress(Receiver, Bump), 100)
            && Holds(next, ReceiverTokens, Receiver, 0)
            && Holds(next, StrangersTokens, Stranger, 0)
            && Holds(next, StrangersStake, Stranger, 0)
  {
  }

  lemma RedirectRelock(c: Chain)
    requires c.timelocks == map[]
    requires Holds(c, WalletsTokens, DeriveAddress(Receiver, Bump), 100) && Holds(c, ReceiverTokens, Receiver, 0)
    requires Holds(c, StrangersTokens, Stranger, 0) && Holds(c, StrangersStake, Stranger, 0)
    ensures var next := Apply(AsWritten, c, Redirect()[3]);
            && LiveFor(next, StrangersTokens)
            && Holds(next, WalletsTokens, DeriveAddress(Receiver, Bump), 100)
            && Holds(next, ReceiverTokens, Receiver, 0)
            && Holds(next, StrangersTokens, Stranger, 0)
  {
  }

  lemma RedirectTheft(c: Chain)
    requires LiveFor(c, StrangersTokens)
    requires Holds(c, WalletsTokens, DeriveAddress(Receiver, Bump), 100) && Holds(c, ReceiverTokens, Receiver, 0)
    requires Holds(c, StrangersTokens, Stranger, 0)
    ensures var next := Apply(AsWritten, c, Redirect()[4]);
            && Holds(next, StrangersTokens, Stranger, 100)
            && Holds(next, ReceiverTokens, Receiver, 0)
  {
  }

  lemma RedirectSignedByKeys()
    ensures SignedByKeys(Redirect())
  {
    var txs := Redirect();
    forall i | 0 <= i < |txs| ensures KeySigners(txs[i].signers) {
      assert txs[i].signers == {Wallet} || txs[i].signers == {Stranger};
    }
  }

  /** As written, the history above, signed by key holders only, ends with the
      stranger holding the 100 locked tokens and the receiver holding none:
      the second unlock releases the first lock's tokens through a record the
      stranger created. */
  lemma StrangerRedirectsRelease()
    ensures SignedByKeys(Redirect())
    ensures var end := Run(AsWritten, Chain(Crowd(), map[]), Redirect());
            && Holds(end, StrangersTokens, Stranger, 100)
            && Holds(end, ReceiverTokens, Receiver, 0)
  {
    var txs := Redirect();
    var c0 := Chain(Crowd(), map[]);
    RedirectLock(AsWritten, c0);
    var c1 := Apply(AsWritten, c0, txs[0]);
    RedirectDecoy(AsWritten, c1);
    var c2 := Apply(AsWritten, c1, txs[1]);
    RedirectEmptyUnlock(c2);
    var c3 := Apply(AsWritten, c2, txs[2]);
    RedirectRelock(c3);
    var c4 := Apply(AsWritten, c3, txs[3]);
    RedirectTheft(c4);
    RunFive(AsWritten, c0, txs);
    RedirectSignedByKeys();
  }

  /** With the custody account bound to the record, the same history leaves
      the locked tokens in custody and pays the stranger nothing: the unlock
      through the empty account, the second lock and the final unlock all
      fail. */
  lemma CustodyBoundStopsRedirect()
    ensures var end := Run(CustodyBound, Chain(Crowd(), map[]), Redirect());
            && Holds(end, StrangersTokens, Stranger, 0)
            && Holds(end, WalletsTokens, DeriveAddress(Receiver, Bump), 100)
  {
    var txs := Redirect();
    var c0 := Chain(Crowd(), map[]);
    RedirectLock(CustodyBound, c0);
    var c1 := Apply(CustodyBound, c0, txs[0]);
    RedirectDecoy(CustodyBound, c1);
    var c2 := Apply(CustodyBound, c1, txs[1]);
    assert Execute(CustodyBound, c2, txs[2]) == Err(CustodyMismatch);
    assert Execute(CustodyBound, c2, txs[3]) == Err(AccountInUse);
    assert Execute(CustodyBound, c2, txs[4]) == Err(ReceiverMismatch);
    RunFive(CustodyBound, c0, txs);
  }
}
