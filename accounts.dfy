/** Account addresses, program-derived addresses, and the errors an instruction
    can end with.  A failed instruction reverts every change it made, so an
    error is all the caller observes. */
module Accounts {
  import opened BoundedInts

  /** A 32-byte public key.  `Key` is an address on the curve, one whose secret
      key some party may hold and sign with.  `Derived` is an address the
      timelock program derives from a seed key and a bump; it lies off the
      curve, so no secret key exists for it and only the program itself can
      sign for it (through the same seed and bump). */
  datatype Pubkey = Key(id: nat) | Derived(seed: Pubkey, bump: uint8)

  /** The timelock account's address: derived from the receiver's key alone
      (plus the bump), under the program's own id.  The hash and the search for
      an off-curve bump are not modelled; the derivation is injective and never
      yields an on-curve key. */
  function DeriveAddress(receiver: Pubkey, bump: uint8): (addr: Pubkey)
  {
    Derived(receiver, bump)
  }

  /** The bump Anchor's `init` accepts for a receiver: `find_program_address`
      searches the bumps from 255 downwards and returns the first that yields an
      off-curve address.  Since every derivation here is off the curve, that
      search stops at once. */
  function CanonicalBump(receiver: Pubkey): uint8
  {
    255
  }

  /** `Pubkey::default()`, the all-zero key a fresh account's fields start as. */
  const DefaultKey: Pubkey := Key(0)

  /** Two derivations agree only when their receiver and bump agree, and a
      derived address is never one that a key holder controls. */
  lemma DeriveAddressInjective(r1: Pubkey, b1: uint8, r2: Pubkey, b2: uint8)
    ensures DeriveAddress(r1, b1) == DeriveAddress(r2, b2) <==> r1 == r2 && b1 == b2
    ensures !DeriveAddress(r1, b1).Key?
  {
  }

  /** Transaction signatures come from secret-key holders only. */
  predicate KeySigners(signers: set<Pubkey>)
  {
    forall k <- signers :: k.Key?
  }

  datatype Error =
    // TimelockError (the program's own errors)
    | DurationOverflow
    | HasntUnlockedYet
    // account validation done before the instruction body runs
    | AccountNotInitialized     // an account that should hold a record or a token account does not
    | AccountInUse              // `init` on an address that already holds a record
    | ConstraintSeeds           // timelock address is not the one derived from receiver and bump
    | MissingSigner             // a required signature is absent
    | InitializerNotOwner       // `tokens_to_lock.owner == initializer` fails
    | ReceiverMismatch          // the receiver or its token account differs from the record
    | CustodyMismatch           // (corrected revision) the custody account differs from the record
    // token program errors
    | OwnerMismatch             // the authority is not the token account's owner
    | InsufficientFunds         // a transfer larger than the source balance
    | TokenOverflow             // the destination balance would exceed u64
}
