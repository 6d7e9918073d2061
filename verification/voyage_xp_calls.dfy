/** The external interface of the Voyage XP token: every public call a
    transaction can make, the revert semantics of a transaction, and the
    properties of whole sequences of transactions. */
module VoyageXPCalls {
  import opened Types
  import AC = AccessControl
  import XP = VoyageXP

  /** A public function of the token with its arguments. The five ERC-20
      movement and allowance calls are listed because they exist and revert. */
  datatype Call =
    | Mint(to: Address, amount: nat)
    | BatchMint(recipients: seq<Address>, amount: nat)
    | BatchMintMultiple(recipients: seq<Address>, amounts: seq<nat>)
    | GrantRole(role: AC.Role, account: Address)
    | RenounceRole(role: AC.Role, account: Address)
    | Approve(spender: Address, amount: nat)
    | Transfer(to: Address, amount: nat)
    | TransferFrom(from: Address, to: Address, amount: nat)
    | IncreaseAllowance(spender: Address, addedValue: nat)
    | DecreaseAllowance(spender: Address, subtractedValue: nat)
  {
    predicate IsMintFamily() {
      Mint? || BatchMint? || BatchMintMultiple?
    }

    predicate IsTransferFamily() {
      Approve? || Transfer? || TransferFrom? || IncreaseAllowance? || DecreaseAllowance?
    }
  }

  /** A transaction: `call` sent by `sender`. */
  datatype Tx = Tx(sender: Address, call: Call)

  /** The effect of one transaction, or the reason it reverts. */
  function Step(t: XP.Token, tx: Tx): Result<XP.Token, XP.Error> {
    var s := tx.sender;
    match tx.call
    case Mint(to, amount) => XP.Mint(t, s, to, amount)
    case BatchMint(rs, amount) => XP.BatchMint(t, s, rs, amount)
    case BatchMintMultiple(rs, amounts) => XP.BatchMintMultiple(t, s, rs, amounts)
    case GrantRole(role, account) => XP.GrantRole(t, s, role, account)
    case RenounceRole(role, account) => XP.RenounceRole(t, s, role, account)
    case Approve(_, _) => Err(XP.TokenIsSoulBound)
    case Transfer(_, _) => Err(XP.TokenIsSoulBound)
    case TransferFrom(_, _, _) => Err(XP.TokenIsSoulBound)
    case IncreaseAllowance(_, _) => Err(XP.TokenIsSoulBound)
    case DecreaseAllowance(_, _) => Err(XP.TokenIsSoulBound)
  }

  /** The token state after a transaction is mined: a reverted transaction
      leaves the state as it was. */
  function Execute(t: XP.Token, tx: Tx): XP.Token {
    match Step(t, tx)
    case Ok(t') => t'
    case Err(_) => t
  }

  /** The token state after a sequence of transactions, in order. */
  function Run(t: XP.Token, txs: seq<Tx>): XP.Token
    decreases |txs|
  {
    if |txs| == 0 then t else Run(Execute(t, txs[0]), txs[1..])
  }

  /** Every transfer or allowance call reverts with `TokenIsSoulBound`,
      whoever sends it and whatever its arguments, and changes nothing. */
  lemma TransfersAreSoulBound(t: XP.Token, tx: Tx)
    requires tx.call.IsTransferFamily()
    ensures Step(t, tx) == Err(XP.TokenIsSoulBound)
    ensures Execute(t, tx) == t
  {
  }

  /** A sender without `MINTER_ROLE` cannot change any balance. */
  lemma NonMinterCannotChangeBalances(t: XP.Token, tx: Tx)
    requires !XP.HasRole(t, AC.MinterRole, tx.sender)
    ensures Execute(t, tx).balances == t.balances
    ensures tx.call.IsMintFamily() ==> Step(t, tx).Err?
  {
  }

  /** No balance ever decreases: there is no transfer or burn path. */
  lemma {:induction false} BalancesNeverDecrease(t: XP.Token, txs: seq<Tx>)
    ensures forall a :: XP.BalanceOf(Run(t, txs), a) >= XP.BalanceOf(t, a)
    decreases |txs|
  {
    if |txs| > 0 {
      var t1 := Execute(t, txs[0]);
      assert forall a :: XP.BalanceOf(t1, a) >= XP.BalanceOf(t, a);
      BalancesNeverDecrease(t1, txs[1..]);
    }
  }

  /** Once no account holds `DEFAULT_ADMIN_ROLE`, no transaction sequence
      can grant a role again: the role table only shrinks. */
  lemma {:induction false} LostAdminIsPermanent(t: XP.Token, txs: seq<Tx>)
    requires forall a :: !XP.HasRole(t, AC.DefaultAdminRole, a)
    ensures Run(t, txs).roles <= t.roles
    decreases |txs|
  {
    if |txs| > 0 {
      var t1 := Execute(t, txs[0]);
      assert t1.roles <= t.roles;
      forall a ensures !XP.HasRole(t1, AC.DefaultAdminRole, a) {
        assert !XP.HasRole(t, AC.DefaultAdminRole, a);
      }
      LostAdminIsPermanent(t1, txs[1..]);
    }
  }

  /** Once no account holds either role, every balance is frozen forever. */
  lemma {:induction false} FrozenWithoutPrivilege(t: XP.Token, txs: seq<Tx>)
    requires forall a :: !XP.HasRole(t, AC.DefaultAdminRole, a)
    requires forall a :: !XP.HasRole(t, AC.MinterRole, a)
    ensures Run(t, txs).balances == t.balances
    decreases |txs|
  {
    if |txs| > 0 {
      var t1 := Execute(t, txs[0]);
      NonMinterCannotChangeBalances(t, txs[0]);
      assert t1.roles <= t.roles;
      FrozenWithoutPrivilege(t1, txs[1..]);
    }
  }

  /** After an account renounces `MINTER_ROLE` for itself, each of its
      mint-family calls reverts naming it and the role, and changes nothing. */
  lemma RenouncedMinterCannotMint(t: XP.Token, m: Address, call: Call)
    requires call.IsMintFamily()
    requires !(call.BatchMintMultiple? && |call.recipients| != |call.amounts|)
    ensures Step(Execute(t, Tx(m, RenounceRole(AC.MinterRole, m))), Tx(m, call))
         == Err(XP.Access(AC.MissingRole(m, AC.MinterRole)))
  {
  }

  /** After an account renounces `DEFAULT_ADMIN_ROLE` for itself, its
      `grantRole` calls revert naming it and the admin role. */
  lemma RenouncedAdminCannotGrant(t: XP.Token, m: Address, role: AC.Role, account: Address)
    ensures Step(Execute(t, Tx(m, RenounceRole(AC.DefaultAdminRole, m))), Tx(m, GrantRole(role, account)))
         == Err(XP.Access(AC.MissingRole(m, AC.DefaultAdminRole)))
  {
  }

  /** The single-mint tests: on a fresh token the minter's `mint(deployer,
      1000)` gives the deployer 1000, and the deployer's own `mint` reverts
      naming the deployer and leaves every balance at zero. */
  lemma MintScenario(minter: Address, deployer: Address)
    requires minter != deployer && deployer != ZERO_ADDRESS
    ensures XP.BalanceOf(Execute(XP.Deploy(minter), Tx(minter, Mint(deployer, 1000))), deployer) == 1000
    ensures Step(XP.Deploy(minter), Tx(deployer, Mint(deployer, 1000)))
         == Err(XP.Access(AC.MissingRole(deployer, AC.MinterRole)))
    ensures Execute(XP.Deploy(minter), Tx(deployer, Mint(deployer, 1000))) == XP.Deploy(minter)
  {
  }

  /** The batch-mint tests: `batchMint([minter, deployer], 1000)` gives each
      1000; `batchMintMultiple([minter, deployer], [1000, 2000])` gives 1000
      and 2000; with two recipients and one amount it reverts with the length
      error and changes nothing. */
  lemma BatchMintScenario(minter: Address, deployer: Address)
    requires minter != deployer && minter != ZERO_ADDRESS && deployer != ZERO_ADDRESS
    ensures var t := Execute(XP.Deploy(minter), Tx(minter, BatchMint([minter, deployer], 1000)));
            XP.BalanceOf(t, minter) == 1000 && XP.BalanceOf(t, deployer) == 1000
    ensures var t := Execute(XP.Deploy(minter), Tx(minter, BatchMintMultiple([minter, deployer], [1000, 2000])));
            XP.BalanceOf(t, minter) == 1000 && XP.BalanceOf(t, deployer) == 2000
    ensures Step(XP.Deploy(minter), Tx(minter, BatchMintMultiple([minter, deployer], [1000]))) == Err(XP.LengthMismatch)
    ensures Execute(XP.Deploy(minter), Tx(minter, BatchMintMultiple([minter, deployer], [1000]))) == XP.Deploy(minter)
  {
    var rs := [minter, deployer];
    var amounts: seq<nat> := [1000, 2000];
    assert rs[1..] == [deployer] && [deployer][1..] == [];
    assert amounts[1..] == [2000] && [2000][1..] == [];
    assert XP.Occurrences([deployer], minter) == 0 && XP.Occurrences([deployer], deployer) == 1;
    assert XP.Occurrences(rs, minter) == 1 && XP.Occurrences(rs, deployer) == 1;
    assert XP.AmountFor([deployer], [2000], minter) == 0 && XP.AmountFor([deployer], [2000], deployer) == 2000;
    assert XP.AmountFor(rs, amounts, minter) == 1000 && XP.AmountFor(rs, amounts, deployer) == 2000;
  }
}
