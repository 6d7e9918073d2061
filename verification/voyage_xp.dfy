/** The Voyage XP token: a soulbound ERC-20 balance ledger whose only way to
    move value is minting by a `MINTER_ROLE` holder. Every call is a pure step
    from the token state to a new state or a revert reason. */
module VoyageXP {
  import opened Types
  import AC = AccessControl

  /** The token's storage: balances (an absent key is a zero balance, as in a
      Solidity mapping) and the access-control role table. */
  datatype Token = Token(balances: map<Address, nat>, roles: AC.Roles)

  /** Why a token call reverted. */
  datatype Error =
    | Access(cause: AC.Error)
    | LengthMismatch      // "Array lengths do not match"
    | TokenIsSoulBound
    | MintToZeroAddress   // "ERC20: mint to the zero address"

  /** The balance of `a` in a balance table; a missing entry reads as zero. */
  function Get(balances: map<Address, nat>, a: Address): nat {
    if a in balances then balances[a] else 0
  }

  /** `balanceOf(a)`. */
  function BalanceOf(t: Token, a: Address): nat {
    Get(t.balances, a)
  }

  /** `hasRole(role, a)`. */
  predicate HasRole(t: Token, role: AC.Role, a: Address) {
    AC.HasRole(t.roles, role, a)
  }

  /** The accounts a list of recipients names. */
  function Recipients(rs: seq<Address>): set<Address> {
    set i | 0 <= i < |rs| :: rs[i]
  }

  /** The constructor, `LineaVoyageXP(minter)`: no balances, and `minter`
      holds both roles. */
  function Deploy(minter: Address): (t: Token)
    ensures forall a :: BalanceOf(t, a) == 0
    ensures forall role, a :: HasRole(t, role, a) <==> a == minter
  {
    var t := Token(map[], {AC.Grant(AC.MinterRole, minter), AC.Grant(AC.DefaultAdminRole, minter)});
    assert forall role :: HasRole(t, role, minter) by {
      forall role ensures HasRole(t, role, minter) {
        if role.MinterRole? {} else {}
      }
    }
    t
  }

  /** How many times `a` occurs in `rs`. */
  function Occurrences(rs: seq<Address>, a: Address): nat {
    if |rs| == 0 then 0
    else (if rs[0] == a then 1 else 0) + Occurrences(rs[1..], a)
  }

  /** The total amount `amounts` assigns to `a`: the sum of `amounts[i]` over
      every position `i` with `rs[i] == a`. */
  function AmountFor(rs: seq<Address>, amounts: seq<nat>, a: Address): nat
    requires |rs| == |amounts|
  {
    if |rs| == 0 then 0
    else (if rs[0] == a then amounts[0] else 0) + AmountFor(rs[1..], amounts[1..], a)
  }

  /** Adds `amount` to the balance of `to`. */
  function Credit(balances: map<Address, nat>, to: Address, amount: nat): (r: map<Address, nat>)
    ensures r.Keys == balances.Keys + {to}
    ensures forall a :: Get(r, a) == Get(balances, a) + (if a == to then amount else 0)
  {
    balances[to := Get(balances, to) + amount]
  }

  /** Credits `amount` once per listed recipient, in order. */
  function CreditEach(balances: map<Address, nat>, rs: seq<Address>, amount: nat): (r: map<Address, nat>)
    ensures r.Keys == balances.Keys + Recipients(rs)
    ensures forall a :: Get(r, a) == Get(balances, a) + amount * Occurrences(rs, a)
    decreases |rs|
  {
    if |rs| == 0 then balances
    else
      var rest := CreditEach(Credit(balances, rs[0], amount), rs[1..], amount);
      assert Recipients(rs) == {rs[0]} + Recipients(rs[1..]) by {
        assert forall i :: 1 <= i < |rs| ==> rs[i] == rs[1..][i - 1];
      }
      ScaledOccurrences(rs, amount);
      rest
  }

  /** Unfolds `amount * Occurrences(rs, a)` by one recipient. */
  lemma ScaledOccurrences(rs: seq<Address>, amount: nat)
    requires |rs| > 0
    ensures forall a :: amount * Occurrences(rs, a) == (if a == rs[0] then amount else 0) + amount * Occurrences(rs[1..], a)
  {
    forall a ensures amount * Occurrences(rs, a) == (if a == rs[0] then amount else 0) + amount * Occurrences(rs[1..], a) {
      var head: nat := if a == rs[0] then 1 else 0;
      assert amount * (head + Occurrences(rs[1..], a)) == amount * head + amount * Occurrences(rs[1..], a);
    }
  }

  /** Credits `amounts[i]` to `rs[i]` for every position, in order. */
  function CreditPairs(balances: map<Address, nat>, rs: seq<Address>, amounts: seq<nat>): (r: map<Address, nat>)
    requires |rs| == |amounts|
    ensures r.Keys == balances.Keys + Recipients(rs)
    ensures forall a :: Get(r, a) == Get(balances, a) + AmountFor(rs, amounts, a)
    decreases |rs|
  {
    if |rs| == 0 then balances
    else
      var rest := CreditPairs(Credit(balances, rs[0], amounts[0]), rs[1..], amounts[1..]);
      assert Recipients(rs) == {rs[0]} + Recipients(rs[1..]) by {
        assert forall i :: 1 <= i < |rs| ==> rs[i] == rs[1..][i - 1];
      }
      rest
  }

  /** `mint(to, amount)` sent by `caller`. The role check runs first; the
      ERC-20 `_mint` it calls then refuses the zero address as recipient. */
  function Mint(t: Token, caller: Address, to: Address, amount: nat): (r: Result<Token, Error>)
    ensures r.Ok? <==> HasRole(t, AC.MinterRole, caller) && to != ZERO_ADDRESS
    ensures !HasRole(t, AC.MinterRole, caller) ==> r == Err(Access(AC.MissingRole(caller, AC.MinterRole)))
    ensures HasRole(t, AC.MinterRole, caller) && to == ZERO_ADDRESS ==> r == Err(MintToZeroAddress)
    ensures r.Ok? ==> r.value.roles == t.roles
    ensures r.Ok? ==> forall a :: BalanceOf(r.value, a) == BalanceOf(t, a) + (if a == to then amount else 0)
  {
    if !HasRole(t, AC.MinterRole, caller) then Err(Access(AC.MissingRole(caller, AC.MinterRole)))
    else if to == ZERO_ADDRESS then Err(MintToZeroAddress)
    else Ok(t.(balances := Credit(t.balances, to, amount)))
  }

  /** `batchMint(recipients, amount)` sent by `caller`: every occurrence of a
      recipient is credited `amount`; one zero address anywhere in the list
      reverts the whole call. */
  function BatchMint(t: Token, caller: Address, recipients: seq<Address>, amount: nat): (r: Result<Token, Error>)
    ensures r.Ok? <==> HasRole(t, AC.MinterRole, caller) && ZERO_ADDRESS !in recipients
    ensures !HasRole(t, AC.MinterRole, caller) ==> r == Err(Access(AC.MissingRole(caller, AC.MinterRole)))
    ensures HasRole(t, AC.MinterRole, caller) && ZERO_ADDRESS in recipients ==> r == Err(MintToZeroAddress)
    ensures r.Ok? ==> r.value.roles == t.roles
    ensures r.Ok? ==> forall a :: BalanceOf(r.value, a) == BalanceOf(t, a) + amount * Occurrences(recipients, a)
  {
    if !HasRole(t, AC.MinterRole, caller) then Err(Access(AC.MissingRole(caller, AC.MinterRole)))
    else if ZERO_ADDRESS in recipients then Err(MintToZeroAddress)
    else Ok(t.(balances := CreditEach(t.balances, recipients, amount)))
  }

  /** `batchMintMultiple(recipients, amounts)` sent by `caller`: position `i`
      credits `amounts[i]` to `recipients[i]`. Which error a non-minter
      sending lists of different lengths gets is left open. */
  function BatchMintMultiple(t: Token, caller: Address, recipients: seq<Address>, amounts: seq<nat>): (r: Result<Token, Error>)
    ensures r.Ok? <==> HasRole(t, AC.MinterRole, caller) && |recipients| == |amounts| && ZERO_ADDRESS !in recipients
    ensures !HasRole(t, AC.MinterRole, caller) && |recipients| == |amounts| ==>
              r == Err(Access(AC.MissingRole(caller, AC.MinterRole)))
    ensures HasRole(t, AC.MinterRole, caller) && |recipients| != |amounts| ==> r == Err(LengthMismatch)
    ensures HasRole(t, AC.MinterRole, caller) && |recipients| == |amounts| && ZERO_ADDRESS in recipients ==>
              r == Err(MintToZeroAddress)
    ensures r.Err? ==> r.error == LengthMismatch || r.error == Access(AC.MissingRole(caller, AC.MinterRole))
                       || r.error == MintToZeroAddress
    ensures r.Ok? ==> r.value.roles == t.roles
    ensures r.Ok? ==> forall a :: BalanceOf(r.value, a) == BalanceOf(t, a) + AmountFor(recipients, amounts, a)
  {
    if !HasRole(t, AC.MinterRole, caller) then Err(Access(AC.MissingRole(caller, AC.MinterRole)))
    else if |recipients| != |amounts| then Err(LengthMismatch)
    else if ZERO_ADDRESS in recipients then Err(MintToZeroAddress)
    else Ok(t.(balances := CreditPairs(t.balances, recipients, amounts)))
  }

  /** `grantRole(role, account)` sent by `caller`. */
  function GrantRole(t: Token, caller: Address, role: AC.Role, account: Address): (r: Result<Token, Error>)
    ensures r.Ok? <==> HasRole(t, AC.DefaultAdminRole, caller)
    ensures r.Err? ==> r.error == Access(AC.MissingRole(caller, AC.DefaultAdminRole))
    ensures r.Ok? ==> r.value.balances == t.balances
    ensures r.Ok? ==> forall rl, a :: HasRole(r.value, rl, a) <==> HasRole(t, rl, a) || (rl == role && a == account)
  {
    match AC.GrantRole(t.roles, caller, role, account)
    case Ok(roles) => Ok(t.(roles := roles))
    case Err(e) => Err(Access(e))
  }

  /** `renounceRole(role, account)` sent by `caller`. */
  function RenounceRole(t: Token, caller: Address, role: AC.Role, account: Address): (r: Result<Token, Error>)
    ensures r.Ok? <==> account == caller
    ensures r.Err? ==> r.error == Access(AC.RenounceForOtherAccount(caller))
    ensures r.Ok? ==> r.value.balances == t.balances
    ensures r.Ok? ==> forall rl, a :: HasRole(r.value, rl, a) <==> HasRole(t, rl, a) && !(rl == role && a == caller)
  {
    match AC.RenounceRole(t.roles, caller, role, account)
    case Ok(roles) => Ok(t.(roles := roles))
    case Err(e) => Err(Access(e))
  }

  /** Every mint-family call for a single recipient credits the same amount:
      a one-element batch is a plain `mint`. */
  lemma SingleBatchIsMint(t: Token, caller: Address, to: Address, amount: nat)
    ensures BatchMint(t, caller, [to], amount) == Mint(t, caller, to, amount)
    ensures BatchMintMultiple(t, caller, [to], [amount]) == Mint(t, caller, to, amount)
  {
    if HasRole(t, AC.MinterRole, caller) && to != ZERO_ADDRESS {
      var b1 := BatchMint(t, caller, [to], amount).value.balances;
      var b2 := BatchMintMultiple(t, caller, [to], [amount]).value.balances;
      var m := Mint(t, caller, to, amount).value.balances;
      assert Recipients([to]) == {to};
      assert forall a :: Get(b1, a) == Get(m, a);
      assert forall a :: Get(b2, a) == Get(m, a);
      SameReadingsSameTable(b1, m);
      SameReadingsSameTable(b2, m);
    }
  }

  /** Two balance tables with the same keys that read the same everywhere are equal. */
  lemma SameReadingsSameTable(m1: map<Address, nat>, m2: map<Address, nat>)
    requires m1.Keys == m2.Keys
    requires forall a :: Get(m1, a) == Get(m2, a)
    ensures m1 == m2
  {
    assert forall a | a in m1 :: m1[a] == Get(m1, a);
  }

  /** `batchMint` is `batchMintMultiple` with the one amount repeated for
      every recipient. */
  lemma {:induction false} BatchMintIsUniformMultiple(t: Token, caller: Address, recipients: seq<Address>, amount: nat)
    ensures BatchMint(t, caller, recipients, amount)
         == BatchMintMultiple(t, caller, recipients, seq(|recipients|, _ => amount))
  {
    var amounts := seq(|recipients|, _ => amount);
    if HasRole(t, AC.MinterRole, caller) && ZERO_ADDRESS !in recipients {
      forall a ensures AmountFor(recipients, amounts, a) == amount * Occurrences(recipients, a) {
        UniformAmountFor(recipients, amounts, amount, a);
      }
      SameReadingsSameTable(BatchMint(t, caller, recipients, amount).value.balances,
                            BatchMintMultiple(t, caller, recipients, amounts).value.balances);
    }
  }

  lemma {:induction false} UniformAmountFor(rs: seq<Address>, amounts: seq<nat>, amount: nat, a: Address)
    requires |rs| == |amounts|
    requires forall i :: 0 <= i < |amounts| ==> amounts[i] == amount
    ensures AmountFor(rs, amounts, a) == amount * Occurrences(rs, a)
    decreases |rs|
  {
    if |rs| > 0 {
      UniformAmountFor(rs[1..], amounts[1..], amount, a);
    }
  }

  /** With pairwise distinct recipients, a minter's `batchMintMultiple`
      succeeds unless a recipient is the zero address, and then credits each
      `recipients[i]` with exactly `amounts[i]`. */
  lemma DistinctRecipientsGetTheirAmount(t: Token, caller: Address, recipients: seq<Address>, amounts: seq<nat>)
    requires HasRole(t, AC.MinterRole, caller) && |recipients| == |amounts|
    requires forall i, j :: 0 <= i < j < |recipients| ==> recipients[i] != recipients[j]
    ensures BatchMintMultiple(t, caller, recipients, amounts).Ok? <==> ZERO_ADDRESS !in recipients
    ensures BatchMintMultiple(t, caller, recipients, amounts).Ok? ==> forall i :: 0 <= i < |recipients| ==>
              BalanceOf(BatchMintMultiple(t, caller, recipients, amounts).value, recipients[i])
              == BalanceOf(t, recipients[i]) + amounts[i]
  {
    forall i | 0 <= i < |recipients|
      ensures AmountFor(recipients, amounts, recipients[i]) == amounts[i]
    {
      DistinctAmountFor(recipients, amounts, i);
    }
  }

  lemma {:induction false} DistinctAmountFor(rs: seq<Address>, amounts: seq<nat>, i: nat)
    requires |rs| == |amounts| && i < |rs|
    requires forall j, k :: 0 <= j < k < |rs| ==> rs[j] != rs[k]
    ensures AmountFor(rs, amounts, rs[i]) == amounts[i]
    decreases |rs|
  {
    if i == 0 {
      AbsentAmountFor(rs[1..], amounts[1..], rs[0]);
    } else {
      assert rs[0] != rs[i];
      DistinctAmountFor(rs[1..], amounts[1..], i - 1);
    }
  }

  lemma {:induction false} AbsentAmountFor(rs: seq<Address>, amounts: seq<nat>, a: Address)
    requires |rs| == |amounts|
    requires forall j :: 0 <= j < |rs| ==> rs[j] != a
    ensures AmountFor(rs, amounts, a) == 0
    decreases |rs|
  {
    if |rs| > 0 {
      AbsentAmountFor(rs[1..], amounts[1..], a);
    }
  }
}
