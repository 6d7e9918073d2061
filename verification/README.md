# Linea contracts: Voyage XP ledger and rollup initializer guard

This project models two on-chain state machines from the Linea contracts
repository, as their Hardhat tests pin them down. Their Solidity sources are
not part of this model, so the tests are the reference.

- **Voyage XP token** (`LineaVoyageXP`). This is a soulbound ERC-20 ledger.
  Balances grow only through three mint calls, and only a `MINTER_ROLE` holder
  may send them: `mint`, `batchMint` (one amount for a list of recipients) and
  `batchMintMultiple` (paired recipient and amount lists). Roles follow
  OpenZeppelin `AccessControl`: `DEFAULT_ADMIN_ROLE` grants roles, and an
  account may renounce its own roles. The constructor gives both roles to
  the `minter` argument. All five ERC-20 transfer and allowance calls revert
  with `TokenIsSoulBound`.
- **Rollup initialization** (`LineaRollup` / `LineaRollupInit` behind a
  proxy). The genesis `initialize(bytes32,uint256,address,address,address[],uint256,uint256,uint256)`
  stores the state root, current block number, verifier, security council,
  operators, rate-limit period and amount, and migration block. The migration
  `initializeV2(uint256,bytes32)` moves the current block number and stores its
  state root. An OpenZeppelin `Initializable` version counter guards both calls.
  The genesis initializer runs only at version 0. `initializeV2` runs only
  below its own version, so it also runs on a fresh proxy. A rejected call
  reverts with "Initializable: contract is already initialized".

Every contract call is a pure function from the contract state to
`Result<State, Error>`. A `Step` function dispatches one transaction. `Execute`
applies EVM revert semantics: an `Err` leaves the state exactly as it was.
`Run` folds a sequence of transactions. Addresses are 160-bit numbers and
state roots are 256-bit words. Both are compared and never decoded.

Files:
- `types.dfy` (`Types`): addresses, `bytes32` words, `Result`.
- `access_control.dfy` (`AccessControl`): the role table, `grantRole`, `renounceRole`.
- `voyage_xp.dfy` (`VoyageXP`): token state, constructor, the three mint calls, role calls, and the lemmas relating the mint calls.
- `voyage_xp_calls.dfy` (`VoyageXPCalls`): the token's public call set, revert semantics, and properties of transaction sequences.
- `initializable.dfy` (`Initializable`): the version guard.
- `rollup_init.dfy` (`RollupInit`): the rollup storage, both initializers, their call set and the run-once properties.

`initializeV2` runs on a fresh proxy (test/LineaRollupInit.ts:64-67), so it
is guarded as a `reinitializer` above version 1. The tests do not show the
exact version, and any value above 1 gives the same observations; the model
uses 2.

The token inherits OpenZeppelin's ERC-20, whose internal `_mint` reverts with
"ERC20: mint to the zero address". The model keeps that revert: a mint call
that names the zero address as a recipient reverts as a whole, after the role
check. The tests never mint to the zero address, so their observations are
unchanged.

## Model

| member | source | states |
|---|---|---|
| VoyageXP.Deploy | test/LineaVoyageXP.ts:28-42 | After construction with `minter`, an account holds `MINTER_ROLE` or `DEFAULT_ADMIN_ROLE` exactly when it is `minter`, so any other deployer holds neither; every balance starts at zero |
| VoyageXP.Mint | test/LineaVoyageXP.ts:48-58 | `mint` succeeds exactly when the sender holds `MINTER_ROLE` and the recipient is not the zero address. A sender without the role gets the missing-role error naming the sender and `MINTER_ROLE`; a minter naming the zero address gets the ERC-20 zero-address revert. On success the recipient's balance rises by exactly the amount, no other balance changes, and the roles are untouched |
| VoyageXP.BatchMint | test/LineaVoyageXP.ts:62-79 | `batchMint` succeeds exactly for a `MINTER_ROLE` sender whose list does not contain the zero address. A non-minter gets the missing-role error; a minter listing the zero address gets the zero-address revert. On success every account gains the amount once per time it is listed, so every listed recipient is credited and unlisted accounts keep their balance |
| VoyageXP.BatchMintMultiple | test/LineaVoyageXP.ts:83-108 | `batchMintMultiple` succeeds exactly for a `MINTER_ROLE` sender with lists of equal length and no zero-address recipient. A non-minter with equal lengths gets the missing-role error. A minter with different lengths gets the length-mismatch error. A minter with equal lengths listing the zero address gets the zero-address revert. On success every account gains the sum of the amounts paired with it |
| VoyageXP.DistinctRecipientsGetTheirAmount | test/LineaVoyageXP.ts:95-102 | With pairwise distinct recipients, a minter's `batchMintMultiple` succeeds exactly when no recipient is the zero address, and then credits each `recipients[i]` with exactly `amounts[i]` |
| VoyageXP.SingleBatchIsMint | test/LineaVoyageXP.ts:68-93 | A one-recipient `batchMint` and a one-pair `batchMintMultiple` have the same result as `mint`, in both success and revert |
| VoyageXP.BatchMintIsUniformMultiple | test/LineaVoyageXP.ts:62-102 | `batchMint(rs, a)` has the same result as `batchMintMultiple(rs, [a, …, a])` for every sender and every recipient list |
| VoyageXP.GrantRole | test/LineaVoyageXP.ts:144-150 | `grantRole` succeeds exactly when the sender holds `DEFAULT_ADMIN_ROLE`, and otherwise reverts naming the sender and that role. On success it adds exactly the one grant and leaves balances unchanged |
| VoyageXP.RenounceRole | test/LineaVoyageXP.ts:144-176 | `renounceRole` succeeds exactly when the account is the sender. On success it removes exactly that account's grant of that role and leaves balances unchanged |
| VoyageXPCalls.TransfersAreSoulBound | test/LineaVoyageXP.ts:111-141 | `approve`, `transfer`, `transferFrom`, `increaseAllowance` and `decreaseAllowance` revert with `TokenIsSoulBound` for every sender and every argument, and leave the state unchanged |
| VoyageXPCalls.NonMinterCannotChangeBalances | test/LineaVoyageXP.ts:48-52 | A transaction from an account without `MINTER_ROLE` leaves every balance unchanged, and any mint call it sends reverts |
| VoyageXPCalls.BalancesNeverDecrease | test/LineaVoyageXP.ts:111-141 | Over any sequence of transactions no account's balance ever decreases, because no transfer path exists |
| VoyageXPCalls.LostAdminIsPermanent | test/LineaVoyageXP.ts:144-150 | Once no account holds `DEFAULT_ADMIN_ROLE`, no sequence of transactions adds any grant to the role table |
| VoyageXPCalls.FrozenWithoutPrivilege | test/LineaVoyageXP.ts:144-176 | Once no account holds either role, no sequence of transactions changes any balance |
| VoyageXPCalls.RenouncedMinterCannotMint | test/LineaVoyageXP.ts:152-176 | After an account renounces `MINTER_ROLE` for itself, its `mint`, `batchMint` and `batchMintMultiple` (lists of equal length) revert with the missing-role error naming it and `MINTER_ROLE` |
| VoyageXPCalls.RenouncedAdminCannotGrant | test/LineaVoyageXP.ts:144-150 | After an account renounces `DEFAULT_ADMIN_ROLE` for itself, its `grantRole` reverts with the missing-role error naming it and `DEFAULT_ADMIN_ROLE` |
| VoyageXPCalls.MintScenario | test/LineaVoyageXP.ts:48-58 | For a non-zero deployer distinct from the minter, on a fresh token the minter's `mint(deployer, 1000)` leaves the deployer with 1000. The deployer's own `mint` reverts naming the deployer and leaves the token as deployed |
| VoyageXPCalls.BatchMintScenario | test/LineaVoyageXP.ts:74-108 | For distinct non-zero minter and deployer, on a fresh token `batchMint([minter, deployer], 1000)` gives each 1000, and `batchMintMultiple([minter, deployer], [1000, 2000])` gives 1000 and 2000. With two recipients and one amount it reverts with the length error and leaves the token as deployed |
| Initializable.Enter | test/LineaRollupInit.ts:78-89 | A guard for version `n` lets a call through exactly when the stored version is below `n`, and then sets it to `n`. Otherwise it reverts with "already initialized" |
| RollupInit.Initialize | test/LineaRollupInit.ts:28-44 | The genesis initializer succeeds exactly on an uninitialized instance and otherwise reverts with "already initialized". On success it records the given block number as current, the given root at that block and the given verifier, council, operators, period, limit and migration block, and it leaves the roots of other blocks unchanged |
| RollupInit.InitializeV2 | test/LineaRollupInit.ts:62-70 | `initializeV2` succeeds exactly below its guarded version, including on a fresh proxy, and otherwise reverts. On success the current block number is the argument and the argument root is stored at it. Other blocks' roots and all configuration are unchanged |
| RollupInit.StepGuard | test/LineaRollupInit.ts:78-89 | Either initializer succeeds exactly when the stored version is below its target. A success records the call's block number as current. A revert is "already initialized" and changes nothing |
| RollupInit.VersionNeverDecreases | test/LineaRollupInit.ts:78-89 | Over any sequence of initializer calls the stored version never decreases, so an instance never returns to uninitialized |
| RollupInit.InitializerRunsOnce | test/LineaRollupInit.ts:78-89 | After an initializer succeeds, it and every initializer guarded for a version no higher revert with "already initialized" after any later calls. The reverted call leaves the instance unchanged |
| RollupInit.GenesisConfigPersists | test/LineaRollupInit.ts:72 | Once any initializer has run, no later initializer call changes the verifier, council, operators, period, limit or migration block |
| RollupInit.ReinitialisationScenario | test/LineaRollupInit.ts:61-89 | The genesis instance reports the block number and period it was given. A fresh proxy initialized with `initializeV2(12121, root)` reports 12121 and stores `root` there. The two block numbers differ whenever the genesis block is not 12121. A second `initializeV2` on that instance reverts and changes nothing |

## Left out

- The deployment script deploy/07_deploy_L2MessageServiceV1Deployed.ts, because it is file-system and network plumbing around collaborators that are not part of this model. It copies the validation cache around the deployment, and it restores the cache only on its success path.
- The skipped gas-limit tests (test/LineaVoyageXP.ts:179-200), because they concern gas, not behaviour.
- Test fixtures, prover test data and the Plonk verifier deployment. The verifier address and the state roots are opaque values.
- The assertion at test/LineaRollupInit.ts:73-75, because it compares two unresolved promises and so states nothing.
- The exact revert strings, because the address and role hash formatting is presentation. Reverts are the `Error` datatypes (`MissingRole(account, role)`, `LengthMismatch`, `TokenIsSoulBound`, `MintToZeroAddress`, `AlreadyInitialized`).
- uint256 overflow of balances, amounts and block numbers, because the tests assert nothing about overflow. These values are unbounded naturals.
- VoyageXP.BatchMintMultiple: the error a non-minter gets for lists of different lengths is deliberately left open. Which check runs first is not observable in the tests.
- The rollup's entry points other than its two initializers: the admin setters for the verifier and the rate limit, the role grants and revocations for the council and operators, and block finalization. No test exercises them, so `RollupInit.GenesisConfigPersists` covers only later initializer calls.
- `revokeRole`, `totalSupply`, `allowance` and the ERC-20 metadata getters, because the tests never call them. Allowances could never become non-zero anyway, since every call that sets one reverts.
- The `_initializing` flag of `Initializable` and the exception that lets `initializer` run again during construction. No test nests initializer calls.
- What the genesis initializer does beyond storing its arguments: role grants to the council and operators, the rate limiter's period end (which reads the block clock), and any argument validation. These are not visible in the tests.
