/** The initialization of the Linea rollup contract behind an upgradeable
    proxy: the genesis initializer `initialize(...)`, the migration
    initializer `initializeV2(uint256,bytes32)`, the getters the tests read,
    and the guarantee that neither initializer runs twice. */
module RollupInit {
  import opened Types
  import I = Initializable

  /** The storage of one proxy instance that the initializers write. */
  datatype Rollup = Rollup(
    initialized: I.Version,
    currentL2BlockNumber: nat,
    stateRootHashes: map<nat, Bytes32>,
    verifier: Address,
    securityCouncil: Address,
    operators: seq<Address>,
    periodInSeconds: nat,
    limitInWei: nat,
    migrationBlock: nat)

  /** The eight arguments of
      `initialize(bytes32,uint256,address,address,address[],uint256,uint256,uint256)`. */
  datatype GenesisArgs = GenesisArgs(
    initialStateRootHash: Bytes32,
    initialL2BlockNumber: nat,
    defaultVerifier: Address,
    securityCouncil: Address,
    operators: seq<Address>,
    rateLimitPeriodInSeconds: nat,
    rateLimitAmountInWei: nat,
    genesisMigrationBlock: nat)

  /** The version `initializeV2` is guarded for: a `reinitializer` above the
      genesis initializer's version, so it also runs on a fresh proxy. */
  const V2_VERSION: I.Version := 2

  /** A freshly deployed proxy: every storage slot zero. */
  function Fresh(): Rollup {
    Rollup(0, 0, map[], 0, 0, [], 0, 0, 0)
  }

  predicate Initialized(s: Rollup) {
    s.initialized > 0
  }

  /** `stateRootHashes(n)`; an unset entry reads as zero. */
  function StateRootAt(s: Rollup, n: nat): Bytes32 {
    if n in s.stateRootHashes then s.stateRootHashes[n] else 0
  }

  /** The configuration only the genesis initializer writes. */
  predicate SameConfig(s: Rollup, s': Rollup) {
    && s'.verifier == s.verifier
    && s'.securityCouncil == s.securityCouncil
    && s'.operators == s.operators
    && s'.periodInSeconds == s.periodInSeconds
    && s'.limitInWei == s.limitInWei
    && s'.migrationBlock == s.migrationBlock
  }

  /** The genesis initializer. */
  function Initialize(s: Rollup, args: GenesisArgs): (r: Result<Rollup, I.Error>)
    ensures r.Ok? <==> !Initialized(s)
    ensures r.Err? ==> r.error == I.AlreadyInitialized
    ensures r.Ok? ==> Initialized(r.value) && r.value.initialized == I.INITIALIZER_VERSION
    ensures r.Ok? ==> r.value.currentL2BlockNumber == args.initialL2BlockNumber
    ensures r.Ok? ==> StateRootAt(r.value, args.initialL2BlockNumber) == args.initialStateRootHash
    ensures r.Ok? ==> forall n :: n != args.initialL2BlockNumber ==> StateRootAt(r.value, n) == StateRootAt(s, n)
    ensures r.Ok? ==> r.value.periodInSeconds == args.rateLimitPeriodInSeconds
    ensures r.Ok? ==> r.value.limitInWei == args.rateLimitAmountInWei
    ensures r.Ok? ==> r.value.verifier == args.defaultVerifier && r.value.securityCouncil == args.securityCouncil
    ensures r.Ok? ==> r.value.operators == args.operators && r.value.migrationBlock == args.genesisMigrationBlock
  {
    match I.Enter(s.initialized, I.INITIALIZER_VERSION)
    case Err(e) => Err(e)
    case Ok(v) =>
      Ok(Rollup(
        v,
        args.initialL2BlockNumber,
        s.stateRootHashes[args.initialL2BlockNumber := args.initialStateRootHash],
        args.defaultVerifier,
        args.securityCouncil,
        args.operators,
        args.rateLimitPeriodInSeconds,
        args.rateLimitAmountInWei,
        args.genesisMigrationBlock))
  }

  /** The migration initializer: it moves the current block pointer and its
      state root, and touches no configuration. */
  function InitializeV2(s: Rollup, blockNumber: nat, stateRoot: Bytes32): (r: Result<Rollup, I.Error>)
    ensures r.Ok? <==> s.initialized < V2_VERSION
    ensures r.Err? ==> r.error == I.AlreadyInitialized
    ensures r.Ok? ==> Initialized(r.value) && r.value.initialized == V2_VERSION
    ensures r.Ok? ==> r.value.currentL2BlockNumber == blockNumber
    ensures r.Ok? ==> StateRootAt(r.value, blockNumber) == stateRoot
    ensures r.Ok? ==> forall n :: n != blockNumber ==> StateRootAt(r.value, n) == StateRootAt(s, n)
    ensures r.Ok? ==> SameConfig(s, r.value)
  {
    match I.Enter(s.initialized, V2_VERSION)
    case Err(e) => Err(e)
    case Ok(v) =>
      Ok(s.(initialized := v,
            currentL2BlockNumber := blockNumber,
            stateRootHashes := s.stateRootHashes[blockNumber := stateRoot]))
  }

  /** A call to one of the two initializers: `Genesis` is `initialize(...)`,
      `Migration` is `initializeV2(...)`. */
  datatype Call =
    | Genesis(args: GenesisArgs)
    | Migration(blockNumber: nat, stateRoot: Bytes32)
  {
    /** The version the call's guard moves to. */
    function Target(): I.Version {
      match this
      case Genesis(_) => I.INITIALIZER_VERSION
      case Migration(_, _) => V2_VERSION
    }

    /** The block number the call records as current. */
    function BlockNumber(): nat {
      match this
      case Genesis(args) => args.initialL2BlockNumber
      case Migration(n, _) => n
    }
  }

  function Step(s: Rollup, c: Call): Result<Rollup, I.Error> {
    match c
    case Genesis(args) => Initialize(s, args)
    case Migration(n, root) => InitializeV2(s, n, root)
  }

  /** The instance after a transaction: a reverted call leaves it as it was. */
  function Execute(s: Rollup, c: Call): Rollup {
    match Step(s, c)
    case Ok(s') => s'
    case Err(_) => s
  }

  function Run(s: Rollup, calls: seq<Call>): Rollup
    decreases |calls|
  {
    if |calls| == 0 then s else Run(Execute(s, calls[0]), calls[1..])
  }

  /** An initializer succeeds exactly when the instance's version is below the
      one it is guarded for; a successful one records the block number it was
      given and leaves the version at its target. */
  lemma StepGuard(s: Rollup, c: Call)
    ensures Step(s, c).Ok? <==> s.initialized < c.Target()
    ensures Step(s, c).Ok? ==> Step(s, c).value.initialized == c.Target()
    ensures Step(s, c).Ok? ==> Step(s, c).value.currentL2BlockNumber == c.BlockNumber()
    ensures Step(s, c).Err? ==> Step(s, c).error == I.AlreadyInitialized && Execute(s, c) == s
  {
  }

  /** The version never goes down: there is no way back to uninitialized. */
  lemma {:induction false} VersionNeverDecreases(s: Rollup, calls: seq<Call>)
    ensures Run(s, calls).initialized >= s.initialized
    decreases |calls|
  {
    if |calls| > 0 {
      StepGuard(s, calls[0]);
      VersionNeverDecreases(Execute(s, calls[0]), calls[1..]);
    }
  }

  /** Once an initializer has run, it and every initializer guarded for a
      version no higher revert for ever after, whatever runs in between, and
      the reverted call changes nothing. */
  lemma InitializerRunsOnce(s: Rollup, c: Call, between: seq<Call>, again: Call)
    requires Step(s, c).Ok?
    requires again.Target() <= c.Target()
    ensures Step(Run(Execute(s, c), between), again) == Err(I.AlreadyInitialized)
    ensures Execute(Run(Execute(s, c), between), again) == Run(Execute(s, c), between)
  {
    StepGuard(s, c);
    VersionNeverDecreases(Execute(s, c), between);
    StepGuard(Run(Execute(s, c), between), again);
  }

  /** Once any initializer has run, no later initializer call changes the
      configuration: only the genesis initializer writes it, and it can no
      longer run. */
  lemma {:induction false} GenesisConfigPersists(s: Rollup, calls: seq<Call>)
    requires Initialized(s)
    ensures SameConfig(s, Run(s, calls))
    decreases |calls|
  {
    if |calls| > 0 {
      var s1 := Execute(s, calls[0]);
      assert SameConfig(s, s1) && Initialized(s1);
      GenesisConfigPersists(s1, calls[1..]);
    }
  }

  /** The block-number claims of the re-initialisation tests: the genesis
      instance reports the block and period it was given; a fresh proxy
      initialized by `initializeV2(12121, root)` reports 12121, so the two
      differ whenever the genesis block is not 12121; and a second
      `initializeV2` on that instance reverts and leaves it unchanged. */
  lemma ReinitialisationScenario(args: GenesisArgs, root: Bytes32, again: nat, againRoot: Bytes32)
    ensures var v1 := Execute(Fresh(), Genesis(args));
            v1.currentL2BlockNumber == args.initialL2BlockNumber
            && v1.periodInSeconds == args.rateLimitPeriodInSeconds
    ensures var v2 := Execute(Fresh(), Migration(12121, root));
            v2.currentL2BlockNumber == 12121 && StateRootAt(v2, 12121) == root
    ensures args.initialL2BlockNumber != 12121 ==>
              Execute(Fresh(), Migration(12121, root)).currentL2BlockNumber
              != Execute(Fresh(), Genesis(args)).currentL2BlockNumber
    ensures var v2 := Execute(Fresh(), Migration(12121, root));
            Step(v2, Migration(again, againRoot)) == Err(I.AlreadyInitialized)
            && Execute(v2, Migration(again, againRoot)) == v2
  {
  }
}
