/** The one-shot initializer guard that upgradeable contracts inherit from
    OpenZeppelin's `Initializable`: a `uint8` version that records the last
    initializer that ran. `initializer` runs only at version 0 and sets it to
    1; `reinitializer(n)` runs only below `n` and sets it to `n`. */
module Initializable {
  import opened Types

  /** The stored `_initialized` counter, a `uint8`. */
  newtype Version = x: int | 0 <= x < 256

  /** The version `initializer` moves to. */
  const INITIALIZER_VERSION: Version := 1

  /** "Initializable: contract is already initialized". */
  datatype Error = AlreadyInitialized

  /** Entering an initializer guarded for version `target` from `current`:
      the new version, or the revert. */
  function Enter(current: Version, target: Version): (r: Result<Version, Error>)
    requires target > 0
    ensures r.Ok? <==> current < target
    ensures r.Ok? ==> r.value == target
    ensures r.Err? ==> r.error == AlreadyInitialized
  {
    if current < target then Ok(target) else Err(AlreadyInitialized)
  }
}
