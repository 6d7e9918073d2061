/** Role-based access control as the Voyage XP token inherits it from
    OpenZeppelin's `AccessControl`: a set of (role, account) grants, where
    every role is administered by `DEFAULT_ADMIN_ROLE`. */
module AccessControl {
  import opened Types

  /** The two roles the token uses; on chain each is a `bytes32` identifier. */
  datatype Role = DefaultAdminRole | MinterRole

  /** One entry of the role table: `account` holds `role`. */
  datatype Grant = Grant(role: Role, account: Address)

  type Roles = set<Grant>

  /** Why a role-administration call reverted. `MissingRole(a, r)` is the
      "AccessControl: account a is missing role r" revert. */
  datatype Error =
    | MissingRole(account: Address, role: Role)
    | RenounceForOtherAccount(account: Address)

  predicate HasRole(roles: Roles, role: Role, account: Address) {
    Grant(role, account) in roles
  }

  /** The role whose holders may grant `role`: the admin role of every role. */
  function AdminOf(role: Role): Role {
    DefaultAdminRole
  }

  /** `grantRole(role, account)` sent by `caller`. */
  function GrantRole(roles: Roles, caller: Address, role: Role, account: Address): (r: Result<Roles, Error>)
    ensures r.Ok? <==> HasRole(roles, DefaultAdminRole, caller)
    ensures r.Err? ==> r.error == MissingRole(caller, DefaultAdminRole)
    ensures r.Ok? ==> forall rl, a :: HasRole(r.value, rl, a) <==> HasRole(roles, rl, a) || (rl == role && a == account)
  {
    var admin := AdminOf(role);
    if !HasRole(roles, admin, caller) then Err(MissingRole(caller, admin))
    else Ok(roles + {Grant(role, account)})
  }

  /** `renounceRole(role, account)` sent by `caller`: an account may only drop
      its own grant; dropping a role it does not hold succeeds and changes nothing. */
  function RenounceRole(roles: Roles, caller: Address, role: Role, account: Address): (r: Result<Roles, Error>)
    ensures r.Ok? <==> account == caller
    ensures r.Err? ==> r.error == RenounceForOtherAccount(caller)
    ensures r.Ok? ==> forall rl, a :: HasRole(r.value, rl, a) <==> HasRole(roles, rl, a) && !(rl == role && a == caller)
  {
    if account != caller then Err(RenounceForOtherAccount(caller))
    else Ok(roles - {Grant(role, account)})
  }
}
