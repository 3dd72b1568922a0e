/**
 * The identity store the application delegates to (users, roles, role
 * memberships), seen only through the operations the application calls.
 * Users are keyed by email: the store is configured with unique emails
 * (Program.cs:37), so looking a user up by email is a map lookup.
 */
module Identity {
  import opened Wrappers

  type Email = string
  type RoleName = string

  /** The concrete user class: the base account, a trainee or an instructor. */
  datatype UserKind = BaseUser | TraineeUser(grade: int, departmentId: int) | InstructorUser(salary: int)

  /** A stored user; `address` and `phoneNumber` are None when never set. */
  datatype UserRec = UserRec(
    userName: string,
    email: Email,
    name: string,
    address: Option<string>,
    phoneNumber: Option<string>,
    emailConfirmed: bool,
    kind: UserKind)

  /** A snapshot of the whole store. */
  datatype StoreState = StoreState(
    roles: set<RoleName>,
    users: map<Email, UserRec>,
    memberships: set<(Email, RoleName)>)

  /**
   * The store invariant: each user is filed under its own email (one user per
   * email), its user name is its email (the only way this application creates
   * users), and each membership joins a stored user to a stored role.
   */
  predicate ValidState(s: StoreState)
  {
    && (forall e :: e in s.users ==> s.users[e].email == e && s.users[e].userName == e)
    && (forall m :: m in s.memberships ==> m.0 in s.users && m.1 in s.roles)
  }

  /** Errors the store reports when it refuses to create a user. */
  datatype IdentityError =
    | PasswordRejected(description: string)
    | DuplicateUserName(userName: string)
    | DuplicateEmail(email: string)

  /** The text the application shows for an error. */
  function Describe(e: IdentityError): string
  {
    match e
    case PasswordRejected(d) => d
    case DuplicateUserName(n) => "Username '" + n + "' is already taken."
    case DuplicateEmail(m) => "Email '" + m + "' is already taken."
  }

  predicate UserNameTaken(s: StoreState, userName: string)
  {
    exists e :: e in s.users && s.users[e].userName == userName
  }

  /**
   * The errors of `CreateAsync(u, password)`. The password policy runs first
   * and its verdict (`passwordErrors`) is an input of the model; only a
   * password it accepts goes on to the user checks, which refuse a taken user
   * name and, with unique emails required, a taken email.
   */
  function CreateErrors(s: StoreState, u: UserRec, passwordErrors: seq<string>): (errs: seq<IdentityError>)
    ensures errs == [] <==> passwordErrors == [] && !UserNameTaken(s, u.userName) && u.email !in s.users
    ensures passwordErrors != [] ==> |errs| == |passwordErrors| && forall i :: 0 <= i < |errs| ==> errs[i] == PasswordRejected(passwordErrors[i])
    ensures passwordErrors == [] && u.email in s.users ==> DuplicateEmail(u.email) in errs
  {
    if passwordErrors != [] then
      seq(|passwordErrors|, i requires 0 <= i < |passwordErrors| => PasswordRejected(passwordErrors[i]))
    else
      (if UserNameTaken(s, u.userName) then [DuplicateUserName(u.userName)] else [])
      + (if u.email in s.users then [DuplicateEmail(u.email)] else [])
  }

  /** The store after `CreateAsync`: the user is added exactly when there is no error. */
  function AfterCreate(s: StoreState, u: UserRec, passwordErrors: seq<string>): StoreState
  {
    if CreateErrors(s, u, passwordErrors) == [] then s.(users := s.users[u.email := u]) else s
  }

  /**
   * With unique emails enforced, a successful creation never replaces a user:
   * every user already stored is still there, unchanged, and exactly one new
   * email appears.
   */
  lemma CreateNeverOverwrites(s: StoreState, u: UserRec, passwordErrors: seq<string>)
    ensures var t := AfterCreate(s, u, passwordErrors);
      && (forall e :: e in s.users ==> e in t.users && t.users[e] == s.users[e])
      && (t.users.Keys == s.users.Keys || (u.email !in s.users && t.users.Keys == s.users.Keys + {u.email}))
      && t.roles == s.roles && t.memberships == s.memberships
  {
  }

  /** Creating a user filed under its own email, named by it, keeps the invariant. */
  lemma CreatePreservesValid(s: StoreState, u: UserRec, passwordErrors: seq<string>)
    requires ValidState(s) && u.userName == u.email
    ensures ValidState(AfterCreate(s, u, passwordErrors))
  {
  }

  /** In a valid store a user name is taken exactly when that email is. */
  lemma UserNameTakenIffEmail(s: StoreState, e: Email)
    requires ValidState(s)
    ensures UserNameTaken(s, e) <==> e in s.users
  {
  }

  /**
   * The identity store as the application sees it. The success of operations
   * whose verdict depends on code outside this model (the password policy, the
   * role store, persistence) is an input of each method.
   */
  class IdentityStore {
    var roles: set<RoleName>
    var users: map<Email, UserRec>
    var memberships: set<(Email, RoleName)>

    function State(): StoreState
      reads this
    {
      StoreState(roles, users, memberships)
    }

    predicate Valid()
      reads this
    {
      ValidState(State())
    }

    constructor (s: StoreState)
      requires ValidState(s)
      ensures Valid() && State() == s
    {
      roles, users, memberships := s.roles, s.users, s.memberships;
    }

    /** `RoleManager.RoleExistsAsync`. */
    function RoleExists(name: RoleName): bool
      reads this
    {
      name in roles
    }

    /** `UserManager.FindByEmailAsync`: at most one user per email. */
    function FindByEmail(email: Email): (r: Option<UserRec>)
      reads this
      ensures r.Some? <==> email in users
      ensures r.Some? ==> r.value == users[email]
    {
      if email in users then Some(users[email]) else None
    }

    /** `RoleManager.CreateAsync`; `accepted` is the role store's verdict. */
    method CreateRole(name: RoleName, accepted: bool)
      requires Valid()
      modifies this
      ensures Valid()
      ensures roles == if accepted then old(roles) + {name} else old(roles)
      ensures users == old(users) && memberships == old(memberships)
    {
      if accepted {
        roles := roles + {name};
      }
    }

    /** `UserManager.CreateAsync(u, password)`; returns the result's errors. */
    method CreateUser(u: UserRec, passwordErrors: seq<string>) returns (errors: seq<IdentityError>)
      requires Valid() && u.userName == u.email
      modifies this
      ensures Valid()
      ensures errors == CreateErrors(old(State()), u, passwordErrors)
      ensures State() == AfterCreate(old(State()), u, passwordErrors)
    {
      errors := CreateErrors(State(), u, passwordErrors);
      CreatePreservesValid(State(), u, passwordErrors);
      if errors == [] {
        users := users[u.email := u];
      }
    }

    /**
     * `UserManager.AddToRoleAsync`. The store throws when the role does not
     * exist (`threw`); a user already in the role is left as is.
     */
    method AddToRole(email: Email, role: RoleName) returns (threw: bool)
      requires Valid() && email in users
      modifies this
      ensures Valid()
      ensures threw <==> role !in old(roles)
      ensures roles == old(roles) && users == old(users)
      ensures memberships == if threw then old(memberships) else old(memberships) + {(email, role)}
    {
      threw := role !in roles;
      if !threw {
        memberships := memberships + {(email, role)};
      }
    }

    /**
     * `UserManager.UpdateAsync(u)` for a user already stored under `u.email`;
     * `accepted` is the store's verdict (its result is ignored by the caller).
     */
    method Update(u: UserRec, accepted: bool)
      requires Valid() && u.email in users && u.userName == u.email
      modifies this
      ensures Valid()
      ensures users == if accepted then old(users)[u.email := u] else old(users)
      ensures roles == old(roles) && memberships == old(memberships)
    {
      if accepted {
        users := users[u.email := u];
      }
    }
  }
}
