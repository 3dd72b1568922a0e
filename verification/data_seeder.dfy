/**
 * Start-up provisioning (Services/DataSeeder.cs): make sure the three fixed
 * roles exist, then make sure the configured administrator exists and, when
 * it is created, put it in the "Admin" role.
 */
module Seeding {
  import opened Wrappers
  import opened Identity
  import opened Options
  import OptionsValidation

  /** The roles the seeder provisions, in the order it visits them. */
  const SeededRoles: seq<RoleName> := ["Admin", "Instructor", "Student"]
  const AdminRole: RoleName := "Admin"

  /**
   * The role set after visiting `names` in order: a name already present is
   * skipped, an absent one is created unless the role store rejects it.
   */
  function RolesAfter(roles: set<RoleName>, names: seq<RoleName>, rejected: set<RoleName>): set<RoleName>
    decreases |names|
  {
    if names == [] then roles
    else
      var before := RolesAfter(roles, names[..|names| - 1], rejected);
      var name := names[|names| - 1];
      if name !in before && name !in rejected then before + {name} else before
  }

  /** Seeding adds exactly the listed names the role store accepts, and removes nothing. */
  lemma {:induction false} RolesAfterAddsAccepted(roles: set<RoleName>, names: seq<RoleName>, rejected: set<RoleName>)
    ensures RolesAfter(roles, names, rejected) == roles + (set r | r in names && r !in rejected)
    decreases |names|
  {
    if names != [] {
      var init := names[..|names| - 1];
      var last := names[|names| - 1];
      RolesAfterAddsAccepted(roles, init, rejected);
      assert names == init + [last];
      assert (set r | r in names && r !in rejected)
          == (set r | r in init && r !in rejected) + (if last !in rejected then {last} else {});
    }
  }

  /** The store after `SeedRolesAsync`. */
  function SeedRolesSpec(s: StoreState, rejected: set<RoleName>): StoreState
  {
    s.(roles := RolesAfter(s.roles, SeededRoles, rejected))
  }

  /**
   * Role seeding never removes a role, adds only the fixed names, adds every
   * fixed name the role store accepts, and touches no user or membership.
   */
  lemma SeedRolesFrame(s: StoreState, rejected: set<RoleName>)
    ensures var t := SeedRolesSpec(s, rejected);
      && s.roles <= t.roles
      && t.roles - s.roles <= {"Admin", "Instructor", "Student"}
      && {"Admin", "Instructor", "Student"} - rejected <= t.roles
      && t.users == s.users && t.memberships == s.memberships
  {
    RolesAfterAddsAccepted(s.roles, SeededRoles, rejected);
    assert forall r :: r in SeededRoles <==> r in {"Admin", "Instructor", "Student"};
  }

  /** When no creation is rejected, all three fixed roles exist afterwards. */
  lemma SeedRolesComplete(s: StoreState)
    ensures {"Admin", "Instructor", "Student"} <= SeedRolesSpec(s, {}).roles
  {
    SeedRolesFrame(s, {});
  }

  /** The user the seeder creates for the configured administrator. */
  function AdminRecord(o: AdminOptions): UserRec
  {
    UserRec(o.email, o.email, o.name, Some(o.address), None, true, BaseUser)
  }

  /** The store after seeding, and whether the seeding threw. */
  datatype SeedResult = SeedResult(state: StoreState, threw: bool)

  /**
   * `SeedAdminAsync`: nothing happens when a user with the configured email
   * exists; otherwise the administrator is created with the configured password
   * (`passwordErrors` is the policy's verdict) and, only if that succeeded,
   * added to "Admin", which throws when that role is missing.
   */
  function SeedAdminSpec(s: StoreState, o: AdminOptions, passwordErrors: seq<string>): SeedResult
  {
    if o.email in s.users then SeedResult(s, false)
    else if CreateErrors(s, AdminRecord(o), passwordErrors) != [] then SeedResult(s, false)
    else
      var created := AfterCreate(s, AdminRecord(o), passwordErrors);
      if AdminRole in created.roles then
        SeedResult(created.(memberships := created.memberships + {(o.email, AdminRole)}), false)
      else
        SeedResult(created, true)
  }

  /** `SeedAsync`: roles first, then the administrator. */
  function SeedSpec(s: StoreState, o: AdminOptions, rejected: set<RoleName>, passwordErrors: seq<string>): SeedResult
  {
    SeedAdminSpec(SeedRolesSpec(s, rejected), o, passwordErrors)
  }

  /** An existing user with the configured email makes admin seeding a no-op. */
  lemma SeedAdminNoOpWhenPresent(s: StoreState, o: AdminOptions, passwordErrors: seq<string>)
    requires o.email in s.users
    ensures SeedAdminSpec(s, o, passwordErrors) == SeedResult(s, false)
  {
  }

  /**
   * When the administrator is absent and the password is accepted, the store
   * gains exactly the administrator record (user name and email from the
   * options, email confirmed, name and address from the options) and, given
   * that "Admin" exists, exactly its "Admin" membership.
   */
  lemma SeedAdminCreates(s: StoreState, o: AdminOptions)
    requires ValidState(s) && o.email !in s.users && AdminRole in s.roles
    ensures var r := SeedAdminSpec(s, o, []);
      && !r.threw
      && r.state.roles == s.roles
      && r.state.users == s.users[o.email := AdminRecord(o)]
      && r.state.memberships == s.memberships + {(o.email, AdminRole)}
      && var a := r.state.users[o.email];
         a.userName == o.email && a.email == o.email && a.emailConfirmed
         && a.name == o.name && a.address == Some(o.address)
  {
  }

  /**
   * The administrator gets its membership only through a successful creation;
   * when creation fails the store is unchanged.
   */
  lemma SeedAdminMembershipOnlyOnSuccess(s: StoreState, o: AdminOptions, passwordErrors: seq<string>)
    ensures var r := SeedAdminSpec(s, o, passwordErrors);
      && ((o.email, AdminRole) in r.state.memberships - s.memberships ==>
            o.email !in s.users && passwordErrors == [] && r.state.users[o.email] == AdminRecord(o))
      && (CreateErrors(s, AdminRecord(o), passwordErrors) != [] ==> r == SeedResult(s, false))
      && (r.threw ==> AdminRole !in s.roles)
  {
  }

  /** Seeding keeps the store invariant. */
  lemma SeedPreservesValid(s: StoreState, o: AdminOptions, rejected: set<RoleName>, passwordErrors: seq<string>)
    requires ValidState(s)
    ensures ValidState(SeedSpec(s, o, rejected, passwordErrors).state)
  {
    SeedRolesFrame(s, rejected);
    var t := SeedRolesSpec(s, rejected);
    CreatePreservesValid(t, AdminRecord(o), passwordErrors);
  }

  /** A store in which seeding has nothing left to do. */
  predicate Seeded(s: StoreState, o: AdminOptions)
  {
    {"Admin", "Instructor", "Student"} <= s.roles && o.email in s.users
  }

  /** On a seeded store, seeding changes nothing and does not throw, whatever the verdicts. */
  lemma SeedNoOpWhenSeeded(s: StoreState, o: AdminOptions, rejected: set<RoleName>, passwordErrors: seq<string>)
    requires Seeded(s, o)
    ensures SeedSpec(s, o, rejected, passwordErrors) == SeedResult(s, false)
  {
    RolesAfterAddsAccepted(s.roles, SeededRoles, rejected);
    assert forall r :: r in SeededRoles ==> r in s.roles;
    assert SeedRolesSpec(s, rejected) == s;
  }

  /**
   * A run in which every creation succeeds leaves a seeded store, does not
   * throw, and a newly created administrator holds "Admin".
   */
  lemma SeedSucceeds(s: StoreState, o: AdminOptions)
    requires ValidState(s)
    ensures var r := SeedSpec(s, o, {}, []);
      && !r.threw && Seeded(r.state, o)
      && (o.email !in s.users ==> (o.email, AdminRole) in r.state.memberships)
  {
    SeedRolesComplete(s);
    var t := SeedRolesSpec(s, {});
    SeedRolesFrame(s, {});
    if o.email !in s.users {
      SeedAdminCreates(t, o);
    }
  }

  /**
   * Idempotence: after a run in which every creation succeeded, a second run
   * leaves roles, users and memberships as they are, whatever its verdicts.
   */
  lemma SeedIdempotent(s: StoreState, o: AdminOptions, rejected: set<RoleName>, passwordErrors: seq<string>)
    requires ValidState(s)
    ensures var first := SeedSpec(s, o, {}, []);
      !first.threw && SeedSpec(first.state, o, rejected, passwordErrors) == SeedResult(first.state, false)
  {
    var first := SeedSpec(s, o, {}, []);
    SeedRolesComplete(s);
    SeedRolesFrame(s, {});
    var t := SeedRolesSpec(s, {});
    if o.email !in s.users {
      SeedAdminCreates(t, o);
    }
    assert Seeded(first.state, o);
    SeedNoOpWhenSeeded(first.state, o, rejected, passwordErrors);
  }

  /**
   * On an empty store a successful run yields exactly the three roles, the
   * administrator and its "Admin" membership.
   */
  lemma SeedFreshStore(o: AdminOptions)
    ensures SeedSpec(StoreState({}, map[], {}), o, {}, [])
         == SeedResult(StoreState({"Admin", "Instructor", "Student"}, map[o.email := AdminRecord(o)], {(o.email, AdminRole)}), false)
  {
    var empty := StoreState({}, map[], {});
    RolesAfterAddsAccepted({}, SeededRoles, {});
    assert forall r :: r in SeededRoles <==> r in {"Admin", "Instructor", "Student"};
    assert SeedRolesSpec(empty, {}).roles == {"Admin", "Instructor", "Student"};
    SeedAdminCreates(SeedRolesSpec(empty, {}), o);
  }

  /** The seeder; it only exists for options that passed validation. */
  class DataSeeder {
    const store: IdentityStore
    const options: AdminOptions

    /** Reading the options value runs the validators and throws on failure. */
    constructor (store: IdentityStore, options: AdminOptions)
      requires OptionsValidation.Valid(options)
      ensures this.store == store && this.options == options
    {
      this.store := store;
      this.options := options;
    }

    /** `SeedAsync`; `threw` reports the exception of a missing "Admin" role. */
    method SeedAsync(rejected: set<RoleName>, passwordErrors: seq<string>) returns (threw: bool)
      requires store.Valid()
      modifies store
      ensures store.Valid()
      ensures SeedResult(store.State(), threw) == SeedSpec(old(store.State()), options, rejected, passwordErrors)
    {
      SeedRolesAsync(rejected);
      threw := SeedAdminAsync(passwordErrors);
    }

    /** `SeedRolesAsync`: visit the fixed names, create those that are missing. */
    method SeedRolesAsync(rejected: set<RoleName>)
      requires store.Valid()
      modifies store
      ensures store.Valid()
      ensures store.State() == SeedRolesSpec(old(store.State()), rejected)
    {
      var i := 0;
      while i < |SeededRoles|
        invariant 0 <= i <= |SeededRoles|
        invariant store.Valid()
        invariant store.State() == old(store.State()).(roles := RolesAfter(old(store.roles), SeededRoles[..i], rejected))
      {
        var role := SeededRoles[i];
        if !store.RoleExists(role) {
          store.CreateRole(role, role !in rejected);
        }
        assert SeededRoles[..i + 1][..i] == SeededRoles[..i];
        i := i + 1;
      }
      assert SeededRoles[..i] == SeededRoles;
    }

    /** `SeedAdminAsync`. */
    method SeedAdminAsync(passwordErrors: seq<string>) returns (threw: bool)
      requires store.Valid()
      modifies store
      ensures store.Valid()
      ensures SeedResult(store.State(), threw) == SeedAdminSpec(old(store.State()), options, passwordErrors)
    {
      threw := false;
      var adminUser := store.FindByEmail(options.email);
      if adminUser.None? {
        var admin := AdminRecord(options);
        var errors := store.CreateUser(admin, passwordErrors);
        if errors == [] {
          threw := store.AddToRole(admin.email, AdminRole);
        }
      }
    }
  }
}
