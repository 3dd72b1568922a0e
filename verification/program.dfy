/**
 * Start-up (Program.cs): bind the "Admin" section, validate it when the
 * seeder first reads it, run the seeder to completion, and only then serve
 * requests.
 */
module Program {
  import opened Wrappers
  import opened Identity
  import opened Options
  import OptionsValidation
  import opened Seeding
  import Account

  datatype BootOutcome =
    /** A required key is missing: the validator then dereferences null. */
    | OptionsUnbound
    /** The validators refused the options: their messages. */
    | OptionsRejected(failures: seq<string>)
    /** The seeder threw, which ends the process. */
    | SeedingFailed
    /** The request pipeline runs with these options. */
    | Serving(options: AdminOptions)

  datatype Startup = Startup(outcome: BootOutcome, state: StoreState)

  /** The whole configuration: sections by name. */
  type Configuration = map<string, Section>

  /** `GetSection(SectionName)`: an absent section reads as an empty one. */
  function AdminSection(config: Configuration): Section
  {
    if SectionName in config then config[SectionName] else map[]
  }

  /**
   * The whole start-up sequence. The process serves requests only with
   * options both validators accept, and only once seeding has completed
   * without an exception; a refusal before seeding leaves the store untouched.
   */
  function StartupSpec(config: Configuration, s: StoreState, rejected: set<RoleName>, passwordErrors: seq<string>): (r: Startup)
    ensures r.outcome.Serving? ==>
      && Bind(AdminSection(config)) == Some(r.outcome.options)
      && OptionsValidation.Valid(r.outcome.options)
      && SeedSpec(s, r.outcome.options, rejected, passwordErrors) == SeedResult(r.state, false)
    ensures r.outcome.OptionsUnbound? || r.outcome.OptionsRejected? ==> r.state == s
    ensures r.outcome.OptionsRejected? ==> r.outcome.failures != []
  {
    match Bind(AdminSection(config))
    case None => Startup(OptionsUnbound, s)
    case Some(o) =>
      var failures := OptionsValidation.Failures(o);
      if failures != [] then Startup(OptionsRejected(failures), s)
      else
        var seeded := SeedSpec(s, o, rejected, passwordErrors);
        Startup(if seeded.threw then SeedingFailed else Serving(o), seeded.state)
  }

  /**
   * `Main` up to `app.Run()`. Validation happens when the seeder's constructor
   * reads the options value; the seeder is awaited before the pipeline starts.
   */
  method Boot(config: Configuration, store: IdentityStore, rejected: set<RoleName>, passwordErrors: seq<string>)
    returns (outcome: BootOutcome)
    requires store.Valid()
    modifies store
    ensures store.Valid()
    ensures Startup(outcome, store.State()) == StartupSpec(config, old(store.State()), rejected, passwordErrors)
  {
    var bound := Bind(AdminSection(config));
    if bound.None? {
      return OptionsUnbound;
    }
    var failures := OptionsValidation.Failures(bound.value);
    if failures != [] {
      return OptionsRejected(failures);
    }
    var seeder := new DataSeeder(store, bound.value);
    var threw := seeder.SeedAsync(rejected, passwordErrors);
    outcome := if threw then SeedingFailed else Serving(bound.value);
  }

  /** Without an "Admin" section the required members stay unset and start-up stops. */
  lemma StartupWithoutSection(config: Configuration, s: StoreState, rejected: set<RoleName>, passwordErrors: seq<string>)
    requires SectionName !in config
    ensures StartupSpec(config, s, rejected, passwordErrors) == Startup(OptionsUnbound, s)
  {
  }

  /** A configured password without an upper-case letter stops start-up before any seeding. */
  lemma StartupRejectsAllLower(config: Configuration, s: StoreState, rejected: set<RoleName>, passwordErrors: seq<string>)
    requires var section := AdminSection(config);
      "Email" in section && "Password" in section && section["Password"] == "alllower1"
    ensures var r := StartupSpec(config, s, rejected, passwordErrors);
      r.outcome.OptionsRejected? && OptionsValidation.PasswordFailure in r.outcome.failures && r.state == s
  {
  }

  /**
   * With valid options and every creation succeeding, the process serves
   * requests from a seeded store: the three roles exist and so does the
   * administrator.
   */
  lemma StartupServesSeeded(config: Configuration, s: StoreState)
    requires ValidState(s)
    requires Bind(AdminSection(config)).Some? && OptionsValidation.Valid(Bind(AdminSection(config)).value)
    ensures var r := StartupSpec(config, s, {}, []);
      && r.outcome == Serving(Bind(AdminSection(config)).value)
      && Seeded(r.state, Bind(AdminSection(config)).value)
      && ValidState(r.state)
  {
    var o := Bind(AdminSection(config)).value;
    SeedSucceeds(s, o);
    SeedPreservesValid(s, o, {}, []);
  }

  /**
   * An administrator created from a section without a Name key has the empty
   * name, and one without an Address key the empty address.
   */
  lemma SeededAdminDefaults(config: Configuration, s: StoreState)
    requires ValidState(s)
    requires Bind(AdminSection(config)).Some? && OptionsValidation.Valid(Bind(AdminSection(config)).value)
    requires AdminSection(config)["Email"] !in s.users
    ensures var r := StartupSpec(config, s, {}, []);
      var section := AdminSection(config);
      var a := r.state.users[section["Email"]];
      && ("Name" !in section ==> a.name == "")
      && ("Address" !in section ==> a.address == Some(""))
      && a.emailConfirmed && a.userName == section["Email"]
  {
  }

  /**
   * Registration only ever adds a membership in "Trainee", a role the seeder
   * never creates: a registered user is not given any seeded role.
   */
  lemma RegisterGrantsNoSeededRole(s: StoreState, input: Account.RegisterInput, modelValid: bool, passwordErrors: seq<string>)
    ensures var o := Account.RegisterSpec(s, input, modelValid, passwordErrors);
      forall m :: m in o.state.memberships && m !in s.memberships ==> m == (input.email, Account.TraineeRole) && m.1 !in SeededRoles
    ensures Account.TraineeRole !in SeedRolesSpec(s, {}).roles - s.roles
  {
    SeedRolesFrame(s, {});
  }
}
