/**
 * The account workflow (Controllers/AccountController.cs): profile, profile
 * edit, registration, login and logout. Each state-changing action is a method
 * of the controller, specified by a function over a snapshot of the identity
 * store; the session's signed-in user and the request's model-state errors are
 * fields of the controller.
 */
module Account {
  import opened Wrappers
  import opened Identity

  /** A sign-in: the user it is bound to and whether the cookie is persistent. */
  datatype Session = Session(user: Email, persistent: bool)

  /** The login form; a field left empty binds to null (None): the action does not check the model state. */
  datatype LoginInput = LoginInput(email: Option<string>, password: Option<string>)
  datatype RegisterInput = RegisterInput(email: string, password: string, name: string, department: int)

  /** The profile projection shown and edited by the views. */
  datatype UserView = UserView(
    name: string,
    address: Option<string>,
    email: string,
    phoneNumber: Option<string>,
    grade: Option<int>,
    salary: Option<int>)

  datatype ViewModel = NoModel | LoginForm(login: LoginInput) | RegisterForm(register: RegisterInput) | Profile(profile: UserView)

  /** A redirect to an action, a rendered view, or an exception escaping the action. */
  datatype ActionResult = Redirect(action: string) | ViewWith(model: ViewModel) | Fault

  /** A model-state error: the key it is filed under and its message. */
  type ModelError = (string, string)

  const SummaryKey: string := "Summary"
  const InvalidCredentials: string := "Invalid Email or Password"
  const TraineeRole: RoleName := "Trainee"
  const InstructorRole: RoleName := "Instructor"

  /** The grade a new trainee holds: registration never sets it. */
  const DefaultGrade: int := 0

  /**
   * What an action does, as a value: its result, the store afterwards, the
   * user it signs in (persistently) if any, and the errors it appends.
   */
  datatype Outcome = Outcome(result: ActionResult, state: StoreState, signIn: Option<Email>, errors: seq<ModelError>)

  /** `MapUser`: the four profile fields, and neither grade nor salary. */
  function MapUser(u: UserRec): (v: UserView)
    ensures v.name == u.name && v.address == u.address && v.email == u.email && v.phoneNumber == u.phoneNumber
    ensures v.grade.None? && v.salary.None?
  {
    UserView(u.name, u.address, u.email, u.phoneNumber, None, None)
  }

  // ---------------------------------------------------------------- profile

  /**
   * `index` for the signed-in user `current`. A missing user is a Fault: the
   * redirect to Register is built and dropped, and MapUser then dereferences
   * null. In role "Trainee" the grade is added (a Fault unless the user is a
   * trainee), otherwise in role "Instructor" the salary (a Fault unless an
   * instructor).
   */
  function ProfileResult(s: StoreState, current: Email): (r: ActionResult)
    ensures !r.Redirect?
    ensures r.Fault? <==>
      || current !in s.users
      || ((current, TraineeRole) in s.memberships && !s.users[current].kind.TraineeUser?)
      || ((current, TraineeRole) !in s.memberships && (current, InstructorRole) in s.memberships
          && !s.users[current].kind.InstructorUser?)
  {
    if current !in s.users then Fault
    else
      var u := s.users[current];
      var view := MapUser(u);
      if (current, TraineeRole) in s.memberships then
        if u.kind.TraineeUser? then ViewWith(Profile(view.(grade := Some(u.kind.grade)))) else Fault
      else if (current, InstructorRole) in s.memberships then
        if u.kind.InstructorUser? then ViewWith(Profile(view.(salary := Some(u.kind.salary)))) else Fault
      else
        ViewWith(Profile(view))
  }

  /**
   * The profile shows the four mapped fields, a grade only in role "Trainee",
   * a salary only in role "Instructor" and never both.
   */
  lemma ProfileRoleFields(s: StoreState, current: Email)
    requires ProfileResult(s, current).ViewWith?
    ensures var r := ProfileResult(s, current);
      && current in s.users
      && r.model.Profile?
      && var v := r.model.profile;
      && v.(grade := None, salary := None) == MapUser(s.users[current])
      && !(v.grade.Some? && v.salary.Some?)
      && (v.grade.Some? <==> (current, TraineeRole) in s.memberships)
      && (v.grade.Some? ==> v.grade.value == s.users[current].kind.grade)
      && (v.salary.Some? <==> (current, InstructorRole) in s.memberships && (current, TraineeRole) !in s.memberships)
      && (v.salary.Some? ==> v.salary.value == s.users[current].kind.salary)
  {
  }

  // ---------------------------------------------------------------- edit

  /** The loaded user after the edit form's three fields are copied onto it. */
  function WithProfile(u: UserRec, edit: UserView): (v: UserRec)
    ensures v.name == edit.name && v.address == edit.address && v.phoneNumber == edit.phoneNumber
    ensures v.(name := u.name, address := u.address, phoneNumber := u.phoneNumber) == u
  {
    u.(name := edit.name, address := edit.address, phoneNumber := edit.phoneNumber)
  }

  /**
   * `Edit` (POST). An invalid model redisplays the form. A valid one loads the
   * current user (a Fault when there is none: the action is not behind
   * [Authorize]), copies name, address and phone number onto it and asks the
   * store to update it (`accepted`); the update's result is ignored.
   */
  function EditSpec(s: StoreState, current: Option<Email>, edit: UserView, modelValid: bool, accepted: bool): (o: Outcome)
    ensures o.signIn.None? && o.errors == []
    ensures o.state.roles == s.roles && o.state.memberships == s.memberships && o.state.users.Keys == s.users.Keys
    ensures modelValid && current.Some? && current.value in s.users ==> o.result == Redirect("Index")
    ensures modelValid && (current.None? || current.value !in s.users) ==> o.result == Fault && o.state == s
    ensures !accepted ==> o.state == s
  {
    if !modelValid then Outcome(ViewWith(Profile(edit)), s, None, [])
    else if current.None? || current.value !in s.users then Outcome(Fault, s, None, [])
    else
      var e := current.value;
      var users := if accepted then s.users[e := WithProfile(s.users[e], edit)] else s.users;
      Outcome(Redirect("Index"), s.(users := users), None, [])
  }

  /**
   * A valid edit changes only name, address and phone number of the current
   * user: its email, user name and kind, every other user, the roles and the
   * memberships stay as they were. An invalid model changes nothing.
   */
  lemma EditFrame(s: StoreState, current: Option<Email>, edit: UserView, modelValid: bool, accepted: bool)
    requires ValidState(s)
    ensures var o := EditSpec(s, current, edit, modelValid, accepted);
      && ValidState(o.state)
      && (!modelValid ==> o.state == s && o.result == ViewWith(Profile(edit)))
      && (forall e :: e in s.users && Some(e) != current ==> o.state.users[e] == s.users[e])
      && (forall e :: e in s.users ==>
            && o.state.users[e].email == s.users[e].email
            && o.state.users[e].userName == s.users[e].userName
            && o.state.users[e].kind == s.users[e].kind
            && o.state.users[e].emailConfirmed == s.users[e].emailConfirmed)
      && (modelValid && accepted && current.Some? && current.value in s.users ==>
            var u := o.state.users[current.value];
            u.name == edit.name && u.address == edit.address && u.phoneNumber == edit.phoneNumber)
  {
  }

  // ---------------------------------------------------------------- register

  /** The trainee `Register` builds from the form. */
  function NewTrainee(input: RegisterInput): (u: UserRec)
    ensures u.userName == input.email && u.email == input.email && u.name == input.name
    ensures u.kind == TraineeUser(DefaultGrade, input.department)
  {
    UserRec(input.email, input.email, input.name, None, None, false, TraineeUser(DefaultGrade, input.department))
  }

  /** One "Summary" error per store error, in order. */
  function SummaryErrors(errs: seq<IdentityError>): seq<ModelError>
  {
    seq(|errs|, i requires 0 <= i < |errs| => (SummaryKey, Describe(errs[i])))
  }

  /**
   * `Register` (POST). An invalid model redisplays the form untouched. A valid
   * one creates the trainee; on failure each store error is filed under
   * "Summary" and the form is redisplayed; on success the user is added to
   * "Trainee" (which throws when that role does not exist), signed in and sent
   * to the profile.
   */
  function RegisterSpec(s: StoreState, input: RegisterInput, modelValid: bool, passwordErrors: seq<string>): (o: Outcome)
    ensures o.signIn.Some? ==> modelValid && o.signIn.value == input.email && o.result == Redirect("index")
    ensures o.state.roles == s.roles
  {
    if !modelValid then Outcome(ViewWith(RegisterForm(input)), s, None, [])
    else
      var u := NewTrainee(input);
      var errs := CreateErrors(s, u, passwordErrors);
      if errs != [] then Outcome(ViewWith(RegisterForm(input)), s, None, SummaryErrors(errs))
      else
        var created := AfterCreate(s, u, passwordErrors);
        if TraineeRole !in created.roles then Outcome(Fault, created, None, [])
        else Outcome(Redirect("index"), created.(memberships := created.memberships + {(u.email, TraineeRole)}), Some(u.email), [])
  }

  /** An invalid model: no store call, no sign-in, no error, the submitted form back. */
  lemma RegisterInvalidModel(s: StoreState, input: RegisterInput, passwordErrors: seq<string>)
    ensures RegisterSpec(s, input, false, passwordErrors) == Outcome(ViewWith(RegisterForm(input)), s, None, [])
  {
  }

  /**
   * A sign-in happens only after a successful creation: the new trainee is
   * stored under its email (which was free), holds "Trainee", and nothing else
   * in the store changed.
   */
  lemma RegisterSignsInOnlyOnCreate(s: StoreState, input: RegisterInput, modelValid: bool, passwordErrors: seq<string>)
    requires RegisterSpec(s, input, modelValid, passwordErrors).signIn.Some?
    ensures var o := RegisterSpec(s, input, modelValid, passwordErrors);
      && modelValid && passwordErrors == [] && input.email !in s.users
      && o.state == StoreState(s.roles, s.users[input.email := NewTrainee(input)], s.memberships + {(input.email, TraineeRole)})
      && o.errors == []
  {
  }

  /**
   * A refused creation leaves the store as it was, signs nobody in, and files
   * exactly one "Summary" error per store error, in the store's order.
   */
  lemma RegisterFailure(s: StoreState, input: RegisterInput, passwordErrors: seq<string>)
    requires CreateErrors(s, NewTrainee(input), passwordErrors) != []
    ensures var o := RegisterSpec(s, input, true, passwordErrors);
      var errs := CreateErrors(s, NewTrainee(input), passwordErrors);
      && o.state == s && o.signIn.None? && o.result == ViewWith(RegisterForm(input))
      && |o.errors| == |errs|
      && forall i :: 0 <= i < |errs| ==> o.errors[i] == (SummaryKey, Describe(errs[i]))
  {
  }

  /** Registering a taken email creates nobody and shows at least one error. */
  lemma RegisterDuplicateEmail(s: StoreState, input: RegisterInput, passwordErrors: seq<string>)
    requires input.email in s.users
    ensures var o := RegisterSpec(s, input, true, passwordErrors);
      o.state == s && o.signIn.None? && o.errors != []
  {
  }

  /**
   * With an accepted password, a taken email shows exactly two "Summary"
   * errors: the user name (which is the email) is taken, and so is the email.
   */
  lemma RegisterDuplicateErrors(s: StoreState, input: RegisterInput)
    requires ValidState(s) && input.email in s.users
    ensures RegisterSpec(s, input, true, []).errors
         == [(SummaryKey, "Username '" + input.email + "' is already taken."),
             (SummaryKey, "Email '" + input.email + "' is already taken.")]
  {
    UserNameTakenIffEmail(s, input.email);
  }

  /**
   * Without a "Trainee" role the membership step throws after the trainee
   * was stored: the user exists but nobody is signed in.
   */
  lemma RegisterWithoutTraineeRole(s: StoreState, input: RegisterInput, passwordErrors: seq<string>)
    requires ValidState(s) && TraineeRole !in s.roles
    requires passwordErrors == [] && input.email !in s.users
    ensures var o := RegisterSpec(s, input, true, passwordErrors);
      o.result == Fault && o.signIn.None? && o.state.users == s.users[input.email := NewTrainee(input)]
      && o.state.memberships == s.memberships
  {
  }

  /**
   * After a successful registration the new user's profile carries a grade
   * and no salary.
   */
  lemma RegisterThenProfile(s: StoreState, input: RegisterInput)
    requires ValidState(s) && TraineeRole in s.roles && input.email !in s.users
    ensures var o := RegisterSpec(s, input, true, []);
      && o.signIn == Some(input.email)
      && ProfileResult(o.state, input.email)
         == ViewWith(Profile(MapUser(NewTrainee(input)).(grade := Some(DefaultGrade))))
  {
  }

  // ---------------------------------------------------------------- login

  /**
   * `Login` (POST), which does not consult the model state. An empty email
   * makes the email lookup throw. For a known email the store's password check
   * runs: it throws on an empty password, otherwise its verdict is `passwordOk`;
   * a match signs in persistently and goes to the profile. Every other case
   * gives one generic error and the form again.
   */
  function LoginSpec(s: StoreState, input: LoginInput, passwordOk: bool): (o: Outcome)
    ensures o.state == s
    ensures o.signIn.Some? <==> input.email.Some? && input.email.value in s.users && input.password.Some? && passwordOk
    ensures o.signIn.Some? ==> o.signIn.value == input.email.value && o.result == Redirect("Index") && o.errors == []
    ensures o.result.Fault? <==> input.email.None? || (input.email.value in s.users && input.password.None?)
  {
    if input.email.None? then Outcome(Fault, s, None, [])
    else if input.email.value in s.users && input.password.None? then Outcome(Fault, s, None, [])
    else if input.email.value in s.users && passwordOk then Outcome(Redirect("Index"), s, Some(input.email.value), [])
    else Outcome(ViewWith(LoginForm(input)), s, None, [(SummaryKey, InvalidCredentials)])
  }

  /**
   * Every failed login with both fields filled in looks the same: one
   * "Summary" error, the form, no sign-in.
   */
  lemma LoginFailureUniform(s: StoreState, input: LoginInput, passwordOk: bool)
    requires input.email.Some? && input.password.Some?
    requires input.email.value !in s.users || !passwordOk
    ensures var o := LoginSpec(s, input, passwordOk);
      o.signIn.None? && o.result == ViewWith(LoginForm(input)) && o.errors == [(SummaryKey, InvalidCredentials)]
  {
  }

  /**
   * Resistance to user enumeration, for a submitted password: an unknown
   * email and a known email with a wrong password give the same result,
   * sign-in and errors.
   */
  lemma LoginEnumerationResistant(unknown: StoreState, known: StoreState, input: LoginInput, passwordOk: bool)
    requires input.email.Some? && input.password.Some?
    requires input.email.value !in unknown.users && input.email.value in known.users
    ensures var a := LoginSpec(unknown, input, passwordOk);
      var b := LoginSpec(known, input, false);
      a.result == b.result && a.signIn == b.signIn && a.errors == b.errors
  {
  }

  /**
   * With the password field left empty the resistance breaks: a known email
   * faults while an unknown one gets the generic error.
   */
  lemma LoginEmptyPasswordDistinguishes(unknown: StoreState, known: StoreState, email: string, passwordOk: bool)
    requires email !in unknown.users && email in known.users
    ensures LoginSpec(known, LoginInput(Some(email), None), passwordOk).result == Fault
    ensures LoginSpec(unknown, LoginInput(Some(email), None), passwordOk).result
         == ViewWith(LoginForm(LoginInput(Some(email), None)))
  {
  }

  // ---------------------------------------------------------------- controller

  class AccountController {
    const store: IdentityStore
    /** The signed-in user of the caller's cookie, if any. */
    var session: Option<Session>
    /** The errors collected in this request's model state. */
    var modelErrors: seq<ModelError>

    constructor (store: IdentityStore, session: Option<Session>)
      ensures this.store == store && this.session == session && modelErrors == []
    {
      this.store := store;
      this.session := session;
      modelErrors := [];
    }

    /** `index`; [Authorize] lets only signed-in callers in. */
    method Index() returns (r: ActionResult)
      requires session.Some?
      ensures r == ProfileResult(store.State(), session.value.user)
    {
      var current := session.value.user;
      var user := store.FindByEmail(current);
      if user.None? {
        // the redirect to Register is built and discarded; MapUser(null) throws
        return Fault;
      }
      var view := MapUser(user.value);
      if (current, TraineeRole) in store.memberships {
        if !user.value.kind.TraineeUser? {
          return Fault;
        }
        view := view.(grade := Some(user.value.kind.grade));
      } else if (current, InstructorRole) in store.memberships {
        if !user.value.kind.InstructorUser? {
          return Fault;
        }
        view := view.(salary := Some(user.value.kind.salary));
      }
      r := ViewWith(Profile(view));
    }

    /** `Edit` (GET); [Authorize] lets only signed-in callers in. */
    method EditPage() returns (r: ActionResult)
      requires session.Some?
      ensures session.value.user in store.users ==> r == ViewWith(Profile(MapUser(store.users[session.value.user])))
      ensures session.value.user !in store.users ==> r == Fault
    {
      var user := store.FindByEmail(session.value.user);
      if user.None? {
        r := Fault;
      } else {
        r := ViewWith(Profile(MapUser(user.value)));
      }
    }

    /** `Edit` (POST): the loaded user's fields are overwritten one by one, then updated. */
    method EditPost(edit: UserView, modelValid: bool, accepted: bool) returns (r: ActionResult)
      requires store.Valid()
      modifies store
      ensures store.Valid()
      ensures var o := EditSpec(old(store.State()), if session.Some? then Some(session.value.user) else None, edit, modelValid, accepted);
        r == o.result && store.State() == o.state
    {
      if !modelValid {
        return ViewWith(Profile(edit));
      }
      if session.None? {
        return Fault;
      }
      var found := store.FindByEmail(session.value.user);
      if found.None? {
        return Fault;
      }
      var user := found.value;
      user := user.(name := edit.name);
      user := user.(address := edit.address);
      user := user.(phoneNumber := edit.phoneNumber);
      store.Update(user, accepted);
      r := Redirect("Index");
    }

    /** `Register` (POST). */
    method Register(input: RegisterInput, modelValid: bool, passwordErrors: seq<string>) returns (r: ActionResult)
      requires store.Valid()
      modifies this, store
      ensures store.Valid()
      ensures var o := RegisterSpec(old(store.State()), input, modelValid, passwordErrors);
        && r == o.result && store.State() == o.state
        && session == (if o.signIn.Some? then Some(Session(o.signIn.value, true)) else old(session))
        && modelErrors == old(modelErrors) + o.errors
    {
      if !modelValid {
        return ViewWith(RegisterForm(input));
      }
      var newTrainee := NewTrainee(input);
      var errors := store.CreateUser(newTrainee, passwordErrors);
      if errors == [] {
        var threw := store.AddToRole(newTrainee.email, TraineeRole);
        if threw {
          return Fault;
        }
        session := Some(Session(newTrainee.email, true));
        return Redirect("index");
      }
      var i := 0;
      while i < |errors|
        invariant 0 <= i <= |errors|
        invariant modelErrors == old(modelErrors) + SummaryErrors(errors[..i])
        invariant store.State() == old(store.State()) && session == old(session)
      {
        modelErrors := modelErrors + [(SummaryKey, Describe(errors[i]))];
        i := i + 1;
      }
      assert errors[..i] == errors;
      r := ViewWith(RegisterForm(input));
    }

    /** `Login` (GET): a signed-in caller goes to the profile, others get the form. */
    method LoginPage() returns (r: ActionResult)
      ensures r == Redirect("index") <==> session.Some?
      ensures session.None? ==> r == ViewWith(NoModel)
    {
      if session.Some? {
        r := Redirect("index");
      } else {
        r := ViewWith(NoModel);
      }
    }

    /** `Login` (POST). */
    method Login(input: LoginInput, passwordOk: bool) returns (r: ActionResult)
      modifies this
      ensures var o := LoginSpec(old(store.State()), input, passwordOk);
        && r == o.result && store.State() == old(store.State())
        && session == (if o.signIn.Some? then Some(Session(o.signIn.value, true)) else old(session))
        && modelErrors == old(modelErrors) + o.errors
    {
      if input.email.None? {
        return Fault;
      }
      var user := store.FindByEmail(input.email.value);
      if user.Some? {
        if input.password.None? {
          return Fault;
        }
        if passwordOk {
          session := Some(Session(input.email.value, true));
          return Redirect("Index");
        }
      }
      modelErrors := modelErrors + [(SummaryKey, InvalidCredentials)];
      r := ViewWith(LoginForm(input));
    }

    /** `Logout`: end the session and go to the login form. */
    method Logout() returns (r: ActionResult)
      modifies this
      ensures session.None? && r == Redirect("login")
      ensures modelErrors == old(modelErrors)
    {
      session := None;
      r := Redirect("login");
    }
  }
}
