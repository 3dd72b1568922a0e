# Training-agency accounts: a Dafny model

This project models the account and provisioning logic of a multi-role
training-agency web application built on ASP.NET Identity:

- the administrator settings record (`AdminOptions`) and the two validators
  registered on it at start-up (the email must contain `@`; the password must
  hold an upper-case letter, a lower-case letter and a digit);
- the data seeder, which asks the role store to create whichever of the
  roles `Admin`, `Instructor` and `Student` is missing (ignoring a refusal),
  and, when no user has the configured administrator email, creates that
  user and, if the creation succeeded, adds it to `Admin`; an administrator
  that already exists is left as it is;
- the account controller: profile (`index`), profile edit (GET and POST),
  registration (POST), login (GET and POST) and logout;
- the start-up sequence: bind the configuration section named `Admin`,
  validate it, seed, then serve requests.

The identity store is a class `Identity.IdentityStore` with a role set, a
user table keyed by email (the store is configured with unique emails) and a
membership set. Every verdict that depends on code outside the repository is
an input of the operation that needs it: the password policy's errors when a
user is created, the password check at login, whether the role store accepts
a new role, whether an update is persisted, and whether the form's model
state is valid.

Each state-changing action is a method proved against a specification
function over a snapshot of the store (`StoreState`), and the properties are
lemmas about those functions. An exception escaping an action is the result
`Fault`; an exception escaping the seeder is `threw`.

Behaviour of the code the model reproduces:

- Registration adds the role `Trainee` (not `Student`), and the seeder never
  creates `Trainee`. ASP.NET Identity's `AddToRoleAsync` throws when the role
  does not exist, so on a store without that role registration stores the
  user and then fails with no sign-in (`Account.RegisterWithoutTraineeRole`).
- In `index`, the redirect built for a missing user is discarded, so a
  missing user is a `Fault` (a null dereference in `MapUser`), never a
  redirect (`Account.ProfileResult`).
- The `Edit` POST action has no `[Authorize]`; without a signed-in user it
  faults.
- Register files one `Summary` error per store error.
- Login does not check the model state, so an empty field reaches the store
  as null: an empty email makes the lookup throw, and an empty password makes
  the password check throw for a known email only, while an unknown email
  gets the generic error (`Account.LoginEmptyPasswordDistinguishes`).
- Failures to create a role are ignored by the seeder; only a missing `Admin`
  role when adding the new administrator's membership throws.
- The validators run when the seeder's constructor first reads the options
  value, which happens before the host starts; the effect is the one the
  start-up validation promises: the seeder only ever runs with valid options.
- The password failure message says "one char" where the rule requires a
  digit; the message is kept as written.

## Model

| member | source | states |
|---|---|---|
| Options.Bind | Options/AdminOptions.cs:7-8 | a record is bound exactly when the section has both required keys, Email and Password, and carries their values |
| Options.BindDefaults | Options/AdminOptions.cs:9-10 | Name and Address default to the empty string when the section lacks them, and take the configured value otherwise |
| Options.BindToSection | Options/AdminOptions.cs:3-12 | binding the section written from a record gives that record back |
| OptionsValidation.AnyIn | Program.cs:52-54 | `Any(test)` holds exactly when some character of the string is in the class |
| OptionsValidation.Failures | Program.cs:51-55 | no failure exactly when both validators accept; the email message appears exactly when the email has no `@`, the password message exactly when the password lacks an upper-case letter, a lower-case letter or a digit |
| OptionsValidation.RejectsAllLower | Program.cs:52-54 | the password "alllower1" is refused |
| OptionsValidation.RejectsAllUpper | Program.cs:52-54 | the password "ALLUPPER1" is refused |
| OptionsValidation.RejectsNoDigit | Program.cs:52-54 | every password without a digit is refused, although the message speaks of a char |
| OptionsValidation.RejectsEmailWithoutAt | Program.cs:51 | every email without `@` is refused |
| OptionsValidation.AcceptsSample | Program.cs:51-54 | "a@b.com" with "Aa1aaaaa" passes both validators |
| Identity.CreateErrors | Program.cs:37 | creation succeeds exactly when the password is accepted and neither the user name nor the email is taken; a taken email yields a DuplicateEmail error |
| Identity.CreateNeverOverwrites | Program.cs:37 | a creation never replaces a stored user: it adds at most one new email and changes no role or membership |
| Identity.CreatePreservesValid | Program.cs:37 | creation keeps one user per email and memberships pointing at stored users and roles |
| Identity.UserNameTakenIffEmail | Program.cs:37 | in a valid store a user name is taken exactly when the same email is |
| Identity.IdentityStore.FindByEmail | Services/DataSeeder.cs:46 | the lookup finds a user exactly when one is stored under that email, and returns it |
| Identity.IdentityStore.CreateRole | Services/DataSeeder.cs:36 | the role is added exactly when the role store accepts it; users and memberships are unchanged |
| Identity.IdentityStore.CreateUser | Controllers/AccountController.cs:112 | returns the creation's errors and adds the user exactly when there are none |
| Identity.IdentityStore.AddToRole | Services/DataSeeder.cs:63 | throws exactly when the role does not exist; otherwise the membership is added and nothing else changes |
| Identity.IdentityStore.Update | Controllers/AccountController.cs:85 | an accepted update replaces the stored record; roles and memberships are unchanged |
| Seeding.RolesAfterAddsAccepted | Services/DataSeeder.cs:31-38 | visiting the role names adds exactly the names the role store accepts and removes nothing |
| Seeding.SeedRolesFrame | Services/DataSeeder.cs:34-37 | role seeding keeps every existing role, adds only the three fixed names, adds each of them that is not rejected, and touches no user or membership |
| Seeding.SeedRolesComplete | Services/DataSeeder.cs:31-38 | when every creation succeeds, Admin, Instructor and Student all exist afterwards |
| Seeding.SeedAdminNoOpWhenPresent | Services/DataSeeder.cs:46-48 | an existing user with the configured email makes admin seeding a no-op |
| Seeding.SeedAdminCreates | Services/DataSeeder.cs:50-64 | an absent administrator is created with user name and email from the options, email confirmed, name and address from the options, and added to Admin; nothing else changes |
| Seeding.SeedAdminMembershipOnlyOnSuccess | Services/DataSeeder.cs:59-64 | the Admin membership appears only after a successful creation; a failed creation leaves the store unchanged; the seeder throws only when Admin is missing |
| Seeding.SeedPreservesValid | Services/DataSeeder.cs:23-66 | seeding keeps the store invariant |
| Seeding.SeedNoOpWhenSeeded | Services/DataSeeder.cs:29-66 | on a store holding the three roles and the administrator, seeding changes nothing whatever the verdicts |
| Seeding.SeedSucceeds | Services/DataSeeder.cs:23-66 | a run in which every creation succeeds does not throw, leaves the three roles and the administrator, and a newly created administrator holds Admin |
| Seeding.SeedIdempotent | Services/DataSeeder.cs:23-66 | after a successful run a second run leaves roles, users and memberships unchanged |
| Seeding.SeedFreshStore | Services/DataSeeder.cs:23-66 | on an empty store a successful run yields exactly the three roles, the administrator and its Admin membership |
| Seeding.DataSeeder.constructor | Services/DataSeeder.cs:14-21 | a seeder exists only for options both validators accept |
| Seeding.DataSeeder.SeedAsync | Services/DataSeeder.cs:23-27 | roles are seeded before the administrator; the new store is the seeding specification's |
| Seeding.DataSeeder.SeedRolesAsync | Services/DataSeeder.cs:29-39 | the loop over the fixed names creates the missing ones the role store accepts and changes nothing else |
| Seeding.DataSeeder.SeedAdminAsync | Services/DataSeeder.cs:41-66 | the administrator step as specified by the admin seeding function |
| Account.MapUser | Controllers/AccountController.cs:31-39 | the projection copies exactly name, address, email and phone number and sets neither grade nor salary |
| Account.ProfileResult | Controllers/AccountController.cs:44-63 | the profile never redirects; it faults exactly when the current user is missing, or is in role Trainee without being a trainee, or is in role Instructor (and not Trainee) without being an instructor |
| Account.ProfileRoleFields | Controllers/AccountController.cs:51-62 | a shown profile is the mapped user plus a grade exactly in role Trainee, a salary exactly in role Instructor without Trainee, never both |
| Account.WithProfile | Controllers/AccountController.cs:82-84 | the edited record takes name, address and phone number from the form and keeps every other field |
| Account.EditSpec | Controllers/AccountController.cs:77-89 | an edit never signs in, adds no error, and changes no role, membership or set of users; a valid edit redirects to Index when there is a current user and faults without changing anything when there is none; a refused update leaves the store as it was |
| Account.EditFrame | Controllers/AccountController.cs:79-88 | an invalid model changes nothing; a valid edit changes only name, address and phone number of the current user; email, user name, kind and all other users are untouched |
| Account.NewTrainee | Controllers/AccountController.cs:107-111 | the new trainee has user name and email equal to the input email, the input name and the input department |
| Account.RegisterSpec | Controllers/AccountController.cs:103-131 | a sign-in happens only for a valid model, of the input email, with a redirect to the profile; registration never changes the roles |
| Account.RegisterInvalidModel | Controllers/AccountController.cs:105-129 | an invalid model makes no store call, signs nobody in, adds no error and returns the submitted form |
| Account.RegisterSignsInOnlyOnCreate | Controllers/AccountController.cs:112-119 | a sign-in follows only a successful creation of a free email; the store then holds the new trainee and its Trainee membership and nothing else changed |
| Account.RegisterFailure | Controllers/AccountController.cs:121-129 | a refused creation leaves the store unchanged, signs nobody in and files one Summary error per store error, in order |
| Account.RegisterDuplicateEmail | Controllers/AccountController.cs:112-129 | registering a taken email creates nobody and shows at least one error |
| Account.RegisterDuplicateErrors | Controllers/AccountController.cs:121-127 | with an accepted password, a taken email yields exactly two Summary errors: the user name is taken, and the email is taken |
| Account.RegisterWithoutTraineeRole | Controllers/AccountController.cs:113-118 | without a Trainee role the user is stored, the action faults and nobody is signed in |
| Account.RegisterThenProfile | Controllers/AccountController.cs:107-119 | after a successful registration the new user's profile carries a grade and no salary |
| Account.LoginSpec | Controllers/AccountController.cs:148-165 | the store is unchanged; a sign-in happens exactly when a user has the email, a password was given and the password check succeeds, and then redirects to Index without error; the action faults exactly when the email is empty or the email is known and the password empty |
| Account.LoginFailureUniform | Controllers/AccountController.cs:150-164 | every failed login with both fields filled in gives one Summary "Invalid Email or Password" error, the form and no sign-in |
| Account.LoginEnumerationResistant | Controllers/AccountController.cs:150-164 | with a password given, an unknown email and a known email with a wrong password give the same result, sign-in and errors |
| Account.LoginEmptyPasswordDistinguishes | Controllers/AccountController.cs:150-164 | with the password field empty, a known email faults while an unknown one gets the generic error |
| Account.AccountController.constructor | Controllers/AccountController.cs:17-22 | a controller starts with the given store and session and no model-state errors |
| Account.AccountController.Index | Controllers/AccountController.cs:43-63 | the lookup, the Trainee branch and the Instructor branch with their type tests give exactly the profile decision for the signed-in user |
| Account.AccountController.EditPage | Controllers/AccountController.cs:67-74 | the edit form shows the mapped current user, or faults when there is none |
| Account.AccountController.EditPost | Controllers/AccountController.cs:75-89 | the result and the new store are those of the edit specification |
| Account.AccountController.Register | Controllers/AccountController.cs:101-131 | result, store, session (persistent) and appended errors are those of the registration specification |
| Account.AccountController.LoginPage | Controllers/AccountController.cs:136-145 | a signed-in caller is redirected to index, any other gets the form; nothing changes |
| Account.AccountController.Login | Controllers/AccountController.cs:146-165 | result, session (persistent) and appended errors are those of the login specification; the store is unchanged |
| Account.AccountController.Logout | Controllers/AccountController.cs:170-174 | the session ends and the caller is sent to login |
| Program.StartupSpec | Program.cs:49-73 | requests are served only with bound options both validators accept, after seeding completed without an exception; a refusal before seeding leaves the store untouched |
| Program.Boot | Program.cs:66-102 | the start-up sequence's outcome and store are those of the start-up specification |
| Program.StartupWithoutSection | Options/AdminOptions.cs:5 | without a section named Admin the required members stay unset and start-up stops with the store untouched |
| Program.StartupRejectsAllLower | Program.cs:52-55 | a configured password "alllower1" stops start-up before seeding |
| Program.StartupServesSeeded | Program.cs:69-73 | with valid options and successful creations the process serves from a seeded store |
| Program.SeededAdminDefaults | Options/AdminOptions.cs:9-10 | an administrator seeded from a section without Name or Address has the empty name or address |
| Program.RegisterGrantsNoSeededRole | Controllers/AccountController.cs:116 | registration adds only a Trainee membership, a role the seeder never creates |

## Left out

- The request timing middleware: it only measures and logs, and it is not registered in the pipeline.
- The Register GET action: it only loads the department list for the view.
- Password hashing, the password check and the password policy: their verdicts are inputs.
- The user validator's checks on user-name characters and email format: only the duplicate checks are modelled.
- User ids: users are identified by email, and the signed-in user's id claim is taken to be that email.
- Role claims: `User.IsInRole` reads the roles in the sign-in cookie; the model reads the store's memberships at request time.
- Cookie issuance and sign-out mechanics, anti-forgery tokens, and `[Authorize]`; the last is the precondition that a caller of `index` and the Edit GET action is signed in.
- Character classes: `char.IsUpper`, `char.IsLower` and `char.IsDigit` are restricted to ASCII, so a password such as "Éabc12" that the source accepts through a non-ASCII upper-case letter is refused by the model.
- LoginFailureUniform: stated for a form with both fields filled in; with an empty field the source throws instead (see LoginSpec and LoginEmptyPasswordDistinguishes).
- LoginEnumerationResistant: stated for a submitted password; with an empty password a known email faults and an unknown one does not, as LoginEmptyPasswordDistinguishes shows.
- Case-insensitive normalisation of emails, user names, role names and configuration keys.
- The rest of each user record (id, password hash, security stamp, normalised names), and the trainee and instructor classes beyond grade, department and salary; Models/*.cs is not part of this model, so grade and salary are integers and a new trainee's grade is 0.
- The asynchronous execution of every action and of the seeder: each is a sequential method.
- Options.Bind: a missing required key yields no record; at run time the member stays null and the validator's null dereference stops start-up, which the model reports as `OptionsUnbound`.
- Service registration, the database context, logging sinks, HTTPS, static files, routing and session middleware.
