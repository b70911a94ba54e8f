/**
 * UserManager of managers.py: `create_user` checks the required fields in
 * a fixed order; `create_superuser` defaults the three flags and checks
 * two of them before delegating.
 */
module Managers {
  import opened Base
  import opened Messages
  import opened Models

  /** The ValueError the manager raises, with its message. */
  datatype ManagerError = ValueError(message: string)

  const EmailMissing := "The Email field must be set"
  const DateOfBirthMissing := "The Date of Birth field must be set"
  const CountryMissing := "The Country field must be set"
  const UsernameMissing := "The Username field must be set"
  const StaffRequired := "Superuser must have is_staff=True"
  const SuperuserRequired := "Superuser must have is_superuser=True"

  /** Python truthiness of an optional text argument: present and non-empty. */
  predicate Given(o: Option<string>) {
    o.Some? && o.value != ""
  }

  /**
   * The named parameters of create_user. Python binds these keywords to
   * the parameters, so `**extra_fields` never holds one of them.
   */
  const NamedParameters: set<string> := {"username", "email", "date_of_birth", "country", "password"}

  /** The flags create_superuser fills in when the caller did not. */
  const SuperuserFlags: set<string> := {"is_staff", "is_superuser", "is_premium"}

  /**
   * `create_user`. The key the database assigns on save is `id`;
   * `normalizeEmail` and `hashPassword` stand for `normalize_email` and
   * `set_password`. The e-mail confirmation fields start unconfirmed and
   * without a token.
   */
  function CreateUser(
    username: Option<string>, email: Option<string>, dateOfBirth: Option<string>, country: Option<string>,
    password: Option<string>, extraFields: map<string, Value>,
    id: UserId, normalizeEmail: string -> string, hashPassword: Option<string> -> string)
    : (r: Result<User, ManagerError>)
    requires extraFields.Keys !! NamedParameters
    ensures r.Success? <==> Given(email) && Given(dateOfBirth) && Given(country) && Given(username)
    ensures !Given(email) ==> r == Failure(ValueError(EmailMissing))
    ensures r.Success? ==>
      && r.value.id == id
      && r.value.username == username.value
      && r.value.email == normalizeEmail(email.value)
      && r.value.dateOfBirth == dateOfBirth.value
      && r.value.country == country.value
      && r.value.password == hashPassword(password)
      && r.value.extraFields == extraFields
  {
    if !Given(email) then Failure(ValueError(EmailMissing))
    else if !Given(dateOfBirth) then Failure(ValueError(DateOfBirthMissing))
    else if !Given(country) then Failure(ValueError(CountryMissing))
    else if !Given(username) then Failure(ValueError(UsernameMissing))
    else
      Success(User(id, username.value, normalizeEmail(email.value), dateOfBirth.value, country.value,
                   hashPassword(password), extraFields, false, None))
  }

  /** Reference definition: the message of the first absent field of a check list. */
  function FirstMissing(checks: seq<(Option<string>, string)>): (m: Option<string>)
    ensures m.Some? <==> exists k :: 0 <= k < |checks| && !Given(checks[k].0)
  {
    if checks == [] then None
    else if !Given(checks[0].0) then Some(checks[0].1)
    else
      var rest := FirstMissing(checks[1..]);
      assert forall k :: 1 <= k < |checks| ==> checks[k] == checks[1..][k - 1];
      rest
  }

  /** The checks create_user makes, in its order. */
  function RequiredChecks(
    username: Option<string>, email: Option<string>, dateOfBirth: Option<string>, country: Option<string>)
    : seq<(Option<string>, string)>
  {
    [(email, EmailMissing), (dateOfBirth, DateOfBirthMissing), (country, CountryMissing), (username, UsernameMissing)]
  }

  /** The error of create_user is the message of the first absent field, in the order email, date of birth, country, username. */
  lemma CreateUserReportsFirstMissing(
    username: Option<string>, email: Option<string>, dateOfBirth: Option<string>, country: Option<string>,
    password: Option<string>, extraFields: map<string, Value>,
    id: UserId, normalizeEmail: string -> string, hashPassword: Option<string> -> string)
    requires extraFields.Keys !! NamedParameters
    ensures var r := CreateUser(username, email, dateOfBirth, country, password, extraFields,
                                id, normalizeEmail, hashPassword);
      var first := FirstMissing(RequiredChecks(username, email, dateOfBirth, country));
      && (r.Success? <==> first.None?)
      && (r.Failure? ==> first == Some(r.error.message))
  {
    var c3: seq<(Option<string>, string)> := [(username, UsernameMissing)];
    var c2 := [(country, CountryMissing)] + c3;
    var c1 := [(dateOfBirth, DateOfBirthMissing)] + c2;
    var checks := [(email, EmailMissing)] + c1;
    assert checks == RequiredChecks(username, email, dateOfBirth, country);
    assert checks[1..] == c1 && c1[1..] == c2 && c2[1..] == c3 && c3[1..] == [];
    assert FirstMissing(c3) == if !Given(username) then Some(UsernameMissing) else None;
    assert FirstMissing(c2) == if !Given(country) then Some(CountryMissing) else FirstMissing(c3);
    assert FirstMissing(c1) == if !Given(dateOfBirth) then Some(DateOfBirthMissing) else FirstMissing(c2);
    assert FirstMissing(checks) == if !Given(email) then Some(EmailMissing) else FirstMissing(c1);
  }

  /** `setdefault` of the three flags: a supplied value is kept, a missing one becomes True. */
  function WithSuperuserDefaults(extraFields: map<string, Value>): (r: map<string, Value>)
    ensures r.Keys == extraFields.Keys + SuperuserFlags
    ensures forall k :: k in extraFields ==> r[k] == extraFields[k]
    ensures forall k :: k in SuperuserFlags && k !in extraFields ==> r[k] == Bool(true)
  {
    map k | k in extraFields.Keys + SuperuserFlags :: if k in extraFields then extraFields[k] else Bool(true)
  }

  /**
   * `create_superuser`: the flag checks come before every field check of
   * create_user, is_staff before is_superuser, and each demands exactly
   * `True`; is_premium is never checked.
   */
  method CreateSuperuser(
    username: Option<string>, email: Option<string>, dateOfBirth: Option<string>, country: Option<string>,
    password: Option<string>, extraFields: map<string, Value>,
    id: UserId, normalizeEmail: string -> string, hashPassword: Option<string> -> string)
    returns (r: Result<User, ManagerError>)
    requires extraFields.Keys !! NamedParameters
    ensures var flags := WithSuperuserDefaults(extraFields);
      && (flags["is_staff"] != Bool(true) ==> r == Failure(ValueError(StaffRequired)))
      && (flags["is_staff"] == Bool(true) && flags["is_superuser"] != Bool(true) ==>
            r == Failure(ValueError(SuperuserRequired)))
      && (flags["is_staff"] == Bool(true) && flags["is_superuser"] == Bool(true) ==>
            r == CreateUser(username, email, dateOfBirth, country, password, flags,
                            id, normalizeEmail, hashPassword))
  {
    var extra := extraFields;
    if "is_staff" !in extra { extra := extra["is_staff" := Bool(true)]; }
    if "is_superuser" !in extra { extra := extra["is_superuser" := Bool(true)]; }
    if "is_premium" !in extra { extra := extra["is_premium" := Bool(true)]; }
    assert extra == WithSuperuserDefaults(extraFields);
    if extra["is_staff"] != Bool(true) {
      return Failure(ValueError(StaffRequired));
    }
    if extra["is_superuser"] != Bool(true) {
      return Failure(ValueError(SuperuserRequired));
    }
    r := CreateUser(username, email, dateOfBirth, country, password, extra, id, normalizeEmail, hashPassword);
  }

  /** A superuser created without is_premium is premium; an explicit value, False included, is kept. */
  lemma SuperuserPremiumFlag(
    username: Option<string>, email: Option<string>, dateOfBirth: Option<string>, country: Option<string>,
    password: Option<string>, extraFields: map<string, Value>,
    id: UserId, normalizeEmail: string -> string, hashPassword: Option<string> -> string)
    requires extraFields.Keys !! NamedParameters
    requires CreateUser(username, email, dateOfBirth, country, password, WithSuperuserDefaults(extraFields),
                        id, normalizeEmail, hashPassword).Success?
    ensures var u := CreateUser(username, email, dateOfBirth, country, password,
                                WithSuperuserDefaults(extraFields), id, normalizeEmail, hashPassword).value;
      && u.extraFields["is_premium"] == (if "is_premium" in extraFields then extraFields["is_premium"] else Bool(true))
      && u.extraFields["is_staff"] == (if "is_staff" in extraFields then extraFields["is_staff"] else Bool(true))
  {
  }
}
