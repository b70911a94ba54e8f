/**
 * VerifyEmailView and UpdateEmailView of views.py: the e-mail
 * confirmation token is set on an address change and consumed once.
 */
module AccountViews {
  import opened Base
  import opened Text
  import opened Models
  import opened Http

  const TokenRequired := "Token is required."
  const InvalidToken := "Invalid token"
  const InvalidOrExpired := "Invalid or expired token"
  const EmailConfirmed := "Email successfully confirmed."
  const EmailUpdated := "Email updated. Please confirm your new email."

  /** Rows holding token `t`: `User.objects.filter(email_confirmation_token=t)`. */
  function Holders(users: seq<User>, t: Uuid): set<nat> {
    set i | 0 <= i < |users| && users[i].emailConfirmationToken == Some(t)
  }

  /** The row after a successful confirmation. */
  function Confirm(u: User): User {
    u.(emailConfirmed := true, emailConfirmationToken := None)
  }

  /** Is the address already stored on some row (the requester's included)? */
  predicate EmailTaken(users: seq<User>, email: string) {
    exists j :: 0 <= j < |users| && users[j].email == email
  }

  lemma OnlyMember(s: set<nat>, i: nat)
    requires |s| == 1 && i in s
    ensures s == {i}
  {
    assert |s - {i}| == 0;
  }

  /**
   * VerifyEmailView.get on the user table: the response and the table
   * afterwards. `parseUuid` is `uuid.UUID` (None where it raises). The
   * lookup is `get`: no holder answers "Invalid or expired token", two
   * or more raise MultipleObjectsReturned, which nothing catches.
   */
  ghost function VerifyEmail(users: seq<User>, token: Option<string>, parseUuid: string -> Option<Uuid>)
    : (r: (Response, seq<User>))
    ensures r.0.status == OK <==>
      token.Some? && token.value != "" && parseUuid(token.value).Some? &&
      |Holders(users, parseUuid(token.value).value)| == 1
    ensures r.0.status != OK ==> r.1 == users
    ensures r.0.status == OK ==>
      exists i :: Holders(users, parseUuid(token.value).value) == {i} && r.1 == users[i := Confirm(users[i])]
  {
    if token.None? || token.value == "" then
      (Response(BAD_REQUEST, DetailBody(TokenRequired)), users)
    else if parseUuid(token.value).None? then
      (Response(BAD_REQUEST, DetailBody(InvalidToken)), users)
    else
      var holders := Holders(users, parseUuid(token.value).value);
      if |holders| == 0 then (Response(BAD_REQUEST, DetailBody(InvalidOrExpired)), users)
      else if |holders| > 1 then (Response(SERVER_ERROR, Uncaught), users)
      else
        var i :| i in holders;
        OnlyMember(holders, i);
        (Response(OK, MessageBody(EmailConfirmed)), users[i := Confirm(users[i])])
  }

  /** The rejections come in this order: missing, malformed, unknown, ambiguous. */
  lemma VerifyEmailRejections(users: seq<User>, token: Option<string>, parseUuid: string -> Option<Uuid>)
    ensures token.None? || token.value == "" ==>
      VerifyEmail(users, token, parseUuid).0 == Response(BAD_REQUEST, DetailBody(TokenRequired))
    ensures token.Some? && token.value != "" && parseUuid(token.value).None? ==>
      VerifyEmail(users, token, parseUuid).0 == Response(BAD_REQUEST, DetailBody(InvalidToken))
    ensures (token.Some? && token.value != "" && parseUuid(token.value).Some? &&
             Holders(users, parseUuid(token.value).value) == {}) ==>
      VerifyEmail(users, token, parseUuid).0 == Response(BAD_REQUEST, DetailBody(InvalidOrExpired))
    ensures (token.Some? && token.value != "" && parseUuid(token.value).Some? &&
             |Holders(users, parseUuid(token.value).value)| > 1) ==>
      VerifyEmail(users, token, parseUuid).0 == Response(SERVER_ERROR, Uncaught)
  {
  }

  /** A token is consumed by its first successful use: the same token is refused afterwards. */
  lemma VerifyTwiceFails(users: seq<User>, token: Option<string>, parseUuid: string -> Option<Uuid>)
    requires VerifyEmail(users, token, parseUuid).0.status == OK
    ensures var after := VerifyEmail(users, token, parseUuid).1;
      VerifyEmail(after, token, parseUuid).0 == Response(BAD_REQUEST, DetailBody(InvalidOrExpired))
  {
    var t := parseUuid(token.value).value;
    var after := VerifyEmail(users, token, parseUuid).1;
    var i :| Holders(users, t) == {i} && after == users[i := Confirm(users[i])];
    forall j | 0 <= j < |after| ensures after[j].emailConfirmationToken != Some(t) {
      if j != i {
        assert j !in Holders(users, t);
      }
    }
    assert Holders(after, t) == {};
  }

  /**
   * What the serializer's EmailField accepts of the trimmed address: not
   * blank, at most 254 characters (the model field's `max_length`), and
   * an address by `emailValid`, which stands for Django's EmailValidator.
   */
  predicate AddressAccepted(cleaned: string, emailValid: string -> bool) {
    cleaned != "" && |cleaned| <= 254 && emailValid(cleaned)
  }

  /**
   * UpdateEmailView.post for the requester in row `i`. The EmailField
   * trims the posted address first; the serializer then refuses an
   * address it does not accept and any address already stored (of any
   * user, the requester included). Otherwise the row gets the trimmed
   * address, a fresh token `newToken` (the `uuid4()` draw) and is
   * unconfirmed.
   */
  function UpdateEmail(users: seq<User>, i: nat, email: string, emailValid: string -> bool, newToken: Uuid)
    : (r: (Response, seq<User>))
    requires i < |users|
    ensures r.0.status == OK <==> AddressAccepted(Trim(email), emailValid) && !EmailTaken(users, Trim(email))
    ensures r.0.status != OK ==> r.0 == Response(BAD_REQUEST, FieldErrors("email")) && r.1 == users
    ensures r.0.status == OK ==>
      && |r.1| == |users|
      && r.1[i].email == Trim(email) && !r.1[i].emailConfirmed && r.1[i].emailConfirmationToken == Some(newToken)
      && r.1[i] == users[i].(email := Trim(email), emailConfirmed := false, emailConfirmationToken := Some(newToken))
      && forall j :: 0 <= j < |users| && j != i ==> r.1[j] == users[j]
  {
    var cleaned := Trim(email);
    if !AddressAccepted(cleaned, emailValid) || EmailTaken(users, cleaned) then
      (Response(BAD_REQUEST, FieldErrors("email")), users)
    else
      var u := users[i].(email := cleaned);
      var u' := u.(emailConfirmationToken := Some(newToken), emailConfirmed := false);
      (Response(OK, MessageBody(EmailUpdated)), users[i := u'])
  }

  /**
   * Surrounding whitespace makes no difference: a padded address is
   * accepted, refused and stored exactly as its trimmed form is.
   */
  lemma UpdateEmailIgnoresPadding(
    users: seq<User>, i: nat, email: string, emailValid: string -> bool, newToken: Uuid)
    requires i < |users|
    ensures UpdateEmail(users, i, email, emailValid, newToken) == UpdateEmail(users, i, Trim(email), emailValid, newToken)
  {
    TrimIdempotent(email);
  }

  /**
   * After an address change, the token that was issued confirms the new
   * address, provided no other row holds the same UUID.
   */
  lemma UpdateThenVerify(
    users: seq<User>, i: nat, email: string, emailValid: string -> bool, newToken: Uuid,
    token: string, parseUuid: string -> Option<Uuid>)
    requires i < |users|
    requires UpdateEmail(users, i, email, emailValid, newToken).0.status == OK
    requires forall j :: 0 <= j < |users| && j != i ==> users[j].emailConfirmationToken != Some(newToken)
    requires token != "" && parseUuid(token) == Some(newToken)
    ensures var updated := UpdateEmail(users, i, email, emailValid, newToken).1;
      var verified := VerifyEmail(updated, Some(token), parseUuid);
      && verified.0.status == OK
      && verified.1[i].email == Trim(email) && verified.1[i].emailConfirmed
  {
    var updated := UpdateEmail(users, i, email, emailValid, newToken).1;
    forall j | 0 <= j < |updated| ensures j in Holders(updated, newToken) <==> j == i {
      if j != i { assert updated[j] == users[j]; }
    }
    assert Holders(updated, newToken) == {i};
  }

  /** VerifyEmailView.get, saving the confirmed row in place. */
  method HandleVerifyEmail(db: UserTable, token: Option<string>, parseUuid: string -> Option<Uuid>)
    returns (resp: Response)
    requires db.Valid()
    modifies db
    ensures db.Valid()
    ensures (resp, db.users) == VerifyEmail(old(db.users), token, parseUuid)
  {
    if token.None? || token.value == "" {
      return Response(BAD_REQUEST, DetailBody(TokenRequired));
    }
    var parsed := parseUuid(token.value);
    if parsed.None? {
      return Response(BAD_REQUEST, DetailBody(InvalidToken));
    }
    var holders := Holders(db.users, parsed.value);
    if |holders| == 0 {
      return Response(BAD_REQUEST, DetailBody(InvalidOrExpired));
    }
    if |holders| > 1 {
      return Response(SERVER_ERROR, Uncaught);
    }
    var i :| i in holders;
    OnlyMember(holders, i);
    var user := db.users[i];
    user := user.(emailConfirmed := true);
    user := user.(emailConfirmationToken := None);
    db.Save(i, user);
    resp := Response(OK, MessageBody(EmailConfirmed));
  }

  /** UpdateEmailView.post for the requester in row `i`; the confirmation mail is not modelled. */
  method HandleUpdateEmail(db: UserTable, i: nat, email: string, emailValid: string -> bool, newToken: Uuid)
    returns (resp: Response)
    requires db.Valid() && i < |db.users|
    modifies db
    ensures db.Valid()
    ensures (resp, db.users) == UpdateEmail(old(db.users), i, email, emailValid, newToken)
  {
    var cleaned := Trim(email);
    if !AddressAccepted(cleaned, emailValid) || EmailTaken(db.users, cleaned) {
      return Response(BAD_REQUEST, FieldErrors("email"));
    }
    var user := db.users[i].(email := cleaned);
    db.Save(i, user);
    user := user.(emailConfirmationToken := Some(newToken));
    user := user.(emailConfirmed := false);
    db.Save(i, user);
    assert db.users == old(db.users)[i := user];
    resp := Response(OK, MessageBody(EmailUpdated));
  }
}
