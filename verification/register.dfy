/** Account registration: the request's fields are normalised, checked in a
    fixed order, and a new user is appended to the user collection only
    when the e-mail address is not taken. */
module Register {
  import opened Wrappers
  import opened Text

  /** A stored account. The password is kept only as its hash. */
  datatype UserRecord = UserRecord(
    id: string,
    name: string,
    email: string,
    password: string,
    role: string,
    createdAt: string,
    updatedAt: string)

  /** The request body: text that is not JSON, or the three keys the route
      reads. */
  datatype RegisterBody =
    | Unreadable
    | Body(name: JsonField, email: JsonField, password: JsonField)

  /** The route's answers: 400 for missing fields, 400 for a short
      password, 409 for a taken address, 201 with the new id, 500 for any
      exception. */
  datatype RegisterResponse =
    | MissingFields
    | PasswordTooShort
    | EmailTaken
    | Created(userId: string)
    | InternalError

  const MinPasswordLength := 8

  /** The name as it is stored: trimmed. A missing name reads as empty. */
  function NormalName(f: JsonField): (r: string)
    ensures Trimmed(r)
    ensures f.Str? ==> Stripped(f.text, r) && (r == [] <==> AllWhitespace(f.text))
    ensures !f.Str? ==> r == []
    ensures f.Str? && f.text != "" && Trimmed(f.text) ==> r == f.text
  {
    if f.Str? then (TrimmedFixed(f.text); Trim(f.text)) else ""
  }

  /** The address as it is stored and looked up: lower-cased, then
      trimmed. A missing address reads as empty. */
  function NormalEmail(f: JsonField): (r: string)
    ensures Trimmed(r) && LowerCased(r)
    ensures f.Str? ==> Stripped(ToLower(f.text), r)
    ensures !f.Str? ==> r == []
  {
    if f.Str? then
      LowerCasedFacts(f.text);
      TrimKeepsLowerCased(ToLower(f.text));
      TrimmedFixed(ToLower(f.text));
      Trim(ToLower(f.text))
    else ""
  }

  /** Normalising an address that is already normal changes nothing, so an
      address typed with other capitals or padding meets the stored one. */
  lemma NormalEmailIdempotent(f: JsonField)
    ensures NormalEmail(Str(NormalEmail(f))) == NormalEmail(f)
  {
    var e := NormalEmail(f);
    LowerCasedFacts(e);
    TrimmedFixed(e);
  }

  /** Calling `trim` on a value that is not a string throws, and so does a
      body that is not JSON. */
  predicate Throws(body: RegisterBody) {
    body.Unreadable? || body.name.Other? || body.email.Other?
  }

  /** Name, address or password is missing or empty after normalisation. */
  predicate MissingField(body: RegisterBody)
    requires body.Body?
  {
    || NormalName(body.name) == ""
    || NormalEmail(body.email) == ""
    || body.password.IsNullish()
    || body.password == Str("")
  }

  /** Some stored account has this address. */
  predicate Registered(users: seq<UserRecord>, email: string) {
    exists i :: 0 <= i < |users| && users[i].email == email
  }

  /** No two accounts share an address. */
  predicate UniqueEmails(users: seq<UserRecord>) {
    forall i, j :: 0 <= i < j < |users| ==> users[i].email != users[j].email
  }

  /** `POST /api/auth/register`. The hash function, the new record's id and
      the clock are parameters. */
  function Register(users: seq<UserRecord>, body: RegisterBody, hash: string -> string,
                    freshId: string, now: string): (r: (RegisterResponse, seq<UserRecord>))
    ensures !r.0.Created? ==> r.1 == users
    ensures r.0.InternalError? <==>
              Throws(body) || (!MissingField(body) && body.password.Other?)
    ensures r.0.MissingFields? <==> !Throws(body) && MissingField(body)
    ensures r.0.PasswordTooShort? <==>
              && !Throws(body) && !MissingField(body) && body.password.Str?
              && Utf16Length(body.password.text) < MinPasswordLength
    ensures r.0.EmailTaken? <==>
              && !Throws(body) && !MissingField(body) && body.password.Str?
              && Utf16Length(body.password.text) >= MinPasswordLength
              && Registered(users, NormalEmail(body.email))
    ensures r.0.Created? ==>
              && r.0.userId == freshId
              && r.1 == users + [UserRecord(freshId, NormalName(body.name), NormalEmail(body.email),
                                            hash(body.password.text), "user", now, now)]
  {
    if Throws(body) then (InternalError, users)
    else if MissingField(body) then (MissingFields, users)
    else if body.password.Other? then (InternalError, users)
    else
      var password := body.password.text;
      var email := NormalEmail(body.email);
      if Utf16Length(password) < MinPasswordLength then (PasswordTooShort, users)
      else if Registered(users, email) then (EmailTaken, users)
      else
        var user := UserRecord(freshId, NormalName(body.name), email, hash(password), "user", now, now);
        (Created(freshId), users + [user])
  }

  /** A registration never lets two accounts share an address. */
  lemma RegisterKeepsEmailsUnique(users: seq<UserRecord>, body: RegisterBody, hash: string -> string,
                                  freshId: string, now: string)
    requires UniqueEmails(users)
    ensures UniqueEmails(Register(users, body, hash, freshId, now).1)
  {
    var r := Register(users, body, hash, freshId, now);
    if r.0.Created? {
      var email := NormalEmail(body.email);
      forall i, j | 0 <= i < j < |r.1| ensures r.1[i].email != r.1[j].email {
        if j == |users| {
          assert r.1[j].email == email;
          assert r.1[i] == users[i];
        }
      }
    }
  }

  /** One attempt in a sequence of registrations, with the id and time it
      would be stored under. */
  datatype Attempt = Attempt(body: RegisterBody, freshId: string, now: string)

  /** The user collection after a sequence of registrations. */
  function RegisterAll(users: seq<UserRecord>, attempts: seq<Attempt>, hash: string -> string): seq<UserRecord>
    decreases |attempts|
  {
    if attempts == [] then users
    else
      var a := attempts[0];
      RegisterAll(Register(users, a.body, hash, a.freshId, a.now).1, attempts[1..], hash)
  }

  /** However many people register, no address is stored twice. */
  lemma {:induction false} RegisterAllKeepsEmailsUnique(users: seq<UserRecord>, attempts: seq<Attempt>,
                                                        hash: string -> string)
    requires UniqueEmails(users)
    ensures UniqueEmails(RegisterAll(users, attempts, hash))
    decreases |attempts|
  {
    if attempts != [] {
      var a := attempts[0];
      RegisterKeepsEmailsUnique(users, a.body, hash, a.freshId, a.now);
      RegisterAllKeepsEmailsUnique(Register(users, a.body, hash, a.freshId, a.now).1, attempts[1..], hash);
    }
  }

  /** A request that passes the field and password checks for a new
      address is accepted; a second request for that address, however it is
      capitalised or padded, is then refused with 409 when it gets past the
      same checks. */
  lemma SecondRegistrationTaken(users: seq<UserRecord>, first: RegisterBody, second: RegisterBody,
                                hash: string -> string, freshId: string, now: string)
    requires !Throws(first) && !MissingField(first) && first.password.Str?
    requires Utf16Length(first.password.text) >= MinPasswordLength
    requires !Registered(users, NormalEmail(first.email))
    requires !Throws(second) && !MissingField(second) && second.password.Str?
    requires Utf16Length(second.password.text) >= MinPasswordLength
    requires NormalEmail(second.email) == NormalEmail(first.email)
    ensures Register(users, first, hash, freshId, now).0.Created?
    ensures Register(Register(users, first, hash, freshId, now).1, second, hash, freshId, now).0 == EmailTaken
  {
    var after := Register(users, first, hash, freshId, now).1;
    assert after[|users|].email == NormalEmail(first.email);
  }
}
