/** `PUT /api/user/update` (app/api/user/update/route.js): the signed-in user edits
    their profile. The email, when given, is trimmed and lowercased and must not
    belong to another user; the update then writes the email, name, image, phone
    and address of the token's user. The user collection is a map from id to
    document; the `findOne({ email })` lookup is a parameter, the id of the document
    it returns. */
module ProfileUpdate {
  import opened Common
  import opened Auth

  datatype UserDoc = UserDoc(email: string, password: string, name: string, role: string,
                             image: Option<string>, phone: Option<string>, address: Option<string>)

  /** The parsed body; `None` is a field the body does not set. `Unparseable` is a
      body whose parse throws. */
  datatype Body = Unparseable
                | Body(email: Option<string>, name: Option<string>, image: Option<string>,
                       phone: Option<string>, address: Option<string>)

  /** The update object `{ email, name, image, phone, address }`; `None` is `undefined`. */
  datatype Fields = Fields(email: Option<string>, name: Option<string>, image: Option<string>,
                           phone: Option<string>, address: Option<string>)

  /** The user as returned, without the password (`.select('-password')`). */
  datatype PublicUser = PublicUser(id: string, email: string, name: string, role: string,
                                   image: Option<string>, phone: Option<string>, address: Option<string>)

  datatype Outcome = Outcome(status: int, message: string, emailChecked: bool,
                             users: map<string, UserDoc>, user: Option<PublicUser>)

  const MsgUnauthenticated := "Non authentifié"
  const MsgEmailTaken := "Email déjà utilisé"
  const MsgUnknownUser := "Utilisateur introuvable"
  const MsgServerError := "Erreur serveur"

  /** `email?.trim()?.toLowerCase()`. */
  function Normalize(email: string): string {
    ToLower(Trim(email))
  }

  function NormalizedEmail(body: Body): Option<string>
    requires body.Body?
  {
    match body.email
    case None => None
    case Some(e) => Some(Normalize(e))
  }

  /** `findByIdAndUpdate` with the update object: a key that is `undefined` leaves
      the stored value, every other key replaces it. */
  function ApplyFields(doc: UserDoc, f: Fields): (r: UserDoc)
    ensures r.password == doc.password && r.role == doc.role
    ensures r.email == (if f.email.Some? then f.email.value else doc.email)
    ensures r.name == (if f.name.Some? then f.name.value else doc.name)
    ensures r.image == (if f.image.Some? then f.image else doc.image)
    ensures r.phone == (if f.phone.Some? then f.phone else doc.phone)
    ensures r.address == (if f.address.Some? then f.address else doc.address)
  {
    UserDoc(
      if f.email.Some? then f.email.value else doc.email,
      doc.password,
      if f.name.Some? then f.name.value else doc.name,
      doc.role,
      if f.image.Some? then f.image else doc.image,
      if f.phone.Some? then f.phone else doc.phone,
      if f.address.Some? then f.address else doc.address)
  }

  function Public(id: string, doc: UserDoc): PublicUser {
    PublicUser(id, doc.email, doc.name, doc.role, doc.image, doc.phone, doc.address)
  }

  /** The handler. `owner` is the id of the document `findOne({ email })` returns
      for the normalised email, if any. */
  function Update(payload: Option<Payload>, body: Body, users: map<string, UserDoc>, owner: Option<string>): (o: Outcome)
    ensures payload.None? ==> o == Outcome(401, MsgUnauthenticated, false, users, None)
    ensures o.status != 200 ==> o.users == users && o.user.None?
    ensures o.emailChecked <==> payload.Some? && body.Body? && NormalizedEmail(body).Some? && NormalizedEmail(body).value != ""
    ensures o.status == 409 <==> o.emailChecked && owner.Some? && owner.value != payload.value.id
    ensures payload.Some? && body.Unparseable? ==> o == Outcome(500, MsgServerError, false, users, None)
    ensures o.status == 200 ==> payload.Some? && body.Body?
    ensures payload.Some? && body.Body? && o.status != 409 ==>
      && (o.status == 200 <==> payload.value.id in users)
      && (payload.value.id !in users ==> o == Outcome(404, MsgUnknownUser, o.emailChecked, users, None))
    ensures o.status == 200 && payload.Some? && body.Body? ==>
      var id := payload.value.id;
      var f := Fields(NormalizedEmail(body), body.name, body.image, body.phone, body.address);
      && id in users
      && o.users == users[id := ApplyFields(users[id], f)]
      && o.user == Some(Public(id, o.users[id]))
  {
    if payload.None? then Outcome(401, MsgUnauthenticated, false, users, None)
    else if body.Unparseable? then Outcome(500, MsgServerError, false, users, None)
    else
      var id := payload.value.id;
      var email := NormalizedEmail(body);
      var checked := email.Some? && email.value != "";
      if checked && owner.Some? && owner.value != id then Outcome(409, MsgEmailTaken, true, users, None)
      else if id !in users then Outcome(404, MsgUnknownUser, checked, users, None)
      else
        var doc := ApplyFields(users[id], Fields(email, body.name, body.image, body.phone, body.address));
        Outcome(200, "", checked, users[id := doc], Some(Public(id, doc)))
  }

  // ---------------------------------------------------------------------------
  // Properties

  /** The emails are unique in the collection (`unique: true` in the schema). */
  predicate UniqueEmails(users: map<string, UserDoc>) {
    forall i, j :: i in users && j in users && users[i].email == users[j].email ==> i == j
  }

  /** `owner` is what `findOne({ email })` returns on `users`. */
  predicate LookupOf(users: map<string, UserDoc>, email: string, owner: Option<string>) {
    match owner
    case Some(id) => id in users && users[id].email == email
    case None => forall id :: id in users ==> users[id].email != email
  }

  /** With a faithful lookup, the update is refused exactly when a different user
      holds the normalised email; keeping one's own email is allowed. */
  lemma ConflictIffOtherOwner(payload: Payload, body: Body, users: map<string, UserDoc>, owner: Option<string>)
    requires body.Body? && body.email.Some? && Normalize(body.email.value) != ""
    requires UniqueEmails(users) && LookupOf(users, Normalize(body.email.value), owner)
    ensures Update(Some(payload), body, users, owner).status == 409 <==>
      exists id :: id in users && id != payload.id && users[id].email == Normalize(body.email.value)
  {
    var e := Normalize(body.email.value);
    if exists id :: id in users && id != payload.id && users[id].email == e {
      var id :| id in users && id != payload.id && users[id].email == e;
      assert owner.Some?;
    }
  }

  /** Without an email (absent, or blank once trimmed) the uniqueness lookup is
      skipped and no 409 can occur. */
  lemma NoEmailNoCheck(payload: Payload, body: Body, users: map<string, UserDoc>, owner: Option<string>)
    requires body.Body? && (body.email.None? || Normalize(body.email.value) == "")
    ensures !Update(Some(payload), body, users, owner).emailChecked
    ensures Update(Some(payload), body, users, owner).status != 409
  {
  }

  /** A successful update touches only the caller's document, and in it only the
      five profile fields; the password and the role stay. */
  lemma UpdateIsLocal(payload: Payload, body: Body, users: map<string, UserDoc>, owner: Option<string>)
    requires Update(Some(payload), body, users, owner).status == 200
    ensures var r := Update(Some(payload), body, users, owner).users;
      && r.Keys == users.Keys
      && (forall id :: id in users && id != payload.id ==> r[id] == users[id])
      && r[payload.id].password == users[payload.id].password
      && r[payload.id].role == users[payload.id].role
  {
  }

  /** A sent email is stored normalised; a missing user gives 404 and no write. */
  lemma StoredEmailIsNormalized(payload: Payload, body: Body, users: map<string, UserDoc>, owner: Option<string>)
    requires body.Body? && body.email.Some?
    requires !(owner.Some? && owner.value != payload.id && Normalize(body.email.value) != "")
    ensures payload.id !in users ==> Update(Some(payload), body, users, owner).status == 404
    ensures payload.id in users ==>
      Update(Some(payload), body, users, owner).users[payload.id].email == Normalize(body.email.value)
  {
  }

  /** Lowercasing does not create or remove white space. */
  lemma LowerKeepsWhitespace(c: char)
    ensures IsJsWhitespace(LowerChar(c)) <==> IsJsWhitespace(c)
  {
  }

  /** Normalising twice gives the same email as normalising once. */
  lemma NormalizeIdempotent(email: string)
    ensures Normalize(Normalize(email)) == Normalize(email)
  {
    var t := Trim(email);
    var l := ToLower(t);
    if l != [] {
      LowerKeepsWhitespace(t[0]);
      LowerKeepsWhitespace(t[|t| - 1]);
    }
    TrimUnchanged(l);
    ToLowerIdempotent(t);
  }
}
