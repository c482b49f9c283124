/** `POST /api/auth/register` (app/api/auth/register/route.js): checks that the
    three fields are present, that the email has the expected shape and that it is
    not registered yet, in that order, then stores the user with the hashed
    password. The database is the set of stored emails and the outcome of the
    insert; bcrypt is a parameter `hash`. The user schema (models/User.js) casts the
    email to lower case and trims it, both in the `findOne({ email })` filter and in
    the stored document, and trims the name, which must then be non-empty. */
module Register {
  import opened Common

  /** The parsed body. `Unparseable` is a body whose parse or destructuring throws.
      A field that is absent, null or any other falsy value is `None`; a present
      field is its string. */
  datatype Body = Unparseable | Body(email: Option<string>, password: Option<string>, name: Option<string>)

  datatype NewUser = NewUser(email: string, password: string, name: string)

  /** The reply, with the document the handler creates, if it gets that far. */
  datatype Outcome = Outcome(status: int, message: string, lookedUp: bool, created: Option<NewUser>)

  const MsgMissing := "Email, mot de passe et nom requis"
  const MsgBadEmail := "Format d'email invalide"
  const MsgTaken := "Cet email est déjà utilisé"
  const MsgDone := "Inscription réussie"
  const MsgServerError := "Erreur serveur"

  /** `!v`: absent or the empty string. */
  predicate Falsy(v: Option<string>) {
    v.None? || v.value == ""
  }

  /** `[^\s@]+` matching all of `t`. */
  predicate Plain(t: string) {
    |t| > 0 && forall k :: 0 <= k < |t| ==> !IsJsWhitespace(t[k]) && t[k] != '@'
  }

  /** `/^[^\s@]+@[^\s@]+\.[^\s@]+$/.test(s)`: a run, an `@`, a run, a dot, a run,
      where no run is empty or holds white space or `@`. The dot may be any dot
      that leaves a run on either side (the first run after `@` may hold dots). */
  predicate EmailMatches(s: string) {
    exists a, d :: 0 < a < d < |s| - 1 && MatchesAt(s, a, d)
  }

  /** The pattern matches `s` with its `@` at `a` and the dot it uses at `d`. */
  predicate MatchesAt(s: string, a: int, d: int) {
    0 < a < d < |s| - 1 && s[a] == '@' && s[d] == '.'
      && Plain(s[..a]) && Plain(s[a + 1..d]) && Plain(s[d + 1..])
  }

  /** The shape in words: no white space, exactly one `@`, something before it,
      and after it a dot with something on both sides. */
  predicate EmailShape(s: string) {
    && (forall k :: 0 <= k < |s| ==> !IsJsWhitespace(s[k]))
    && (exists a :: 0 < a < |s| && s[a] == '@' && (forall k :: 0 <= k < |s| && s[k] == '@' ==> k == a)
         && exists d :: a + 1 < d < |s| - 1 && s[d] == '.')
  }

  /** The schema's cast of the email: `lowercase`, then `trim`. */
  function StoredEmail(email: string): string {
    Trim(ToLower(email))
  }

  /** Every check of the handler passes and the document is valid: the name is
      not blank once the schema trims it. */
  predicate Accepted(body: Body, registered: set<string>)
  {
    && body.Body? && !Falsy(body.email) && !Falsy(body.password) && !Falsy(body.name)
    && EmailMatches(body.email.value) && StoredEmail(body.email.value) !in registered
    && Trim(body.name.value) != ""
  }

  /** The handler. The insert fails when the database refuses it (`insertSucceeds`
      false) or when validation rejects a name that trims to nothing; both throw
      and are answered with 500. */
  function Register(body: Body, registered: set<string>, hash: string -> string, insertSucceeds: bool): (o: Outcome)
    ensures o.created.Some? <==> o.status == 200
    ensures body.Unparseable? ==> o == Outcome(500, MsgServerError, false, None)
    ensures o.lookedUp ==> body.Body? && !Falsy(body.email) && !Falsy(body.password) && !Falsy(body.name)
                             && EmailMatches(body.email.value)
    ensures o.created.Some? ==> o.lookedUp && Accepted(body, registered) && insertSucceeds
    ensures Accepted(body, registered) && insertSucceeds ==>
              o == Outcome(200, MsgDone, true,
                           Some(NewUser(StoredEmail(body.email.value), hash(body.password.value), Trim(body.name.value))))
    ensures o.lookedUp && StoredEmail(body.email.value) !in registered && !(Accepted(body, registered) && insertSucceeds) ==>
              o == Outcome(500, MsgServerError, true, None)
  {
    if body.Unparseable? then Outcome(500, MsgServerError, false, None)
    else if Falsy(body.email) || Falsy(body.password) || Falsy(body.name) then Outcome(400, MsgMissing, false, None)
    else if !EmailMatches(body.email.value) then Outcome(400, MsgBadEmail, false, None)
    else if StoredEmail(body.email.value) in registered then Outcome(400, MsgTaken, true, None)
    else if !insertSucceeds || Trim(body.name.value) == "" then Outcome(500, MsgServerError, true, None)
    else Outcome(200, MsgDone, true,
                 Some(NewUser(StoredEmail(body.email.value), hash(body.password.value), Trim(body.name.value))))
  }

  /** The checks run in order: a missing field is reported before a malformed
      email, and a malformed email before a taken one, with no lookup for either. */
  lemma CheckOrder(body: Body, registered: set<string>, hash: string -> string, insertSucceeds: bool)
    requires body.Body?
    ensures var o := Register(body, registered, hash, insertSucceeds);
      && (Falsy(body.email) || Falsy(body.password) || Falsy(body.name) ==> o == Outcome(400, MsgMissing, false, None))
      && ((!Falsy(body.email) && !Falsy(body.password) && !Falsy(body.name) && !EmailMatches(body.email.value))
            ==> o == Outcome(400, MsgBadEmail, false, None))
      && ((!Falsy(body.email) && !Falsy(body.password) && !Falsy(body.name) && EmailMatches(body.email.value)
             && StoredEmail(body.email.value) in registered)
            ==> o == Outcome(400, MsgTaken, true, None))
  {
  }

  /** The schema's cast makes the uniqueness check blind to case: signing up as
      `A@b.c` when `a@b.c` is stored is refused as taken. */
  lemma MixedCaseEmailIsTaken(password: string, name: string, hash: string -> string, insertSucceeds: bool)
    requires password != "" && name != ""
    ensures Register(Body(Some("A@b.c"), Some(password), Some(name)), {"a@b.c"}, hash, insertSucceeds)
            == Outcome(400, MsgTaken, true, None)
  {
    assert MatchesAt("A@b.c", 1, 3);
    StoredMixedCaseEmail();
  }

  lemma StoredMixedCaseEmail()
    ensures StoredEmail("A@b.c") == "a@b.c"
  {
    LowerMixedCaseEmail();
    TrimUnchanged("a@b.c");
  }

  lemma LowerMixedCaseEmail()
    ensures ToLower("A@b.c") == "a@b.c"
  {
    var r := ToLower("A@b.c");
    assert r[0] == 'a' && r[1] == '@' && r[2] == 'b' && r[3] == '.' && r[4] == 'c';
  }

  /** A sign-up that passes every check is stored under the lower-cased email, so
      a second sign-up with the same email in any case is refused. */
  lemma SignUpBlocksCaseVariants(body: Body, registered: set<string>, hash: string -> string, other: Body)
    requires Accepted(body, registered)
    requires other.Body? && !Falsy(other.email) && !Falsy(other.password) && !Falsy(other.name)
    requires EmailMatches(other.email.value) && ToLower(other.email.value) == ToLower(body.email.value)
    ensures var o := Register(body, registered, hash, true);
      Register(other, registered + {o.created.value.email}, hash, true) == Outcome(400, MsgTaken, true, None)
  {
  }

  /** An email is accepted exactly when it has the shape described in words. */
  lemma EmailMatchesShape(s: string)
    ensures EmailMatches(s) <==> EmailShape(s)
  {
    if EmailMatches(s) {
      var a, d :| 0 < a < d < |s| - 1 && MatchesAt(s, a, d);
      PlainRangeOf(s, 0, a);
      PlainRangeOf(s, a + 1, d);
      PlainRangeOf(s, d + 1, |s|);
      assert forall k :: 0 <= k < |s| && k != a ==> !IsJsWhitespace(s[k]) && s[k] != '@';
    }
    if EmailShape(s) {
      var a :| 0 < a < |s| && s[a] == '@' && (forall k :: 0 <= k < |s| && s[k] == '@' ==> k == a)
         && exists d :: a + 1 < d < |s| - 1 && s[d] == '.';
      var d :| a + 1 < d < |s| - 1 && s[d] == '.';
      PlainOfRange(s, 0, a);
      PlainOfRange(s, a + 1, d);
      PlainOfRange(s, d + 1, |s|);
      assert MatchesAt(s, a, d);
    }
  }

  /** No white space and no `@` in `s[lo..hi]`, by position in `s`. */
  predicate PlainRange(s: string, lo: int, hi: int)
    requires 0 <= lo <= hi <= |s|
  {
    forall k :: lo <= k < hi ==> !IsJsWhitespace(s[k]) && s[k] != '@'
  }

  lemma PlainRangeOf(s: string, lo: int, hi: int)
    requires 0 <= lo < hi <= |s| && Plain(s[lo..hi])
    ensures PlainRange(s, lo, hi)
  {
    var t := s[lo..hi];
    assert forall k :: lo <= k < hi ==> s[k] == t[k - lo];
  }

  lemma PlainOfRange(s: string, lo: int, hi: int)
    requires 0 <= lo < hi <= |s| && PlainRange(s, lo, hi)
    ensures Plain(s[lo..hi])
  {
    var t := s[lo..hi];
    assert forall k :: 0 <= k < |t| ==> t[k] == s[lo + k];
  }

  /** Examples of the pattern: the part after `@` may hold several dots, but two
      `@` or a missing dot are refused. */
  lemma EmailExamples()
    ensures EmailMatches("a@b.c")
    ensures EmailMatches("a@b.c.d")
    ensures !EmailMatches("a@b@c.d")
    ensures !EmailMatches("a@bc")
    ensures !EmailMatches("a b@c.d")
  {
    assert MatchesAt("a@b.c", 1, 3);
    assert MatchesAt("a@b.c.d", 1, 5);
    EmailMatchesShape("a@b@c.d");
    assert "a@b@c.d"[1] == '@' && "a@b@c.d"[3] == '@';
    EmailMatchesShape("a@bc");
    assert forall k :: 0 <= k < 4 && "a@bc"[k] == '@' ==> k == 1;
    EmailMatchesShape("a b@c.d");
    assert IsJsWhitespace("a b@c.d"[1]);
  }
}
