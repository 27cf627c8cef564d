/** The account routes of server/server.js: the JIIT email-domain rule, login
    against the user directory, and signup as an append to it. The directory
    (users.json) is the sequence `users`, passed in and returned. */
module Accounts {
  import opened Wrappers
  import opened Seqs
  import opened Text

  const JiitSuffix := "@jiit.ac.in"
  const MailJiitSuffix := "@mail.jiit.ac.in"
  const DomainMessage := "Only @jiit.ac.in and @mail.jiit.ac.in email addresses are allowed"
  const InvalidCredentialsMessage := "Invalid credentials"
  const EmailExistsMessage := "Email already exists"

  /** A record of users.json. `rating` is only ever copied, so a `real` stands for it. */
  datatype User = User(
    id: int, name: string, email: string, password: string, rating: real,
    avatar: string, intent: string, year: string, branch: string, courses: seq<string>)

  /** A user as the server sends it back: every field but `password`. */
  datatype PublicUser = PublicUser(
    id: int, name: string, email: string, rating: real,
    avatar: string, intent: string, year: string, branch: string, courses: seq<string>)

  function WithoutPassword(u: User): PublicUser {
    PublicUser(u.id, u.name, u.email, u.rating, u.avatar, u.intent, u.year, u.branch, u.courses)
  }

  /** The domain rule both routes apply before touching the directory. */
  predicate IsJiitEmail(email: string) {
    EndsWith(Lower(email), JiitSuffix) || EndsWith(Lower(email), MailJiitSuffix)
  }

  /** The rule ignores letter case: an address and its lowercased form are
      accepted alike. */
  lemma JiitEmailIgnoresCase(email: string)
    ensures IsJiitEmail(email) <==> IsJiitEmail(Lower(email))
  {
    LowerIdempotent(email);
  }

  /** The login match: same email up to case, same password exactly. */
  predicate Credentials(u: User, emailLower: string, password: string) {
    Lower(u.email) == emailLower && u.password == password
  }

  /** POST /api/login. */
  function Login(users: seq<User>, email: string, password: string): (r: Reply<PublicUser>)
    ensures !IsJiitEmail(email) ==> r == Rejected(401, DomainMessage)
    ensures IsJiitEmail(email) ==>
      (r.Ok? <==> exists i :: 0 <= i < |users| && Credentials(users[i], Lower(email), password))
    ensures IsJiitEmail(email) && r.Rejected? ==> r == Rejected(401, InvalidCredentialsMessage)
    ensures r.Ok? ==>
      exists i :: && 0 <= i < |users|
                  && Credentials(users[i], Lower(email), password)
                  && (forall j :: 0 <= j < i ==> !Credentials(users[j], Lower(email), password))
                  && r.value == WithoutPassword(users[i])
  {
    var emailLower := Lower(email);
    if !IsJiitEmail(email) then Rejected(401, DomainMessage)
    else match FindFirst(users, (u: User) => Credentials(u, emailLower, password))
      case Some(i) => Ok(WithoutPassword(users[i]))
      case None => Rejected(401, InvalidCredentialsMessage)
  }

  /** The signup request body; `None` is a field the client left out. */
  datatype SignupRequest = SignupRequest(
    name: string, email: string, password: string,
    intent: Option<string>, year: Option<string>, branch: Option<string>,
    courses: Option<seq<string>>)

  /** `value || fallback` for a string field: a missing and an empty string are
      both falsy. */
  function OrDefault(v: Option<string>, fallback: string): (r: string)
    ensures r == fallback || (v.Some? && r == v.value)
    ensures v.Some? && v.value != "" ==> r == v.value
    ensures !(v.Some? && v.value != "") ==> r == fallback
  {
    if v.Some? && v.value != "" then v.value else fallback
  }

  /** `name.charAt(0).toUpperCase()`. */
  function AvatarOf(name: string): (a: string)
    ensures |a| <= 1
    ensures name != [] ==> a == [UpperChar(name[0])]
    ensures name == [] ==> a == ""
  {
    if name == [] then "" else [UpperChar(name[0])]
  }

  /** Some user of the directory already has this email, up to case. */
  predicate EmailTaken(users: seq<User>, email: string) {
    exists i :: 0 <= i < |users| && Lower(users[i].email) == Lower(email)
  }

  /** The record signup appends. */
  function NewUser(users: seq<User>, req: SignupRequest): User {
    User(|users| + 1, req.name, Lower(req.email), req.password, 0.0, AvatarOf(req.name),
         OrDefault(req.intent, "buy"), OrDefault(req.year, ""), OrDefault(req.branch, ""),
         req.courses.GetOr([]))
  }

  /** POST /api/signup: the reply and the directory afterwards. */
  function Signup(users: seq<User>, req: SignupRequest): (r: (Reply<PublicUser>, seq<User>))
    ensures !IsJiitEmail(req.email) ==> r == (Rejected(400, DomainMessage), users)
    ensures IsJiitEmail(req.email) && EmailTaken(users, req.email) ==>
      r == (Rejected(400, EmailExistsMessage), users)
    ensures IsJiitEmail(req.email) && !EmailTaken(users, req.email) ==>
      && |r.1| == |users| + 1
      && r.1[..|users|] == users
      && r.0 == Ok(WithoutPassword(r.1[|users|]))
      && r.1[|users|].id == |users| + 1
      && r.1[|users|].name == req.name
      && r.1[|users|].email == Lower(req.email)
      && r.1[|users|].password == req.password
      && r.1[|users|].rating == 0.0
      && r.1[|users|].avatar == AvatarOf(req.name)
      && r.1[|users|].intent == OrDefault(req.intent, "buy")
      && r.1[|users|].year == OrDefault(req.year, "")
      && r.1[|users|].branch == OrDefault(req.branch, "")
      && r.1[|users|].courses == req.courses.GetOr([])
  {
    var emailLower := Lower(req.email);
    if !IsJiitEmail(req.email) then (Rejected(400, DomainMessage), users)
    else match FindFirst(users, (u: User) => Lower(u.email) == emailLower)
      case Some(_) => (Rejected(400, EmailExistsMessage), users)
      case None =>
        var user := NewUser(users, req);
        (Ok(WithoutPassword(user)), users + [user])
  }

  /** The account a successful signup creates can log in straight away with the
      same email and password, and login returns what signup returned. */
  lemma SignupThenLogin(users: seq<User>, req: SignupRequest)
    requires Signup(users, req).0.Ok?
    ensures Login(Signup(users, req).1, req.email, req.password) == Signup(users, req).0
  {
    var users' := Signup(users, req).1;
    var user := NewUser(users, req);
    assert users' == users + [user];
    LowerIdempotent(req.email);
    assert Credentials(user, Lower(req.email), req.password);
    forall j | 0 <= j < |users|
      ensures !Credentials(users'[j], Lower(req.email), req.password)
    {
      assert users'[j] == users[j];
    }
  }

  /** No two users share an email, up to case. */
  ghost predicate EmailsUnique(users: seq<User>) {
    forall i, j :: 0 <= i < j < |users| ==> Lower(users[i].email) != Lower(users[j].email)
  }

  /** Signup keeps the emails of the directory unique. */
  lemma SignupKeepsEmailsUnique(users: seq<User>, req: SignupRequest)
    requires EmailsUnique(users)
    ensures EmailsUnique(Signup(users, req).1)
  {
    var users' := Signup(users, req).1;
    if users' != users {
      LowerIdempotent(req.email);
      assert users' == users + [NewUser(users, req)];
      forall i, j | 0 <= i < j < |users'|
        ensures Lower(users'[i].email) != Lower(users'[j].email)
      {
        if j == |users| {
          assert users'[i] == users[i];
        }
      }
    }
  }

  /** The ids of a directory built only by signup: user k (from 0) has id k + 1. */
  ghost predicate IdsSequential(users: seq<User>) {
    forall i :: 0 <= i < |users| ==> users[i].id == i + 1
  }

  /** Signup keeps the ids sequential, so `length + 1` never repeats an id. */
  lemma SignupKeepsIdsSequential(users: seq<User>, req: SignupRequest)
    requires IdsSequential(users)
    ensures IdsSequential(Signup(users, req).1)
  {
  }
}
