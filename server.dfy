/** The Express backend's collection rules. Each route reads a whole JSON
    collection, answers from it, and for the two writing routes pushes one
    record and writes the collection back. A collection file that is
    missing, unreadable or holds `null` reads as `null`, and every route
    replaces that by the empty list. */
module Server {
  import opened JsText
  import opened Seqs

  /** A stored package, as the seed script writes them; only `id` is used. */
  datatype StoredPackage = StoredPackage(
    id: string, title: string, description: string, price: int, nights: int, location: string)

  datatype Contact = Contact(id: string, name: string, email: string, message: string, createdAt: string)

  datatype User = User(id: string, name: string, email: string, password: string)

  /** The user as the auth routes answer it: no password. */
  datatype PublicUser = PublicUser(id: string, name: string, email: string)

  /** The JSON body fields the routes read; a field the client left out is
      `None`. */
  datatype Body = Body(name: Option<string>, email: Option<string>, message: Option<string>, password: Option<string>)

  /** A route's answer: a JSON value with status 200, or an error status
      with its message. */
  datatype Response =
    | PackageList(packages: seq<StoredPackage>)
    | PackageFound(package: StoredPackage)
    | Accepted
    | UserReply(user: PublicUser)
    | Failure(status: int, error: string)

  function Status(r: Response): int {
    if r.Failure? then r.status else 200
  }

  /** `!field` in JavaScript, for a string field: absent or empty. */
  predicate Falsy(field: Option<string>) {
    field.None? || field.value == ""
  }

  /** `readJSON(name) || []`: the stored collection, or the empty list when
      the file read as `null`. */
  function Collection<T>(file: Option<seq<T>>): seq<T> {
    if file.Some? then file.value else []
  }

  /** The result of a writing route: the collection it leaves (written back
      only when `written`) and its answer. */
  datatype Outcome<T> = Outcome(stored: seq<T>, written: bool, response: Response)

  // ---------------------------------------------------------------------
  // GET /api/packages/:id
  // ---------------------------------------------------------------------

  function HasId(id: string): StoredPackage -> bool {
    (p: StoredPackage) => p.id == id
  }

  /** The first package with the requested id, or 404. */
  function PackageById(packages: seq<StoredPackage>, id: string): (r: Response)
    ensures r.PackageFound? || r == Failure(404, "Package not found")
    ensures r.PackageFound? <==> exists i :: 0 <= i < |packages| && packages[i].id == id
    ensures r.PackageFound? ==> r.package.id == id && r.package in packages
    ensures r.PackageFound? ==> exists i :: (0 <= i < |packages| && packages[i] == r.package
      && forall j :: 0 <= j < i ==> packages[j].id != id)
  {
    match FindFirst(packages, HasId(id))
    case None =>
      assert forall j :: 0 <= j < |packages| ==> !HasId(id)(packages[j]);
      Failure(404, "Package not found")
    case Some(i) =>
      assert forall j :: 0 <= j < i ==> !HasId(id)(packages[j]);
      PackageFound(packages[i])
  }

  // ---------------------------------------------------------------------
  // POST /api/contact
  // ---------------------------------------------------------------------

  predicate ContactIncomplete(body: Body) {
    Falsy(body.name) || Falsy(body.email) || Falsy(body.message)
  }

  /** A contact message: rejected with 400 unless name, email and message
      are all given; otherwise one record with the timestamp id is pushed
      at the end and the collection written back. */
  function ContactOutcome(contacts: seq<Contact>, body: Body, now: nat, createdAt: string): (r: Outcome<Contact>)
    ensures ContactIncomplete(body) <==> Status(r.response) == 400
    ensures ContactIncomplete(body) ==>
      !r.written && r.stored == contacts && r.response == Failure(400, "Missing fields")
    ensures !ContactIncomplete(body) ==> (r.written && r.response == Accepted
      && |r.stored| == |contacts| + 1 && r.stored[..|contacts|] == contacts
      && r.stored[|contacts|] == Contact(NatToString(now), body.name.value, body.email.value, body.message.value, createdAt))
  {
    if ContactIncomplete(body) then Outcome(contacts, false, Failure(400, "Missing fields"))
    else
      var record := Contact(NatToString(now), body.name.value, body.email.value, body.message.value, createdAt);
      assert (contacts + [record])[..|contacts|] == contacts;
      Outcome(contacts + [record], true, Accepted)
  }

  // ---------------------------------------------------------------------
  // POST /api/auth/register and /api/auth/login
  // ---------------------------------------------------------------------

  predicate RegisterIncomplete(body: Body) {
    Falsy(body.name) || Falsy(body.email) || Falsy(body.password)
  }

  function HasEmail(email: string): User -> bool {
    (u: User) => u.email == email
  }

  predicate EmailTaken(users: seq<User>, email: string) {
    exists i :: 0 <= i < |users| && users[i].email == email
  }

  function Public(u: User): PublicUser {
    PublicUser(u.id, u.name, u.email)
  }

  /** A registration: 400 for a missing field, 400 for an email already
      stored, otherwise a user with id `u<timestamp>` pushed at the end,
      answered without its password. */
  function RegisterOutcome(users: seq<User>, body: Body, now: nat): (r: Outcome<User>)
    ensures RegisterIncomplete(body) ==>
      !r.written && r.stored == users && r.response == Failure(400, "Missing fields")
    ensures !RegisterIncomplete(body) && EmailTaken(users, body.email.value) ==>
      !r.written && r.stored == users && r.response == Failure(400, "Email exists")
    ensures !RegisterIncomplete(body) && !EmailTaken(users, body.email.value) ==>
      var u := User("u" + NatToString(now), body.name.value, body.email.value, body.password.value);
      r.written && r.stored == users + [u] && r.response == UserReply(Public(u))
    ensures r.written <==> Status(r.response) == 200
  {
    if RegisterIncomplete(body) then Outcome(users, false, Failure(400, "Missing fields"))
    else if FindFirst(users, HasEmail(body.email.value)).Some? then
      Outcome(users, false, Failure(400, "Email exists"))
    else
      assert forall j :: 0 <= j < |users| ==> !HasEmail(body.email.value)(users[j]);
      var u := User("u" + NatToString(now), body.name.value, body.email.value, body.password.value);
      Outcome(users + [u], true, UserReply(Public(u)))
  }

  /** No two stored users share an email. */
  predicate DistinctEmails(users: seq<User>) {
    forall i, j :: 0 <= i < j < |users| ==> users[i].email != users[j].email
  }

  /** Registration keeps stored emails pairwise distinct. */
  lemma RegisterKeepsEmailsDistinct(users: seq<User>, body: Body, now: nat)
    requires DistinctEmails(users)
    ensures DistinctEmails(RegisterOutcome(users, body, now).stored)
  {
    var r := RegisterOutcome(users, body, now);
    if r.written {
      var s := r.stored;
      forall i, j | 0 <= i < j < |s| ensures s[i].email != s[j].email {
        if j == |users| {
          assert s[i] == users[i];
          assert !EmailTaken(users, body.email.value);
        } else {
          assert s[i] == users[i] && s[j] == users[j];
        }
      }
    }
  }

  predicate CredentialsMatch(u: User, body: Body) {
    body.email == Some(u.email) && body.password == Some(u.password)
  }

  function HasCredentials(body: Body): User -> bool {
    (u: User) => CredentialsMatch(u, body)
  }

  /** A login: the first user whose email and password both equal the
      request's, answered without its password, or 401. */
  function LoginOutcome(users: seq<User>, body: Body): (r: Response)
    ensures r.UserReply? || r == Failure(401, "Invalid credentials")
    ensures r.UserReply? <==> exists i :: 0 <= i < |users| && CredentialsMatch(users[i], body)
    ensures r.UserReply? ==> exists i :: (0 <= i < |users| && CredentialsMatch(users[i], body)
      && r.user == Public(users[i]) && forall j :: 0 <= j < i ==> !CredentialsMatch(users[j], body))
  {
    match FindFirst(users, HasCredentials(body))
    case None =>
      assert forall j :: 0 <= j < |users| ==> !HasCredentials(body)(users[j]);
      Failure(401, "Invalid credentials")
    case Some(i) =>
      assert CredentialsMatch(users[i], body);
      assert forall j :: 0 <= j < i ==> !HasCredentials(body)(users[j]);
      UserReply(Public(users[i]))
  }

  /** A user who has just registered can log in with the same email and
      password and is answered with the record registration created. */
  lemma RegisterThenLogin(users: seq<User>, body: Body, now: nat)
    requires !RegisterIncomplete(body) && !EmailTaken(users, body.email.value)
    ensures var r := RegisterOutcome(users, body, now);
      LoginOutcome(r.stored, body) == r.response
  {
    var r := RegisterOutcome(users, body, now);
    var u := User("u" + NatToString(now), body.name.value, body.email.value, body.password.value);
    assert r.stored == users + [u];
    forall j | 0 <= j < |users| ensures !CredentialsMatch(r.stored[j], body) {
      assert r.stored[j] == users[j];
    }
    assert CredentialsMatch(r.stored[|users|], body);
  }

  /** One account per email: a second registration with a stored email is
      refused and stores nothing, and of two passwords only the registered
      one logs in. */
  lemma OneAccountPerEmail()
    ensures var first := RegisterOutcome([], Body(Some("A"), Some("a@x.com"), None, Some("p")), 1);
      var second := RegisterOutcome(first.stored, Body(Some("B"), Some("a@x.com"), None, Some("q")), 2);
      && second.response == Failure(400, "Email exists") && second.stored == first.stored && |second.stored| == 1
      && LoginOutcome(second.stored, Body(None, Some("a@x.com"), None, Some("q"))) == Failure(401, "Invalid credentials")
      && LoginOutcome(second.stored, Body(None, Some("a@x.com"), None, Some("p"))) == UserReply(PublicUser("u1", "A", "a@x.com"))
  {
    var first := RegisterOutcome([], Body(Some("A"), Some("a@x.com"), None, Some("p")), 1);
    assert NatToString(1) == "1";
    assert "u" + NatToString(1) == "u1";
    assert !RegisterIncomplete(Body(Some("A"), Some("a@x.com"), None, Some("p")));
    assert !EmailTaken([], "a@x.com");
    var u := User("u1", "A", "a@x.com", "p");
    assert first.stored == [u];
    assert EmailTaken(first.stored, "a@x.com") by {
      assert first.stored[0].email == "a@x.com";
    }
    assert CredentialsMatch(u, Body(None, Some("a@x.com"), None, Some("p")));
    assert !CredentialsMatch(u, Body(None, Some("a@x.com"), None, Some("q")));
  }

  // ---------------------------------------------------------------------
  // Unreadable files and the package list
  // ---------------------------------------------------------------------

  /** A file that reads as `null` behaves, for every route, exactly like a
      file holding an empty collection: the package list is empty, a lookup
      answers 404, a contact or a registration is judged against no earlier
      records (so a complete registration is written), and a login answers
      401. */
  lemma UnreadableFileIsEmpty(id: string, body: Body, now: nat, createdAt: string)
    ensures PackageList(Collection<StoredPackage>(None)) == PackageList(Collection(Some([]))) == PackageList([])
    ensures PackageById(Collection(None), id) == PackageById(Collection(Some([])), id)
    ensures PackageById(Collection(None), id) == Failure(404, "Package not found")
    ensures ContactOutcome(Collection(None), body, now, createdAt) == ContactOutcome(Collection(Some([])), body, now, createdAt)
    ensures RegisterOutcome(Collection(None), body, now) == RegisterOutcome(Collection(Some([])), body, now)
    ensures RegisterOutcome(Collection(None), body, now).written <==> !RegisterIncomplete(body)
    ensures LoginOutcome(Collection(None), body) == LoginOutcome(Collection(Some([])), body)
    ensures LoginOutcome(Collection(None), body) == Failure(401, "Invalid credentials")
  {
    var none: Option<seq<User>> := None;
    assert Collection(none) == [];
    if !RegisterIncomplete(body) {
      assert !EmailTaken([], body.email.value);
    }
  }

  /** Every package the list answers can be fetched by its id, and the
      lookup answers the first listed package with that id, which is the
      package itself or one listed before it. */
  lemma ListedPackagesFound(packages: seq<StoredPackage>, i: nat)
    requires i < |packages|
    ensures PackageById(packages, packages[i].id).PackageFound?
    ensures var p := PackageById(packages, packages[i].id).package;
      p.id == packages[i].id && exists k :: 0 <= k <= i && packages[k] == p
  {
    var r := PackageById(packages, packages[i].id);
    var k :| 0 <= k < |packages| && packages[k] == r.package
      && forall j :: 0 <= j < k ==> packages[j].id != packages[i].id;
    assert k <= i;
  }

  // ---------------------------------------------------------------------
  // The server
  // ---------------------------------------------------------------------

  /** The three collection files the routes use. `None` is a file that
      reads as `null`. */
  class Backend {
    var packagesFile: Option<seq<StoredPackage>>
    var contactsFile: Option<seq<Contact>>
    var usersFile: Option<seq<User>>

    constructor (packages: Option<seq<StoredPackage>>, contacts: Option<seq<Contact>>, users: Option<seq<User>>)
      ensures packagesFile == packages && contactsFile == contacts && usersFile == users
    {
      packagesFile, contactsFile, usersFile := packages, contacts, users;
    }

    /** GET /api/packages: the whole collection. */
    method ListPackages() returns (r: Response)
      ensures r == PackageList(Collection(packagesFile))
      ensures packagesFile.None? ==> r == PackageList([])
    {
      var packages := Collection(packagesFile);
      r := PackageList(packages);
    }

    /** GET /api/packages/:id. */
    method GetPackage(id: string) returns (r: Response)
      ensures r == PackageById(Collection(packagesFile), id)
      ensures packagesFile.None? ==> r == Failure(404, "Package not found")
    {
      var packages := Collection(packagesFile);
      var found := FindFirst(packages, HasId(id));
      if found.None? {
        r := Failure(404, "Package not found");
      } else {
        r := PackageFound(packages[found.value]);
      }
    }

    /** POST /api/contact with the request's clock reading. */
    method PostContact(body: Body, now: nat, createdAt: string) returns (r: Response)
      modifies this
      ensures var o := ContactOutcome(old(Collection(contactsFile)), body, now, createdAt);
        r == o.response && contactsFile == (if o.written then Some(o.stored) else old(contactsFile))
      ensures packagesFile == old(packagesFile) && usersFile == old(usersFile)
    {
      if Falsy(body.name) || Falsy(body.email) || Falsy(body.message) {
        return Failure(400, "Missing fields");
      }
      var contacts := Collection(contactsFile);
      var id := NatToString(now);
      contacts := contacts + [Contact(id, body.name.value, body.email.value, body.message.value, createdAt)];
      contactsFile := Some(contacts);
      r := Accepted;
    }

    /** POST /api/auth/register with the request's clock reading. */
    method Register(body: Body, now: nat) returns (r: Response)
      modifies this
      ensures var o := RegisterOutcome(old(Collection(usersFile)), body, now);
        r == o.response && usersFile == (if o.written then Some(o.stored) else old(usersFile))
      ensures DistinctEmails(old(Collection(usersFile))) ==> DistinctEmails(Collection(usersFile))
      ensures packagesFile == old(packagesFile) && contactsFile == old(contactsFile)
    {
      if DistinctEmails(Collection(usersFile)) {
        RegisterKeepsEmailsDistinct(Collection(usersFile), body, now);
      }
      if Falsy(body.name) || Falsy(body.email) || Falsy(body.password) {
        return Failure(400, "Missing fields");
      }
      var users := Collection(usersFile);
      if FindFirst(users, HasEmail(body.email.value)).Some? {
        return Failure(400, "Email exists");
      }
      var id := "u" + NatToString(now);
      var user := User(id, body.name.value, body.email.value, body.password.value);
      users := users + [user];
      usersFile := Some(users);
      r := UserReply(PublicUser(id, body.name.value, body.email.value));
    }

    /** POST /api/auth/login. */
    method Login(body: Body) returns (r: Response)
      ensures r == LoginOutcome(Collection(usersFile), body)
      ensures usersFile.None? ==> r == Failure(401, "Invalid credentials")
    {
      var users := Collection(usersFile);
      var found := FindFirst(users, HasCredentials(body));
      if found.None? {
        r := Failure(401, "Invalid credentials");
      } else {
        var u := users[found.value];
        r := UserReply(PublicUser(u.id, u.name, u.email));
      }
    }
  }
}
