/**
 * express_server.js: the two global stores and the decisions of the route handlers that
 * read or change them.  A request is reduced to its `user_id` cookie (absent: None), its
 * form and path arguments and, where the handler calls `generateId()`, the six random
 * draws.  A handler's response is reduced to an Outcome: an error status, a redirect
 * that may set the `user_id` cookie, or the page that shows one short URL.
 */
module Server {

  import opened Wrappers
  import opened Records
  import opened IdGen
  import Js

  const BadRequest := 400
  const Unauthorized := 401
  const Forbidden := 403
  const NotFound := 404

  datatype Outcome =
    | Fail(status: int)                                        // res.status(status).render(...)
    | Redirect(location: string, userIdCookie: Option<string>) // res.redirect(location), after res.cookie("user_id", v) when Some(v)
    | ShowPage(shortURL: string, url: Url, authorEmail: string) // res.render("urls_show", ...)

  /** User `k` has this email and this (plain-text) password. */
  predicate SignsIn(users: map<string, User>, k: string, email: string, password: string)
  {
    k in users && users[k].email == email && users[k].password == password
  }

  class TinyApp {
    var users: map<string, User>
    var urlDatabase: map<string, Url>

    /**
     * Emails are unique; every user is stored under its own, non-empty id; every short
     * code is owned by a registered user.
     */
    ghost predicate Valid()
      reads this
    {
      && EmailsUnique(users)
      && (forall k :: k in users ==> users[k].id == k && k != "")
      && (forall c :: c in urlDatabase ==> urlDatabase[c].userId in users)
    }

    /** The two seeded users and their two URLs. */
    constructor ()
      ensures Valid()
      ensures users == map[
        "123xyz" := User("123xyz", "lhl@fake.com", "lhl"),
        "456asd" := User("456asd", "bing@fake.com", "bing")]
      ensures urlDatabase == map[
        "b2xVn2" := Url("123xyz", "http://www.lighthouselabs.ca"),
        "9sm5xK" := Url("456asd", "http://www.google.com")]
    {
      urlDatabase := map[
        "b2xVn2" := Url("123xyz", "http://www.lighthouselabs.ca"),
        "9sm5xK" := Url("456asd", "http://www.google.com")];
      users := map[
        "123xyz" := User("123xyz", "lhl@fake.com", "lhl"),
        "456asd" := User("456asd", "bing@fake.com", "bing")];
    }

    /** `users[req.cookies["user_id"]]` is a user record. */
    predicate LoggedIn(cookie: Option<string>)
      reads this
    {
      cookie.Some? && cookie.value in users
    }

    /** `findUserId(email)`: the id of a user with this email, or `false` when nobody has it. */
    method FindUserId(email: string) returns (r: Js.Value)
      ensures r.Str? || r == Js.Bool(false)
      ensures r.Str? ==> r.s in users && users[r.s].email == email
      ensures r == Js.Bool(false) <==> !EmailTaken(users, email)
    {
      var unvisited := users.Keys;
      while unvisited != {}
        invariant unvisited <= users.Keys
        invariant forall k :: k in users && k !in unvisited ==> users[k].email != email
        decreases unvisited
      {
        var user :| user in unvisited;
        if users[user].email == email {
          return Js.Str(user);
        }
        unvisited := unvisited - {user};
      }
      return Js.Bool(false);
    }

    /** `urlsForUser(id)`: exactly the stored entries whose `userId` is `id`, with the same records. */
    method UrlsForUser(id: string) returns (userURLs: map<string, Url>)
      ensures forall k :: k in userURLs <==> k in urlDatabase && urlDatabase[k].userId == id
      ensures forall k :: k in userURLs ==> userURLs[k] == urlDatabase[k]
      ensures userURLs == OwnedBy(urlDatabase, id)
    {
      userURLs := map[];
      var unvisited := urlDatabase.Keys;
      while unvisited != {}
        invariant unvisited <= urlDatabase.Keys
        invariant forall k :: k in userURLs <==> k in urlDatabase && k !in unvisited && urlDatabase[k].userId == id
        invariant forall k :: k in userURLs ==> userURLs[k] == urlDatabase[k]
        decreases unvisited
      {
        var url :| url in unvisited;
        if urlDatabase[url].userId == id {
          userURLs := userURLs[url := urlDatabase[url]];
        }
        unvisited := unvisited - {url};
      }
    }

    /**
     * `shortURLbelongsToUser(shortURL, currentUserId)`: the id is truthy (present and
     * non-empty) and the code is one of the URLs that urlsForUser lists for it.
     */
    function ShortUrlBelongsToUser(shortURL: string, currentUserId: Option<string>): (r: bool)
      reads this
      ensures r <==> currentUserId.Some? && currentUserId.value != "" && shortURL in OwnedBy(urlDatabase, currentUserId.value)
      ensures shortURL !in urlDatabase || currentUserId == None ==> !r
    {
      shortURL in urlDatabase && currentUserId.Some? && currentUserId.value != ""
      && urlDatabase[shortURL].userId == currentUserId.value
    }

    /** POST /register */
    method Register(email: string, password: string, draws: seq<CharIndex>) returns (out: Outcome)
      requires Valid()
      requires |draws| == StringLength
      modifies this
      ensures Valid()
      ensures urlDatabase == old(urlDatabase)
      ensures out == Fail(BadRequest) <==> email == "" || password == "" || EmailTaken(old(users), email)
      ensures out == Fail(BadRequest) ==> users == old(users)
      ensures out != Fail(BadRequest) ==>
        && out == Redirect("/urls", Some(IdFrom(draws)))
        && users == old(users)[IdFrom(draws) := User(IdFrom(draws), email, password)]
    {
      if email == "" || password == "" {
        return Fail(BadRequest);
      }
      var found := FindUserId(email);
      if Js.Truthy(found) {
        return Fail(BadRequest);
      }
      var id := GenerateId(draws);
      InsertKeepsEmailsUnique(users, id, User(id, email, password));
      users := users[id := User(id, email, password)];
      out := Redirect("/urls", Some(id));
    }

    /** POST /login */
    method Login(email: string, password: string) returns (out: Outcome)
      requires Valid()
      ensures out.Redirect? <==> email != "" && password != "" && exists k :: SignsIn(users, k, email, password)
      ensures out.Redirect? ==>
        && out.location == "/urls"
        && out.userIdCookie.Some?
        && SignsIn(users, out.userIdCookie.value, email, password)
      ensures !out.Redirect? ==> out == Fail(BadRequest)
    {
      if email == "" || password == "" {
        return Fail(BadRequest);
      }
      var userId := FindUserId(email);
      if !Js.Truthy(userId) || password != users[userId.s].password {
        // with unique emails, the user found is the only one that could sign in
        assert forall k :: SignsIn(users, k, email, password) ==> userId == Js.Str(k);
        return Fail(BadRequest);
      }
      assert SignsIn(users, userId.s, email, password);
      out := Redirect("/urls", Some(userId.s));
    }

    /** POST /urls */
    method Create(cookie: Option<string>, longURL: string, draws: seq<CharIndex>) returns (out: Outcome)
      requires Valid()
      requires |draws| == StringLength
      modifies this
      ensures Valid()
      ensures users == old(users)
      ensures !LoggedIn(cookie) ==> out == Fail(Unauthorized) && urlDatabase == old(urlDatabase)
      ensures LoggedIn(cookie) ==>
        && out == Redirect("/urls/" + IdFrom(draws), None)
        && urlDatabase == old(urlDatabase)[IdFrom(draws) := Url(cookie.value, longURL)]
    {
      if !LoggedIn(cookie) {
        return Fail(Unauthorized);
      }
      var shortURL := GenerateId(draws);
      urlDatabase := urlDatabase[shortURL := Url(cookie.value, longURL)];
      out := Redirect("/urls/" + shortURL, None);
    }

    /** POST /urls/:shortURL */
    method Update(cookie: Option<string>, shortURL: string, longURL: string) returns (out: Outcome)
      requires Valid()
      modifies this
      ensures Valid()
      ensures users == old(users)
      ensures !LoggedIn(cookie) ==> out == Fail(Unauthorized) && urlDatabase == old(urlDatabase)
      ensures LoggedIn(cookie) && (shortURL !in old(urlDatabase) || old(urlDatabase)[shortURL].userId != cookie.value) ==>
        out == Fail(Forbidden) && urlDatabase == old(urlDatabase)
      ensures LoggedIn(cookie) && shortURL in old(urlDatabase) && old(urlDatabase)[shortURL].userId == cookie.value ==>
        && out == Redirect("/urls", None)
        && urlDatabase == old(urlDatabase)[shortURL := old(urlDatabase)[shortURL].(longURL := longURL)]
    {
      if !LoggedIn(cookie) {
        return Fail(Unauthorized);
      }
      if !ShortUrlBelongsToUser(shortURL, cookie) {
        return Fail(Forbidden);
      }
      urlDatabase := urlDatabase[shortURL := urlDatabase[shortURL].(longURL := longURL)];
      out := Redirect("/urls", None);
    }

    /** POST /urls/:shortURL/delete */
    method Delete(cookie: Option<string>, shortURL: string) returns (out: Outcome)
      requires Valid()
      modifies this
      ensures Valid()
      ensures users == old(users)
      ensures !LoggedIn(cookie) ==> out == Fail(Unauthorized) && urlDatabase == old(urlDatabase)
      ensures LoggedIn(cookie) && (shortURL !in old(urlDatabase) || old(urlDatabase)[shortURL].userId != cookie.value) ==>
        out == Fail(Forbidden) && urlDatabase == old(urlDatabase)
      ensures LoggedIn(cookie) && shortURL in old(urlDatabase) && old(urlDatabase)[shortURL].userId == cookie.value ==>
        out == Redirect("/urls", None) && urlDatabase == old(urlDatabase) - {shortURL}
    {
      if !LoggedIn(cookie) {
        return Fail(Unauthorized);
      }
      if !ShortUrlBelongsToUser(shortURL, cookie) {
        return Fail(Forbidden);
      }
      urlDatabase := urlDatabase - {shortURL};
      out := Redirect("/urls", None);
    }

    /** GET /urls/:shortURL: 401, then 404, then 403, then the page with the author's email. */
    method Show(cookie: Option<string>, shortURL: string) returns (out: Outcome)
      ensures !LoggedIn(cookie) ==> out == Fail(Unauthorized)
      ensures LoggedIn(cookie) && shortURL !in urlDatabase ==> out == Fail(NotFound)
      ensures LoggedIn(cookie) && shortURL in urlDatabase && urlDatabase[shortURL].userId != cookie.value ==>
        out == Fail(Forbidden)
      ensures LoggedIn(cookie) && shortURL in urlDatabase && urlDatabase[shortURL].userId == cookie.value ==>
        out == ShowPage(shortURL, urlDatabase[shortURL], users[cookie.value].email)
    {
      if !LoggedIn(cookie) {
        return Fail(Unauthorized);
      }
      if shortURL !in urlDatabase {
        return Fail(NotFound);
      }
      var newURL := urlDatabase[shortURL];
      var shortURLauthorId := newURL.userId;
      if shortURLauthorId != cookie.value {
        return Fail(Forbidden);
      }
      var authorEmail := users[shortURLauthorId].email;
      out := ShowPage(shortURL, newURL, authorEmail);
    }

    /** GET /u/:shortURL: 401, then 404 when the code or its destination is missing, then the redirect. */
    method FollowShortUrl(cookie: Option<string>, shortURL: string) returns (out: Outcome)
      ensures !LoggedIn(cookie) ==> out == Fail(Unauthorized)
      ensures LoggedIn(cookie) && (shortURL !in urlDatabase || urlDatabase[shortURL].longURL == "") ==>
        out == Fail(NotFound)
      ensures LoggedIn(cookie) && shortURL in urlDatabase && urlDatabase[shortURL].longURL != "" ==>
        out == Redirect(urlDatabase[shortURL].longURL, None)
    {
      if !LoggedIn(cookie) {
        return Fail(Unauthorized);
      }
      if shortURL !in urlDatabase || urlDatabase[shortURL].longURL == "" {
        return Fail(NotFound);
      }
      out := Redirect(urlDatabase[shortURL].longURL, None);
    }
  }

  /**
   * After a successful registration of (email, password) under `id`, exactly that user
   * signs in with the same pair, nobody signs in with another password for that email,
   * and a second registration of the email is rejected because it is taken.
   */
  lemma RegisteredUserSignsIn(users: map<string, User>, users': map<string, User>,
                              id: string, email: string, password: string)
    requires EmailsUnique(users)
    requires !EmailTaken(users, email)
    requires users' == users[id := User(id, email, password)]
    ensures SignsIn(users', id, email, password)
    ensures forall k :: SignsIn(users', k, email, password) ==> k == id
    ensures forall k, p :: p != password ==> !SignsIn(users', k, email, p)
    ensures EmailTaken(users', email)
  {
  }

  /**
   * A session against a fresh server: Alice registers and shortens a URL, the short code
   * redirects to it and belongs to her and not to Bob, a second registration of her email
   * is rejected and leaves exactly one record with her email, her URLs list the new code,
   * and once she deletes the code it no longer resolves.
   */
  method AliceAndBob(aliceDraws: seq<CharIndex>, bobDraws: seq<CharIndex>, codeDraws: seq<CharIndex>)
    returns (visit: Outcome, again: Outcome, aliceRecords: nat, aliceURLs: map<string, Url>,
             aliceOwns: bool, bobOwns: bool, afterDelete: Outcome)
    requires |aliceDraws| == |bobDraws| == |codeDraws| == StringLength
    requires aliceDraws != bobDraws
    ensures visit == Redirect("http://example.com", None)
    ensures again == Fail(BadRequest)
    ensures aliceRecords == 1
    ensures IdFrom(codeDraws) in aliceURLs && aliceURLs[IdFrom(codeDraws)] == Url(IdFrom(aliceDraws), "http://example.com")
    ensures aliceOwns && !bobOwns
    ensures afterDelete == Fail(NotFound)
  {
    var app := new TinyApp();
    var alice, bob, code := IdFrom(aliceDraws), IdFrom(bobDraws), IdFrom(codeDraws);
    IdFromInjective(aliceDraws, bobDraws);
    var registered := app.Register("alice@example.com", "hunter22", aliceDraws);
    var created := app.Create(Some(alice), "http://example.com", codeDraws);
    visit := app.FollowShortUrl(Some(alice), code);
    aliceURLs := app.UrlsForUser(alice);
    again := app.Register("alice@example.com", "other", bobDraws);
    TakenEmailHasOneUser(app.users, "alice@example.com");
    aliceRecords := |set k | k in app.users && app.users[k].email == "alice@example.com"|;
    registered := app.Register("bob@example.com", "swordfish", bobDraws);
    aliceOwns := app.ShortUrlBelongsToUser(code, Some(alice));
    bobOwns := app.ShortUrlBelongsToUser(code, Some(bob));
    var deleted := app.Delete(Some(alice), code);
    afterDelete := app.FollowShortUrl(Some(alice), code);
  }
}
