/**
 * The two in-memory stores of TinyApp and the facts about them that the handlers and the
 * helpers rely on.  A JavaScript object used as a dictionary is a `map` from its keys; the
 * order in which `for (const k in obj)` visits the keys is given separately, as a sequence
 * (see IsEnumeration), wherever the result of a scan depends on it.
 */
module Records {

  /** A user record `{ id, email, password }`; `password` is a bcrypt hash in the helpers. */
  datatype User = User(id: string, email: string, password: string)

  /** A URL record `{ userId, longURL }`, stored under its short code. */
  datatype Url = Url(userId: string, longURL: string)

  /** Some user in `users` has this email. */
  predicate EmailTaken(users: map<string, User>, email: string)
  {
    exists k :: k in users && users[k].email == email
  }

  /** No two users share an email (emails compare case-sensitively). */
  predicate EmailsUnique(users: map<string, User>)
  {
    forall j, k :: j in users && k in users && users[j].email == users[k].email ==> j == k
  }

  /** The entries of `db` whose owner is `id`, with their records unchanged. */
  function OwnedBy(db: map<string, Url>, id: string): map<string, Url>
  {
    map k | k in db && db[k].userId == id :: db[k]
  }

  /**
   * `order` is a possible `for ... in` enumeration of the object `db`: every key of `db`
   * exactly once and nothing else.
   */
  predicate IsEnumeration<V>(order: seq<string>, db: map<string, V>)
  {
    && (forall i, j :: 0 <= i < j < |order| ==> order[i] != order[j])
    && (forall i :: 0 <= i < |order| ==> order[i] in db)
    && (forall k :: k in db ==> k in order)
  }

  /** With unique emails, at most one user record carries a given email. */
  lemma AtMostOneUserPerEmail(users: map<string, User>, email: string)
    requires EmailsUnique(users)
    ensures |set k | k in users && users[k].email == email| <= 1
  {
    var s := set k | k in users && users[k].email == email;
    if s != {} {
      var k :| k in s;
      assert s == {k};
    }
  }

  /** With unique emails, a taken email is carried by exactly one user record. */
  lemma TakenEmailHasOneUser(users: map<string, User>, email: string)
    requires EmailsUnique(users)
    requires EmailTaken(users, email)
    ensures |set k | k in users && users[k].email == email| == 1
  {
    AtMostOneUserPerEmail(users, email);
    var owner :| owner in users && users[owner].email == email;
    var s := set k | k in users && users[k].email == email;
    assert owner in s;
    assert |s| >= |{owner}| by {
      assert {owner} <= s;
    }
  }

  /**
   * Storing a record whose email nobody has keeps emails unique, even when the id
   * collides with an existing user (whose record is then replaced).
   */
  lemma InsertKeepsEmailsUnique(users: map<string, User>, id: string, u: User)
    requires EmailsUnique(users)
    requires !EmailTaken(users, u.email)
    ensures EmailsUnique(users[id := u])
    ensures EmailTaken(users[id := u], u.email)
  {
    assert users[id := u][id] == u;
  }

  /** Every stored short code is among the URLs of its own owner and of nobody else. */
  lemma OwnedByPartitions(db: map<string, Url>, code: string, id: string)
    requires code in db
    ensures code in OwnedBy(db, id) <==> db[code].userId == id
    ensures code in OwnedBy(db, db[code].userId)
  {
  }

  /**
   * Creating (or overwriting) `code` for `owner`: the owner's URLs gain exactly that entry,
   * every other user's URLs lose `code` if they had it and are otherwise unchanged.
   */
  lemma OwnedByAfterInsert(db: map<string, Url>, code: string, u: Url, id: string)
    ensures OwnedBy(db[code := u], id) ==
      if u.userId == id then OwnedBy(db, id)[code := u] else OwnedBy(db, id) - {code}
  {
  }

  /** Changing the destination of `code` keeps its owner, so only that owner's view changes. */
  lemma OwnedByAfterUpdate(db: map<string, Url>, code: string, longURL: string, id: string)
    requires code in db
    ensures OwnedBy(db[code := db[code].(longURL := longURL)], id) ==
      if db[code].userId == id then OwnedBy(db, id)[code := db[code].(longURL := longURL)]
      else OwnedBy(db, id)
  {
  }

  /** Deleting `code` removes it from its owner's URLs and from nobody else's. */
  lemma OwnedByAfterDelete(db: map<string, Url>, code: string, id: string)
    ensures OwnedBy(db - {code}, id) == OwnedBy(db, id) - {code}
  {
  }
}
