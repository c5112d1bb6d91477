/**
 * The scan shared by `findUserId` (helpers/findUserId.js), `findUserByEmail` and
 * `getUserId`: visit the users in enumeration order and stop at the first record whose
 * email equals the given one and whose stored hash the password matches.  The hash
 * comparison, `bcrypt.compareSync(plain, hash)`, is the parameter `matches`.
 */
module Credentials {

  import opened Wrappers
  import opened Records

  /** `userDB[user].email === email && bcrypt.compareSync(password, userDB[user].password)` */
  predicate Accepts(u: User, email: string, password: string, matches: (string, string) -> bool)
  {
    u.email == email && matches(password, u.password)
  }

  /** The enumeration position of `order[i]` holds an accepting record. */
  predicate AcceptsAt(order: seq<string>, db: map<string, User>, i: int,
                      email: string, password: string, matches: (string, string) -> bool)
    requires 0 <= i < |order|
  {
    order[i] in db && Accepts(db[order[i]], email, password, matches)
  }

  /**
   * The position, in `order`, of the first accepting record, or None when no position
   * holds one.
   */
  function FirstMatchAt(order: seq<string>, db: map<string, User>,
                        email: string, password: string, matches: (string, string) -> bool): (r: Option<nat>)
    ensures r.Some? ==> r.value < |order| && AcceptsAt(order, db, r.value, email, password, matches)
    ensures r.Some? ==> forall j :: 0 <= j < r.value ==> !AcceptsAt(order, db, j, email, password, matches)
    ensures r.None? ==> forall j :: 0 <= j < |order| ==> !AcceptsAt(order, db, j, email, password, matches)
    decreases |order|
  {
    if order == [] then None
    else if AcceptsAt(order, db, 0, email, password, matches) then Some(0)
    else
      match FirstMatchAt(order[1..], db, email, password, matches)
      case None =>
        assert forall j :: 0 < j < |order| ==>
          (AcceptsAt(order, db, j, email, password, matches) <==> AcceptsAt(order[1..], db, j - 1, email, password, matches));
        None
      case Some(i) =>
        assert forall j :: 0 < j <= i + 1 ==>
          (AcceptsAt(order, db, j, email, password, matches) <==> AcceptsAt(order[1..], db, j - 1, email, password, matches));
        Some(i + 1)
  }

  /** A position that accepts, with none accepting before it, is the one the scan stops at. */
  lemma FirstAcceptingIsFound(order: seq<string>, db: map<string, User>, i: nat,
                              email: string, password: string, matches: (string, string) -> bool)
    requires i < |order| && AcceptsAt(order, db, i, email, password, matches)
    requires forall j :: 0 <= j < i ==> !AcceptsAt(order, db, j, email, password, matches)
    ensures FirstMatchAt(order, db, email, password, matches) == Some(i)
  {
  }

  /** Over an enumeration of `db`, the scan finds nothing exactly when no record accepts. */
  lemma NoMatchIffNoneAccepts(order: seq<string>, db: map<string, User>,
                              email: string, password: string, matches: (string, string) -> bool)
    requires IsEnumeration(order, db)
    ensures FirstMatchAt(order, db, email, password, matches).None? <==>
      forall k :: k in db ==> !Accepts(db[k], email, password, matches)
  {
    var r := FirstMatchAt(order, db, email, password, matches);
    if r.None? {
      forall k | k in db ensures !Accepts(db[k], email, password, matches) {
        var j :| 0 <= j < |order| && order[j] == k;
        assert !AcceptsAt(order, db, j, email, password, matches);
      }
    }
  }

  /**
   * An existing email with a password its hash does not match finds nothing, when that
   * email belongs to a single user.
   */
  lemma WrongPasswordFindsNothing(order: seq<string>, db: map<string, User>, k: string,
                                  password: string, matches: (string, string) -> bool)
    requires IsEnumeration(order, db)
    requires EmailsUnique(db)
    requires k in db && !matches(password, db[k].password)
    ensures FirstMatchAt(order, db, db[k].email, password, matches).None?
  {
    NoMatchIffNoneAccepts(order, db, db[k].email, password, matches);
  }

  /**
   * With unique emails at most one record accepts, so the key the scan returns does not
   * depend on the enumeration order.
   */
  lemma OrderIrrelevantForUniqueEmails(o1: seq<string>, o2: seq<string>, db: map<string, User>,
                                                          email: string, password: string, matches: (string, string) -> bool)
    requires IsEnumeration(o1, db) && IsEnumeration(o2, db)
    requires EmailsUnique(db)
    ensures FirstMatchAt(o1, db, email, password, matches).None? <==> FirstMatchAt(o2, db, email, password, matches).None?
    ensures FirstMatchAt(o1, db, email, password, matches).Some? ==>
      o1[FirstMatchAt(o1, db, email, password, matches).value] == o2[FirstMatchAt(o2, db, email, password, matches).value]
  {
    NoMatchIffNoneAccepts(o1, db, email, password, matches);
    NoMatchIffNoneAccepts(o2, db, email, password, matches);
  }
}
