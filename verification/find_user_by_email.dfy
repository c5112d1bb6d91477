/**
 * helpers/findUserByEmail.js: `findUserByEmail(email, password, database)`, the same scan
 * as findUserId over a database passed by the caller.
 */
module FindUserByEmailHelper {

  import opened Records
  import opened Credentials
  import Js

  /** The first user, in enumeration order, with this email and a hash the password matches; `false` if none. */
  method FindUserByEmail(email: string, password: string, database: map<string, User>,
                         order: seq<string>, matches: (string, string) -> bool) returns (r: Js.Value)
    requires IsEnumeration(order, database)
    ensures r.Str? || r == Js.Bool(false)
    ensures r.Str? ==> r.s in database && Accepts(database[r.s], email, password, matches)
    ensures r == Js.Bool(false) <==> forall k :: k in database ==> !Accepts(database[k], email, password, matches)
    ensures r == match FirstMatchAt(order, database, email, password, matches)
                 case Some(i) => Js.Str(order[i])
                 case None => Js.Bool(false)
  {
    NoMatchIffNoneAccepts(order, database, email, password, matches);
    var i := 0;
    while i < |order|
      invariant 0 <= i <= |order|
      invariant forall j :: 0 <= j < i ==> !AcceptsAt(order, database, j, email, password, matches)
    {
      var user := order[i];
      var passwordsMatch := matches(password, database[user].password);
      if database[user].email == email && passwordsMatch {
        FirstAcceptingIsFound(order, database, i, email, password, matches);
        return Js.Str(user);
      }
      i := i + 1;
    }
    return Js.Bool(false);
  }

  /**
   * The two cases of test/helpersTest.js, over its two-user fixture (enumerated in
   * insertion order) with the stored hashes `hash1`, `hash2`.  The correct email and
   * password give "userRandomID"; an unknown email gives `false`, which is not the `null`
   * that the test expects.
   */
  method HelpersTest(hash1: string, hash2: string, matches: (string, string) -> bool)
    returns (valid: Js.Value, missing: Js.Value)
    requires matches("purple-monkey-dinosaur", hash1)
    ensures valid == Js.Str("userRandomID")
    ensures missing == Js.Bool(false) && missing != Js.Null
  {
    var testUsers := map[
      "userRandomID" := User("userRandomID", "user@example.com", hash1),
      "user2RandomID" := User("user2RandomID", "user2@example.com", hash2)];
    var order := ["userRandomID", "user2RandomID"];
    valid := FindUserByEmail("user@example.com", "purple-monkey-dinosaur", testUsers, order, matches);
    missing := FindUserByEmail("non-existent-email@example.com", "non-existent-password", testUsers, order, matches);
  }
}
