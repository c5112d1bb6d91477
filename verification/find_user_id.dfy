/**
 * helpers/findUserId.js: `findUserId(email, password)` scans the module-level
 * `userDatabase`, which is passed here as a parameter together with its enumeration order.
 */
module FindUserIdHelper {

  import opened Records
  import opened Credentials
  import Js

  /** The first user, in enumeration order, with this email and a hash the password matches; `false` if none. */
  method FindUserId(email: string, password: string, userDatabase: map<string, User>,
                    order: seq<string>, matches: (string, string) -> bool) returns (r: Js.Value)
    requires IsEnumeration(order, userDatabase)
    ensures r.Str? || r == Js.Bool(false)
    ensures r.Str? ==> r.s in userDatabase && Accepts(userDatabase[r.s], email, password, matches)
    ensures r == Js.Bool(false) <==> forall k :: k in userDatabase ==> !Accepts(userDatabase[k], email, password, matches)
    ensures r == match FirstMatchAt(order, userDatabase, email, password, matches)
                 case Some(i) => Js.Str(order[i])
                 case None => Js.Bool(false)
  {
    NoMatchIffNoneAccepts(order, userDatabase, email, password, matches);
    var i := 0;
    while i < |order|
      invariant 0 <= i <= |order|
      invariant forall j :: 0 <= j < i ==> !AcceptsAt(order, userDatabase, j, email, password, matches)
    {
      var user := order[i];
      var passwordsMatch := matches(password, userDatabase[user].password);
      if userDatabase[user].email == email && passwordsMatch {
        FirstAcceptingIsFound(order, userDatabase, i, email, password, matches);
        return Js.Str(user);
      }
      i := i + 1;
    }
    return Js.Bool(false);
  }
}
