/**
 * helpers/utilities.js: `utilities(urlDB, userDB)` returns four closures over the two
 * stores.  Here the captured stores are parameters of each operation; none of the
 * operations changes them.  Unlike the separate helper files, `getUserId` and
 * `getUserByEmail` answer `null`, not `false`, when nothing is found.
 */
module Utilities {

  import opened Records
  import opened Credentials
  import Js

  /** `getUserId(email, password)`: the first user with this email and a hash the password matches; `null` if none. */
  method GetUserId(userDB: map<string, User>, order: seq<string>, matches: (string, string) -> bool,
                   email: string, password: string) returns (r: Js.Value)
    requires IsEnumeration(order, userDB)
    ensures r.Str? || r == Js.Null
    ensures r.Str? ==> r.s in userDB && Accepts(userDB[r.s], email, password, matches)
    ensures r == Js.Null <==> forall k :: k in userDB ==> !Accepts(userDB[k], email, password, matches)
    ensures r == match FirstMatchAt(order, userDB, email, password, matches)
                 case Some(i) => Js.Str(order[i])
                 case None => Js.Null
  {
    NoMatchIffNoneAccepts(order, userDB, email, password, matches);
    var i := 0;
    while i < |order|
      invariant 0 <= i <= |order|
      invariant forall j :: 0 <= j < i ==> !AcceptsAt(order, userDB, j, email, password, matches)
    {
      var user := order[i];
      var passwordsMatch := matches(password, userDB[user].password);
      if userDB[user].email == email && passwordsMatch {
        FirstAcceptingIsFound(order, userDB, i, email, password, matches);
        return Js.Str(user);
      }
      i := i + 1;
    }
    return Js.Null;
  }

  /** An email no user has gives `null`, whatever the password and whatever the hashes. */
  lemma UnknownEmailGivesNull(userDB: map<string, User>, order: seq<string>, matches: (string, string) -> bool,
                              email: string, password: string)
    requires IsEnumeration(order, userDB)
    requires !EmailTaken(userDB, email)
    ensures FirstMatchAt(order, userDB, email, password, matches).None?
  {
    NoMatchIffNoneAccepts(order, userDB, email, password, matches);
  }

  /**
   * `belongsToUser(shortURL, currentUserId)`: the short code is one of the URLs that
   * urlsForUser lists for `currentUserId`.  There is no truthiness test on the id.
   */
  function BelongsToUser(urlDB: map<string, Url>, shortURL: string, currentUserId: string): (r: bool)
    ensures r <==> shortURL in OwnedBy(urlDB, currentUserId)
    ensures shortURL !in urlDB ==> !r
  {
    shortURL in urlDB && urlDB[shortURL].userId == currentUserId
  }

  /** `getUserByEmail(email)`: `true` when some user has the email, `null` otherwise. */
  method GetUserByEmail(userDB: map<string, User>, email: string) returns (r: Js.Value)
    ensures r == Js.Bool(true) <==> EmailTaken(userDB, email)
    ensures r == Js.Null <==> !EmailTaken(userDB, email)
  {
    var unvisited := userDB.Keys;
    while unvisited != {}
      invariant unvisited <= userDB.Keys
      invariant forall k :: k in userDB && k !in unvisited ==> userDB[k].email != email
      decreases unvisited
    {
      var user :| user in unvisited;
      if userDB[user].email == email {
        return Js.Bool(true);
      }
      unvisited := unvisited - {user};
    }
    return Js.Null;
  }

  /** `urlsForUser(id)`: exactly the entries of `urlDB` whose `userId` is `id`, with the same records. */
  method UrlsForUser(urlDB: map<string, Url>, id: string) returns (userURLs: map<string, Url>)
    ensures forall k :: k in userURLs <==> k in urlDB && urlDB[k].userId == id
    ensures forall k :: k in userURLs ==> userURLs[k] == urlDB[k]
    ensures userURLs == OwnedBy(urlDB, id)
  {
    userURLs := map[];
    var unvisited := urlDB.Keys;
    while unvisited != {}
      invariant unvisited <= urlDB.Keys
      invariant forall k :: k in userURLs <==> k in urlDB && k !in unvisited && urlDB[k].userId == id
      invariant forall k :: k in userURLs ==> userURLs[k] == urlDB[k]
      decreases unvisited
    {
      var url :| url in unvisited;
      if urlDB[url].userId == id {
        userURLs := userURLs[url := urlDB[url]];
      }
      unvisited := unvisited - {url};
    }
  }
}
