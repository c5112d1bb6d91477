/** helpers/urlsForUser.js: `urlsForUser(id, database)`, the URLs that `id` owns. */
module UrlsForUserHelper {

  import opened Records

  /** Exactly the entries of `database` whose `userId` is `id`, with the same records. */
  method UrlsForUser(id: string, database: map<string, Url>) returns (userURLs: map<string, Url>)
    ensures forall k :: k in userURLs <==> k in database && database[k].userId == id
    ensures forall k :: k in userURLs ==> userURLs[k] == database[k]
    ensures userURLs == OwnedBy(database, id)
  {
    userURLs := map[];
    var unvisited := database.Keys;
    while unvisited != {}
      invariant unvisited <= database.Keys
      invariant forall k :: k in userURLs <==> k in database && k !in unvisited && database[k].userId == id
      invariant forall k :: k in userURLs ==> userURLs[k] == database[k]
      decreases unvisited
    {
      var url :| url in unvisited;
      if database[url].userId == id {
        userURLs := userURLs[url := database[url]];
      }
      unvisited := unvisited - {url};
    }
  }
}
