/** helpers/belongsToUser.js: `belongsToUser(shortURL, currentUserId, database)`. */
module BelongsHelper {

  import opened Records

  /** The short code is one of the URLs that urlsForUser lists for `currentUserId`. */
  function BelongsToUser(shortURL: string, currentUserId: string, database: map<string, Url>): (r: bool)
    ensures r <==> shortURL in OwnedBy(database, currentUserId)
    ensures shortURL !in database ==> !r
  {
    shortURL in database && database[shortURL].userId == currentUserId
  }
}
