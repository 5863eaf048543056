/**
 * Record shapes of shared/schema.ts. A nullable column is an `Option`; in the
 * stores, a field that is absent and one that is `null` are both `None`.
 * Timestamps are `Date` values given as their `getTime()`, a natural.
 */
module Schema {
  import opened Wrappers

  datatype User = User(id: string, username: string, password: string)

  datatype InsertUser = InsertUser(username: string, password: string)

  datatype WatchHistory = WatchHistory(
    id: string, title: string, url: Option<string>, platform: Option<string>,
    watchedAt: nat, watchedWith: Option<string>, rating: Option<string>)

  datatype InsertWatchHistory = InsertWatchHistory(
    title: string, url: Option<string>, platform: Option<string>,
    watchedWith: Option<string>, rating: Option<string>)

  datatype MovieListItem = MovieListItem(
    id: string, title: string, url: Option<string>, platform: Option<string>,
    listType: string, addedAt: nat, notes: Option<string>)

  datatype InsertMovieListItem = InsertMovieListItem(
    title: string, url: Option<string>, platform: Option<string>,
    listType: string, notes: Option<string>)

  datatype Conversation = Conversation(id: int, title: string, createdAt: nat)

  datatype Message = Message(id: int, conversationId: int, role: string, content: string, createdAt: nat)
}
