/**
 * `InMemoryStorage` of server/storage.ts: the store used when no database is
 * configured. `randomUUID()` and `new Date()` become the parameters `id` and
 * `now` of the methods that call them.
 */
module MemoryStorage {
  import opened Wrappers
  import opened Seqs
  import opened Sorting
  import opened Schema

  function UserIdIs(id: string): User -> bool {
    (u: User) => u.id == id
  }

  function UsernameIs(username: string): User -> bool {
    (u: User) => u.username == username
  }

  function ItemIdIs(id: string): MovieListItem -> bool {
    (item: MovieListItem) => item.id == id
  }

  function ItemIdIsNot(id: string): MovieListItem -> bool {
    (item: MovieListItem) => item.id != id
  }

  function OfListType(listType: string): MovieListItem -> bool {
    (item: MovieListItem) => item.listType == listType
  }

  /** Sort key of the comparator `bDate - aDate` on `addedAt`: newest first. */
  function AddedRecency(item: MovieListItem): int {
    -(item.addedAt as int)
  }

  /** Sort key of the comparator `bDate - aDate` on `watchedAt`: newest first. */
  function WatchedRecency(entry: WatchHistory): int {
    -(entry.watchedAt as int)
  }

  class InMemoryStorage {
    var users: seq<User>
    var watchHistory: seq<WatchHistory>
    var movieList: seq<MovieListItem>

    constructor ()
      ensures users == [] && watchHistory == [] && movieList == []
    {
      users, watchHistory, movieList := [], [], [];
    }

    /** getUser: the first user with this id, if any. */
    function GetUser(id: string): (r: Option<User>)
      reads this
      ensures r == None <==> forall i :: 0 <= i < |users| ==> users[i].id != id
      ensures r.Some? ==> exists i :: 0 <= i < |users| && users[i] == r.value && r.value.id == id
                                        && forall j :: 0 <= j < i ==> users[j].id != id
    {
      Find(users, UserIdIs(id))
    }

    /** getUserByUsername: the first user with this username, if any. */
    function GetUserByUsername(username: string): (r: Option<User>)
      reads this
      ensures r == None <==> forall i :: 0 <= i < |users| ==> users[i].username != username
      ensures r.Some? ==> exists i :: 0 <= i < |users| && users[i] == r.value && r.value.username == username
                                        && forall j :: 0 <= j < i ==> users[j].username != username
    {
      Find(users, UsernameIs(username))
    }

    /** createUser: appends a user with a new id and the given fields. */
    method CreateUser(insertUser: InsertUser, id: string) returns (user: User)
      modifies this
      ensures user == User(id, insertUser.username, insertUser.password)
      ensures users == old(users) + [user]
      ensures watchHistory == old(watchHistory) && movieList == old(movieList)
      ensures (forall i :: 0 <= i < |old(users)| ==> old(users)[i].id != id) ==> GetUser(id) == Some(user)
      ensures (forall i :: 0 <= i < |old(users)| ==> old(users)[i].username != insertUser.username)
                ==> GetUserByUsername(insertUser.username) == Some(user)
    {
      user := User(id, insertUser.username, insertUser.password);
      FindAfterNoMatch(users, user, UserIdIs(id));
      FindAfterNoMatch(users, user, UsernameIs(insertUser.username));
      users := users + [user];
    }

    /** getWatchHistory: a copy of the history, newest first. */
    function GetWatchHistory(): (r: seq<WatchHistory>)
      reads this
      ensures multiset(r) == multiset(watchHistory)
      ensures forall i, j :: 0 <= i < j < |r| ==> r[i].watchedAt >= r[j].watchedAt
    {
      SortBy(watchHistory, WatchedRecency)
    }

    /** addWatchHistory: appends an entry stamped `now`; absent fields become `None`. */
    method AddWatchHistory(item: InsertWatchHistory, id: string, now: nat) returns (entry: WatchHistory)
      modifies this
      ensures entry == WatchHistory(id, item.title, item.url, item.platform, now, item.watchedWith, item.rating)
      ensures watchHistory == old(watchHistory) + [entry]
      ensures users == old(users) && movieList == old(movieList)
    {
      entry := WatchHistory(id, item.title, item.url, item.platform, now, item.watchedWith, item.rating);
      watchHistory := watchHistory + [entry];
    }

    /** getMovieList: the items of one list, newest first (which items: `MovieListMembers`). */
    function GetMovieList(listType: string): (r: seq<MovieListItem>)
      reads this
      ensures multiset(r) == multiset(Filter(movieList, OfListType(listType)))
      ensures forall i, j :: 0 <= i < j < |r| ==> r[i].addedAt >= r[j].addedAt
    {
      SortBy(Filter(movieList, OfListType(listType)), AddedRecency)
    }

    /** addToMovieList: puts a new item, stamped `now`, at the front of the list. */
    method AddToMovieList(item: InsertMovieListItem, id: string, now: nat) returns (entry: MovieListItem)
      modifies this
      ensures entry == MovieListItem(id, item.title, item.url, item.platform, item.listType, now, item.notes)
      ensures movieList == [entry] + old(movieList)
      ensures users == old(users) && watchHistory == old(watchHistory)
    {
      entry := MovieListItem(id, item.title, item.url, item.platform, item.listType, now, item.notes);
      movieList := [entry] + movieList;
    }

    /** removeFromMovieList: drops every item with this id. */
    method RemoveFromMovieList(id: string)
      modifies this
      ensures movieList == Filter(old(movieList), ItemIdIsNot(id))
      ensures users == old(users) && watchHistory == old(watchHistory)
    {
      movieList := Filter(movieList, ItemIdIsNot(id));
    }

    /**
     * moveToWatched: takes the first item with this id out of the list and
     * appends a history entry with its title, url and platform and `rating`;
     * an unknown id changes nothing.
     */
    method MoveToWatched(id: string, rating: Option<string>, historyId: string, now: nat)
      modifies this
      ensures var i := FindIndex(old(movieList), ItemIdIs(id));
        && (i == -1 ==> movieList == old(movieList) && watchHistory == old(watchHistory))
        && (i >= 0 ==>
              var item := old(movieList)[i];
              && movieList == RemoveAt(old(movieList), i)
              && watchHistory == old(watchHistory)
                   + [WatchHistory(historyId, item.title, item.url, item.platform, now, None, rating)])
      ensures users == old(users)
    {
      var index := FindIndex(movieList, ItemIdIs(id));
      if index != -1 {
        var item := movieList[index];
        movieList := RemoveAt(movieList, index);
        var _ := AddWatchHistory(InsertWatchHistory(item.title, item.url, item.platform, None, rating), historyId, now);
      }
    }
  }

  // ----- properties -----

  /** getMovieList returns exactly the stored items of that list type. */
  lemma MovieListMembers(store: InMemoryStorage, listType: string)
    ensures forall x :: x in store.GetMovieList(listType) <==> x in store.movieList && x.listType == listType
  {
    var matching := Filter(store.movieList, OfListType(listType));
    FilterMembers(store.movieList, OfListType(listType));
    forall x
      ensures x in store.GetMovieList(listType) <==> x in store.movieList && x.listType == listType
    {
      assert x in store.GetMovieList(listType) <==> x in multiset(matching);
    }
  }

  /** getMovieList keeps items added at the same time in the order they are stored. */
  lemma MovieListStable(store: InMemoryStorage, listType: string, addedAt: nat)
    ensures Filter(store.GetMovieList(listType), KeyIs(AddedRecency, -(addedAt as int)))
            == Filter(Filter(store.movieList, OfListType(listType)), KeyIs(AddedRecency, -(addedAt as int)))
  {
    SortStable(Filter(store.movieList, OfListType(listType)), AddedRecency, -(addedAt as int));
  }

  /** getWatchHistory keeps entries watched at the same time in the order they are stored. */
  lemma WatchHistoryStable(store: InMemoryStorage, watchedAt: nat)
    ensures Filter(store.GetWatchHistory(), KeyIs(WatchedRecency, -(watchedAt as int)))
            == Filter(store.watchHistory, KeyIs(WatchedRecency, -(watchedAt as int)))
  {
    SortStable(store.watchHistory, WatchedRecency, -(watchedAt as int));
  }

  /**
   * removeFromMovieList's result: no item with the id is left, every other
   * item is kept as often as it occurred, and the list is no longer.
   */
  lemma RemovalKeepsOthers(items: seq<MovieListItem>, id: string)
    ensures var r := Filter(items, ItemIdIsNot(id));
      && (forall i :: 0 <= i < |r| ==> r[i].id != id)
      && (forall x: MovieListItem :: x.id != id ==> multiset(r)[x] == multiset(items)[x])
      && |r| <= |items|
  {
    var r := Filter(items, ItemIdIsNot(id));
    FilterMembers(items, ItemIdIsNot(id));
    forall x: MovieListItem | x.id != id
      ensures multiset(r)[x] == multiset(items)[x]
    {
      FilterCount(items, ItemIdIsNot(id), x);
    }
  }

  /**
   * moveToWatched on a present id takes out exactly one item, the first with
   * that id: the list loses one occurrence of it and nothing else.
   */
  lemma MoveTakesFirstMatch(items: seq<MovieListItem>, id: string)
    requires exists i :: 0 <= i < |items| && items[i].id == id
    ensures var i := FindIndex(items, ItemIdIs(id));
      && 0 <= i < |items| && items[i].id == id
      && (forall j :: 0 <= j < i ==> items[j].id != id)
      && multiset(RemoveAt(items, i)) == multiset(items) - multiset{items[i]}
      && |RemoveAt(items, i)| == |items| - 1
  {
    var i :| 0 <= i < |items| && items[i].id == id;
    assert ItemIdIs(id)(items[i]);
  }
}
