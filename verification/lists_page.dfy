/**
 * The lists page, client/src/pages/lists.tsx: the platform a link is filed
 * under, the badge colour of a platform, and the blank-title guard of adding
 * to, removing from and marking items of a list. Each request is recorded;
 * its response, or whether it reached the server, is a parameter.
 */
module ListsPage {
  import opened Wrappers
  import opened Text
  import opened Schema
  import opened Seqs

  /** The platform checks in the order `detectPlatform` makes them: key searched for, platform named. */
  const PlatformKeys: seq<(string, string)> := [
    ("netflix", "netflix"), ("youtube", "youtube"), ("vimeo", "vimeo"), ("hbo", "hbo"),
    ("disney", "disney"), ("prime", "prime"), ("amazon", "prime")]

  /** detectPlatform: `None` for an empty link, else the first platform whose key occurs, else "other". */
  function DetectPlatform(url: string): (r: Option<string>)
    ensures r == None <==> url == ""
  {
    if url == "" then None
    else if Contains(url, "netflix") then Some("netflix")
    else if Contains(url, "youtube") then Some("youtube")
    else if Contains(url, "vimeo") then Some("vimeo")
    else if Contains(url, "hbo") then Some("hbo")
    else if Contains(url, "disney") then Some("disney")
    else if Contains(url, "prime") || Contains(url, "amazon") then Some("prime")
    else Some("other")
  }

  /** Reference reading of a first-match table: the platform of the first key that occurs, or "other". */
  function FirstMatch(url: string, table: seq<(string, string)>): (r: string)
    ensures r == "other" || exists i :: 0 <= i < |table| && r == table[i].1
  {
    if table == [] then "other"
    else if Contains(url, table[0].0) then table[0].1
    else
      var r := FirstMatch(url, table[1..]);
      assert r != "other" ==> exists i :: 1 <= i < |table| && r == table[i].1 by {
        if r != "other" {
          var i :| 0 <= i < |table[1..]| && r == table[1..][i].1;
          assert r == table[i + 1].1;
        }
      }
      r
  }

  /** detectPlatform is the first-match reading of its table, in the table's order. */
  lemma DetectPlatformIsFirstMatch(url: string)
    requires url != ""
    ensures DetectPlatform(url) == Some(FirstMatch(url, PlatformKeys))
  {
    var t0 := PlatformKeys;
    var t1 := [("youtube", "youtube"), ("vimeo", "vimeo"), ("hbo", "hbo"),
               ("disney", "disney"), ("prime", "prime"), ("amazon", "prime")];
    var t2 := [("vimeo", "vimeo"), ("hbo", "hbo"), ("disney", "disney"), ("prime", "prime"), ("amazon", "prime")];
    var t3 := [("hbo", "hbo"), ("disney", "disney"), ("prime", "prime"), ("amazon", "prime")];
    var t4 := [("disney", "disney"), ("prime", "prime"), ("amazon", "prime")];
    var t5 := [("prime", "prime"), ("amazon", "prime")];
    var t6 := [("amazon", "prime")];
    assert t0[1..] == t1 && t1[1..] == t2 && t2[1..] == t3 && t3[1..] == t4;
    assert t4[1..] == t5 && t5[1..] == t6 && t6[1..] == [];
    assert FirstMatch(url, t6) == if Contains(url, "amazon") then "prime" else "other";
    assert FirstMatch(url, t5) == if Contains(url, "prime") then "prime" else FirstMatch(url, t6);
    assert FirstMatch(url, t4) == if Contains(url, "disney") then "disney" else FirstMatch(url, t5);
    assert FirstMatch(url, t3) == if Contains(url, "hbo") then "hbo" else FirstMatch(url, t4);
    assert FirstMatch(url, t2) == if Contains(url, "vimeo") then "vimeo" else FirstMatch(url, t3);
    assert FirstMatch(url, t1) == if Contains(url, "youtube") then "youtube" else FirstMatch(url, t2);
    assert FirstMatch(url, t0) == if Contains(url, "netflix") then "netflix" else FirstMatch(url, t1);
  }

  /** A non-empty link containing none of the keys is filed under "other". */
  lemma NoKeyIsOther(url: string)
    requires url != ""
    requires forall i :: 0 <= i < |PlatformKeys| ==> !Contains(url, PlatformKeys[i].0)
    ensures DetectPlatform(url) == Some("other")
  {
    var t := PlatformKeys;
    assert !Contains(url, t[0].0) && !Contains(url, t[1].0) && !Contains(url, t[2].0) && !Contains(url, t[3].0);
    assert !Contains(url, t[4].0) && !Contains(url, t[5].0) && !Contains(url, t[6].0);
  }

  const Zinc: string := "bg-zinc-600"

  /** The platforms with a colour of their own. */
  predicate HasOwnColour(platform: Option<string>) {
    platform.Some? && platform.value in ["netflix", "youtube", "disney", "hbo", "prime"]
  }

  /** getPlatformColor: five platforms have their own class; everything else is zinc. */
  function GetPlatformColor(platform: Option<string>): (r: string)
    ensures r == Zinc <==> !HasOwnColour(platform)
    ensures platform == Some("netflix") ==> r == "bg-red-600"
    ensures platform == Some("youtube") ==> r == "bg-red-500"
    ensures platform == Some("disney") ==> r == "bg-blue-600"
    ensures platform == Some("hbo") ==> r == "bg-purple-600"
    ensures platform == Some("prime") ==> r == "bg-cyan-600"
  {
    match platform
    case Some("netflix") => "bg-red-600"
    case Some("youtube") => "bg-red-500"
    case Some("disney") => "bg-blue-600"
    case Some("hbo") => "bg-purple-600"
    case Some("prime") => "bg-cyan-600"
    case _ => Zinc
  }

  /** A detected link is shown in zinc exactly when it is empty, vimeo, or other. */
  lemma DetectedColour(url: string)
    ensures GetPlatformColor(DetectPlatform(url)) == Zinc
            <==> DetectPlatform(url) in {None, Some("vimeo"), Some("other")}
  {
  }

  datatype ListType = Favorites | ToWatch {
    function Name(): string {
      match this
      case Favorites => "favorites"
      case ToWatch => "towatch"
    }
  }

  /** The requests the page makes: the POST to /api/movie-list, the DELETE of an item, and the POST marking it watched. */
  datatype Request =
    | AddRequest(title: string, url: Option<string>, listType: string, platform: Option<string>)
    | DeleteRequest(id: string)
    | WatchedRequest(id: string, rating: string)

  /** `m => m.id !== id`. */
  function IsNotItem(id: string): MovieListItem -> bool {
    (m: MovieListItem) => m.id != id
  }

  class ListsView {
    var favorites: seq<MovieListItem>
    var toWatch: seq<MovieListItem>
    var newTitle: string
    var newUrl: string
    /** Every request made, in order. */
    var requests: seq<Request>

    constructor ()
      ensures favorites == [] && toWatch == [] && newTitle == "" && newUrl == "" && requests == []
    {
      favorites, toWatch, newTitle, newUrl, requests := [], [], "", "", [];
    }

    /**
     * addToList: a blank title makes no request and changes nothing;
     * otherwise one request goes out, and a successful `response` puts the
     * returned item first in its list and clears the inputs.
     */
    method AddToList(listType: ListType, response: Option<MovieListItem>)
      modifies this
      ensures IsBlank(old(newTitle)) ==> && requests == old(requests)
                                          && favorites == old(favorites) && toWatch == old(toWatch)
                                          && newTitle == old(newTitle) && newUrl == old(newUrl)
      ensures !IsBlank(old(newTitle)) ==>
                requests == old(requests) + [AddRequest(old(newTitle), if old(newUrl) == "" then None else Some(old(newUrl)),
                                                        listType.Name(), DetectPlatform(old(newUrl)))]
      ensures !IsBlank(old(newTitle)) && response.Some? ==>
                && favorites == (if listType == Favorites then [response.value] + old(favorites) else old(favorites))
                && toWatch == (if listType == ToWatch then [response.value] + old(toWatch) else old(toWatch))
                && newTitle == "" && newUrl == ""
      ensures response.None? ==> favorites == old(favorites) && toWatch == old(toWatch)
                                 && newTitle == old(newTitle) && newUrl == old(newUrl)
    {
      if IsBlank(newTitle) {
        return;
      }
      var request := AddRequest(newTitle, if newUrl == "" then None else Some(newUrl),
                                listType.Name(), DetectPlatform(newUrl));
      requests := requests + [request];
      if response.Some? {
        if listType == Favorites {
          favorites := [response.value] + favorites;
        } else {
          toWatch := [response.value] + toWatch;
        }
        newTitle, newUrl := "", "";
      }
    }

    /**
     * removeFromList: the DELETE goes out; once it has reached the server,
     * whatever its status, every item with that id leaves the chosen list.
     */
    method RemoveFromList(id: string, listType: ListType, delivered: bool)
      modifies this
      ensures requests == old(requests) + [DeleteRequest(id)]
      ensures favorites == (if delivered && listType == Favorites then Filter(old(favorites), IsNotItem(id)) else old(favorites))
      ensures toWatch == (if delivered && listType == ToWatch then Filter(old(toWatch), IsNotItem(id)) else old(toWatch))
      ensures newTitle == old(newTitle) && newUrl == old(newUrl)
    {
      requests := requests + [DeleteRequest(id)];
      if delivered {
        if listType == Favorites {
          favorites := Filter(favorites, IsNotItem(id));
        } else {
          toWatch := Filter(toWatch, IsNotItem(id));
        }
      }
    }

    /**
     * markAsWatched: the POST with the rating goes out; once it has reached
     * the server, every item with that id leaves the to-watch list.
     */
    method MarkAsWatched(id: string, rating: string, delivered: bool)
      modifies this
      ensures requests == old(requests) + [WatchedRequest(id, rating)]
      ensures toWatch == (if delivered then Filter(old(toWatch), IsNotItem(id)) else old(toWatch))
      ensures favorites == old(favorites) && newTitle == old(newTitle) && newUrl == old(newUrl)
    {
      requests := requests + [WatchedRequest(id, rating)];
      if delivered {
        toWatch := Filter(toWatch, IsNotItem(id));
      }
    }
  }

  /** Removing by id: no item with the id remains, and every other item stays, in its order and as often as before. */
  lemma ItemsAfterRemove(items: seq<MovieListItem>, id: string)
    ensures var r := Filter(items, IsNotItem(id));
      && (forall i :: 0 <= i < |r| ==> r[i].id != id)
      && (forall m: MovieListItem :: m.id != id ==> multiset(r)[m] == multiset(items)[m])
  {
    var r := Filter(items, IsNotItem(id));
    FilterMembers(items, IsNotItem(id));
    forall m: MovieListItem | m.id != id
      ensures multiset(r)[m] == multiset(items)[m]
    {
      FilterCount(items, IsNotItem(id), m);
    }
  }
}
