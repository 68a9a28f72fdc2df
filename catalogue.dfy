/** The in-memory music catalogue of the Newsick app: its records, the pure views over the
    list (search, favourites, lookup by title) and the view model that owns the mutable state. */
module Catalogue {
  import opened Lists
  import Text

  /** One entry of the catalogue (MainActivity.kt `data class MusicItem`). */
  datatype MusicItem = MusicItem(
    id: int,
    title: string,
    artist: string,
    description: string,
    genre: string,
    isFavorite: bool)

  /** One entry of the comment log (MainActivity.kt `data class Comment`). */
  datatype Comment = Comment(author: string, text: string)

  /** The author recorded for comments written on this device. */
  const LocalAuthor: string := "Me"

  /** The four entries the view model starts with; none is a favourite yet. */
  function SeedItems(): (r: seq<MusicItem>)
    ensures |r| == 4
    ensures UniqueIds(r)
    ensures forall i :: 0 <= i < |r| ==> !r[i].isFavorite
  {
    [ MusicItem(1, "Neon Nights", "CyberPunks", "Synthwave puro para programar.", "Electronic", false),
      MusicItem(2, "Jazz Cafe", "Blue Note Trio", "Jazz suave para relajarse.", "Jazz", false),
      MusicItem(3, "Heavy Code", "The Compilers", "Metal progresivo intenso.", "Metal", false),
      MusicItem(4, "Lo-Fi Study", "Chill Hop", "Beats para estudiar.", "Lo-Fi", false) ]
  }

  /** No two entries share an id. */
  predicate UniqueIds(s: seq<MusicItem>) {
    forall i, j :: 0 <= i < j < |s| ==> s[i].id != s[j].id
  }

  // ---------------------------------------------------------------------------------------
  // Toggling a favourite

  function IdIs(id: int): MusicItem -> bool {
    (m: MusicItem) => m.id == id
  }

  /** `k` is the position of the first entry whose id is `id`. */
  predicate IsFirstWithId(s: seq<MusicItem>, id: int, k: int) {
    0 <= k < |s| && s[k].id == id && forall j :: 0 <= j < k ==> s[j].id != id
  }

  /** The list after `toggleFavorite` on an item with id `id`: the first entry with that id is
      replaced by a copy with its favourite flag flipped; without such an entry nothing changes. */
  function Toggle(s: seq<MusicItem>, id: int): (r: seq<MusicItem>)
    ensures |r| == |s|
    ensures (forall i :: 0 <= i < |s| ==> s[i].id != id) ==> r == s
    ensures forall k :: IsFirstWithId(s, id, k) ==>
              r[k] == s[k].(isFavorite := !s[k].isFavorite) &&
              forall j :: 0 <= j < |s| && j != k ==> r[j] == s[j]
  {
    var index := IndexOfFirst(s, IdIs(id));
    if index == -1 then s
    else s[index := s[index].(isFavorite := !s[index].isFavorite)]
  }

  /** Toggling never touches an entry's id, title, artist, description or genre. */
  lemma ToggleKeepsDescriptions(s: seq<MusicItem>, id: int)
    ensures var r := Toggle(s, id);
      |r| == |s| &&
      forall i :: 0 <= i < |s| ==>
        r[i].id == s[i].id && r[i].title == s[i].title && r[i].artist == s[i].artist &&
        r[i].description == s[i].description && r[i].genre == s[i].genre
  {
    var index := IndexOfFirst(s, IdIs(id));
    if index != -1 {
      assert IsFirstWithId(s, id, index);
    }
  }

  /** Toggling the same id twice restores the original list. */
  lemma ToggleTwiceRestores(s: seq<MusicItem>, id: int)
    ensures Toggle(Toggle(s, id), id) == s
  {
    var r := Toggle(s, id);
    var index := IndexOfFirst(s, IdIs(id));
    if index != -1 {
      assert IsFirstWithId(s, id, index);
      assert IsFirstWithId(r, id, index);
      assert Toggle(r, id) == s;
    }
  }

  /** Toggling keeps the ids, so it keeps them unique. */
  lemma ToggleKeepsUniqueIds(s: seq<MusicItem>, id: int)
    requires UniqueIds(s)
    ensures UniqueIds(Toggle(s, id))
  {
    ToggleKeepsDescriptions(s, id);
  }

  // ---------------------------------------------------------------------------------------
  // Favourites

  function IsFavorite(): MusicItem -> bool {
    (m: MusicItem) => m.isFavorite
  }

  /** The `favorites` view: the entries marked as favourite. */
  function FavoritesOf(s: seq<MusicItem>): (r: seq<MusicItem>)
    ensures forall i :: 0 <= i < |r| ==> r[i] in s && r[i].isFavorite
    ensures forall i :: 0 <= i < |s| && s[i].isFavorite ==> s[i] in r
  {
    Filter(s, IsFavorite())
  }

  /** The favourites are exactly the favourite entries of the list, in list order and with
      their multiplicities. */
  lemma FavoritesAreOrderedSelection(s: seq<MusicItem>)
    ensures IsSubsequence(FavoritesOf(s), s)
    ensures forall x :: multiset(FavoritesOf(s))[x] == if x.isFavorite then multiset(s)[x] else 0
  {
    FilterIsSubsequence(s, IsFavorite());
    forall x ensures multiset(FavoritesOf(s))[x] == if x.isFavorite then multiset(s)[x] else 0 {
      FilterMultiplicity(s, IsFavorite(), x);
    }
  }

  /** Toggling an entry that is not a favourite makes it one, adds one favourite and keeps
      every earlier favourite; toggling a favourite removes it, takes one favourite away and
      adds none. */
  lemma ToggleChangesFavorites(s: seq<MusicItem>, id: int, k: int)
    requires IsFirstWithId(s, id, k)
    ensures var r := Toggle(s, id);
      (!s[k].isFavorite ==>
        r[k] in FavoritesOf(r) && |FavoritesOf(r)| == |FavoritesOf(s)| + 1 &&
        forall y :: y in FavoritesOf(s) ==> y in FavoritesOf(r)) &&
      (s[k].isFavorite ==>
        r[k] !in FavoritesOf(r) && |FavoritesOf(r)| + 1 == |FavoritesOf(s)| &&
        forall y :: y in FavoritesOf(r) ==> y in FavoritesOf(s))
  {
    var r := Toggle(s, id);
    assert r == s[k := s[k].(isFavorite := !s[k].isFavorite)];
    FilterLengthAfterUpdate(s, k, r[k], IsFavorite());
    if !s[k].isFavorite {
      forall y | y in FavoritesOf(s)
        ensures y in FavoritesOf(r)
      {
        var i :| 0 <= i < |FavoritesOf(s)| && FavoritesOf(s)[i] == y;
        var j :| 0 <= j < |s| && s[j] == y;
        assert j != k && r[j] == y;
      }
    } else {
      forall y | y in FavoritesOf(r)
        ensures y in FavoritesOf(s)
      {
        var i :| 0 <= i < |FavoritesOf(r)| && FavoritesOf(r)[i] == y;
        var j :| 0 <= j < |r| && r[j] == y;
        assert j != k && s[j] == y;
      }
    }
  }

  /** With unique ids, confirming the removal of a favourite takes exactly that entry out of the
      favourites and leaves the other favourites as they were. */
  lemma RemovingFavorite(s: seq<MusicItem>, x: MusicItem)
    requires UniqueIds(s)
    requires x in FavoritesOf(s)
    ensures x !in FavoritesOf(Toggle(s, x.id))
    ensures |FavoritesOf(Toggle(s, x.id))| + 1 == |FavoritesOf(s)|
    ensures forall y :: y in FavoritesOf(s) && y.id != x.id ==> y in FavoritesOf(Toggle(s, x.id))
    ensures forall y :: y in FavoritesOf(Toggle(s, x.id)) ==> y.id != x.id
  {
    var k :| 0 <= k < |s| && s[k] == x;
    assert IsFirstWithId(s, x.id, k);
    ToggleChangesFavorites(s, x.id, k);
    var r := Toggle(s, x.id);
    forall i | 0 <= i < |r| && r[i].isFavorite
      ensures r[i] != x
    {
      if i != k {
        assert r[i] == s[i];
      }
    }
    forall y | y in FavoritesOf(r)
      ensures y.id != x.id
    {
      var j :| 0 <= j < |r| && r[j] == y;
      ToggleKeepsDescriptions(s, x.id);
      if j != k {
        assert r[j] == s[j] && s[j].id != s[k].id;
      }
    }
  }

  // ---------------------------------------------------------------------------------------
  // Search

  /** An entry matches a query when its title or its artist contains it, ignoring case. */
  predicate Matches(m: MusicItem, query: string) {
    Text.ContainsIgnoreCase(m.title, query) || Text.ContainsIgnoreCase(m.artist, query)
  }

  function MatchesQuery(query: string): MusicItem -> bool {
    (m: MusicItem) => Matches(m, query)
  }

  /** The `filteredItems` view: the whole list for an empty query, otherwise the entries that
      match it. */
  function Search(s: seq<MusicItem>, query: string): (r: seq<MusicItem>)
    ensures query == "" ==> r == s
    ensures forall i :: 0 <= i < |r| ==> r[i] in s && Matches(r[i], query)
    ensures forall i :: 0 <= i < |s| && Matches(s[i], query) ==> s[i] in r
  {
    if |query| == 0 then
      EmptyQueryMatchesAll(s);
      s
    else Filter(s, MatchesQuery(query))
  }

  lemma EmptyQueryMatchesAll(s: seq<MusicItem>)
    ensures forall i :: 0 <= i < |s| ==> Matches(s[i], "")
  {
    forall i | 0 <= i < |s| ensures Matches(s[i], "") {
      Text.ContainsEmpty(s[i].title);
    }
  }

  /** The shortcut for the empty query gives what filtering with it would give. */
  lemma EmptyQueryShortcutAgrees(s: seq<MusicItem>)
    ensures Search(s, "") == Filter(s, MatchesQuery(""))
  {
    EmptyQueryMatchesAll(s);
    FilterAllKept(s, MatchesQuery(""));
  }

  /** The search result lists the matching entries in list order, each as often as it
      occurs in the list, and nothing else. */
  lemma SearchIsOrderedSelection(s: seq<MusicItem>, query: string)
    ensures IsSubsequence(Search(s, query), s)
    ensures forall x :: multiset(Search(s, query))[x] == if Matches(x, query) then multiset(s)[x] else 0
  {
    if query == "" {
      EmptyQueryShortcutAgrees(s);
    }
    FilterIsSubsequence(s, MatchesQuery(query));
    forall x ensures multiset(Search(s, query))[x] == if Matches(x, query) then multiset(s)[x] else 0 {
      FilterMultiplicity(s, MatchesQuery(query), x);
    }
  }

  /** Searching is insensitive to the case of the query. */
  lemma SearchIgnoresQueryCase(s: seq<MusicItem>, query: string)
    ensures Search(s, Text.FoldAll(query)) == Search(s, query)
  {
    var folded := Text.FoldAll(query);
    if query != "" {
      forall i | 0 <= i < |s|
        ensures MatchesQuery(folded)(s[i]) == MatchesQuery(query)(s[i])
      {
        Text.ContainsFoldedNeedle(s[i].title, query);
        Text.ContainsFoldedNeedle(s[i].artist, query);
      }
      FilterCongruent(s, MatchesQuery(folded), MatchesQuery(query));
    }
  }

  // ---------------------------------------------------------------------------------------
  // Lookup by title

  function TitleIs(title: string): MusicItem -> bool {
    (m: MusicItem) => m.title == title
  }

  /** `k` is the position of the first entry titled `title`. */
  predicate IsFirstWithTitle(s: seq<MusicItem>, title: string, k: int) {
    0 <= k < |s| && s[k].title == title && forall j :: 0 <= j < k ==> s[j].title != title
  }

  /** The detail screens' `items.find { it.title == itemName }`: the first entry with exactly
      that title, or nothing when no entry has it. */
  function FindByTitle(s: seq<MusicItem>, title: string): (r: Option<MusicItem>)
    ensures r.None? <==> forall i :: 0 <= i < |s| ==> s[i].title != title
    ensures r.Some? ==> exists k :: IsFirstWithTitle(s, title, k) && r.value == s[k]
  {
    FindIsAtIndexOfFirst(s, TitleIs(title));
    var k := IndexOfFirst(s, TitleIs(title));
    assert k != -1 ==> IsFirstWithTitle(s, title, k);
    Find(s, TitleIs(title))
  }

  // ---------------------------------------------------------------------------------------
  // The view model

  /** `MainViewModel`: the search query, the catalogue and the comment log. */
  class MainViewModel {
    var searchQuery: string
    var items: seq<MusicItem>
    var comments: seq<Comment>

    /** Entries are told apart by id: the seed has unique ids and toggling keeps them. */
    predicate Valid()
      reads this
    {
      UniqueIds(items)
    }

    constructor ()
      ensures Valid()
      ensures searchQuery == "" && items == SeedItems() && comments == []
    {
      searchQuery := "";
      items := SeedItems();
      comments := [];
    }

    /** The list the catalogue screen shows for the current query. */
    function FilteredItems(): (r: seq<MusicItem>)
      reads this
      ensures searchQuery == "" ==> r == items
      ensures forall i :: 0 <= i < |r| ==> r[i] in items && Matches(r[i], searchQuery)
      ensures forall i :: 0 <= i < |items| && Matches(items[i], searchQuery) ==> items[i] in r
    {
      Search(items, searchQuery)
    }

    /** The list the favourites screen shows. */
    function Favorites(): (r: seq<MusicItem>)
      reads this
      ensures forall i :: 0 <= i < |r| ==> r[i] in items && r[i].isFavorite
      ensures forall i :: 0 <= i < |items| && items[i].isFavorite ==> items[i] in r
    {
      FavoritesOf(items)
    }

    /** The entry a detail route shows for its `itemName` argument, if any. The argument may
        be missing; no title equals a missing one, so nothing is found then. */
    function ItemByTitle(itemName: Option<string>): (r: Option<MusicItem>)
      reads this
      ensures itemName.None? ==> r.None?
      ensures itemName.Some? ==>
        (r.None? <==> forall i :: 0 <= i < |items| ==> items[i].title != itemName.value)
      ensures itemName.Some? && r.Some? ==>
        exists k :: IsFirstWithTitle(items, itemName.value, k) && r.value == items[k]
    {
      match itemName
      case None => None
      case Some(title) => FindByTitle(items, title)
    }

    method ToggleFavorite(item: MusicItem)
      requires Valid()
      modifies this
      ensures Valid()
      ensures items == Toggle(old(items), item.id)
      ensures searchQuery == old(searchQuery) && comments == old(comments)
    {
      var index := IndexOfFirst(items, IdIs(item.id));
      if index != -1 {
        items := items[index := items[index].(isFavorite := !items[index].isFavorite)];
      }
      ToggleKeepsUniqueIds(old(items), item.id);
    }

    method AddComment(text: string)
      requires Valid()
      modifies this
      ensures Valid()
      ensures comments == old(comments) + [Comment(LocalAuthor, text)]
      ensures searchQuery == old(searchQuery) && items == old(items)
    {
      comments := comments + [Comment(LocalAuthor, text)];
    }

    method UpdateSearch(query: string)
      requires Valid()
      modifies this
      ensures Valid()
      ensures searchQuery == query
      ensures items == old(items) && comments == old(comments)
    {
      searchQuery := query;
    }
  }
}
