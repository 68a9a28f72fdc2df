# Newsick catalogue — a Dafny model

Newsick is a small Android music-discovery app. Its only logic beyond screen layout is the
in-memory catalogue owned by `MainViewModel`, plus three small rules on the screens that
feed it. This project models that core and proves its contracts:

- a list of `MusicItem` records, seeded with four entries;
- `toggleFavorite`, which flips the favourite flag of the first entry with a given id;
- the `filteredItems` search: the whole list for an empty query, otherwise the entries whose
  title or artist contains the query, ignoring case;
- the `favorites` view;
- the append-only comment log (`addComment`) and the search query (`updateSearch`);
- lookup of an entry by title for the detail routes;
- the favourites screen's delete-confirmation dialog, which holds one pending entry;
- the comment dialog, which only publishes a non-empty draft.

Files and modules:

- `text.dfy` (`Text`): ASCII case folding and case-insensitive substring search, the model of
  Kotlin's `contains(..., ignoreCase = true)`.
- `lists.dfy` (`Lists`): the Kotlin list operations the core uses, as generic functions:
  `indexOfFirst` and `filter` (called by the view model) and `find` (called by the detail
  routes). It also holds the order and multiplicity lemmas about `filter`.
- `catalogue.dfy` (`Catalogue`): the records, the pure views (`Toggle`, `Search`,
  `FavoritesOf`, `FindByTitle`) and the class `MainViewModel`, whose methods update its
  `items`, `comments` and `searchQuery` fields in place. The title lookup lives in the
  navigation routes of the source (MainActivity.kt:230-232, :252-253); the model attaches it
  to `MainViewModel` as `ItemByTitle` for convenience, since it reads only the `items` field.
- `screens.dfy` (`Screens`): the classes `DeleteDialog` and `CommentDialog`, holding the
  screens' local dialog state. The predicate `DeleteDialog.IsShown` is the guard of the
  confirmation dialog (MainActivity.kt:433) and has no contract of its own, so it has no row
  below; the dialog's methods state how each one changes it.
- `scenarios.dfy` (`Scenarios`): worked scenarios on the seed data, stated as lemmas. The
  methods `FavoriteThenRemove` and `PostOneComment` are scenarios only: they have no
  contract of their own and show what a caller can prove from the contracts (favouriting
  "Heavy Code" and removing it through the delete dialog; posting one comment), so they have
  no row below.

The stateful parts are classes whose methods state their whole new state in terms of the
pure functions. The properties are proved as lemmas about those functions.
`MainViewModel.Valid()` is the invariant that ids are unique. The seed establishes it, and
every method keeps it. `RemovingFavorite` needs it of the list it is applied to, and
`DeleteDialog.Confirm` applies it to the view model's `items` under `Valid()`.

## Model

| member | source | states |
|---|---|---|
| `Text.IndexOfIgnoreCase` | app/src/main/java/com/makro17/newsick/MainActivity.kt:134-135 | the first offset at or after `from` where the query occurs ignoring case, or -1 exactly when it occurs at no such offset |
| `Text.ContainsIgnoreCase` | app/src/main/java/com/makro17/newsick/MainActivity.kt:134-135 | true exactly when the query occurs in the text at some offset, with characters compared after case folding |
| `Text.ContainsEmpty` | app/src/main/java/com/makro17/newsick/MainActivity.kt:133-135 | every text contains the empty query |
| `Text.ContainsExactOccurrence` | app/src/main/java/com/makro17/newsick/MainActivity.kt:134-135 | an exact occurrence of the query is also a case-insensitive one |
| `Text.ContainsFoldedNeedle` | app/src/main/java/com/makro17/newsick/MainActivity.kt:134-135 | folding the query's case first does not change whether the text contains it |
| `Text.ContainsFoldedHay` | app/src/main/java/com/makro17/newsick/MainActivity.kt:134-135 | folding the text's case first does not change whether it contains the query |
| `Lists.IndexOfFirst` | app/src/main/java/com/makro17/newsick/MainActivity.kt:151 | -1 exactly when no element passes the test; otherwise an index whose element passes and before which none does |
| `Lists.Find` | app/src/main/java/com/makro17/newsick/MainActivity.kt:232 | nothing exactly when no element passes the test; otherwise an element of the list that passes it |
| `Lists.FindIsAtIndexOfFirst` | app/src/main/java/com/makro17/newsick/MainActivity.kt:232 | `find` returns the element at the index `indexOfFirst` reports, and nothing when that index is -1 |
| `Lists.Filter` | app/src/main/java/com/makro17/newsick/MainActivity.kt:133-138 | every kept element is in the list and passes the test; every element that passes is kept; the result is no longer than the list |
| `Lists.FilterIsSubsequence` | app/src/main/java/com/makro17/newsick/MainActivity.kt:133-138 | the filtered list is an order-preserving subsequence of the list |
| `Lists.FilterMultiplicity` | app/src/main/java/com/makro17/newsick/MainActivity.kt:133-138 | an element that passes is kept as many times as it occurs; one that fails is never kept |
| `Lists.FilterAllKept` | app/src/main/java/com/makro17/newsick/MainActivity.kt:133 | when every element passes, filtering returns the list unchanged |
| `Lists.FilterCongruent` | app/src/main/java/com/makro17/newsick/MainActivity.kt:133-136 | two tests that agree on every element of the list filter it identically |
| `Lists.FilterLengthAfterUpdate` | app/src/main/java/com/makro17/newsick/MainActivity.kt:138 | replacing one element changes the filtered length by the difference of the tests on the old and new element |
| `Catalogue.SeedItems` | app/src/main/java/com/makro17/newsick/MainActivity.kt:123-128 | the seed has four entries with distinct ids, none a favourite |
| `Catalogue.Toggle` | app/src/main/java/com/makro17/newsick/MainActivity.kt:150-155 | the length is kept; at the first index with the id, the entry becomes a copy with the flag flipped, and every other entry is unchanged; without the id the list is unchanged |
| `Catalogue.ToggleKeepsDescriptions` | app/src/main/java/com/makro17/newsick/MainActivity.kt:153 | toggling never changes any entry's id, title, artist, description or genre |
| `Catalogue.ToggleTwiceRestores` | app/src/main/java/com/makro17/newsick/MainActivity.kt:150-155 | toggling the same id twice gives back the original list |
| `Catalogue.ToggleKeepsUniqueIds` | app/src/main/java/com/makro17/newsick/MainActivity.kt:150-155 | toggling keeps the ids of the list unique |
| `Catalogue.FavoritesOf` | app/src/main/java/com/makro17/newsick/MainActivity.kt:138 | every favourite listed is an entry marked favourite; every entry marked favourite is listed |
| `Catalogue.FavoritesAreOrderedSelection` | app/src/main/java/com/makro17/newsick/MainActivity.kt:138 | the favourites are an order-preserving subsequence of the list with exactly the multiplicities of the favourite entries |
| `Catalogue.ToggleChangesFavorites` | app/src/main/java/com/makro17/newsick/MainActivity.kt:150-155 | toggling a non-favourite puts it among the favourites, adds one and keeps every earlier favourite; toggling a favourite removes it, takes one away and adds no other |
| `Catalogue.RemovingFavorite` | app/src/main/java/com/makro17/newsick/MainActivity.kt:441 | with unique ids, removing a listed favourite takes it out of the favourites, shortens them by one, keeps all the others and leaves no favourite with its id |
| `Catalogue.Search` | app/src/main/java/com/makro17/newsick/MainActivity.kt:132-136 | the empty query gives the whole list; otherwise each listed entry is in the list and matches (title or artist contains the query, ignoring case), and every matching entry is listed |
| `Catalogue.EmptyQueryShortcutAgrees` | app/src/main/java/com/makro17/newsick/MainActivity.kt:133 | the empty-query shortcut returns what filtering with the empty query would return |
| `Catalogue.SearchIsOrderedSelection` | app/src/main/java/com/makro17/newsick/MainActivity.kt:133-136 | the search result is an order-preserving subsequence of the list with exactly the multiplicities of the matching entries |
| `Catalogue.SearchIgnoresQueryCase` | app/src/main/java/com/makro17/newsick/MainActivity.kt:134-135 | searching for the case-folded query gives the same result as searching for the query |
| `Catalogue.FindByTitle` | app/src/main/java/com/makro17/newsick/MainActivity.kt:232-237 | nothing exactly when no entry has that exact title; otherwise the entry at the first index with that title |
| `Catalogue.MainViewModel.constructor` | app/src/main/java/com/makro17/newsick/MainActivity.kt:119-139 | starts with an empty query, the seed entries (unique ids) and an empty comment log |
| `Catalogue.MainViewModel.FilteredItems` | app/src/main/java/com/makro17/newsick/MainActivity.kt:132-136 | the search result for the current query, with the contract of `Search` |
| `Catalogue.MainViewModel.Favorites` | app/src/main/java/com/makro17/newsick/MainActivity.kt:138 | exactly the entries marked favourite |
| `Catalogue.MainViewModel.ItemByTitle` | app/src/main/java/com/makro17/newsick/MainActivity.kt:230-232 | a missing route argument finds nothing; otherwise the first entry with that title, or nothing exactly when none has it |
| `Catalogue.MainViewModel.ToggleFavorite` | app/src/main/java/com/makro17/newsick/MainActivity.kt:150-155 | the new list is `Toggle` of the old one at the item's id; query and comments are unchanged; ids stay unique |
| `Catalogue.MainViewModel.AddComment` | app/src/main/java/com/makro17/newsick/MainActivity.kt:157-159 | the log grows by exactly `Comment("Me", text)` at the end and earlier comments are unchanged; nothing else changes |
| `Catalogue.MainViewModel.UpdateSearch` | app/src/main/java/com/makro17/newsick/MainActivity.kt:161-163 | the query becomes the given one; the list and the log are unchanged |
| `Screens.DeleteDialog.constructor` | app/src/main/java/com/makro17/newsick/MainActivity.kt:431 | no entry is pending at first, so the dialog is hidden |
| `Screens.DeleteDialog.Request` | app/src/main/java/com/makro17/newsick/MainActivity.kt:474 | the chosen entry becomes the pending one, which shows the dialog |
| `Screens.DeleteDialog.Confirm` | app/src/main/java/com/makro17/newsick/MainActivity.kt:438-443 | a pending entry is toggled through the view model and the pending slot is cleared, which hides the dialog; a pending favourite leaves the favourites, which shrink by one; with nothing pending the list is unchanged; query and log are unchanged |
| `Screens.DeleteDialog.Dismiss` | app/src/main/java/com/makro17/newsick/MainActivity.kt:435-447 | clears the pending entry, which hides the dialog, without touching the catalogue |
| `Screens.CommentDialog.constructor` | app/src/main/java/com/makro17/newsick/MainActivity.kt:485-486 | the dialog is hidden and the draft is empty |
| `Screens.CommentDialog.Open` | app/src/main/java/com/makro17/newsick/MainActivity.kt:491 | shows the dialog and keeps the draft |
| `Screens.CommentDialog.Edit` | app/src/main/java/com/makro17/newsick/MainActivity.kt:521 | replaces the draft |
| `Screens.CommentDialog.Dismiss` | app/src/main/java/com/makro17/newsick/MainActivity.kt:519 | hides the dialog and keeps the draft |
| `Screens.CommentDialog.Publish` | app/src/main/java/com/makro17/newsick/MainActivity.kt:523-528 | a non-empty draft is appended as `Comment("Me", draft)`, then the draft is cleared and the dialog hidden; an empty draft changes nothing; the list and the query never change |
| `Scenarios.JazzCafeMatches` | app/src/main/java/com/makro17/newsick/MainActivity.kt:125 | the seed entry "Jazz Cafe" matches the query "jazz" |
| `Scenarios.SeedSearchFindsJazzCafe` | app/src/main/java/com/makro17/newsick/MainActivity.kt:123-136 | searching the seed catalogue for "jazz" lists "Jazz Cafe" |

## Left out

- Text.ContainsIgnoreCase: folds case for ASCII letters only, not with Kotlin's full Unicode
  case tables. Other characters are compared exactly.
- The startup coroutine in `init` (`delay(1000)`, the loading flag, the two seeded comments)
  and the splash-screen condition. They depend on asynchronous timing, so the model's log
  starts empty.
- All Compose layout, navigation routes, the navigation bar and rail, and the split-screen
  selection. They are presentation only. The nullable route argument enters the model
  only as the `itemName: Option<string>` parameter of `MainViewModel.ItemByTitle`.
- The feedback e-mail `Intent` and its `Toast`. These are calls into Android.
- The theme files and colour constants. They are constant data and SDK-version checks.
- The profile screen's local logged-in boolean. It has no logic, and no login,
  registration or network code exists in the source.
- Compose state observation (`mutableStateOf`, `mutableStateListOf`, `derivedStateOf`).
  Views are recomputed functions of the current fields, so caching and recomposition timing
  are not modelled.
- Kotlin's 32-bit `Int` for ids. Ids are only compared for equality, so unbounded `int` is
  exact for everything the core does with them.
