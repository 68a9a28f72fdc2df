/** Worked scenarios on the seed data, stated as lemmas and as a client method whose
    assertions Dafny proves from the contracts alone. */
module Scenarios {
  import opened Lists
  import opened Catalogue
  import opened Screens
  import Text

  /** The title "Jazz Cafe" starts with "jazz", ignoring case. */
  lemma JazzCafeMatches()
    ensures Matches(SeedItems()[1], "jazz")
  {
    var title, query := SeedItems()[1].title, "jazz";
    forall k | 0 <= k < |query|
      ensures Text.CharEqualsIgnoreCase(title[k], query[k])
    {
      if k == 0 {
        assert title[0] == 'J' && query[0] == 'j';
      } else {
        assert title[k] == query[k];
      }
    }
    assert Text.RegionMatches(title, 0, query);
  }

  /** On the seed catalogue, searching for "jazz" lists "Jazz Cafe". */
  lemma SeedSearchFindsJazzCafe()
    ensures SeedItems()[1] in Search(SeedItems(), "jazz")
  {
    JazzCafeMatches();
  }

  /** A session: mark "Heavy Code" as a favourite from the catalogue, then remove it again
      through the favourites screen's dialog. */
  method FavoriteThenRemove()
  {
    var vm := new MainViewModel();
    var heavy := vm.items[2];
    assert heavy.title == "Heavy Code";
    assert IsFirstWithId(vm.items, heavy.id, 2);

    vm.ToggleFavorite(heavy);
    assert vm.items[2].isFavorite;
    assert vm.items[2] in vm.Favorites();

    var dialog := new DeleteDialog();
    dialog.Request(vm.items[2]);
    assert dialog.IsShown();
    dialog.Confirm(vm);
    ToggleTwiceRestores(SeedItems(), heavy.id);
    assert vm.items == SeedItems();
    assert !dialog.IsShown();
  }

  /** A session: the comment dialog ignores an empty draft, then posts a typed one as "Me". */
  method PostOneComment()
  {
    var vm := new MainViewModel();
    var composer := new CommentDialog();
    composer.Open();
    composer.Publish(vm);
    assert vm.comments == [];
    composer.Edit("Gran tema");
    composer.Publish(vm);
    assert vm.comments == [Comment("Me", "Gran tema")];
  }
}
