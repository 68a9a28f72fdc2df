/** The two pieces of screen state that feed the view model: the confirmation dialog of the
    favourites screen and the comment dialog of the favourite detail screen. */
module Screens {
  import opened Lists
  import opened Catalogue

  /** The favourites screen's `itemToDelete`: the entry waiting for confirmation, if any. */
  class DeleteDialog {
    var pending: Option<MusicItem>

    constructor ()
      ensures pending == None && !IsShown()
    {
      pending := None;
    }

    /** The dialog is on screen exactly while an entry is pending. */
    predicate IsShown()
      reads this
    {
      pending.Some?
    }

    /** The delete button of a row: remember the entry and show the dialog. */
    method Request(item: MusicItem)
      modifies this
      ensures pending == Some(item) && IsShown()
    {
      pending := Some(item);
    }

    /** The confirm button: toggle the pending entry through the view model, then close. */
    method Confirm(vm: MainViewModel)
      requires vm.Valid()
      modifies this, vm
      ensures vm.Valid()
      ensures pending == None && !IsShown()
      ensures vm.items == if old(pending).Some? then Toggle(old(vm.items), old(pending).value.id)
                          else old(vm.items)
      ensures vm.searchQuery == old(vm.searchQuery) && vm.comments == old(vm.comments)
      ensures old(pending).Some? && old(pending).value in FavoritesOf(old(vm.items)) ==>
        old(pending).value !in vm.Favorites() &&
        |vm.Favorites()| + 1 == |FavoritesOf(old(vm.items))|
    {
      if pending.Some? {
        if pending.value in FavoritesOf(vm.items) {
          RemovingFavorite(vm.items, pending.value);
        }
        vm.ToggleFavorite(pending.value);
      }
      pending := None;
    }

    /** The cancel button, or dismissing the dialog: close it and leave the catalogue alone. */
    method Dismiss()
      modifies this
      ensures pending == None && !IsShown()
    {
      pending := None;
    }
  }

  /** The favourite detail screen's `showDialog` flag and `newCommentText` draft. */
  class CommentDialog {
    var showDialog: bool
    var draft: string

    constructor ()
      ensures !showDialog && draft == ""
    {
      showDialog := false;
      draft := "";
    }

    /** The floating action button opens the dialog; the draft is kept. */
    method Open()
      modifies this
      ensures showDialog && draft == old(draft)
    {
      showDialog := true;
    }

    /** Typing into the text field replaces the draft. */
    method Edit(text: string)
      modifies this
      ensures draft == text && showDialog == old(showDialog)
    {
      draft := text;
    }

    /** Dismissing hides the dialog and keeps the draft for next time. */
    method Dismiss()
      modifies this
      ensures !showDialog && draft == old(draft)
    {
      showDialog := false;
    }

    /** The publish button: a non-empty draft is appended to the comment log, then the draft is
        cleared and the dialog closed; an empty draft does nothing at all. */
    method Publish(vm: MainViewModel)
      requires vm.Valid()
      modifies this, vm
      ensures vm.Valid()
      ensures old(draft) != "" ==>
        vm.comments == old(vm.comments) + [Comment(LocalAuthor, old(draft))] &&
        draft == "" && !showDialog
      ensures old(draft) == "" ==>
        vm.comments == old(vm.comments) && draft == old(draft) && showDialog == old(showDialog)
      ensures vm.items == old(vm.items) && vm.searchQuery == old(vm.searchQuery)
    {
      if |draft| != 0 {
        vm.AddComment(draft);
        draft := "";
        showDialog := false;
      }
    }
  }
}
