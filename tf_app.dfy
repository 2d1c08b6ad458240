/** The song actions of TF/assets/js/app.js on the page. The handlers in
    effect after the page has loaded are the ones the `DOMContentLoaded`
    listeners assign last: `likeSong`, `hideSong` and the synchronous-close
    `toggleModal` of the first listener, and the list loaders of the second.
    As in TfsApp, the login check and the action's own request are
    parameters. */
module TfApp {
  import opened Wrappers
  import opened Dom

  /** The lists after a confirmed like request sent from the button of the
      row at `b`: the flag, icon and title are flipped, and an unlike from a
      button inside `mySongsModal` also removes the row. No placeholder is
      put in. */
  function ListsAfterLike(lists: seq<SongList>, b: Location): (r: seq<SongList>)
    requires LikeableAt(lists, b)
    ensures |r| == |lists|
  {
    var flipped := SetLiked(lists, b, !WasLiked(lists, b));
    if WasLiked(lists, b) && lists[b.list].modal == Some(MySongsModal) then RemoveAt(flipped, b)
    else flipped
  }

  /** An unlike removes the row exactly when its button sits inside
      `mySongsModal`; otherwise the row stays, with the flipped button, and
      every other item is kept either way. */
  lemma LikeRemovesOnlyInMySongs(lists: seq<SongList>, b: Location)
    requires LikeableAt(lists, b)
    ensures var r := ListsAfterLike(lists, b);
      WasLiked(lists, b) && lists[b.list].modal == Some(MySongsModal) ==> r == RemoveAt(lists, b)
    ensures var r := ListsAfterLike(lists, b);
      !(WasLiked(lists, b) && lists[b.list].modal == Some(MySongsModal)) ==>
        && LikeableAt(r, b)
        && r[b.list].items[b.index] == SongRow(lists[b.list].items[b.index].songId, Some(ButtonFor(!WasLiked(lists, b))))
        && (forall l :: 0 <= l < |r| && l != b.list ==> r[l] == lists[l])
        && (forall i :: 0 <= i < |r[b.list].items| && i != b.index ==> r[b.list].items[i] == lists[b.list].items[i])
  {
    RemoveAfterSetLiked(lists, b, false);
  }

  /** Unliking the last row of the liked list leaves it without children:
      unlike the TFS script, this one has no placeholder step. */
  lemma UnlikeCanEmptyLikedList()
    ensures var lists := [SongList(LikedSongsList, Some(MySongsModal), [SongRow("t1", Some(LikedRowButton))])];
      && LikeableAt(lists, Location(0, 0))
      && ListsAfterLike(lists, Location(0, 0))[0].items == []
  {
  }

  /** `likeSong(songId, …, button)`; returns the like request it sends. */
  method LikeSong(page: Page, songId: string, button: Option<Location>, loggedIn: Option<bool>, ok: bool)
    returns (sent: Option<LikeRequest>)
    requires button.Some? ==> RowAt(page.lists, button.value)
    modifies page
    ensures button.None? || songId == [] || loggedIn.None? ==> sent.None? && unchanged(page)
    ensures button.Some? && songId != [] && loggedIn == Some(false) ==>
      && sent.None?
      && page.lists == old(page.lists)
      && page.modals == Toggled(old(page.modals), LoginModal)
      && page.scrollLocked == LockedAfterToggle(old(page.modals), LoginModal, old(page.scrollLocked))
    ensures button.Some? && songId != [] && loggedIn == Some(true) && !LikeableAt(old(page.lists), button.value) ==>
      sent.None? && unchanged(page)
    ensures button.Some? && songId != [] && loggedIn == Some(true) && LikeableAt(old(page.lists), button.value) ==>
      && sent == Some(LikeRequest(if WasLiked(old(page.lists), button.value) then Delete else Post, songId))
      && page.modals == old(page.modals) && page.scrollLocked == old(page.scrollLocked)
      && page.lists == (if ok then ListsAfterLike(old(page.lists), button.value) else old(page.lists))
  {
    sent := None;
    if button.None? || songId == [] || loggedIn.None? {
      return;
    }
    if loggedIn == Some(false) {
      page.ToggleModal(LoginModal);
      return;
    }
    var b := button.value;
    var row := page.lists[b.list].items[b.index];
    if row.like.None? {
      return;
    }
    var isLiked := row.like.value.liked;
    sent := Some(LikeRequest(if isLiked then Delete else Post, songId));
    if !ok {
      return;
    }
    page.lists := SetLiked(page.lists, b, !isLiked);
    if isLiked && page.lists[b.list].modal == Some(MySongsModal) {
      page.lists := RemoveAt(page.lists, b);
    }
  }

  /** The lists after a confirmed hide: the first row of the song in
      document order goes, if there is one. */
  function ListsAfterHide(lists: seq<SongList>, songId: string): (r: seq<SongList>) {
    match FirstRow(lists, songId)
    case None => lists
    case Some(loc) => RemoveAt(lists, loc)
  }

  /** The hide removes one row of the song, the first, and keeps every other
      item; rows of the song after the first are left in place. */
  lemma HideRemovesFirstOnly(lists: seq<SongList>, songId: string)
    ensures var r := ListsAfterHide(lists, songId);
      FirstRow(lists, songId).None? ==> r == lists
    ensures var r := ListsAfterHide(lists, songId);
      var loc := FirstRow(lists, songId);
      loc.Some? ==>
        && |r| == |lists|
        && IsRowOf(lists[loc.value.list].items[loc.value.index], songId)
        && (forall l, i :: 0 <= l < |lists| && 0 <= i < |lists[l].items| && Before(Location(l, i), loc.value) ==>
              !IsRowOf(lists[l].items[i], songId))
        && (forall l :: 0 <= l < |r| && l != loc.value.list ==> r[l] == lists[l])
        && r[loc.value.list].items == lists[loc.value.list].items[..loc.value.index] + lists[loc.value.list].items[loc.value.index + 1..]
  {
  }

  /** With two rows of a song on the page, one survives the hide. */
  lemma HideLeavesSecondRow()
    ensures var lists := [SongList("results", None, [SongRow("t1", None)]),
                          SongList(LikedSongsList, Some(MySongsModal), [SongRow("t1", Some(LikedRowButton))])];
      ListsAfterHide(lists, "t1") == [SongList("results", None, []),
                                      SongList(LikedSongsList, Some(MySongsModal), [SongRow("t1", Some(LikedRowButton))])]
  {
    var lists := [SongList("results", None, [SongRow("t1", None)]),
                  SongList(LikedSongsList, Some(MySongsModal), [SongRow("t1", Some(LikedRowButton))])];
    assert FirstRowIn(lists[0].items, "t1") == Some(0);
  }

  /** `hideSong(songId, …)`; returns the `track_id` of the hide request it
      sends. */
  method HideSong(page: Page, songId: string, loggedIn: Option<bool>, ok: bool) returns (sent: Option<string>)
    modifies page
    ensures loggedIn.None? ==> sent.None? && unchanged(page)
    ensures loggedIn == Some(false) ==>
      && sent.None?
      && page.lists == old(page.lists)
      && page.modals == Toggled(old(page.modals), LoginModal)
      && page.scrollLocked == LockedAfterToggle(old(page.modals), LoginModal, old(page.scrollLocked))
    ensures loggedIn == Some(true) ==>
      && sent == Some(songId)
      && page.modals == old(page.modals) && page.scrollLocked == old(page.scrollLocked)
      && page.lists == (if ok then ListsAfterHide(old(page.lists), songId) else old(page.lists))
  {
    sent := None;
    if loggedIn.None? {
      return;
    }
    if loggedIn == Some(false) {
      page.ToggleModal(LoginModal);
      return;
    }
    sent := Some(songId);
    if !ok {
      return;
    }
    var songElement := FirstRow(page.lists, songId);
    if songElement.Some? {
      page.lists := RemoveAt(page.lists, songElement.value);
    }
  }
}
