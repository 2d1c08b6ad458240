/** The song actions of TFS/assets/js/app.js on the page: liking, hiding and
    opening a modal with its list load. Every action first learns the login
    state from `/api/check_login` and then waits for one request; both are
    parameters here (`loggedIn` is None when the login check itself failed,
    `ok` is `response.ok` of the action's own request). */
module TfsApp {
  import opened Wrappers
  import opened Dom

  // ---------------------------------------------------------------------
  // likeSong
  // ---------------------------------------------------------------------

  /** The lists after a confirmed like request sent from the button of the
      row at `b`: the flag, icon and title are flipped; an unlike while
      `mySongsModal` is shown also removes the row and, if `likedSongsList`
      is left with no children, puts its placeholder in. */
  function ListsAfterLike(lists: seq<SongList>, modals: seq<Modal>, b: Location): (r: seq<SongList>)
    requires LikeableAt(lists, b)
    ensures |r| == |lists|
  {
    var flipped := SetLiked(lists, b, !WasLiked(lists, b));
    if WasLiked(lists, b) && ModalShown(modals, MySongsModal) then
      RemoveAfterSetLiked(lists, b, false);
      PlaceholderIfEmpty(RemoveAt(flipped, b), LikedSongsList, NoLikedSongs)
    else flipped
  }

  /** Outside the unlike-in-my-songs case only the row's button changes, and
      it shows the negated state. */
  lemma LikeFlipsButton(lists: seq<SongList>, modals: seq<Modal>, b: Location)
    requires LikeableAt(lists, b)
    requires !(WasLiked(lists, b) && ModalShown(modals, MySongsModal))
    ensures var r := ListsAfterLike(lists, modals, b);
      && LikeableAt(r, b)
      && r[b.list].items[b.index].songId == lists[b.list].items[b.index].songId
      && r[b.list].items[b.index].like == Some(ButtonFor(!WasLiked(lists, b)))
      && (forall l :: 0 <= l < |r| && l != b.list ==> r[l] == lists[l])
      && (forall i :: 0 <= i < |r[b.list].items| && i != b.index ==> r[b.list].items[i] == lists[b.list].items[i])
  {
  }

  /** Two confirmed clicks with `mySongsModal` closed bring the button back
      to its first state (icon and title as `likeSong` draws them) and change
      nothing else. */
  lemma LikeTwiceRestores(lists: seq<SongList>, modals: seq<Modal>, b: Location)
    requires LikeableAt(lists, b)
    requires !ModalShown(modals, MySongsModal)
    ensures LikeableAt(ListsAfterLike(lists, modals, b), b)
    ensures ListsAfterLike(ListsAfterLike(lists, modals, b), modals, b) == SetLiked(lists, b, WasLiked(lists, b))
  {
    var once := ListsAfterLike(lists, modals, b);
    var twice := ListsAfterLike(once, modals, b);
    var back := SetLiked(lists, b, WasLiked(lists, b));
    assert twice[b.list].items == back[b.list].items;
    assert twice[b.list] == back[b.list];
  }

  /** An unlike in `mySongsModal` removes exactly the clicked row; the only
      other change is the placeholder put into the liked list when that
      removal left it without children, so the liked list, if the page has
      one, is never left blank. */
  lemma UnlikeInMySongs(lists: seq<SongList>, modals: seq<Modal>, b: Location)
    requires LikeableAt(lists, b)
    requires WasLiked(lists, b) && ModalShown(modals, MySongsModal)
    ensures var r := ListsAfterLike(lists, modals, b);
      var k := ListIndex(r, LikedSongsList);
      k.Some? ==> r[k.value].items != []
    ensures var r := ListsAfterLike(lists, modals, b);
      var removed := RemoveAt(lists, b);
      var k := ListIndex(removed, LikedSongsList);
      && (forall l :: 0 <= l < |r| && (k.None? || l != k.value) ==> r[l] == removed[l])
      && (k.Some? && removed[k.value].items != [] ==> r[k.value] == removed[k.value])
      && (k.Some? && removed[k.value].items == [] ==> r[k.value] == removed[k.value].(items := [Notice(NoLikedSongs)]))
  {
    RemoveAfterSetLiked(lists, b, false);
  }

  /** `likeSong(songId, …, button)`; returns the like request it sends. */
  method LikeSong(page: Page, songId: string, button: Option<Location>, loggedIn: Option<bool>, ok: bool)
    returns (sent: Option<LikeRequest>)
    requires button.Some? ==> RowAt(page.lists, button.value)
    modifies page
    ensures button.None? || songId == [] || loggedIn.None? ==> sent.None? && unchanged(page)
    ensures button.Some? && songId != [] && loggedIn == Some(false) ==>
      && sent.None?
      && page.lists == old(page.lists)
      && page.modals == Toggled(old(page.modals), LoginModal)
      && page.scrollLocked == LockedAfterToggle(old(page.modals), LoginModal, old(page.scrollLocked))
    ensures button.Some? && songId != [] && loggedIn == Some(true) && !LikeableAt(old(page.lists), button.value) ==>
      sent.None? && unchanged(page)
    ensures button.Some? && songId != [] && loggedIn == Some(true) && LikeableAt(old(page.lists), button.value) ==>
      && sent == Some(LikeRequest(if WasLiked(old(page.lists), button.value) then Delete else Post, songId))
      && page.modals == old(page.modals) && page.scrollLocked == old(page.scrollLocked)
      && page.lists == (if ok then ListsAfterLike(old(page.lists), old(page.modals), button.value) else old(page.lists))
  {
    sent := None;
    if button.None? || songId == [] || loggedIn.None? {
      return;
    }
    if loggedIn == Some(false) {
      page.ToggleModal(LoginModal);
      return;
    }
    var b := button.value;
    var row := page.lists[b.list].items[b.index];
    if row.like.None? {
      return;
    }
    var isLiked := row.like.value.liked;
    sent := Some(LikeRequest(if isLiked then Delete else Post, songId));
    if !ok {
      return;
    }
    page.lists := SetLiked(page.lists, b, !isLiked);
    if isLiked && ModalShown(page.modals, MySongsModal) {
      page.lists := RemoveAt(page.lists, b);
      page.lists := PlaceholderIfEmpty(page.lists, LikedSongsList, NoLikedSongs);
    }
  }

  // ---------------------------------------------------------------------
  // hideSong
  // ---------------------------------------------------------------------

  /** The placeholder of a list container that the hide handler knows. */
  function PlaceholderFor(listId: string): (r: Option<string>)
    ensures r.Some? <==> listId == LikedSongsList || listId == HiddenSongsList
  {
    if listId == LikedSongsList then Some(NoLikedSongs)
    else if listId == HiddenSongsList then Some(NoHiddenSongs)
    else None
  }

  /** A list container with no children gets the placeholder of its kind;
      any other container is left as it is. */
  function Refilled(list: SongList): (r: SongList)
    ensures r.id == list.id && r.modal == list.modal
    ensures list.items == [] && PlaceholderFor(list.id).Some? ==> r.items == [Notice(PlaceholderFor(list.id).value)]
    ensures list.items != [] || PlaceholderFor(list.id).None? ==> r == list
  {
    if list.items == [] && PlaceholderFor(list.id).Some? then list.(items := [Notice(PlaceholderFor(list.id).value)])
    else list
  }

  /** The empty-state step after one removal, given the list container that
      `element.closest('.songs-list')` finds (None when it finds nothing):
      only that container can change, and it does exactly when it is the
      liked or hidden list and has no children left. */
  function PlaceholderIfEmptied(lists: seq<SongList>, parent: Option<nat>): (r: seq<SongList>)
    ensures |r| == |lists|
    ensures parent.None? ==> r == lists
    ensures parent.Some? ==> forall j :: 0 <= j < |r| && j != parent.value ==> r[j] == lists[j]
    ensures parent.Some? && parent.value < |lists| ==>
      var l := parent.value;
      && (lists[l].items == [] && PlaceholderFor(lists[l].id).Some? ==>
            r[l] == lists[l].(items := [Notice(PlaceholderFor(lists[l].id).value)]))
      && (lists[l].items != [] || PlaceholderFor(lists[l].id).None? ==> r[l] == lists[l])
  {
    match parent
    case None => lists
    case Some(l) => if l < |lists| then lists[l := Refilled(lists[l])] else lists
  }

  /** `hideSong(songId, …)`, as written: on a confirmed request every row of
      the song is removed, in document order. The empty-state check asks the
      element for its list only after removing it, when it has no ancestors,
      so it never finds one and no placeholder is ever put in. Returns the
      `track_id` of the hide request it sends. */
  method HideSong(page: Page, songId: string, loggedIn: Option<bool>, ok: bool) returns (sent: Option<string>)
    modifies page
    ensures loggedIn.None? ==> sent.None? && unchanged(page)
    ensures loggedIn == Some(false) ==>
      && sent.None?
      && page.lists == old(page.lists)
      && page.modals == Toggled(old(page.modals), LoginModal)
      && page.scrollLocked == LockedAfterToggle(old(page.modals), LoginModal, old(page.scrollLocked))
    ensures loggedIn == Some(true) ==>
      && sent == Some(songId)
      && page.modals == old(page.modals) && page.scrollLocked == old(page.scrollLocked)
      && page.lists == (if ok then WithoutSong(old(page.lists), songId) else old(page.lists))
  {
    sent := None;
    if loggedIn.None? {
      return;
    }
    if loggedIn == Some(false) {
      page.ToggleModal(LoginModal);
      return;
    }
    sent := Some(songId);
    if !ok {
      return;
    }
    var l := 0;
    while l < |page.lists|
      invariant 0 <= l <= |page.lists| == |old(page.lists)|
      invariant page.modals == old(page.modals) && page.scrollLocked == old(page.scrollLocked)
      invariant forall j :: 0 <= j < l ==> page.lists[j] == WithoutSong(old(page.lists), songId)[j]
      invariant forall j :: l <= j < |page.lists| ==> page.lists[j] == old(page.lists)[j]
    {
      RemoveRowsIn(page, l, songId);
      l := l + 1;
    }
  }

  /** The removals `hideSong` makes in the list at `l`, one element at a
      time, each followed by the (detached) empty-state check. */
  method RemoveRowsIn(page: Page, l: nat, songId: string)
    requires l < |page.lists|
    modifies page
    ensures page.modals == old(page.modals) && page.scrollLocked == old(page.scrollLocked)
    ensures page.lists == old(page.lists)[l := old(page.lists)[l].(items := DropSong(old(page.lists)[l].items, songId))]
  {
    var start := page.lists;
    var orig := start[l].items;
    var lists := start;
    var cur := orig;
    var k := 0;
    var i := 0;
    assert orig[..0] == [];
    while k < |orig|
      invariant 0 <= k <= |orig|
      invariant cur == DropSong(orig[..k], songId) + orig[k..]
      invariant i == |DropSong(orig[..k], songId)|
      invariant lists == start[l := start[l].(items := cur)]
      invariant page.modals == old(page.modals) && page.scrollLocked == old(page.scrollLocked)
      invariant page.lists == start
    {
      HideStep(orig, k, cur, i, songId);
      if IsRowOf(orig[k], songId) {
        lists := RemoveOneRow(lists, l, i);
        ReplaceTwice(start, l, start[l].(items := cur), start[l].(items := cur[..i] + cur[i + 1..]));
        cur := cur[..i] + cur[i + 1..];
      } else {
        i := i + 1;
      }
      k := k + 1;
    }
    assert orig[..k] == orig && orig[k..] == [];
    assert cur == DropSong(orig, songId);
    page.lists := lists;
  }

  /** One pass of the `forEach` in `hideSong`: `element.remove()` for the
      item at position `i` of list `l`, then the empty-state check, which
      finds no enclosing list for the detached element. */
  method RemoveOneRow(lists: seq<SongList>, l: nat, i: nat) returns (r: seq<SongList>)
    requires l < |lists| && i < |lists[l].items|
    ensures r == lists[l := lists[l].(items := lists[l].items[..i] + lists[l].items[i + 1..])]
  {
    r := RemoveAt(lists, Location(l, i));
    var parent: Option<nat> := None;
    r := PlaceholderIfEmptied(r, parent);
    assert r[l] == lists[l].(items := lists[l].items[..i] + lists[l].items[i + 1..]);
  }

  /** Replacing a list twice keeps only the second replacement. */
  lemma ReplaceTwice(s: seq<SongList>, l: nat, a: SongList, b: SongList)
    requires l < |s|
    ensures s[l := a][l := b] == s[l := b]
  {
  }

  /** One step of RemoveRowsIn: the item at `k` sits at position `i` of
      the list so far, and is either removed there or kept. */
  lemma HideStep(orig: seq<Item>, k: nat, cur: seq<Item>, i: nat, songId: string)
    requires k < |orig|
    requires cur == DropSong(orig[..k], songId) + orig[k..] && i == |DropSong(orig[..k], songId)|
    ensures i < |cur| && cur[i] == orig[k]
    ensures IsRowOf(orig[k], songId) ==>
      cur[..i] + cur[i + 1..] == DropSong(orig[..k + 1], songId) + orig[k + 1..] && i == |DropSong(orig[..k + 1], songId)|
    ensures !IsRowOf(orig[k], songId) ==>
      cur == DropSong(orig[..k + 1], songId) + orig[k + 1..] && i + 1 == |DropSong(orig[..k + 1], songId)|
  {
    DropSongSnoc(orig[..k], orig[k], songId);
    assert orig[..k + 1] == orig[..k] + [orig[k]];
    var d := DropSong(orig[..k], songId);
    assert orig[k..] == [orig[k]] + orig[k + 1..];
    assert cur[..|d|] == d;
    assert cur[|d| + 1..] == orig[k + 1..];
  }

  /** The lists after a confirmed hide, with the placeholder the handler
      means to put in. */
  function HideIntended(lists: seq<SongList>, songId: string): (r: seq<SongList>)
    ensures |r| == |lists|
    ensures forall l :: 0 <= l < |r| ==> r[l].id == lists[l].id && r[l].modal == lists[l].modal
  {
    seq(|lists|, l requires 0 <= l < |lists| =>
      var kept := lists[l].(items := DropSong(lists[l].items, songId));
      if lists[l].items != [] then Refilled(kept) else kept)
  }

  /** With the intended check, no row of the song is left, every other item
      is kept, and the liked and hidden lists are never left blank by the
      hide. */
  lemma HideIntendedProperties(lists: seq<SongList>, songId: string, l: nat)
    requires l < |lists|
    ensures var r := HideIntended(lists, songId);
      forall x :: x in r[l].items ==> !IsRowOf(x, songId)
    ensures var r := HideIntended(lists, songId);
      var added := lists[l].items != [] && DropSong(lists[l].items, songId) == [] && PlaceholderFor(lists[l].id).Some?;
      forall x :: !IsRowOf(x, songId) ==>
        multiset(r[l].items)[x] ==
          multiset(lists[l].items)[x] + (if added && x == Notice(PlaceholderFor(lists[l].id).value) then 1 else 0)
    ensures var r := HideIntended(lists, songId);
      lists[l].items != [] && PlaceholderFor(lists[l].id).Some? ==> r[l].items != []
  {
    DropSongExact(lists[l].items, songId);
  }

  /** The hide as written leaves a liked list blank where the intended check
      would put in its placeholder. */
  lemma HideLeavesLikedListBlank()
    ensures var lists := [SongList(LikedSongsList, Some(MySongsModal), [SongRow("t1", Some(ButtonFor(true)))])];
      && WithoutSong(lists, "t1")[0].items == []
      && HideIntended(lists, "t1")[0].items == [Notice(NoLikedSongs)]
  {
    var lists := [SongList(LikedSongsList, Some(MySongsModal), [SongRow("t1", Some(ButtonFor(true)))])];
    assert DropSong(lists[0].items, "t1") == [];
  }
}
