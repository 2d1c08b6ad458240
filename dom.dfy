/** The page both browser scripts act on, reduced to what they read and
    write: the modal dialogs (their `show` class and `style.display`) and the
    song lists whose rows carry `data-song-id` (the recommendations view, the
    liked list inside `mySongsModal`, the hidden list inside
    `hiddenSongsModal`). The operations common to TF/assets/js/app.js and
    TFS/assets/js/app.js live here; the ones that differ are in TfsApp and
    TfApp. */
module Dom {
  import opened Wrappers
  import opened Seqs

  /** `style.display`: '' , 'none' or 'flex'. */
  datatype Display = Unset | NoDisplay | Flex

  datatype Modal = Modal(id: string, show: bool, display: Display)

  /** The like button of a song row: the `data-liked` flag, `src` of its
      image and the button's `title`. */
  datatype LikeButton = LikeButton(liked: bool, icon: string, title: string)

  /** A child of a list container: a song row (`like` is None when the row
      has no like button with an image) or a text placeholder. */
  datatype Item = SongRow(songId: string, like: Option<LikeButton>) | Notice(text: string)

  /** A list container, with the id of the modal it sits in, if any. */
  datatype SongList = SongList(id: string, modal: Option<string>, items: seq<Item>)

  /** Where an element sits: the list and the position of its row. */
  datatype Location = Location(list: nat, index: nat)

  const LoginModal := "loginModal"
  const MySongsModal := "mySongsModal"
  const HiddenSongsModal := "hiddenSongsModal"
  const LikedSongsList := "likedSongsList"
  const HiddenSongsList := "hiddenSongsList"
  const NoLikedSongs := "No liked songs yet"
  const NoHiddenSongs := "No hidden songs"
  const LoadError := "Error loading songs"
  const LikeIcon := "/images/like-icon.png"
  const LikedIcon := "/images/like-icon-liked.png"
  const LikeTitle := "Like this song"
  const UnlikeTitle := "Unlike this song"

  /** The like button as `likeSong` leaves it once the flag is `liked`. */
  function ButtonFor(liked: bool): (b: LikeButton)
    ensures b.liked == liked
    ensures b.icon == (if liked then LikedIcon else LikeIcon)
    ensures b.title == (if liked then UnlikeTitle else LikeTitle)
  {
    LikeButton(liked, if liked then LikedIcon else LikeIcon, if liked then UnlikeTitle else LikeTitle)
  }

  // ---------------------------------------------------------------------
  // Lookups
  // ---------------------------------------------------------------------

  /** `document.getElementById(id)` among the modals. */
  function ModalIndex(modals: seq<Modal>, id: string): (r: Option<nat>)
    ensures r.Some? ==> r.value < |modals| && modals[r.value].id == id
    ensures r.Some? ==> forall j :: 0 <= j < r.value ==> modals[j].id != id
    ensures r.None? ==> forall j :: 0 <= j < |modals| ==> modals[j].id != id
  {
    FirstIndex(modals, (m: Modal) => m.id == id)
  }

  /** `document.getElementById(id)` among the list containers. */
  function ListIndex(lists: seq<SongList>, id: string): (r: Option<nat>)
    ensures r.Some? ==> r.value < |lists| && lists[r.value].id == id
    ensures r.Some? ==> forall j :: 0 <= j < r.value ==> lists[j].id != id
    ensures r.None? ==> forall j :: 0 <= j < |lists| ==> lists[j].id != id
  {
    FirstIndex(lists, (l: SongList) => l.id == id)
  }

  /** `getElementById(id).classList.contains('show')`; false when there is
      no such modal. */
  predicate ModalShown(modals: seq<Modal>, id: string) {
    var k := ModalIndex(modals, id);
    k.Some? && modals[k.value].show
  }

  predicate IsRowOf(item: Item, songId: string) {
    item.SongRow? && item.songId == songId
  }

  /** `loc` names a song row on the page. */
  predicate RowAt(lists: seq<SongList>, loc: Location) {
    loc.list < |lists| && loc.index < |lists[loc.list].items| && lists[loc.list].items[loc.index].SongRow?
  }

  /** `a` comes before `b` in document order. */
  predicate Before(a: Location, b: Location) {
    a.list < b.list || (a.list == b.list && a.index < b.index)
  }

  // ---------------------------------------------------------------------
  // Modals
  // ---------------------------------------------------------------------

  predicate AtMostOneShown(modals: seq<Modal>) {
    forall i, j :: 0 <= i < |modals| && 0 <= j < |modals| && modals[i].show && modals[j].show ==> i == j
  }

  /** What the "hide any other open modals" loop does to each modal. */
  function Cleared(m: Modal): Modal {
    m.(show := false, display := NoDisplay)
  }

  /** The modals after `toggleModal(id)`: an unknown id changes nothing; a
      shown target is closed; a hidden target is opened after every modal has
      been cleared. */
  function Toggled(modals: seq<Modal>, id: string): (r: seq<Modal>)
    ensures |r| == |modals| && forall j :: 0 <= j < |r| ==> r[j].id == modals[j].id
    ensures ModalIndex(modals, id).None? ==> r == modals
    ensures AtMostOneShown(modals) ==> AtMostOneShown(r)
    ensures var k := ModalIndex(modals, id);
      k.Some? && modals[k.value].show ==>
        && r[k.value] == Cleared(modals[k.value])
        && forall j :: 0 <= j < |r| && j != k.value ==> r[j] == modals[j]
    ensures var k := ModalIndex(modals, id);
      k.Some? && !modals[k.value].show ==>
        && r[k.value].display == Flex
        && (forall j :: 0 <= j < |r| ==> (r[j].show <==> j == k.value))
        && (forall j :: 0 <= j < |r| && j != k.value ==> r[j].display == NoDisplay)
  {
    match ModalIndex(modals, id)
    case None => modals
    case Some(k) =>
      if modals[k].show then modals[k := Cleared(modals[k])]
      else
        var cleared := seq(|modals|, j requires 0 <= j < |modals| => Cleared(modals[j]));
        cleared[k := modals[k].(show := true, display := Flex)]
  }

  /** Whether the page scroll is locked (`body.style.overflow == 'hidden'`)
      after `toggleModal(id)`. */
  function LockedAfterToggle(modals: seq<Modal>, id: string, locked: bool): (r: bool)
    ensures ModalIndex(modals, id).None? ==> r == locked
    ensures ModalIndex(modals, id).Some? ==> (r <==> ModalShown(Toggled(modals, id), id))
  {
    match ModalIndex(modals, id)
    case None => locked
    case Some(k) => !modals[k].show
  }

  // ---------------------------------------------------------------------
  // Song lists
  // ---------------------------------------------------------------------

  datatype Verb = Post | Delete

  /** A like request: its HTTP method and the `track_id` it sends. */
  datatype LikeRequest = LikeRequest(verb: Verb, trackId: string)

  /** `loc` names a song row whose like button has an image. */
  predicate LikeableAt(lists: seq<SongList>, loc: Location) {
    RowAt(lists, loc) && lists[loc.list].items[loc.index].like.Some?
  }

  /** The `data-liked` flag of the row at `b`. */
  function WasLiked(lists: seq<SongList>, b: Location): bool
    requires LikeableAt(lists, b)
  {
    lists[b.list].items[b.index].like.value.liked
  }

  /** Gives the like button of the row at `loc` the state `liked`: flag,
      icon and title. */
  function SetLiked(lists: seq<SongList>, loc: Location, liked: bool): (r: seq<SongList>)
    requires LikeableAt(lists, loc)
    ensures |r| == |lists| && LikeableAt(r, loc)
    ensures r[loc.list].items[loc.index] == SongRow(lists[loc.list].items[loc.index].songId, Some(ButtonFor(liked)))
    ensures forall l :: 0 <= l < |r| && l != loc.list ==> r[l] == lists[l]
    ensures r[loc.list].id == lists[loc.list].id && r[loc.list].modal == lists[loc.list].modal
    ensures |r[loc.list].items| == |lists[loc.list].items|
    ensures forall i :: 0 <= i < |r[loc.list].items| && i != loc.index ==>
      r[loc.list].items[i] == lists[loc.list].items[i]
  {
    var list := lists[loc.list];
    var row := list.items[loc.index];
    lists[loc.list := list.(items := list.items[loc.index := row.(like := Some(ButtonFor(liked)))])]
  }

  /** `element.remove()` for the item at `loc`: that item goes, every other
      item and list stays, in order. */
  function RemoveAt(lists: seq<SongList>, loc: Location): (r: seq<SongList>)
    requires loc.list < |lists| && loc.index < |lists[loc.list].items|
    ensures |r| == |lists|
    ensures forall l :: 0 <= l < |r| && l != loc.list ==> r[l] == lists[l]
    ensures r[loc.list].id == lists[loc.list].id && r[loc.list].modal == lists[loc.list].modal
    ensures r[loc.list].items == lists[loc.list].items[..loc.index] + lists[loc.list].items[loc.index + 1..]
    ensures multiset(r[loc.list].items) + multiset{lists[loc.list].items[loc.index]} == multiset(lists[loc.list].items)
  {
    var items := lists[loc.list].items;
    assert items == items[..loc.index] + [items[loc.index]] + items[loc.index + 1..];
    lists[loc.list := lists[loc.list].(items := items[..loc.index] + items[loc.index + 1..])]
  }

  /** Removing a row after changing its flag is removing the row. */
  lemma RemoveAfterSetLiked(lists: seq<SongList>, loc: Location, liked: bool)
    requires LikeableAt(lists, loc)
    ensures RemoveAt(SetLiked(lists, loc, liked), loc) == RemoveAt(lists, loc)
  {
    var a := RemoveAt(SetLiked(lists, loc, liked), loc);
    var b := RemoveAt(lists, loc);
    assert a[loc.list].items == b[loc.list].items;
    assert a[loc.list] == b[loc.list];
  }

  /** Puts `text` in list `l` when it has no children left. */
  function FillIfEmpty(lists: seq<SongList>, l: nat, text: string): (r: seq<SongList>)
    requires l < |lists|
    ensures |r| == |lists| && forall j :: 0 <= j < |r| && j != l ==> r[j] == lists[j]
    ensures lists[l].items == [] ==> r[l] == lists[l].(items := [Notice(text)])
    ensures lists[l].items != [] ==> r == lists
  {
    if lists[l].items == [] then lists[l := lists[l].(items := [Notice(text)])] else lists
  }

  /** `if (!list.children.length) list.innerHTML = placeholder` for the list
      with the given id (nothing when the page has no such list). */
  function PlaceholderIfEmpty(lists: seq<SongList>, listId: string, text: string): (r: seq<SongList>)
    ensures |r| == |lists|
  {
    match ListIndex(lists, listId)
    case None => lists
    case Some(l) => FillIfEmpty(lists, l, text)
  }

  /** The ids of the song rows among `items`, in order. */
  function RowIds(items: seq<Item>): seq<string> {
    if items == [] then []
    else (if items[0].SongRow? then [items[0].songId] else []) + RowIds(items[1..])
  }

  /** `querySelectorAll('[data-song-id="…"]').forEach(e => e.remove())` on one
      list: every row of that song goes, every other item stays, in order. */
  function DropSong(items: seq<Item>, songId: string): (r: seq<Item>)
    ensures |r| <= |items|
  {
    if items == [] then []
    else (if IsRowOf(items[0], songId) then [] else [items[0]]) + DropSong(items[1..], songId)
  }

  /** DropSong removes every row of the song and nothing else. */
  lemma {:induction false} DropSongExact(items: seq<Item>, songId: string)
    ensures forall x :: x in DropSong(items, songId) ==> !IsRowOf(x, songId)
    ensures forall x :: !IsRowOf(x, songId) ==> multiset(DropSong(items, songId))[x] == multiset(items)[x]
  {
    if items != [] {
      DropSongExact(items[1..], songId);
      assert items == [items[0]] + items[1..];
    }
  }

  /** DropSong works item by item: handy for loops over a list. */
  lemma {:induction false} DropSongSnoc(items: seq<Item>, x: Item, songId: string)
    ensures DropSong(items + [x], songId) == DropSong(items, songId) + (if IsRowOf(x, songId) then [] else [x])
  {
    if items == [] {
      assert [x][1..] == [];
    } else {
      assert (items + [x])[1..] == items[1..] + [x];
      DropSongSnoc(items[1..], x, songId);
    }
  }

  /** Every list with the song's rows removed. */
  function WithoutSong(lists: seq<SongList>, songId: string): (r: seq<SongList>)
    ensures |r| == |lists|
    ensures forall l :: 0 <= l < |r| ==>
      r[l].id == lists[l].id && r[l].modal == lists[l].modal && r[l].items == DropSong(lists[l].items, songId)
  {
    seq(|lists|, l requires 0 <= l < |lists| => lists[l].(items := DropSong(lists[l].items, songId)))
  }

  /** Position of the first row of `songId` in `items`. */
  function FirstRowIn(items: seq<Item>, songId: string): (r: Option<nat>)
    ensures r.Some? ==> r.value < |items| && IsRowOf(items[r.value], songId)
    ensures r.Some? ==> forall i :: 0 <= i < r.value ==> !IsRowOf(items[i], songId)
    ensures r.None? ==> forall i :: 0 <= i < |items| ==> !IsRowOf(items[i], songId)
  {
    FirstIndex(items, (x: Item) => IsRowOf(x, songId))
  }

  /** `document.querySelector('[data-song-id="…"]')`, searching the lists from
      index `from` on: the first row of the song in document order. */
  function FirstRowFrom(lists: seq<SongList>, songId: string, from: nat): (r: Option<Location>)
    requires from <= |lists|
    ensures r.Some? ==> from <= r.value.list && RowAt(lists, r.value)
    ensures r.Some? ==> IsRowOf(lists[r.value.list].items[r.value.index], songId)
    ensures r.Some? ==> forall l, i :: from <= l < |lists| && 0 <= i < |lists[l].items| && Before(Location(l, i), r.value) ==>
      !IsRowOf(lists[l].items[i], songId)
    ensures r.None? ==> forall l, i :: from <= l < |lists| && 0 <= i < |lists[l].items| ==>
      !IsRowOf(lists[l].items[i], songId)
    decreases |lists| - from
  {
    if from == |lists| then None
    else match FirstRowIn(lists[from].items, songId)
      case Some(i) => Some(Location(from, i))
      case None => FirstRowFrom(lists, songId, from + 1)
  }

  function FirstRow(lists: seq<SongList>, songId: string): (r: Option<Location>)
    ensures r.Some? ==> RowAt(lists, r.value) && IsRowOf(lists[r.value.list].items[r.value.index], songId)
    ensures r.None? ==> forall l, i :: 0 <= l < |lists| && 0 <= i < |lists[l].items| ==>
      !IsRowOf(lists[l].items[i], songId)
  {
    FirstRowFrom(lists, songId, 0)
  }

  // ---------------------------------------------------------------------
  // List loaders
  // ---------------------------------------------------------------------

  /** What a loader's request produced: a failure (network or non-ok status),
      an ok body that is not an array, or the ids of the songs returned. */
  datatype ListReply = Failed | NotArray | Songs(ids: seq<string>)

  /** The like button rows of the liked list are rendered with. */
  const LikedRowButton := ButtonFor(true)

  /** The container's new children: one row per returned song, in order, or
      a single placeholder when there is nothing to list. */
  function RenderedItems(reply: ListReply, emptyText: string, like: Option<LikeButton>): (items: seq<Item>)
    ensures items != []
    ensures reply.Songs? && reply.ids != [] ==> RowIds(items) == reply.ids
    ensures reply.Songs? && reply.ids != [] ==> forall i :: 0 <= i < |items| ==> items[i].SongRow? && items[i].like == like
    ensures reply.Failed? ==> items == [Notice(LoadError)]
    ensures reply.NotArray? || reply == Songs([]) ==> items == [Notice(emptyText)]
  {
    match reply
    case Songs(ids) =>
      if ids != [] then
        var rows := seq(|ids|, i requires 0 <= i < |ids| => SongRow(ids[i], like));
        RowsHaveIds(ids, like);
        rows
      else [Notice(emptyText)]
    case NotArray => [Notice(emptyText)]
    case Failed => [Notice(LoadError)]
  }

  lemma {:induction false} RowsHaveIds(ids: seq<string>, like: Option<LikeButton>)
    ensures RowIds(seq(|ids|, i requires 0 <= i < |ids| => SongRow(ids[i], like))) == ids
  {
    if ids != [] {
      var rows := seq(|ids|, i requires 0 <= i < |ids| => SongRow(ids[i], like));
      RowsHaveIds(ids[1..], like);
      assert rows[1..] == seq(|ids[1..]|, i requires 0 <= i < |ids[1..]| => SongRow(ids[1..][i], like));
    }
  }

  /** Replaces the children of the list with the given id. */
  function ReplaceItems(lists: seq<SongList>, listId: string, items: seq<Item>): (r: seq<SongList>)
    ensures |r| == |lists|
    ensures ListIndex(lists, listId).None? ==> r == lists
    ensures var l := ListIndex(lists, listId);
      l.Some? ==> (r[l.value] == lists[l.value].(items := items) &&
        forall j :: 0 <= j < |r| && j != l.value ==> r[j] == lists[j])
  {
    match ListIndex(lists, listId)
    case None => lists
    case Some(l) => lists[l := lists[l].(items := items)]
  }

  // ---------------------------------------------------------------------
  // The page
  // ---------------------------------------------------------------------

  class Page {
    var modals: seq<Modal>
    var lists: seq<SongList>
    /** `document.body.style.overflow == 'hidden'`. */
    var scrollLocked: bool

    constructor (modals: seq<Modal>, lists: seq<SongList>)
      ensures this.modals == modals && this.lists == lists && !scrollLocked
    {
      this.modals := modals;
      this.lists := lists;
      scrollLocked := false;
    }

    /** `toggleModal(id)` (the synchronous-close version). Opening also
        starts the liked or hidden list loader; the load is the separate
        LoadLikedSongs / LoadHiddenSongs step. */
    method ToggleModal(id: string)
      modifies this
      ensures lists == old(lists)
      ensures modals == Toggled(old(modals), id)
      ensures scrollLocked == LockedAfterToggle(old(modals), id, old(scrollLocked))
    {
      var k := ModalIndex(modals, id);
      if k.None? {
        return;
      }
      var target := k.value;
      if modals[target].show {
        scrollLocked := false;
        modals := modals[target := Cleared(modals[target])];
        return;
      }
      var i := 0;
      while i < |modals|
        invariant 0 <= i <= |modals| == |old(modals)|
        invariant forall j :: 0 <= j < i ==> modals[j] == Cleared(old(modals)[j])
        invariant forall j :: i <= j < |modals| ==> modals[j] == old(modals)[j]
        invariant lists == old(lists)
      {
        modals := modals[i := Cleared(modals[i])];
        i := i + 1;
      }
      modals := modals[target := modals[target].(display := Flex)];
      modals := modals[target := modals[target].(show := true)];
      scrollLocked := true;
    }

    /** `loadLikedSongs()`: fills `likedSongsList` from the reply; every row
        gets a like button in the liked state. */
    method LoadLikedSongs(reply: ListReply)
      modifies this
      ensures modals == old(modals) && scrollLocked == old(scrollLocked)
      ensures lists == ReplaceItems(old(lists), LikedSongsList, RenderedItems(reply, NoLikedSongs, Some(LikedRowButton)))
    {
      var l := ListIndex(lists, LikedSongsList);
      if l.Some? {
        lists := lists[l.value := lists[l.value].(items := RenderedItems(reply, NoLikedSongs, Some(LikedRowButton)))];
      }
    }

    /** `loadHiddenSongs()`: fills `hiddenSongsList` from the reply; its rows
        have an unhide button and no like button. */
    method LoadHiddenSongs(reply: ListReply)
      modifies this
      ensures modals == old(modals) && scrollLocked == old(scrollLocked)
      ensures lists == ReplaceItems(old(lists), HiddenSongsList, RenderedItems(reply, NoHiddenSongs, None))
    {
      var l := ListIndex(lists, HiddenSongsList);
      if l.Some? {
        lists := lists[l.value := lists[l.value].(items := RenderedItems(reply, NoHiddenSongs, None))];
      }
    }

    /** `toggleModal(id)` followed, when it opens `mySongsModal` or
        `hiddenSongsModal`, by the list load it starts (`reply` is what that
        load receives). Timers are collapsed: the state is the one after the
        animation frame or the delay before the modal shows. */
    method ToggleModalAndLoad(id: string, reply: ListReply)
      modifies this
      ensures modals == Toggled(old(modals), id)
      ensures scrollLocked == LockedAfterToggle(old(modals), id, old(scrollLocked))
      ensures var opening := ModalIndex(old(modals), id).Some? && !ModalShown(old(modals), id);
        lists == (
          if opening && id == MySongsModal then
            ReplaceItems(old(lists), LikedSongsList, RenderedItems(reply, NoLikedSongs, Some(LikedRowButton)))
          else if opening && id == HiddenSongsModal then
            ReplaceItems(old(lists), HiddenSongsList, RenderedItems(reply, NoHiddenSongs, None))
          else old(lists))
    {
      var opening := ModalIndex(modals, id).Some? && !ModalShown(modals, id);
      ToggleModal(id);
      if opening && id == MySongsModal {
        LoadLikedSongs(reply);
      } else if opening && id == HiddenSongsModal {
        LoadHiddenSongs(reply);
      }
    }

    /** `unhideSong(songId, button)`: on a confirmed request the button's row
        is removed, and nothing else changes; there is no login check and no
        placeholder. */
    method UnhideSong(button: Location, confirmed: bool)
      requires RowAt(lists, button)
      modifies this
      ensures modals == old(modals) && scrollLocked == old(scrollLocked)
      ensures !confirmed ==> lists == old(lists)
      ensures confirmed ==> lists == RemoveAt(old(lists), button)
    {
      if confirmed {
        lists := RemoveAt(lists, button);
      }
    }
  }
}
