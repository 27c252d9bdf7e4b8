/**
 * `renderPlaylist`, abstracted from the DOM: either the "no songs"
 * placeholder or one item per song, in order, each marked active or not,
 * and the list as it stands on screen between renders.
 */
module Playlist {
  import opened Options
  import opened Tracks
  import opened Player

  datatype Item = Item(song: Song, active: bool)

  datatype View = NoSongs | SongList(items: seq<Item>)

  const NoSongsText: string := "Nenhuma música disponível."

  /** The item for position `j`: active exactly when `j` is the current index. */
  function ItemAt(songs: seq<Song>, current: int, j: nat): Item
    requires j < |songs|
  {
    Item(songs[j], j == current)
  }

  /** The whole list for the songs and the `currentIndex` read at render time
      (the container is cleared first, so rendering twice gives the same view). */
  function Render(songs: seq<Song>, current: int): (v: View)
    ensures v.NoSongs? <==> |songs| == 0
    ensures v.SongList? ==> |v.items| == |songs|
    ensures v.SongList? ==> forall j :: 0 <= j < |v.items| ==>
              v.items[j].song == songs[j] && (v.items[j].active <==> j == current)
  {
    if |songs| == 0 then NoSongs
    else SongList(seq(|songs|, j requires 0 <= j < |songs| => ItemAt(songs, current, j)))
  }

  /** The `songs.forEach` loop that appends one item per song. */
  method RenderLoop(songs: seq<Song>, current: int) returns (v: View)
    ensures v == Render(songs, current)
  {
    if |songs| == 0 {
      return NoSongs;
    }
    var items: seq<Item> := [];
    var j := 0;
    while j < |songs|
      invariant 0 <= j <= |songs|
      invariant |items| == j
      invariant forall i :: 0 <= i < j ==> items[i] == ItemAt(songs, current, i)
    {
      items := items + [ItemAt(songs, current, j)];
      j := j + 1;
    }
    v := SongList(items);
  }

  /** The list on screen: nothing before the first render, otherwise the list
      as rendered with the index that was current then. */
  function OnScreen(s: PlayerState): Option<View> {
    match s.highlight
    case None => None
    case Some(h) => Some(Render(s.songs, h))
  }

  function CountActive(items: seq<Item>): nat {
    if |items| == 0 then 0
    else (if items[0].active then 1 else 0) + CountActive(items[1..])
  }

  lemma {:induction false} CountActiveNone(items: seq<Item>)
    requires forall j :: 0 <= j < |items| ==> !items[j].active
    ensures CountActive(items) == 0
    decreases |items|
  {
    if |items| > 0 {
      CountActiveNone(items[1..]);
    }
  }

  lemma {:induction false} CountActiveOne(items: seq<Item>, k: nat)
    requires k < |items|
    requires forall j :: 0 <= j < |items| ==> (items[j].active <==> j == k)
    ensures CountActive(items) == 1
    decreases |items|
  {
    if k == 0 {
      CountActiveNone(items[1..]);
    } else {
      CountActiveOne(items[1..], k - 1);
    }
  }

  /** With the index in range exactly one item is active, the one at the index;
      with it out of range none is. */
  lemma ExactlyOneActive(songs: seq<Song>, current: int)
    requires |songs| > 0
    ensures Render(songs, current).SongList?
    ensures CountActive(Render(songs, current).items) == (if 0 <= current < |songs| then 1 else 0)
  {
    var items := Render(songs, current).items;
    if 0 <= current < |songs| {
      CountActiveOne(items, current);
    } else {
      CountActiveNone(items);
    }
  }

  /** Right after a render (the playlist arriving, or a click on an item) the
      highlighted item is the song the player header shows. */
  lemma RenderedItemIsShown(s: PlayerState)
    requires Valid(s) && s.highlight == Some(s.index)
    ensures OnScreen(s).Some? && OnScreen(s).value.SongList?
    ensures CountActive(OnScreen(s).value.items) == 1
    ensures forall j :: 0 <= j < |OnScreen(s).value.items| && OnScreen(s).value.items[j].active ==>
              j == s.index && s.shown == Some(Describe(OnScreen(s).value.items[j].song))
  {
    ExactlyOneActive(s.songs, s.index);
  }

  /** The playlist arriving non-empty renders the list in step with the header. */
  lemma ArrivalRendersInStep(s: PlayerState, list: seq<Song>)
    requires Valid(s) && s.songs == [] && |list| > 0
    ensures var r := Loaded(s, Fetched(list));
            Valid(r) && r.highlight == Some(r.index) && r.index == 0
  {
  }

  /** After a click on item `k`, item `k` and only it is highlighted. */
  lemma ClickHighlightsItem(s: PlayerState, k: int)
    requires 0 <= k < |s.songs|
    ensures OnScreen(Select(s, k)) == Some(Render(s.songs, k))
    ensures forall j :: 0 <= j < |s.songs| ==> (Render(s.songs, k).items[j].active <==> j == k)
    ensures CountActive(Render(s.songs, k).items) == 1
  {
    ExactlyOneActive(s.songs, k);
  }

  /** The buttons and the end of a track never re-render: the list on screen
      stays as it was. */
  lemma HandlersKeepList(s: PlayerState)
    ensures OnScreen(Toggle(s)) == OnScreen(s)
    ensures OnScreen(Next(s)) == OnScreen(s)
    ensures OnScreen(Prev(s)) == OnScreen(s)
  {
  }

  /** After "next" on a list in step with the header, the list still highlights
      the previous song while the header shows the next one. */
  lemma StaleHighlightAfterNext(s: PlayerState)
    requires Valid(s) && |s.songs| >= 2 && s.highlight == Some(s.index)
    ensures var r := Next(s);
            && OnScreen(r) == OnScreen(s)
            && r.index != s.index
            && r.shown == Some(Describe(s.songs[r.index]))
            && OnScreen(r).value.items[s.index].active
            && !OnScreen(r).value.items[r.index].active
  {
  }

  /** The same after "previous". */
  lemma StaleHighlightAfterPrev(s: PlayerState)
    requires Valid(s) && |s.songs| >= 2 && s.highlight == Some(s.index)
    ensures var r := Prev(s);
            && OnScreen(r) == OnScreen(s)
            && r.index != s.index
            && r.shown == Some(Describe(s.songs[r.index]))
            && OnScreen(r).value.items[s.index].active
            && !OnScreen(r).value.items[r.index].active
  {
  }
}
