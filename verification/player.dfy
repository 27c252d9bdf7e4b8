/**
 * The playback state machine of main.js: the song list, `currentIndex` and
 * `isPlaying`, plus what `loadSong` last put in the player header and which
 * index the song list highlighted when it was last rendered, and the
 * transitions the buttons, the audio element and the song list drive.
 */
module Player {
  import opened Options
  import opened Tracks
  import JsArith

  datatype PlayerState = PlayerState(
    songs: seq<Song>,
    index: int,
    playing: bool,
    shown: Option<NowPlaying>,
    highlight: Option<int>)

  // `highlight` is the `currentIndex` that `renderPlaylist` last saw, or None
  // while the list has never been rendered. The list is re-rendered only when
  // the playlist arrives and on a click on an item, so next, previous and the
  // end of a track leave it highlighting the song that was current before.

  /** The module-level variables before the playlist arrives. */
  const Initial: PlayerState := PlayerState([], 0, false, None, None)

  /** The outcome of the one playlist fetch made at start-up. */
  datatype Fetch = Fetched(list: seq<Song>) | FetchFailed

  /** Everything that changes the player: the three buttons, the audio
      element's `ended` signal, a click on list item `k`, and the playlist
      fetch completing. */
  datatype Event =
    | PlayButton
    | NextButton
    | PrevButton
    | TrackEnded
    | ItemClicked(k: int)
    | PlaylistArrived(outcome: Fetch)

  predicate IndexInRange(s: PlayerState) {
    0 <= s.index && (|s.songs| > 0 ==> s.index < |s.songs|)
  }

  /** The invariant every reachable state keeps: the index points at a song
      (it stays 0 while the list is empty), the header shows exactly the
      song at the index, or nothing while there are no songs, and a rendered
      list highlights some song of the list. */
  predicate Valid(s: PlayerState) {
    && IndexInRange(s)
    && (|s.songs| == 0 ==> s.index == 0)
    && s.shown == (if |s.songs| == 0 then None else Some(Describe(s.songs[s.index])))
    && (s.highlight.Some? ==> 0 <= s.highlight.value < |s.songs|)
  }

  /** `loadSong(i)`: show song `i`; an index with no song changes nothing. */
  function LoadSong(s: PlayerState, i: int): (r: PlayerState)
    ensures r.songs == s.songs && r.index == s.index && r.playing == s.playing
    ensures r.highlight == s.highlight
    ensures 0 <= i < |s.songs| ==> r.shown == Some(Describe(s.songs[i]))
    ensures !(0 <= i < |s.songs|) ==> r == s
  {
    if 0 <= i < |s.songs| then s.(shown := Some(Describe(s.songs[i]))) else s
  }

  /** `playSong`: the flag is set whatever the list holds. */
  function Play(s: PlayerState): (r: PlayerState)
    ensures r.playing
    ensures r.songs == s.songs && r.index == s.index && r.shown == s.shown
    ensures r.highlight == s.highlight
  {
    s.(playing := true)
  }

  /** `pauseSong`. */
  function Pause(s: PlayerState): (r: PlayerState)
    ensures !r.playing
    ensures r.songs == s.songs && r.index == s.index && r.shown == s.shown
    ensures r.highlight == s.highlight
  {
    s.(playing := false)
  }

  /** The play button: pause when playing, play otherwise. */
  function Toggle(s: PlayerState): (r: PlayerState)
    ensures r.playing == !s.playing
    ensures r.songs == s.songs && r.index == s.index && r.shown == s.shown
    ensures r.highlight == s.highlight
  {
    if s.playing then Pause(s) else Play(s)
  }

  /** `(currentIndex + 1) % songs.length` with JavaScript's `%`. */
  function NextIndex(i: int, n: int): (r: int)
    requires n > 0
    ensures 0 <= i < n ==> 0 <= r < n && r == (if i == n - 1 then 0 else i + 1)
  {
    JsArith.Rem(i + 1, n)
  }

  /** `(currentIndex - 1 + songs.length) % songs.length` with JavaScript's `%`. */
  function PrevIndex(i: int, n: int): (r: int)
    requires n > 0
    ensures 0 <= i < n ==> 0 <= r < n && r == (if i == 0 then n - 1 else i - 1)
  {
    JsArith.Rem(i - 1 + n, n)
  }

  /** `nextSong` (also the handler of the audio element's `ended` signal):
      step forward with wrap-around, show that song, start playing. On an
      empty list nothing happens. */
  function Next(s: PlayerState): (r: PlayerState)
    ensures r.songs == s.songs && r.highlight == s.highlight
    ensures |s.songs| == 0 ==> r == s
    ensures |s.songs| > 0 ==> r.playing
    ensures |s.songs| > 0 && IndexInRange(s) ==>
              && IndexInRange(r)
              && r.index == (if s.index == |s.songs| - 1 then 0 else s.index + 1)
              && r.shown == Some(Describe(s.songs[r.index]))
  {
    if |s.songs| == 0 then s
    else
      var i := NextIndex(s.index, |s.songs|);
      Play(LoadSong(s.(index := i), i))
  }

  /** `prevSong`: step back with wrap-around, show that song, start playing.
      On an empty list nothing happens. */
  function Prev(s: PlayerState): (r: PlayerState)
    ensures r.songs == s.songs && r.highlight == s.highlight
    ensures |s.songs| == 0 ==> r == s
    ensures |s.songs| > 0 ==> r.playing
    ensures |s.songs| > 0 && IndexInRange(s) ==>
              && IndexInRange(r)
              && r.index == (if s.index == 0 then |s.songs| - 1 else s.index - 1)
              && r.shown == Some(Describe(s.songs[r.index]))
  {
    if |s.songs| == 0 then s
    else
      var i := PrevIndex(s.index, |s.songs|);
      Play(LoadSong(s.(index := i), i))
  }

  /** A click on list item `k`: select it, show it, play it, and render the
      list again with item `k` highlighted. */
  function Select(s: PlayerState, k: int): (r: PlayerState)
    requires 0 <= k < |s.songs|
    ensures r.songs == s.songs && r.index == k && r.playing
    ensures r.shown == Some(Describe(s.songs[k]))
    ensures r.highlight == Some(k)
    ensures Valid(r)
  {
    Play(LoadSong(s.(index := k), k)).(highlight := Some(k))
  }

  /** `loadSongs` completing: the fetched list replaces the songs and, when it
      is non-empty, the song at the current index is shown and the list is
      rendered with that index highlighted. A failed fetch leaves everything
      as it was, and an empty list is stored but not rendered. */
  function Loaded(s: PlayerState, outcome: Fetch): (r: PlayerState)
    ensures r.index == s.index && r.playing == s.playing
    ensures outcome.FetchFailed? ==> r == s
    ensures outcome.Fetched? ==> r.songs == outcome.list
    ensures outcome.Fetched? && 0 <= s.index < |outcome.list| ==>
              r.shown == Some(Describe(outcome.list[s.index]))
    ensures outcome.Fetched? && !(0 <= s.index < |outcome.list|) ==> r.shown == s.shown
    ensures outcome.Fetched? && |outcome.list| > 0 ==> r.highlight == Some(s.index)
    ensures !(outcome.Fetched? && |outcome.list| > 0) ==> r.highlight == s.highlight
  {
    match outcome
    case FetchFailed => s
    case Fetched(list) =>
      var t := s.(songs := list);
      if |list| > 0 then LoadSong(t, t.index).(highlight := Some(t.index)) else t
  }

  /** One event handler run to completion. A click on an index the list does
      not show cannot happen and is ignored. Only the playlist fetch changes
      the song list, and only it and a click render the list. */
  function Step(s: PlayerState, e: Event): (r: PlayerState)
    ensures !e.PlaylistArrived? ==> r.songs == s.songs
    ensures !e.PlaylistArrived? && !e.ItemClicked? ==> r.highlight == s.highlight
    ensures e.PlayButton? ==> r.playing == !s.playing && r.index == s.index
    ensures e.ItemClicked? && 0 <= e.k < |s.songs| ==>
              r.index == e.k && r.playing && r.highlight == Some(e.k)
    ensures (e.NextButton? || e.TrackEnded? || e.PrevButton?) && |s.songs| > 0 ==> r.playing
  {
    match e
    case PlayButton => Toggle(s)
    case NextButton => Next(s)
    case TrackEnded => Next(s)
    case PrevButton => Prev(s)
    case ItemClicked(k) => if 0 <= k < |s.songs| then Select(s, k) else s
    case PlaylistArrived(outcome) => Loaded(s, outcome)
  }

  /** The handlers for a sequence of events, in arrival order. */
  function Run(s: PlayerState, events: seq<Event>): PlayerState
    decreases |events|
  {
    if |events| == 0 then s else Run(Step(s, events[0]), events[1..])
  }

  /** `nextSong` applied `k` times. */
  function Advance(s: PlayerState, k: nat): PlayerState {
    if k == 0 then s else Next(Advance(s, k - 1))
  }

  function LoadCount(events: seq<Event>): nat {
    if |events| == 0 then 0
    else (if events[0].PlaylistArrived? then 1 else 0) + LoadCount(events[1..])
  }

  // ---------------------------------------------------------------------
  // Index arithmetic

  lemma PrevAfterNextIndex(i: int, n: int)
    requires 0 <= i < n
    ensures PrevIndex(NextIndex(i, n), n) == i
  {
  }

  lemma NextAfterPrevIndex(i: int, n: int)
    requires 0 <= i < n
    ensures NextIndex(PrevIndex(i, n), n) == i
  {
  }

  // ---------------------------------------------------------------------
  // Transitions

  /** Going forward then back lands on the starting song, now playing. */
  lemma PrevAfterNext(s: PlayerState)
    requires Valid(s)
    ensures Prev(Next(s)) == (if |s.songs| == 0 then s else Play(s))
  {
  }

  /** Going back then forward lands on the starting song, now playing. */
  lemma NextAfterPrev(s: PlayerState)
    requires Valid(s)
    ensures Next(Prev(s)) == (if |s.songs| == 0 then s else Play(s))
  {
  }

  /** Pressing the play button twice restores the state. */
  lemma ToggleTwice(s: PlayerState)
    ensures Toggle(Toggle(s)) == s
  {
  }

  /** Stepping forward from the position `x` lands on position `x + 1`, round the list. */
  lemma NextIndexOfMod(x: int, n: int)
    requires x >= 0 && n > 0
    ensures NextIndex(x % n, n) == (x + 1) % n
  {
    var q := x / n;
    if x % n == n - 1 {
      JsArith.EuclidUnique(x + 1, n, q + 1, 0);
    } else {
      JsArith.EuclidUnique(x + 1, n, q, x % n + 1);
    }
  }

  /** `NextIndex` applied `k` times. */
  function StepsForward(i: int, n: int, k: nat): int
    requires n > 0
  {
    if k == 0 then i else NextIndex(StepsForward(i, n, k - 1), n)
  }

  /** `k` forward steps from an in-range index move it `k` places round the list. */
  lemma {:induction false} StepsForwardMod(i: int, n: int, k: nat)
    requires 0 <= i < n
    ensures StepsForward(i, n, k) == (i + k) % n
  {
    if k == 0 {
      JsArith.EuclidUnique(i, n, 0, i);
    } else {
      StepsForwardMod(i, n, k - 1);
      NextIndexOfMod(i + k - 1, n);
    }
  }

  /** `k` presses of "next" keep the list and the rendered highlight and move
      the index by `k` forward steps. */
  lemma {:induction false} AdvanceSteps(s: PlayerState, k: nat)
    requires |s.songs| > 0 && IndexInRange(s)
    ensures IndexInRange(Advance(s, k))
    ensures Advance(s, k).songs == s.songs && Advance(s, k).highlight == s.highlight
    ensures Advance(s, k).index == StepsForward(s.index, |s.songs|, k)
  {
    if k > 0 {
      AdvanceSteps(s, k - 1);
    }
  }

  /** After `k` presses of "next" the index has moved `k` places round the list. */
  lemma AdvanceIndex(s: PlayerState, k: nat)
    requires |s.songs| > 0 && IndexInRange(s)
    ensures IndexInRange(Advance(s, k))
    ensures Advance(s, k).songs == s.songs
    ensures Advance(s, k).index == (s.index + k) % |s.songs|
  {
    AdvanceSteps(s, k);
    StepsForwardMod(s.index, |s.songs|, k);
  }

  /** Pressing "next" once per song comes back round to the same state, playing. */
  lemma FullCycle(s: PlayerState)
    requires Valid(s) && |s.songs| > 0
    ensures Advance(s, |s.songs|) == Play(s)
  {
    var p := Advance(s, |s.songs| - 1);
    OneShortOfCycle(s);
    NextAfterPrevIndex(s.index, |s.songs|);
    assert Advance(s, |s.songs|) == Next(p);
  }

  /** One press short of a full cycle sits just before the start. */
  lemma OneShortOfCycle(s: PlayerState)
    requires IndexInRange(s) && |s.songs| > 0
    ensures Advance(s, |s.songs| - 1).songs == s.songs
    ensures Advance(s, |s.songs| - 1).highlight == s.highlight
    ensures Advance(s, |s.songs| - 1).index == PrevIndex(s.index, |s.songs|)
  {
    var n := |s.songs|;
    var p := Advance(s, n - 1);
    AdvanceSteps(s, n - 1);
    assert p.index == StepsForward(s.index, n, n - 1);
    StepsOneShort(s.index, n);
  }

  /** `n - 1` forward steps are one step back. */
  lemma StepsOneShort(i: int, n: int)
    requires 0 <= i < n
    ensures StepsForward(i, n, n - 1) == PrevIndex(i, n)
  {
    StepsForwardMod(i, n, n - 1);
    PrevIndexAsMod(i, n);
  }

  /** Stepping back from `i` lands on `(i + n - 1) mod n`. */
  lemma PrevIndexAsMod(i: int, n: int)
    requires 0 <= i < n
    ensures (i + n - 1) % n == PrevIndex(i, n)
  {
    if i == 0 {
      JsArith.EuclidUnique(i + n - 1, n, 0, n - 1);
    } else {
      JsArith.EuclidUnique(i + n - 1, n, 1, i - 1);
    }
  }

  // ---------------------------------------------------------------------
  // The invariant

  lemma InitialValid()
    ensures Valid(Initial)
  {
  }

  /** Every handler keeps the invariant; the playlist arrives while the list is
      still empty. */
  lemma StepValid(s: PlayerState, e: Event)
    requires Valid(s)
    requires e.PlaylistArrived? ==> s.songs == []
    ensures Valid(Step(s, e))
  {
  }

  /** Any sequence of events with at most one playlist fetch, starting while
      the list is still empty if there is one, keeps the invariant. */
  lemma {:induction false} RunValid(s: PlayerState, events: seq<Event>)
    requires Valid(s)
    requires LoadCount(events) <= 1
    requires LoadCount(events) == 1 ==> s.songs == []
    ensures Valid(Run(s, events))
    decreases |events|
  {
    if |events| > 0 {
      var e := events[0];
      StepValid(s, e);
      RunValid(Step(s, e), events[1..]);
    }
  }

  /** Every state the page can reach from start-up keeps the invariant. */
  lemma ReachableValid(events: seq<Event>)
    requires LoadCount(events) <= 1
    ensures Valid(Run(Initial, events))
  {
    RunValid(Initial, events);
  }
}
