/**
 * `nextSong` and `prevSong` exactly as main.js computes them, on JavaScript
 * numbers: with an empty song list the index becomes `x % 0`, that is NaN,
 * and never recovers. `Player.Next` and `Player.Prev` are the guarded
 * versions the rest of the model uses.
 */
module AsWritten {
  import opened JsArith
  import Player
  import Tracks

  /** The module-level variables as the script holds them: `songs.length`,
      `currentIndex` as a JavaScript number, and `isPlaying`. */
  datatype JsState = JsState(count: nat, index: Num, playing: bool)

  /** The variables when the page has loaded and the playlist has not arrived. */
  const PageLoaded: JsState := JsState(0, Int(0), false)

  /** `nextSong` as written: no guard on the list length. */
  function NextSongAsWritten(st: JsState): (r: JsState)
    ensures r.count == st.count && r.playing
    ensures r.index.NaN? <==> st.count == 0 || st.index.NaN?
  {
    JsState(st.count, Mod(Add(st.index, Int(1)), Int(st.count)), true)
  }

  /** `prevSong` as written. */
  function PrevSongAsWritten(st: JsState): (r: JsState)
    ensures r.count == st.count && r.playing
    ensures r.index.NaN? <==> st.count == 0 || st.index.NaN?
  {
    JsState(st.count, Mod(Add(Add(st.index, Int(-1)), Int(st.count)), Int(st.count)), true)
  }

  /** The playlist arriving with `n` songs; `loadSongs` never touches the index. */
  function Arrive(st: JsState, n: nat): (r: JsState)
    ensures r.index == st.index && r.playing == st.playing && r.count == n
  {
    st.(count := n)
  }

  /** `index === currentIndex` in `renderPlaylist`: NaN equals nothing. */
  predicate IsActiveAsWritten(j: nat, current: Num): (b: bool)
    ensures current.NaN? ==> !b
    ensures current.Int? ==> (b <==> current.v == j)
  {
    current.Int? && current.v == j
  }

  /** A click on list item `k` (items exist only once the list is rendered):
      `currentIndex = index`, then `playSong`. */
  function ClickAsWritten(st: JsState, k: nat): (r: JsState)
    requires k < st.count
    ensures r.count == st.count && r.playing
    ensures r.index == Int(k) && IsActiveAsWritten(k, r.index)
  {
    JsState(st.count, Int(k), true)
  }

  /** A sequence of presses of "next" (true) and "previous" (false). */
  function PressAll(st: JsState, presses: seq<bool>): JsState
    decreases |presses|
  {
    if |presses| == 0 then st
    else PressAll(if presses[0] then NextSongAsWritten(st) else PrevSongAsWritten(st), presses[1..])
  }

  /** Once the index is NaN no press of "next" or "previous" brings it back. */
  lemma {:induction false} NaNIsSticky(st: JsState, presses: seq<bool>)
    requires st.index.NaN?
    ensures PressAll(st, presses).index.NaN?
    ensures PressAll(st, presses).count == st.count
    decreases |presses|
  {
    if |presses| > 0 {
      var st' := if presses[0] then NextSongAsWritten(st) else PrevSongAsWritten(st);
      NaNIsSticky(st', presses[1..]);
    }
  }

  /** Pressing "next" (or "previous") before the playlist arrives makes the
      index NaN and the flag true; after the playlist arrives with any number
      of songs, no press of "next" or "previous" recovers the index, and while
      only those are pressed no list item is active. */
  lemma EarlyPressBreaksIndex(first: bool, n: nat, presses: seq<bool>)
    ensures var st := if first then NextSongAsWritten(PageLoaded) else PrevSongAsWritten(PageLoaded);
            && st == JsState(0, NaN, true)
            && PressAll(Arrive(st, n), presses).index.NaN?
            && forall j: nat :: !IsActiveAsWritten(j, PressAll(Arrive(st, n), presses).index)
  {
    var st := if first then NextSongAsWritten(PageLoaded) else PrevSongAsWritten(PageLoaded);
    NaNIsSticky(Arrive(st, n), presses);
  }

  /** Only a click on a list item brings the index back: after any presses,
      clicking item `k` of the arrived list makes the index `k` and item `k`
      the active one. */
  lemma {:induction false} ClickRecovers(first: bool, n: nat, presses: seq<bool>, k: nat)
    requires k < n
    ensures var st := if first then NextSongAsWritten(PageLoaded) else PrevSongAsWritten(PageLoaded);
            var broken := PressAll(Arrive(st, n), presses);
            && broken.index.NaN?
            && broken.count == n
            && (k < broken.count ==>
                  && ClickAsWritten(broken, k).index == Int(k)
                  && IsActiveAsWritten(k, ClickAsWritten(broken, k).index))
  {
    var st := if first then NextSongAsWritten(PageLoaded) else PrevSongAsWritten(PageLoaded);
    NaNIsSticky(Arrive(st, n), presses);
  }

  /** On a non-empty list with the index in range the code as written and the
      guarded model agree: the same new index and the flag set. */
  lemma AgreesOnNonEmpty(n: nat, i: int, playing: bool)
    requires 0 <= i < n
    ensures NextSongAsWritten(JsState(n, Int(i), playing)) == JsState(n, Int(Player.NextIndex(i, n)), true)
    ensures PrevSongAsWritten(JsState(n, Int(i), playing)) == JsState(n, Int(Player.PrevIndex(i, n)), true)
  {
  }

  /** The guarded model on the same scenario: an early press changes nothing,
      and once the playlist arrives song 0 is shown and highlighted. */
  lemma GuardedEarlyPress(list: seq<Tracks.Song>)
    requires |list| > 0
    ensures Player.Next(Player.Initial) == Player.Initial
    ensures Player.Prev(Player.Initial) == Player.Initial
    ensures Player.Loaded(Player.Next(Player.Initial), Player.Fetched(list)).index == 0
    ensures Player.Valid(Player.Loaded(Player.Next(Player.Initial), Player.Fetched(list)))
  {
  }
}
