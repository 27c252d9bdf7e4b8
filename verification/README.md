# Music player: playlist and playback state machine

A Dafny model of the playback core of a browser music player (`main.js`).
The script keeps three module-level variables: the song list, the current
index and the playing flag. The buttons, the audio element's `ended`
signal and clicks on the rendered song list change them. The model keeps
the same state as an immutable `Player.PlayerState`. It adds what `loadSong`
last put in the player header (title and artist with their fallbacks, cover,
resolved audio URL). It also records which index the song list highlighted
when it was last rendered. Every handler is a pure transition function.

Modules:

- `Options`: the optional value used for fields that may be absent.
- `Decimal`: decimal printing of naturals, as a template literal prints them below 10^21, and the inverse reading.
- `TimeFormat`: the `M:SS` label of `formatTime`, over whole seconds, with a parser that reads it back.
- `Tracks`: a song, the title and artist fallbacks, and audio-source resolution.
- `JsArith`: JavaScript's `%`, whose remainder keeps the dividend's sign, and numbers that may be NaN.
- `Player`: the state, its transitions, an event loop (`Step`, `Run`) and the invariant every reachable state keeps.
- `Playlist`: `renderPlaylist` as a view, and the list on screen between renders. The view is either the "no songs" placeholder or one `(song, active)` item per song.
- `AsWritten`: `nextSong` and `prevSong` exactly as written, on JavaScript numbers (see Findings).

Behaviours of the code that a reader might not expect, which the model keeps:

- `Player.Next` and `Player.Prev` always start playback on a non-empty list, even when the player was paused, because `playSong` is called unconditionally.
- `Player.Play` sets the flag even when the list is empty, because `playSong` has no guard.
- The highlighted item depends on the index alone, not on the playing flag.
- The list is rendered only when the playlist arrives and when an item is clicked. Next, previous and the end of a track do not re-render it. After them, the list still highlights the song that was current before, while the header shows the new one.
- A failed playlist fetch leaves the list empty. No placeholder track is substituted.

The model departs from the code only in the empty-list guard on next/previous, described under Findings.

## Model

| member | source | states |
|---|---|---|
| Tracks.OrDefault | main.js:49-50 | A present, non-empty field is shown as is. An absent or empty field shows the fallback. With a non-empty fallback the result is never empty. |
| Tracks.ResolveSrc | main.js:52 | The URL equals `src` exactly when `src` starts with `http`. Otherwise it is the music directory followed by `src`. `src` is always a suffix of the URL, and the URL is remote or under the music directory. |
| Tracks.ResolveSrcInjective | main.js:52 | Songs with different `src` never resolve to the same URL. |
| Tracks.RemoteIsNotLocal | main.js:52 | A URL starting with `http` never lies under the music directory, so the two branches of the resolution cannot produce the same URL. |
| Tracks.Describe | main.js:49-52 | The shown title and artist are never empty. The title is the fallback exactly when the field is absent, empty or already equal to it; the same holds for the artist. The cover is passed through and the audio source is resolved. |
| Player.LoadSong | main.js:45-53 | An in-range index shows that song and changes nothing else. An index with no song changes nothing at all. |
| Player.Play | main.js:56-60 | The flag becomes true; songs, index and header are unchanged. |
| Player.Pause | main.js:62-66 | The flag becomes false; songs, index and header are unchanged. |
| Player.Toggle | main.js:97-99 | The play button inverts the flag and changes nothing else. |
| Player.ToggleTwice | main.js:97-99 | Two presses of the play button restore the state. |
| Player.NextIndex | main.js:69 | For an in-range index the result stays in range. It is the index plus one, or 0 after the last song. |
| Player.PrevIndex | main.js:75 | For an in-range index the result stays in range. It is the index minus one, or the last song before the first. |
| Player.PrevAfterNextIndex | main.js:68-78 | Previous undoes next on every in-range index. |
| Player.NextAfterPrevIndex | main.js:68-78 | Next undoes previous on every in-range index. |
| Player.Next | main.js:68-72 | On a non-empty list: the index wraps forward and stays in range, the new song is shown, and the flag is true whatever it was. On an empty list the state is unchanged. The list and its rendered highlight never change. |
| Player.Prev | main.js:74-78 | On a non-empty list: the index wraps backward and stays in range, the new song is shown, and the flag is true. On an empty list the state is unchanged. The list and its rendered highlight never change. |
| Player.Select | main.js:144-149 | Clicking item `k` sets the index to exactly `k`, shows song `k`, sets the flag true, re-renders the list highlighting `k`, and yields a valid state. |
| Player.Loaded | main.js:28-43 | A failed fetch changes nothing. A fetched list replaces the songs. When the current index is in range, that song is shown. A non-empty list is rendered highlighting the current index; an empty one is not rendered. Index and flag are untouched. |
| Player.Step | main.js:97-103 | Only the playlist fetch changes the song list, and only it and a click re-render. The play button inverts the flag. A click on item `k` selects, plays and highlights `k`. Next, previous and the end of a track on a non-empty list leave the player playing. |
| Player.PrevAfterNext | main.js:68-78 | On a valid state, next then previous returns to the starting song with the flag set. On an empty list both are no-ops. |
| Player.NextAfterPrev | main.js:68-78 | On a valid state, previous then next returns to the starting song with the flag set. |
| Player.NextIndexOfMod | main.js:69 | One forward step from position `x mod n` lands on `(x + 1) mod n`. |
| Player.StepsForwardMod | main.js:69 | `k` forward index steps from an in-range index land on `(i + k) mod n`. |
| Player.AdvanceSteps | main.js:68-72 | `k` presses of next keep the list and the rendered highlight, keep the index in range, and move it by `k` forward steps. |
| Player.AdvanceIndex | main.js:68-72 | After `k` presses of next, the index is `(i + k) mod n` and stays in range. |
| Player.OneShortOfCycle | main.js:68-72 | After `n - 1` presses of next, the index sits just before the start, with the list and highlight unchanged. |
| Player.StepsOneShort | main.js:68-78 | `n - 1` forward index steps from an in-range index equal one step back. |
| Player.PrevIndexAsMod | main.js:75 | Stepping back from `i` lands on `(i + n - 1) mod n`. |
| Player.FullCycle | main.js:68-72 | Pressing next once per song comes back to the same state, now playing. |
| Player.InitialValid | main.js:16-18 | The start-up variables satisfy the invariant. |
| Player.StepValid | main.js:97-103 | Every handler keeps the invariant. The index stays in range, the header shows the song at the index, and a rendered list highlights a song of the list. |
| Player.RunValid | main.js:97-103 | Any event sequence with at most one playlist arrival, starting while the list is still empty, keeps the invariant. |
| Player.ReachableValid | main.js:177-180 | Every state reachable from page load by such events keeps the invariant. |
| Playlist.Render | main.js:106-121 | An empty list gives only the placeholder. Otherwise there is one item per song, in song order, and item `j` is active exactly when `j` is the index read at render time. |
| Playlist.RenderLoop | main.js:115-154 | The item-appending loop builds exactly the view `Render` describes. |
| Playlist.CountActiveNone | main.js:121 | A list with no marked item counts zero active items. |
| Playlist.CountActiveOne | main.js:121 | A list whose only marked item is `k` counts one active item. |
| Playlist.ExactlyOneActive | main.js:118-121 | On a non-empty list, exactly one item is active when the index is in range, and none otherwise. |
| Playlist.RenderedItemIsShown | main.js:118-121 | Right after a render, exactly one item is highlighted, at the current index, and it is the song the header shows. |
| Playlist.ArrivalRendersInStep | main.js:32-36 | A non-empty playlist arriving on the empty start-up list yields a valid state at index 0 whose list is in step with the header. |
| Playlist.ClickHighlightsItem | main.js:144-149 | After clicking item `k`, the list on screen is re-rendered with item `k` and only it active. |
| Playlist.HandlersKeepList | main.js:97-103 | The play button, next, previous and the end of a track leave the list on screen exactly as it was. |
| Playlist.StaleHighlightAfterNext | main.js:68-72 | From a list in step with the header and at least two songs, after next the list still highlights the old index while the header shows the new song. |
| Playlist.StaleHighlightAfterPrev | main.js:74-78 | The same after previous. |
| Decimal.Show | main.js:161 | Prints a natural as digits only, at least one digit, with a leading zero only for 0. It prints a single digit exactly below 10. |
| Decimal.ShowValue | main.js:161 | Reading back the printed digits gives the number. |
| Decimal.ParseShow | main.js:161 | Parsing the printed digits succeeds and gives the number. |
| Decimal.ShowInjective | main.js:161 | Distinct numbers print differently. |
| TimeFormat.Pad2 | main.js:161 | Seconds below 60 print as exactly two digits that denote them. |
| TimeFormat.FormatTime | main.js:158-162 | The label is minutes digits, a colon, and two seconds digits, at least four characters long. The minutes field starts with 0 only when it is the single digit 0. |
| TimeFormat.FormatTimeFields | main.js:158-162 | The minutes field denotes `s / 60` and the seconds field `s % 60 < 60`. Together, minutes * 60 + seconds equals `s`. |
| TimeFormat.ParseFormatTime | main.js:158-162 | Every label reads back as the seconds it was made from. |
| TimeFormat.FormatTimeInjective | main.js:158-162 | Distinct second counts get distinct labels. |
| TimeFormat.FormatTimeExamples | main.js:158-162 | 65 gives `1:05`, 5 gives `0:05`, 0 gives `0:00`, and 600 gives `10:00`. |
| JsArith.Rem | main.js:69 | JavaScript `%` with a positive divisor. The remainder has magnitude below the divisor and the dividend's sign. It equals Dafny's `%` when non-negative and falls short of it by the divisor otherwise. |
| JsArith.EuclidOfNegation | main.js:75 | Relates the Euclidean remainder of `-x` to that of `x`, which is what gives JavaScript `%` its sign rule. |
| JsArith.EuclidUnique | main.js:69 | The remainder in `[0, n)` of a division is unique. |
| JsArith.Add | main.js:69 | A sum is NaN exactly when an operand is; otherwise it is the integer sum. |
| JsArith.Mod | main.js:69 | `x % y` is NaN exactly when an operand is NaN or the divisor is zero. Otherwise its magnitude is below the divisor's, it has the dividend's sign, and it is the Euclidean remainder by `abs(y)` when non-negative or that remainder minus `abs(y)` when negative. |
| AsWritten.NextSongAsWritten | main.js:68-72 | The unguarded `nextSong` always sets the flag. The index becomes NaN exactly when the list is empty or the index already is NaN. |
| AsWritten.PrevSongAsWritten | main.js:74-78 | The same for the unguarded `prevSong`. |
| AsWritten.Arrive | main.js:32-36 | The playlist arriving replaces the length and leaves index and flag alone. |
| AsWritten.IsActiveAsWritten | main.js:121 | The strict-equality test marks no item active when the index is NaN; for an integer index it marks exactly item `index`. |
| AsWritten.ClickAsWritten | main.js:144-147 | A click on item `k` sets the index to `k` and the flag true, and item `k` becomes the active one. |
| AsWritten.NaNIsSticky | main.js:68-78 | Once the index is NaN, no sequence of next/previous presses restores it. |
| AsWritten.EarlyPressBreaksIndex | main.js:68-78 | A press before the playlist arrives leaves the index NaN and the flag true. After any playlist arrives, no press of next or previous recovers the index, and no list item is active. |
| AsWritten.ClickRecovers | main.js:144-149 | Only a click on a list item recovers a NaN index: it sets the index to the clicked item, which becomes active. |
| AsWritten.AgreesOnNonEmpty | main.js:68-78 | On a non-empty list with an in-range index, the code as written and the guarded model compute the same index and flag. |
| AsWritten.GuardedEarlyPress | main.js:68-78 | In the guarded model an early press changes nothing. A later non-empty playlist yields a valid state at index 0. |

## Left out

- Fetching the playlist (`loadSongs`): the network request, JSON parsing and console logging are I/O. Only the outcome is modelled, as `Player.Fetched(list)` or `Player.FetchFailed`.
- A JSON document without a `songs` array: the script sets the list to `undefined`, and a later next/previous press throws. This case is modelled as a failed fetch; both leave the state unchanged.
- `loadMessage`: a text fetch shown verbatim, or a fixed error string. It is I/O and unrelated to playback.
- The `timeupdate` progress bar and click-to-seek: these are floating-point divisions over the audio element's time and duration.
- `TimeFormat.FormatTime`: covers whole, non-negative seconds only; the `Math.floor` of a fractional or NaN time is not modelled. Minute counts of 10^21 and above, which JavaScript prints in exponent notation, are printed with all their digits.
- A song without `src`: `loadSong` throws after it has written the title, artist and cover. From next or previous the index has then already moved and playback does not start. From the initial load the throw is caught and the list is not rendered. A song without `cover` gets the image URL `undefined`. Every `Tracks.Song` carries both strings.
- The audio element's `play()` and `pause()` calls, the rejection of `play()` by the browser, and the play/pause icon swaps are browser APIs with no state the model keeps.
- DOM construction of list items: the cover image, its `alt`, and the title and artist text nodes. `Playlist.Item` keeps the whole song instead.
- `null` entries in the song list, which `loadSong` skips: a `Tracks.Song` is always a record.
- Event-listener registration and the `DOMContentLoaded` bootstrap. `Player.Step` and `Player.Run` stand for the dispatch. A click on an item that is not rendered cannot happen, and `Step` ignores it.

## Findings

| source | as written | input that shows it | evidently intended | confidence | as-written member | corrected member |
|---|---|---|---|---|---|---|
| main.js:68-78 | `nextSong` and `prevSong` take the index modulo the list length without checking that the list is non-empty. The index becomes NaN, and `isPlaying` is set true. | Press next or previous before the playlist arrives, or after the fetch failed (`songs` is `[]`). The index is then NaN. No later press of next or previous recovers it, and no list item is highlighted; only a click on a list item, once the list is rendered, sets it back to a number. | On an empty list, next and previous change nothing. | medium, not executed | AsWritten.EarlyPressBreaksIndex | Player.Next |
