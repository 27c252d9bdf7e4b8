/**
 * One song of the playlist and what `loadSong` shows for it: the title and
 * artist with their fallbacks, the cover, and the resolved audio source.
 */
module Tracks {
  import opened Options

  /** A playlist entry as it arrives in the JSON document; `title` and
      `artist` may be absent. */
  datatype Song = Song(title: Option<string>, artist: Option<string>, cover: string, src: string)

  /** What the player header and the audio element hold after `loadSong`. */
  datatype NowPlaying = NowPlaying(title: string, artist: string, cover: string, audioSrc: string)

  const UnknownTitle: string := "Desconhecida"
  const UnknownArtist: string := "Artista não identificado"
  const MusicDir: string := "assets/music/"
  const RemotePrefix: string := "http"

  predicate StartsWith(s: string, prefix: string) {
    |prefix| <= |s| && s[..|prefix|] == prefix
  }

  /** JavaScript's `field || fallback` on a string field: an absent or empty
      field is falsy and gives way to the fallback. */
  function OrDefault(field: Option<string>, fallback: string): (r: string)
    ensures field.Some? && field.value != "" ==> r == field.value
    ensures field.None? || field.value == "" ==> r == fallback
    ensures fallback != "" ==> r != ""
  {
    if field.Some? && field.value != "" then field.value else fallback
  }

  /** The audio URL for a song's `src`: remote sources are used as they are,
      anything else is taken relative to the music directory. */
  function ResolveSrc(src: string): (url: string)
    ensures url == src <==> StartsWith(src, RemotePrefix)
    ensures !StartsWith(src, RemotePrefix) ==> StartsWith(url, MusicDir) && url[|MusicDir|..] == src
    ensures |src| <= |url| && url[|url| - |src|..] == src
    ensures StartsWith(url, RemotePrefix) || StartsWith(url, MusicDir)
  {
    if StartsWith(src, RemotePrefix) then src else MusicDir + src
  }

  /** Two songs with different sources never play the same URL. */
  lemma ResolveSrcInjective(a: string, b: string)
    requires ResolveSrc(a) == ResolveSrc(b)
    ensures a == b
  {
    if !StartsWith(a, RemotePrefix) && !StartsWith(b, RemotePrefix) {
      assert a == ResolveSrc(a)[|MusicDir|..] == ResolveSrc(b)[|MusicDir|..];
    } else if StartsWith(a, RemotePrefix) != StartsWith(b, RemotePrefix) {
      RemoteIsNotLocal(if StartsWith(a, RemotePrefix) then a else b);
    }
  }

  /** No URL is both remote and under the music directory. */
  lemma RemoteIsNotLocal(url: string)
    requires StartsWith(url, RemotePrefix)
    ensures !StartsWith(url, MusicDir)
  {
    assert url[0] == RemotePrefix[0] == 'h';
  }

  /** What `loadSong` puts on screen for one song. */
  function Describe(song: Song): (np: NowPlaying)
    ensures np.title != "" && np.artist != ""
    ensures np.title == UnknownTitle <==> song.title.None? || song.title.value in {"", UnknownTitle}
    ensures np.artist == UnknownArtist <==> song.artist.None? || song.artist.value in {"", UnknownArtist}
    ensures np.cover == song.cover
    ensures np.audioSrc == ResolveSrc(song.src)
  {
    NowPlaying(OrDefault(song.title, UnknownTitle), OrDefault(song.artist, UnknownArtist),
               song.cover, ResolveSrc(song.src))
  }
}
