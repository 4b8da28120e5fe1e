/**
 * playlist.js: the song library `allTracks` and the playlists. The page keeps two copies of
 * the playlists: the stored array (`localStorage` key `playlists`), which the delete-song
 * handler parses and rewrites, and the array `playlists` of the `initPlaylistGrid` closure,
 * which the grid handlers change and save over the stored one.
 */
module Playlists {
  import opened Collections

  /** A song: `{id, title, artist, src, cover}`. */
  datatype Song = Song(id: int, title: string, artist: string, src: string, cover: string)

  /** A playlist: `{id, name, cover, tracks}`. */
  datatype Playlist = Playlist(id: int, name: string, cover: string, tracks: seq<Song>)

  const CozyName: string := "Cozy Playlist"
  const CozyCover: string := "assets/img/cozy-welcome.jpg"
  const SongCover: string := "assets/img/default-song-cover.jpg"

  /** `s => s.id !== id`. */
  function SongIsNot(id: int): Song -> bool {
    (s: Song) => s.id != id
  }

  /** `p => p.id !== id`. */
  function PlaylistIsNot(id: int): Playlist -> bool {
    (p: Playlist) => p.id != id
  }

  /** `p => p.name === "Cozy Playlist"`. */
  function IsCozy(p: Playlist): bool {
    p.name == CozyName
  }

  /** The songs of `s` without those whose id is `id`, the rest in order. */
  function WithoutSong(s: seq<Song>, id: int): seq<Song> {
    Filter(s, SongIsNot(id))
  }

  /**
   * Filtering out an id removes every song with that id and keeps every other song; filtering
   * again changes nothing.
   */
  lemma WithoutSongSpec(s: seq<Song>, id: int, x: Song)
    ensures x in WithoutSong(s, id) <==> x in s && x.id != id
    ensures WithoutSong(WithoutSong(s, id), id) == WithoutSong(s, id)
    ensures |WithoutSong(s, id)| == |s| <==> forall i :: 0 <= i < |s| ==> s[i].id != id
  {
    FilterMembers(s, SongIsNot(id));
    if x in s && x.id != id {
      FilterKeeps(s, SongIsNot(id), x);
    }
    FilterIdempotent(s, SongIsNot(id));
    FilterLengthAll(s, SongIsNot(id));
  }

  /**
   * The stored playlists after a song is deleted: the first playlist named "Cozy Playlist"
   * loses the song; with no such playlist nothing is written.
   */
  function CozyWithoutSong(ps: seq<Playlist>, id: int): seq<Playlist> {
    match FirstIndex(ps, IsCozy)
    case None => ps
    case Some(k) => ps[k := ps[k].(tracks := WithoutSong(ps[k].tracks, id))]
  }

  /** Only the first Cozy playlist changes, and only in its tracks; without one nothing changes. */
  lemma CozyWithoutSongSpec(ps: seq<Playlist>, id: int)
    ensures var r := CozyWithoutSong(ps, id);
            |r| == |ps|
            && ((forall i :: 0 <= i < |ps| ==> !IsCozy(ps[i])) ==> r == ps)
            && (forall i :: 0 <= i < |ps| && IsCozy(ps[i]) ==>
                  exists k :: 0 <= k <= i && IsCozy(ps[k])
                    && r[k] == ps[k].(tracks := WithoutSong(ps[k].tracks, id))
                    && forall j :: 0 <= j < |ps| && j != k ==> r[j] == ps[j])
  {
    match FirstIndex(ps, IsCozy)
    case None =>
    case Some(k) =>
      forall i | 0 <= i < |ps| && IsCozy(ps[i])
        ensures exists k :: 0 <= k <= i && IsCozy(ps[k])
                  && CozyWithoutSong(ps, id)[k] == ps[k].(tracks := WithoutSong(ps[k].tracks, id))
                  && forall j :: 0 <= j < |ps| && j != k ==> CozyWithoutSong(ps, id)[j] == ps[j]
      {
        assert k <= i;
      }
  }

  /** The block that ensures a Cozy playlist: append one holding `allTracks` when none has the name. */
  function WithCozy(ps: seq<Playlist>, allTracks: seq<Song>): seq<Playlist> {
    if FirstIndex(ps, IsCozy).Some? then ps else ps + [Playlist(1, CozyName, CozyCover, allTracks)]
  }

  /**
   * Afterwards a Cozy playlist exists; an existing one is kept as it is, otherwise exactly one
   * is appended with id 1 and the library's tracks; running the block again changes nothing.
   */
  lemma WithCozySpec(ps: seq<Playlist>, allTracks: seq<Song>)
    ensures var r := WithCozy(ps, allTracks);
            FirstIndex(r, IsCozy).Some?
            && ((exists i :: 0 <= i < |ps| && IsCozy(ps[i])) ==> r == ps)
            && ((forall i :: 0 <= i < |ps| ==> !IsCozy(ps[i])) ==> r == ps + [Playlist(1, CozyName, CozyCover, allTracks)])
            && WithCozy(r, allTracks) == r
  {
    var r := WithCozy(ps, allTracks);
    assert IsCozy(Playlist(1, CozyName, CozyCover, allTracks));
    if FirstIndex(ps, IsCozy).None? {
      assert IsCozy(r[|ps|]);
    }
  }

  /** `createPlaylist` after the prompt: no name or an empty one is a no-op. */
  function Created(ps: seq<Playlist>, name: Option<string>, id: int): seq<Playlist> {
    if name.None? || name.value == [] then ps else ps + [Playlist(id, name.value, CozyCover, [])]
  }

  /** A new playlist goes at the end, with the given name and no tracks; the others are untouched. */
  lemma CreatedSpec(ps: seq<Playlist>, name: Option<string>, id: int)
    ensures var r := Created(ps, name, id);
            (name.None? || name.value == [] ==> r == ps)
            && (name.Some? && name.value != [] ==>
                  |r| == |ps| + 1 && r[..|ps|] == ps && r[|ps|] == Playlist(id, name.value, CozyCover, []))
  {
    if name.Some? && name.value != [] {
      assert Created(ps, name, id)[..|ps|] == ps;
    }
  }

  /** The playlists after the delete branch of the grid: every playlist with that id goes. */
  function DeletedPlaylist(ps: seq<Playlist>, id: int): seq<Playlist> {
    Filter(ps, PlaylistIsNot(id))
  }

  /** No playlist with the id is left, and every other playlist stays. */
  lemma DeletedPlaylistSpec(ps: seq<Playlist>, id: int, p: Playlist)
    ensures p in DeletedPlaylist(ps, id) <==> p in ps && p.id != id
    ensures |DeletedPlaylist(ps, id)| <= |ps|
  {
    FilterMembers(ps, PlaylistIsNot(id));
    if p in ps && p.id != id {
      FilterKeeps(ps, PlaylistIsNot(id), p);
    }
  }

  /** The remove button of a song in playlist `k`: that playlist loses the song, the others are untouched. */
  function RemovedTrack(ps: seq<Playlist>, k: nat, songId: int): seq<Playlist>
    requires k < |ps|
  {
    ps[k := ps[k].(tracks := WithoutSong(ps[k].tracks, songId))]
  }

  /** The playlist's id, name and cover stay, and every other playlist is unchanged. */
  lemma RemovedTrackSpec(ps: seq<Playlist>, k: nat, songId: int)
    requires k < |ps|
    ensures var r := RemovedTrack(ps, k, songId);
            |r| == |ps|
            && r[k].id == ps[k].id && r[k].name == ps[k].name && r[k].cover == ps[k].cover
            && (forall x :: x in r[k].tracks <==> x in ps[k].tracks && x.id != songId)
            && forall j :: 0 <= j < |ps| && j != k ==> r[j] == ps[j]
  {
    forall x {
      WithoutSongSpec(ps[k].tracks, songId, x);
    }
  }

  /** `window.allTracks || []`. */
  function TracksOrEmpty(w: Option<seq<Song>>): seq<Song> {
    if w.Some? then w.value else []
  }

  /** The shared state of the library and the playlist grid. */
  class Library {
    /** The stored `allTracks`. */
    var storedTracks: seq<Song>
    /** `window.allTracks`: `None` while it is undefined, before the first `renderAllSongs()`. */
    var windowTracks: Option<seq<Song>>
    /** The stored `playlists`. */
    var storedPlaylists: seq<Playlist>
    /** The `playlists` array of the `initPlaylistGrid` closure. */
    var gridPlaylists: seq<Playlist>

    /** `window.allTracks` mirrors the stored library, as it does from the first render on. */
    predicate Synced()
      reads this
    {
      windowTracks == Some(storedTracks)
    }

    /** The page as loaded: the stored library and playlists, `window.allTracks` not yet set. */
    constructor (storedTracks: seq<Song>, storedPlaylists: seq<Playlist>)
      ensures this.storedTracks == storedTracks && this.storedPlaylists == storedPlaylists
      ensures windowTracks == None && gridPlaylists == []
    {
      this.storedTracks := storedTracks;
      this.storedPlaylists := storedPlaylists;
      windowTracks := None;
      gridPlaylists := [];
    }

    /** `renderAllSongs()`: `window.allTracks` is reloaded from the stored library. */
    method RenderAllSongs()
      modifies this
      ensures Synced()
      ensures storedTracks == old(storedTracks)
      ensures storedPlaylists == old(storedPlaylists) && gridPlaylists == old(gridPlaylists)
    {
      windowTracks := Some(storedTracks);
    }

    /**
     * The delete option of a song of the library: every song with its id leaves the library,
     * and the stored Cozy playlist loses it. The grid's own copy is not touched. The option
     * exists only on a rendered song, so `window.allTracks` is set.
     */
    method DeleteSong(id: int)
      requires windowTracks.Some?
      modifies this
      ensures Synced() && storedTracks == WithoutSong(old(windowTracks).value, id)
      ensures storedPlaylists == CozyWithoutSong(old(storedPlaylists), id)
      ensures gridPlaylists == old(gridPlaylists)
    {
      var remaining := Filter(windowTracks.value, SongIsNot(id));
      windowTracks := Some(remaining);
      storedTracks := remaining;
      var playlists := storedPlaylists;
      var cozy := FirstIndex(playlists, IsCozy);
      if cozy.Some? {
        var k := cozy.value;
        playlists := playlists[k := playlists[k].(tracks := Filter(playlists[k].tracks, SongIsNot(id)))];
        storedPlaylists := playlists;
      }
      RenderAllSongs();
    }

    /**
     * `initPlaylistGrid()`: the grid loads the stored playlists and makes sure a Cozy playlist
     * exists, filled with `window.allTracks || []`; only then is the library rendered, so on
     * the page's first grid init a new Cozy playlist starts empty.
     */
    method InitGrid()
      modifies this
      ensures gridPlaylists == WithCozy(old(storedPlaylists), TracksOrEmpty(old(windowTracks)))
      ensures storedPlaylists == gridPlaylists
      ensures Synced() && storedTracks == old(storedTracks)
    {
      gridPlaylists := storedPlaylists;
      if FirstIndex(gridPlaylists, IsCozy).None? {
        gridPlaylists := gridPlaylists + [Playlist(1, CozyName, CozyCover, TracksOrEmpty(windowTracks))];
        storedPlaylists := gridPlaylists;
      }
      RenderAllSongs();
    }

    /** `createPlaylist()`: `name` is the prompt's answer (`None` when cancelled), `id` stands for `Date.now()`. */
    method CreatePlaylist(name: Option<string>, id: int)
      modifies this
      ensures gridPlaylists == Created(old(gridPlaylists), name, id)
      ensures name.None? || name.value == [] ==> storedPlaylists == old(storedPlaylists)
      ensures name.Some? && name.value != [] ==> storedPlaylists == gridPlaylists
      ensures storedTracks == old(storedTracks) && windowTracks == old(windowTracks)
    {
      if name.None? || name.value == [] {
        return;
      }
      gridPlaylists := gridPlaylists + [Playlist(id, name.value, CozyCover, [])];
      storedPlaylists := gridPlaylists;
    }

    /** The remove button of song `songId` in the modal of grid playlist `k`; the grid is saved. */
    method RemoveTrack(k: nat, songId: int)
      requires k < |gridPlaylists|
      modifies this
      ensures gridPlaylists == RemovedTrack(old(gridPlaylists), k, songId)
      ensures storedPlaylists == gridPlaylists
      ensures storedTracks == old(storedTracks) && windowTracks == old(windowTracks)
    {
      var p := gridPlaylists[k];
      gridPlaylists := gridPlaylists[k := p.(tracks := Filter(p.tracks, SongIsNot(songId)))];
      storedPlaylists := gridPlaylists;
    }

    /** The delete branch of a click on the grid: every playlist with that id goes, and the grid is saved. */
    method DeletePlaylist(id: int)
      modifies this
      ensures gridPlaylists == DeletedPlaylist(old(gridPlaylists), id)
      ensures storedPlaylists == gridPlaylists
      ensures storedTracks == old(storedTracks) && windowTracks == old(windowTracks)
    {
      gridPlaylists := Filter(gridPlaylists, PlaylistIsNot(id));
      storedPlaylists := gridPlaylists;
    }

    /**
     * The add-song form: `fileUrl` is the object URL of the chosen file, `None` when no file is
     * selected; `id` stands for `Date.now()`. The song is pushed onto `window.allTracks` (an
     * empty list when unset), which is then stored; the playlists do not change.
     */
    method AddSong(title: string, artist: string, fileUrl: Option<string>, id: int)
      modifies this
      ensures fileUrl.None? ==> storedTracks == old(storedTracks) && windowTracks == old(windowTracks)
      ensures fileUrl.Some? ==>
                Synced() && storedTracks == TracksOrEmpty(old(windowTracks)) + [Song(id, title, artist, fileUrl.value, SongCover)]
      ensures old(Synced()) && fileUrl.Some? ==>
                storedTracks == old(storedTracks) + [Song(id, title, artist, fileUrl.value, SongCover)]
      ensures storedPlaylists == old(storedPlaylists) && gridPlaylists == old(gridPlaylists)
    {
      if fileUrl.None? {
        return;
      }
      var tracks := TracksOrEmpty(windowTracks) + [Song(id, title, artist, fileUrl.value, SongCover)];
      windowTracks := Some(tracks);
      storedTracks := tracks;
      RenderAllSongs();
    }
  }

  /**
   * The grid's copy goes stale: when the stored playlists and the grid agree and a song of the
   * Cozy playlist is deleted, the stored Cozy playlist loses it, but the next save of the grid
   * (here creating a playlist) writes the old Cozy tracks back, song included.
   */
  lemma StaleGridRestoresDeletedSong(ps: seq<Playlist>, song: Song, name: string, newId: int)
    requires FirstIndex(ps, IsCozy).Some? && song in ps[FirstIndex(ps, IsCozy).value].tracks
    requires name != []
    ensures var k := FirstIndex(ps, IsCozy).value;
            var stored := CozyWithoutSong(ps, song.id);
            var saved := Created(ps, Some(name), newId);
            song !in stored[k].tracks && song in saved[k].tracks
  {
    var k := FirstIndex(ps, IsCozy).value;
    WithoutSongSpec(ps[k].tracks, song.id, song);
    assert Created(ps, Some(name), newId)[k] == ps[k];
  }

  /** A grid init before the library is first rendered gives a missing Cozy playlist no tracks. */
  lemma FirstInitCozyIsEmpty(ps: seq<Playlist>)
    requires forall i :: 0 <= i < |ps| ==> !IsCozy(ps[i])
    ensures WithCozy(ps, TracksOrEmpty(None)) == ps + [Playlist(1, CozyName, CozyCover, [])]
  {
    WithCozySpec(ps, []);
  }
}
