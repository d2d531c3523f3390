/** The functional suite's in-memory repository: the song catalog and three
    mutable lists (playlists, favorite keys, play history) that the helper
    functions change in place, as the app's repository does against its
    database. The clock is a parameter. */
module Functional {
  import opened Seqs
  import opened Text
  import opened Model
  import opened Catalog
  import opened Favorites
  import opened Playlists
  import opened History

  class FunctionalTests {
    var testSongs: seq<Song>
    var testPlaylists: seq<Playlist>
    var testFavorites: seq<string>
    var testHistory: seq<PlayHistory>

    /** What the helpers maintain: no favorite key twice and no playlist
        holding a song twice. */
    ghost predicate Valid()
      reads this
    {
      NoDuplicates(testFavorites) && DistinctSongs(testPlaylists)
    }

    /** The suite's `setUp`: the catalog and three empty lists. */
    constructor (songs: seq<Song>)
      ensures testSongs == songs && testPlaylists == [] && testFavorites == [] && testHistory == []
      ensures Valid()
    {
      testSongs := songs;
      testPlaylists := [];
      testFavorites := [];
      testHistory := [];
    }

    predicate IsFavorite(userId: string, songId: string)
      reads this
    {
      Favorites.FavoriteStored(testFavorites, userId, songId)
    }

    /** `addToFavorites`: stores the key unless it is already there. */
    method AddToFavorites(userId: string, songId: string) returns (added: bool)
      modifies this`testFavorites
      ensures added <==> !old(IsFavorite(userId, songId))
      ensures testFavorites == if added then old(testFavorites) + [Key(userId, songId)] else old(testFavorites)
      ensures IsFavorite(userId, songId)
      ensures old(Valid()) ==> Valid()
    {
      var favoriteId := Key(userId, songId);
      if favoriteId !in testFavorites {
        if NoDuplicates(testFavorites) {
          AppendNoDuplicates(testFavorites, favoriteId);
        }
        testFavorites := testFavorites + [favoriteId];
        added := true;
      } else {
        added := false;
      }
    }

    /** `removeFromFavorites`: drops the first copy of the key and reports
        whether there was one. */
    method RemoveFromFavorites(userId: string, songId: string) returns (removed: bool)
      modifies this`testFavorites
      ensures removed <==> old(IsFavorite(userId, songId))
      ensures testFavorites == RemoveFirst(old(testFavorites), Key(userId, songId))
      ensures old(Valid()) ==> Valid() && !IsFavorite(userId, songId)
    {
      var favoriteId := Key(userId, songId);
      removed := favoriteId in testFavorites;
      if NoDuplicates(testFavorites) {
        RemoveFirstNoDuplicates(testFavorites, favoriteId);
      }
      testFavorites := RemoveFirst(testFavorites, favoriteId);
    }

    function GetUserFavorites(userId: string): seq<string>
      reads this
    {
      UserFavorites(testFavorites, userId)
    }

    /** `createPlaylist`: appends a new empty playlist whose id and both
        timestamps come from one clock reading `now`. */
    method CreatePlaylist(userId: string, name: string, description: string, now: nat) returns (playlist: Playlist)
      modifies this`testPlaylists
      ensures playlist == Playlist("playlist_" + NatToString(now), name, description, userId, [], now, now)
      ensures testPlaylists == old(testPlaylists) + [playlist]
      ensures playlist in GetUserPlaylists(userId)
      ensures old(Valid()) ==> Valid()
    {
      playlist := Playlist("playlist_" + NatToString(now), name, description, userId, [], now, now);
      ghost var before := testPlaylists;
      testPlaylists := testPlaylists + [playlist];
      assert playlist in testPlaylists;
      assert forall p :: p in testPlaylists ==> p in before || p == playlist;
    }

    function GetUserPlaylists(userId: string): seq<Playlist>
      reads this
    {
      UserPlaylists(testPlaylists, userId)
    }

    /** `addSongToPlaylist`: the checked add, applied in place at the index
        `indexOfFirst` finds. */
    method AddSongToPlaylist(playlistId: string, songId: string, now: int) returns (ok: bool)
      modifies this`testPlaylists
      ensures (ok, testPlaylists) == AddSongChecked(old(testPlaylists), playlistId, songId, now)
      ensures old(Valid()) ==> Valid()
    {
      ghost var before := testPlaylists;
      var index := IndexOfPlaylist(testPlaylists, playlistId);
      if index < |testPlaylists| && songId !in testPlaylists[index].songs {
        var playlist := testPlaylists[index];
        var updatedPlaylist := playlist.(songs := playlist.songs + [songId], updatedAt := now);
        testPlaylists := testPlaylists[index := updatedPlaylist];
        ok := true;
      } else {
        ok := false;
      }
      if DistinctSongs(before) {
        AddSongCheckedKeepsDistinct(before, playlistId, songId, now);
      }
    }

    /** `removeSongFromPlaylist`: the checked remove, applied in place. */
    method RemoveSongFromPlaylist(playlistId: string, songId: string, now: int) returns (ok: bool)
      modifies this`testPlaylists
      ensures (ok, testPlaylists) == RemoveSongChecked(old(testPlaylists), playlistId, songId, now)
      ensures old(Valid()) ==> Valid()
    {
      ghost var before := testPlaylists;
      var index := IndexOfPlaylist(testPlaylists, playlistId);
      if index < |testPlaylists| && songId in testPlaylists[index].songs {
        var playlist := testPlaylists[index];
        var updatedPlaylist := playlist.(songs := RemoveFirst(playlist.songs, songId), updatedAt := now);
        testPlaylists := testPlaylists[index := updatedPlaylist];
        ok := true;
      } else {
        ok := false;
      }
      if DistinctSongs(before) {
        RemoveSongCheckedKeepsDistinct(before, playlistId, songId, now);
      }
    }

    function GetPlaylistSongs(playlist: Playlist): seq<Song>
      reads this
    {
      SongsWithIds(testSongs, playlist.songs)
    }

    /** `deletePlaylist`: `removeIf` on the id, reporting whether anything
        went. */
    method DeletePlaylist(playlistId: string) returns (deleted: bool)
      modifies this`testPlaylists
      ensures testPlaylists == DeleteById(old(testPlaylists), playlistId)
      ensures deleted <==> exists p :: p in old(testPlaylists) && p.id == playlistId
      ensures forall p :: p in testPlaylists ==> p.id != playlistId
      ensures old(Valid()) ==> Valid()
    {
      DeleteByIdShrinks(testPlaylists, playlistId);
      var remaining := DeleteById(testPlaylists, playlistId);
      deleted := |remaining| < |testPlaylists|;
      testPlaylists := remaining;
    }

    /** `addToHistory`: appends and always succeeds. */
    method AddToHistory(playHistory: PlayHistory) returns (ok: bool)
      modifies this`testHistory
      ensures ok
      ensures testHistory == old(testHistory) + [playHistory]
    {
      testHistory := testHistory + [playHistory];
      ok := true;
    }

    function GetUserHistory(userId: string, limit: int): seq<PlayHistory>
      requires limit >= 0
      reads this
    {
      UserHistory(testHistory, userId, limit)
    }

    /** `clearUserHistory`: `removeIf` on the user, always reporting success;
        the user's history is empty afterwards and other users keep theirs. */
    method ClearUserHistory(userId: string) returns (ok: bool)
      modifies this`testHistory
      ensures ok
      ensures testHistory == RemoveUser(old(testHistory), userId)
      ensures forall limit :: limit >= 0 ==> GetUserHistory(userId, limit) == []
      ensures forall other :: other != userId ==>
        Filter(testHistory, BelongsTo(other)) == Filter(old(testHistory), BelongsTo(other))
    {
      ghost var before := testHistory;
      testHistory := RemoveUser(testHistory, userId);
      forall limit | limit >= 0 ensures GetUserHistory(userId, limit) == [] {
        RemoveUserClearsUser(before, userId, limit);
      }
      forall other | other != userId
        ensures Filter(testHistory, BelongsTo(other)) == Filter(before, BelongsTo(other))
      {
        RemoveUserKeepsOthers(before, userId, other);
      }
      ok := true;
    }
  }

  /** The playlist-management workflow: on an empty store, create a playlist,
      add each of some distinct songs, remove the first of them and delete
      the playlist. Every step reports success, the playlist holds the songs
      in order after the adds and all but the first after the remove, and the
      user ends with no playlists. */
  method PlaylistWorkflow(t: FunctionalTests, userId: string, name: string, description: string,
                          songIds: seq<string>, now: nat)
    returns (created: Playlist, allAdded: bool, afterRemove: Playlist, removed: bool, deleted: bool)
    requires t.testPlaylists == [] && |songIds| > 0 && NoDuplicates(songIds)
    modifies t`testPlaylists
    ensures created.name == name && created.description == description
    ensures created.userId == userId && created.songs == []
    ensures allAdded && removed && deleted
    ensures afterRemove.id == created.id && afterRemove.songs == songIds[1..]
    ensures |afterRemove.songs| == |songIds| - 1 && songIds[0] !in afterRemove.songs
    ensures t.GetUserPlaylists(userId) == []
  {
    created := t.CreatePlaylist(userId, name, description, now);
    assert t.testPlaylists == [created];
    allAdded := true;
    var i := 0;
    while i < |songIds|
      invariant 0 <= i <= |songIds|
      invariant allAdded
      invariant t.testPlaylists == [created.(songs := songIds[..i])]
    {
      assert songIds[i] !in songIds[..i];
      var ok := t.AddSongToPlaylist(created.id, songIds[i], now);
      assert songIds[..i] + [songIds[i]] == songIds[..i + 1];
      allAdded := allAdded && ok;
      i := i + 1;
    }
    assert songIds[..i] == songIds;
    assert songIds == [songIds[0]] + songIds[1..];
    removed := t.RemoveSongFromPlaylist(created.id, songIds[0], now);
    afterRemove := t.testPlaylists[0];
    NoDuplicatesTail(songIds);
    deleted := t.DeletePlaylist(created.id);
    assert t.testPlaylists == [];
  }

  /** The suite's `forEach { addToHistory(it) }`: records the entries in
      order. */
  method RecordAll(t: FunctionalTests, entries: seq<PlayHistory>)
    modifies t`testHistory
    ensures t.testHistory == old(t.testHistory) + entries
  {
    var i := 0;
    while i < |entries|
      invariant 0 <= i <= |entries|
      invariant t.testHistory == old(t.testHistory) + entries[..i]
    {
      var _ := t.AddToHistory(entries[i]);
      assert entries[..i] + [entries[i]] == entries[..i + 1];
      i := i + 1;
    }
    assert entries[..i] == entries;
  }

  /** The play-history workflow: on an empty log, record one play of the
      user and query it back, record more plays of the user and query the
      whole history, then clear it. */
  method HistoryWorkflow(t: FunctionalTests, userId: string, first: PlayHistory, more: seq<PlayHistory>)
    returns (added: bool, firstQuery: seq<PlayHistory>, fullQuery: seq<PlayHistory>, cleared: bool,
             afterClear: seq<PlayHistory>)
    requires t.testHistory == [] && first.userId == userId
    requires forall e :: e in more ==> e.userId == userId
    requires 1 + |more| <= 100
    modifies t`testHistory
    ensures added && firstQuery == [first]
    ensures |fullQuery| == 1 + |more| && multiset(fullQuery) == multiset([first] + more)
    ensures cleared && afterClear == []
  {
    added := t.AddToHistory(first);
    OwnLogHistory([first], userId, 50);
    firstQuery := t.GetUserHistory(userId, 50);
    RecordAll(t, more);
    var log := [first] + more;
    assert forall e :: e in log ==> e == first || e in more;
    OwnLogHistory(log, userId, 100);
    fullQuery := t.GetUserHistory(userId, 100);
    assert |fullQuery| == |multiset(fullQuery)| == |log|;
    cleared := t.ClearUserHistory(userId);
    afterClear := t.GetUserHistory(userId, 50);
  }
}
