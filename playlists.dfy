/** The playlist store: a list of `Playlist` records looked up by id with
    `find`/`indexOfFirst` and updated by replacing the record at that index.
    Two variants of adding and removing a song exist: the functional suite's,
    which checks membership and stamps `updatedAt`, and the stress suite's,
    which does neither. These functions give the store's new value; the
    methods of the suites perform the same update in place. */
module Playlists {
  import opened Seqs
  import opened Model

  function OwnedBy(userId: string): (p: Playlist -> bool)
    ensures forall pl :: p(pl) <==> pl.userId == userId
  {
    (pl: Playlist) => pl.userId == userId
  }

  function HasId(id: string): (p: Playlist -> bool)
    ensures forall pl :: p(pl) <==> pl.id == id
  {
    (pl: Playlist) => pl.id == id
  }

  /** `getUserPlaylists`: the user's playlists in store order. */
  function UserPlaylists(playlists: seq<Playlist>, userId: string): (r: seq<Playlist>)
    ensures forall pl :: pl in r <==> pl in playlists && pl.userId == userId
    ensures forall pl :: multiset(r)[pl] == if pl.userId == userId then multiset(playlists)[pl] else 0
    ensures IsSubsequence(r, playlists)
  {
    Filter(playlists, OwnedBy(userId))
  }

  /** The index `find { it.id == id }` and `indexOfFirst` agree on, or the
      store size when no playlist has the id. */
  function IndexOfPlaylist(playlists: seq<Playlist>, id: string): (i: nat)
    ensures i <= |playlists|
    ensures i < |playlists| ==> playlists[i].id == id
    ensures forall j :: 0 <= j < i ==> playlists[j].id != id
  {
    IndexWhere(playlists, HasId(id))
  }

  /** Replacing a record by one with the same id keeps every lookup. */
  lemma {:induction false} IndexOfPlaylistUpdate(playlists: seq<Playlist>, i: nat, p: Playlist, id: string)
    requires i < |playlists| && p.id == playlists[i].id
    ensures IndexOfPlaylist(playlists[i := p], id) == IndexOfPlaylist(playlists, id)
  {
    assert forall j :: 0 <= j < |playlists| ==> playlists[i := p][j].id == playlists[j].id;
  }

  /** No playlist holds a song id twice. */
  ghost predicate DistinctSongs(playlists: seq<Playlist>)
  {
    forall p :: p in playlists ==> NoDuplicates(p.songs)
  }

  /** The functional suite's `addSongToPlaylist`: succeeds iff the first
      playlist with the id exists and lacks the song; then the song is
      appended and `updatedAt` set to `now`; otherwise nothing changes. */
  function AddSongChecked(playlists: seq<Playlist>, playlistId: string, songId: string, now: int)
    : (r: (bool, seq<Playlist>))
    ensures var i := IndexOfPlaylist(playlists, playlistId);
      r.0 <==> i < |playlists| && songId !in playlists[i].songs
    ensures var i := IndexOfPlaylist(playlists, playlistId);
      r.0 ==> r.1 == playlists[i := playlists[i].(songs := playlists[i].songs + [songId], updatedAt := now)]
    ensures !r.0 ==> r.1 == playlists
  {
    var i := IndexOfPlaylist(playlists, playlistId);
    if i < |playlists| && songId !in playlists[i].songs then
      (true, playlists[i := playlists[i].(songs := playlists[i].songs + [songId], updatedAt := now)])
    else (false, playlists)
  }

  /** The functional suite's `removeSongFromPlaylist`: succeeds iff the first
      playlist with the id holds the song; then its first occurrence is
      dropped and `updatedAt` set to `now`; otherwise nothing changes. */
  function RemoveSongChecked(playlists: seq<Playlist>, playlistId: string, songId: string, now: int)
    : (r: (bool, seq<Playlist>))
    ensures var i := IndexOfPlaylist(playlists, playlistId);
      r.0 <==> i < |playlists| && songId in playlists[i].songs
    ensures var i := IndexOfPlaylist(playlists, playlistId);
      r.0 ==> r.1 == playlists[i := playlists[i].(songs := RemoveFirst(playlists[i].songs, songId), updatedAt := now)]
    ensures !r.0 ==> r.1 == playlists
  {
    var i := IndexOfPlaylist(playlists, playlistId);
    if i < |playlists| && songId in playlists[i].songs then
      (true, playlists[i := playlists[i].(songs := RemoveFirst(playlists[i].songs, songId), updatedAt := now)])
    else (false, playlists)
  }

  /** Checked adding keeps every playlist free of repeated songs. */
  lemma {:induction false} AddSongCheckedKeepsDistinct(playlists: seq<Playlist>, playlistId: string, songId: string, now: int)
    requires DistinctSongs(playlists)
    ensures DistinctSongs(AddSongChecked(playlists, playlistId, songId, now).1)
  {
    var i := IndexOfPlaylist(playlists, playlistId);
    if i < |playlists| && songId !in playlists[i].songs {
      AppendNoDuplicates(playlists[i].songs, songId);
    }
  }

  /** Checked removing keeps every playlist free of repeated songs, and the
      song is then gone from the playlist. */
  lemma {:induction false} RemoveSongCheckedKeepsDistinct(playlists: seq<Playlist>, playlistId: string, songId: string, now: int)
    requires DistinctSongs(playlists)
    ensures DistinctSongs(RemoveSongChecked(playlists, playlistId, songId, now).1)
    ensures var i := IndexOfPlaylist(playlists, playlistId);
      i < |playlists| ==> songId !in RemoveSongChecked(playlists, playlistId, songId, now).1[i].songs
  {
    var i := IndexOfPlaylist(playlists, playlistId);
    if i < |playlists| && songId in playlists[i].songs {
      RemoveFirstNoDuplicates(playlists[i].songs, songId);
    }
  }

  /** A successful checked add followed by a checked remove of the same song
      restores the store, apart from `updatedAt`. */
  lemma {:induction false} AddThenRemoveRestores(playlists: seq<Playlist>, playlistId: string, songId: string, t1: int, t2: int)
    requires AddSongChecked(playlists, playlistId, songId, t1).0
    ensures var after := AddSongChecked(playlists, playlistId, songId, t1).1;
      var i := IndexOfPlaylist(playlists, playlistId);
      RemoveSongChecked(after, playlistId, songId, t2) == (true, playlists[i := playlists[i].(updatedAt := t2)])
  {
    var i := IndexOfPlaylist(playlists, playlistId);
    var after := AddSongChecked(playlists, playlistId, songId, t1).1;
    IndexOfPlaylistUpdate(playlists, i, after[i], playlistId);
    RemoveFirstOfAppended(playlists[i].songs, songId);
    assert after[i].songs == playlists[i].songs + [songId];
    assert songId in after[i].songs by { assert after[i].songs[|after[i].songs| - 1] == songId; }
    var restored := after[i].(songs := RemoveFirst(after[i].songs, songId), updatedAt := t2);
    assert restored == playlists[i].(updatedAt := t2);
    assert after[i := restored] == playlists[i := restored];
  }

  /** The stress suite's `addSongToPlaylist`: when a playlist has the id, the
      first one gets the song appended (no membership check, no timestamp);
      otherwise nothing changes. */
  function AddSongUnchecked(playlists: seq<Playlist>, playlistId: string, songId: string): (r: seq<Playlist>)
    ensures var i := IndexOfPlaylist(playlists, playlistId);
      i < |playlists| ==> r == playlists[i := playlists[i].(songs := playlists[i].songs + [songId])]
    ensures IndexOfPlaylist(playlists, playlistId) == |playlists| ==> r == playlists
  {
    var i := IndexOfPlaylist(playlists, playlistId);
    if i < |playlists| then playlists[i := playlists[i].(songs := playlists[i].songs + [songId])]
    else playlists
  }

  /** The stress suite's `removeSongFromPlaylist`: when a playlist has the id,
      the first one loses the first occurrence of the song, if any. */
  function RemoveSongUnchecked(playlists: seq<Playlist>, playlistId: string, songId: string): (r: seq<Playlist>)
    ensures var i := IndexOfPlaylist(playlists, playlistId);
      i < |playlists| ==> r == playlists[i := playlists[i].(songs := RemoveFirst(playlists[i].songs, songId))]
    ensures IndexOfPlaylist(playlists, playlistId) == |playlists| ==> r == playlists
  {
    var i := IndexOfPlaylist(playlists, playlistId);
    if i < |playlists| then playlists[i := playlists[i].(songs := RemoveFirst(playlists[i].songs, songId))]
    else playlists
  }

  /** Without the membership check a song can be added twice, and one remove
      then leaves a copy behind. */
  lemma {:induction false} UncheckedAddKeepsRepeats(playlists: seq<Playlist>, playlistId: string, songId: string)
    requires IndexOfPlaylist(playlists, playlistId) < |playlists|
    ensures var i := IndexOfPlaylist(playlists, playlistId);
      var twice := AddSongUnchecked(AddSongUnchecked(playlists, playlistId, songId), playlistId, songId);
      songId in RemoveSongUnchecked(twice, playlistId, songId)[i].songs
  {
    var i := IndexOfPlaylist(playlists, playlistId);
    var s := playlists[i].songs;
    var once := AddSongUnchecked(playlists, playlistId, songId);
    assert once[i].songs == s + [songId];
    IndexOfPlaylistUpdate(playlists, i, once[i], playlistId);
    var twice := AddSongUnchecked(once, playlistId, songId);
    assert twice[i].songs == s + [songId] + [songId];
    IndexOfPlaylistUpdate(once, i, twice[i], playlistId);
    var removed := RemoveSongUnchecked(twice, playlistId, songId);
    assert removed[i].songs == RemoveFirst(s + [songId] + [songId], songId);
    RepeatSurvivesRemove(s, songId);
  }

  lemma {:induction false} RepeatSurvivesRemove(s: seq<string>, x: string)
    ensures x in RemoveFirst(s + [x] + [x], x)
  {
    var t := s + [x] + [x];
    assert t[|s|] == x;
    var j := IndexOf(t, x);
    assert t[j + 1..][|s| - j] == x;
  }

  /** Both stress-suite updates change only the playlist at the found index,
      and the song multiset of that playlist gains or loses exactly one copy. */
  lemma {:induction false} UncheckedUpdatesCount(playlists: seq<Playlist>, playlistId: string, songId: string)
    requires IndexOfPlaylist(playlists, playlistId) < |playlists|
    ensures var i := IndexOfPlaylist(playlists, playlistId);
      multiset(AddSongUnchecked(playlists, playlistId, songId)[i].songs) == multiset(playlists[i].songs) + multiset{songId}
    ensures var i := IndexOfPlaylist(playlists, playlistId);
      multiset(RemoveSongUnchecked(playlists, playlistId, songId)[i].songs) == multiset(playlists[i].songs) - multiset{songId}
  {
    var i := IndexOfPlaylist(playlists, playlistId);
    RemoveFirstMultiset(playlists[i].songs, songId);
  }

  /** `deletePlaylist`'s `removeIf`: every playlist with the id goes, the
      others stay in order. */
  function DeleteById(playlists: seq<Playlist>, playlistId: string): (r: seq<Playlist>)
    ensures forall pl :: pl in r <==> pl in playlists && pl.id != playlistId
    ensures forall pl :: multiset(r)[pl] == if pl.id != playlistId then multiset(playlists)[pl] else 0
    ensures IsSubsequence(r, playlists)
    ensures DistinctSongs(playlists) ==> DistinctSongs(r)
  {
    Filter(playlists, Not(HasId(playlistId)))
  }

  /** `removeIf` reports a change exactly when some playlist had the id. */
  lemma {:induction false} DeleteByIdShrinks(playlists: seq<Playlist>, playlistId: string)
    ensures |DeleteById(playlists, playlistId)| < |playlists| <==> exists pl :: pl in playlists && pl.id == playlistId
  {
    FilterPartition(playlists, HasId(playlistId));
    var hits := Filter(playlists, HasId(playlistId));
    if exists pl :: pl in playlists && pl.id == playlistId {
      var pl :| pl in playlists && pl.id == playlistId;
      assert pl in hits;
    }
  }
}
