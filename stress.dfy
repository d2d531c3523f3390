/** The stress suite's data holder `StressTestData` (favorites, playlists and
    play history, changed in place), its unchecked playlist updates, and
    `calculateUserStats`. Its catalog queries are `Catalog.SongsByCategory`
    and `Catalog.SearchSongs`, its history query `History.UserHistory` and
    its order check `History.IsOrderedByDate`. */
module Stress {
  import opened Seqs
  import opened Text
  import opened Model
  import opened Catalog
  import opened Favorites
  import opened Playlists
  import opened History
  import opened Stats
  import opened Parametrized

  class StressTestData {
    var favorites: seq<string>
    var playlists: seq<Playlist>
    var playHistory: seq<PlayHistory>

    constructor ()
      ensures favorites == [] && playlists == [] && playHistory == []
    {
      favorites := [];
      playlists := [];
      playHistory := [];
    }

    /** `addToFavorites`: stores the key unless it is already there. */
    method AddToFavorites(userId: string, songId: string) returns (added: bool)
      modifies this`favorites
      ensures added <==> !old(IsFavorite(userId, songId))
      ensures favorites == if added then old(favorites) + [Key(userId, songId)] else old(favorites)
      ensures IsFavorite(userId, songId)
      ensures old(NoDuplicates(favorites)) ==> NoDuplicates(favorites)
    {
      var favoriteId := Key(userId, songId);
      if favoriteId !in favorites {
        if NoDuplicates(favorites) {
          AppendNoDuplicates(favorites, favoriteId);
        }
        favorites := favorites + [favoriteId];
        added := true;
      } else {
        added := false;
      }
    }

    /** `removeFromFavorites`: drops the first copy of the key and reports
        whether there was one. */
    method RemoveFromFavorites(userId: string, songId: string) returns (removed: bool)
      modifies this`favorites
      ensures removed <==> old(IsFavorite(userId, songId))
      ensures favorites == RemoveFirst(old(favorites), Key(userId, songId))
      ensures multiset(favorites) == old(multiset(favorites)) - multiset{Key(userId, songId)}
      ensures old(NoDuplicates(favorites)) ==> NoDuplicates(favorites) && !IsFavorite(userId, songId)
    {
      var favoriteId := Key(userId, songId);
      removed := favoriteId in favorites;
      RemoveFirstMultiset(favorites, favoriteId);
      if NoDuplicates(favorites) {
        RemoveFirstNoDuplicates(favorites, favoriteId);
      }
      favorites := RemoveFirst(favorites, favoriteId);
    }

    predicate IsFavorite(userId: string, songId: string)
      reads this
    {
      Favorites.FavoriteStored(favorites, userId, songId)
    }

    function GetUserFavorites(userId: string): seq<string>
      reads this
    {
      UserFavorites(favorites, userId)
    }
  }

  /** The suite's `addSongToPlaylist`: appends the song to the first
      playlist with the id, with no membership check and no timestamp. */
  method AddSongToPlaylist(data: StressTestData, playlistId: string, songId: string)
    modifies data`playlists
    ensures data.playlists == AddSongUnchecked(old(data.playlists), playlistId, songId)
  {
    var index := IndexOfPlaylist(data.playlists, playlistId);
    if index < |data.playlists| {
      var playlist := data.playlists[index];
      var updatedPlaylist := playlist.(songs := playlist.songs + [songId]);
      data.playlists := data.playlists[index := updatedPlaylist];
    }
  }

  /** The suite's `removeSongFromPlaylist`: drops the first occurrence of the
      song from the first playlist with the id. */
  method RemoveSongFromPlaylist(data: StressTestData, playlistId: string, songId: string)
    modifies data`playlists
    ensures data.playlists == RemoveSongUnchecked(old(data.playlists), playlistId, songId)
  {
    var index := IndexOfPlaylist(data.playlists, playlistId);
    if index < |data.playlists| {
      var playlist := data.playlists[index];
      var updatedPlaylist := playlist.(songs := RemoveFirst(playlist.songs, songId));
      data.playlists := data.playlists[index := updatedPlaylist];
    }
  }

  /** `calculateUserStats` on the lists of `StressTestData`, with both clock
      reads given as `now`. The app was opened once. */
  function StatsOf(history: seq<PlayHistory>, favorites: seq<string>, playlists: seq<Playlist>, userId: string, now: int): (r: UserStats)
    ensures r.userId == userId && r.appOpenCount == 1 && r.lastActive == now && r.createdAt == now
    ensures r.totalSongsPlayed == |Filter(history, BelongsTo(userId))| <= |history|
    ensures r.totalPlayTime == TotalPlayTime(Filter(history, BelongsTo(userId)))
    ensures r.mostPlayedCategory == MostPlayedCategory(Filter(history, BelongsTo(userId)))
    ensures r.totalSongsPlayed == 0 <==> forall e :: e in history ==> e.userId != userId
    ensures r.totalSongsPlayed == 0 ==> r.totalPlayTime == 0 && r.mostPlayedCategory == ""
    ensures r.totalSongsPlayed > 0 ==>
      exists e :: e in history && e.userId == userId && e.songCategory == r.mostPlayedCategory
    ensures (forall e :: e in history ==> e.playDuration >= 0) ==> r.totalPlayTime >= 0
    ensures r.favoriteCount <= |favorites| && r.playlistCount <= |playlists|
  {
    var userHistory := Filter(history, BelongsTo(userId));
    UserStats(
      userId,
      TotalPlayTime(userHistory),
      |userHistory|,
      |UserFavorites(favorites, userId)|,
      |UserPlaylists(playlists, userId)|,
      MostPlayedCategory(userHistory),
      1,
      now,
      now)
  }

  function CalculateUserStats(data: StressTestData, userId: string, now: int): UserStats
    reads data
  {
    StatsOf(data.playHistory, data.favorites, data.playlists, userId, now)
  }

  /** The statistics agree with the other queries: the play count is the
      length of the user's full history query, and the favorite and playlist
      counts are the lengths of those queries. */
  lemma {:induction false} StatsAgreeWithQueries(history: seq<PlayHistory>, favorites: seq<string>, playlists: seq<Playlist>,
                              userId: string, now: int, limit: int)
    requires limit >= |Filter(history, BelongsTo(userId))|
    ensures StatsOf(history, favorites, playlists, userId, now).totalSongsPlayed == |UserHistory(history, userId, limit)|
    ensures StatsOf(history, favorites, playlists, userId, now).favoriteCount == |UserFavorites(favorites, userId)|
    ensures StatsOf(history, favorites, playlists, userId, now).playlistCount == |UserPlaylists(playlists, userId)|
  {
    UserHistoryComplete(history, userId, limit);
    assert |multiset(UserHistory(history, userId, limit))| == |multiset(Filter(history, BelongsTo(userId)))|;
  }

  /** Computed statistics pass `validateUserStats` for a non-blank user at a
      positive time, when no recorded play has a negative duration. */
  lemma {:induction false} StatsAreValid(history: seq<PlayHistory>, favorites: seq<string>, playlists: seq<Playlist>,
                      userId: string, now: int)
    requires !IsBlank(userId) && now > 0
    requires forall e :: e in history ==> e.playDuration >= 0
    ensures ValidateUserStats(StatsOf(history, favorites, playlists, userId, now))
  {
    assert forall e :: e in Filter(history, BelongsTo(userId)) ==> e.playDuration >= 0;
  }

  /** A user with plays of positive duration has a positive total and a
      most played category taken from those plays. */
  lemma {:induction false} ActiveUserStats(history: seq<PlayHistory>, favorites: seq<string>, playlists: seq<Playlist>,
                        userId: string, now: int)
    requires |Filter(history, BelongsTo(userId))| > 0
    requires forall e :: e in history ==> e.playDuration > 0
    ensures StatsOf(history, favorites, playlists, userId, now).totalPlayTime > 0
    ensures StatsOf(history, favorites, playlists, userId, now).mostPlayedCategory in
      CategoriesOf(Filter(history, BelongsTo(userId)))
  {
    assert forall e :: e in Filter(history, BelongsTo(userId)) ==> e.playDuration > 0;
  }

  /** Recording a play of the user adds one play and its duration; a play
      of another user changes nothing in the user's statistics. */
  lemma {:induction false} StatsAfterPlay(history: seq<PlayHistory>, favorites: seq<string>, playlists: seq<Playlist>,
                       userId: string, now: int, e: PlayHistory)
    ensures var before := StatsOf(history, favorites, playlists, userId, now);
      var after := StatsOf(history + [e], favorites, playlists, userId, now);
      if e.userId == userId then
        after.totalSongsPlayed == before.totalSongsPlayed + 1 &&
        after.totalPlayTime == before.totalPlayTime + e.playDuration
      else after == before
  {
    AppendEffect(history, e, userId);
    if e.userId == userId {
      SumOfAppend(Filter(history, BelongsTo(userId)), e, PlayDuration);
    } else {
      assert Filter(history + [e], BelongsTo(userId)) == Filter(history, BelongsTo(userId));
    }
  }
}
