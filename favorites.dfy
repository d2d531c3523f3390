/** The favorites store shared by three suites: a list of string keys
    `userId + "_" + songId`. The list operations themselves live in the
    classes that own the list; this module holds the key format and the
    per-user query, which recovers song ids by prefix and first underscore. */
module Favorites {
  import opened Seqs
  import opened Text

  /** The stored key of a favorite. */
  function Key(userId: string, songId: string): string
  {
    userId + "_" + songId
  }

  function HasPrefix(userId: string): (p: string -> bool)
    ensures forall k :: p(k) <==> StartsWith(k, userId)
  {
    (k: string) => StartsWith(k, userId)
  }

  /** `getUserFavorites`: for each stored key that starts with the user id,
      in list order, the text after its first underscore. */
  function UserFavorites(favorites: seq<string>, userId: string): (r: seq<string>)
    ensures |r| == |Filter(favorites, HasPrefix(userId))|
    ensures forall i :: 0 <= i < |r| ==> r[i] == SubstringAfter(Filter(favorites, HasPrefix(userId))[i], '_')
  {
    if |favorites| == 0 then []
    else
      var rest := UserFavorites(favorites[1..], userId);
      if StartsWith(favorites[0], userId) then [SubstringAfter(favorites[0], '_')] + rest
      else rest
  }

  /** A favorite as a pair of user id and song id. */
  datatype Favorite = Favorite(userId: string, songId: string)

  function Keys(favs: seq<Favorite>): (r: seq<string>)
    ensures |r| == |favs|
    ensures forall i :: 0 <= i < |favs| ==> r[i] == Key(favs[i].userId, favs[i].songId)
  {
    seq(|favs|, i requires 0 <= i < |favs| => Key(favs[i].userId, favs[i].songId))
  }

  /** The song ids a user marked, in the order they were marked. */
  function SongsOf(favs: seq<Favorite>, userId: string): seq<string>
  {
    if |favs| == 0 then []
    else if favs[0].userId == userId then [favs[0].songId] + SongsOf(favs[1..], userId)
    else SongsOf(favs[1..], userId)
  }

  /** No other user's key starts with this user id. */
  predicate NoPrefixCollision(favs: seq<Favorite>, userId: string)
  {
    forall f :: f in favs && f.userId != userId ==> !StartsWith(Key(f.userId, f.songId), userId)
  }

  /** For a user id without an underscore whose id is not a prefix of any
      other user's key, the query returns exactly that user's song ids, in
      order. */
  lemma {:induction false} UserFavoritesExact(favs: seq<Favorite>, userId: string)
    requires '_' !in userId
    requires NoPrefixCollision(favs, userId)
    ensures UserFavorites(Keys(favs), userId) == SongsOf(favs, userId)
    decreases |favs|
  {
    if |favs| > 0 {
      var f := favs[0];
      assert Keys(favs[1..]) == Keys(favs)[1..];
      UserFavoritesExact(favs[1..], userId);
      var k := Key(f.userId, f.songId);
      if f.userId == userId {
        assert k[..|userId|] == userId;
        SubstringAfterSplit(userId, '_', f.songId);
      }
    }
  }

  /** A key the user stored is always listed (no false negatives), for a
      user id without an underscore. */
  lemma {:induction false} FavoriteIsListed(favorites: seq<string>, userId: string, songId: string)
    requires '_' !in userId
    requires Key(userId, songId) in favorites
    ensures songId in UserFavorites(favorites, userId)
  {
    var k := Key(userId, songId);
    var keys := Filter(favorites, HasPrefix(userId));
    assert k[..|userId|] == userId;
    assert k in keys;
    var i :| 0 <= i < |keys| && keys[i] == k;
    SubstringAfterSplit(userId, '_', songId);
    assert UserFavorites(favorites, userId)[i] == songId;
  }

  /** `isFavorite`: the user's key for the song is stored (FavoriteIsListed
      shows such a favorite is also listed by the per-user query when the
      user id has no underscore). */
  predicate FavoriteStored(favorites: seq<string>, userId: string, songId: string): (b: bool)
    ensures b <==> exists i :: 0 <= i < |favorites| && favorites[i] == userId + "_" + songId
  {
    Key(userId, songId) in favorites
  }

  /** The query on a single stored key. */
  lemma {:induction false} UserFavoritesOfOne(key: string, userId: string)
    ensures UserFavorites([key], userId) == if StartsWith(key, userId) then [SubstringAfter(key, '_')] else []
  {
    assert [key][1..] == [];
  }

  /** Prefix collision: user "user1" is shown the favorite of user "user12". */
  lemma PrefixCollision()
    ensures UserFavorites([Key("user12", "song5")], "user1") == ["song5"]
  {
    var k := Key("user12", "song5");
    assert k == "user12" + ['_'] + "song5";
    assert k[..5] == "user1";
    SubstringAfterSplit("user12", '_', "song5");
    UserFavoritesOfOne(k, "user1");
  }

  /** A user id with an underscore is cut at its own first underscore: the
      functional suite's user "test_user_123" gets "user_123_song_001" back
      for song "song_001". */
  lemma UnderscoreUserMangled()
    ensures UserFavorites([Key("test_user_123", "song_001")], "test_user_123") == ["user_123_song_001"]
  {
    var k := Key("test_user_123", "song_001");
    assert k == "test" + ['_'] + "user_123_song_001";
    assert k[..13] == "test_user_123";
    SubstringAfterSplit("test", '_', "user_123_song_001");
    UserFavoritesOfOne(k, "test_user_123");
  }
}
