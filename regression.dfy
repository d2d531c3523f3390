/** The regression suite's sample catalog, its simulated user data
    (favorites and playlists), the test playlist and the favorite-songs
    query. Its catalog queries are `Catalog.SongsByCategory` and
    `Catalog.SongById` over the sample songs, `getCategories` is
    `Catalog.Categories`, and its formatters are those of `Format`. */
module Regression {
  import opened Seqs
  import opened Model
  import opened Format
  import opened Catalog
  import opened Favorites
  import opened Playlists

  /** `getSampleSongs`. */
  function SampleSongs(): seq<Song>
  {
    [
      Song("song_001", "Adiós Pueblo de Ayacucho", "Los Tradicionales de Ayacucho", "Huayno",
           "Un hermoso huayno que " + "expresa el amor y " + "nostalgia por la tierra " + "ayacuchana.", "valicha.mp3", 240000),
      Song("song_002", "Carnaval Ayacuchano", "Conjunto Folclórico Ayacucho", "Carnaval",
           "Alegre carnaval que " + "celebra las festividades " + "tradicionales de " + "Ayacucho.", "yaravi.mp3", 180000),
      Song("song_003", "Flor de Retama", "María del Carmen", "Tradicional",
           "Canción tradicional que " + "narra la belleza de los " + "campos ayacuchanos.", "flor_retama.mp3", 200000),
      Song("song_004", "Marinera Ayacuchana", "Los Maestros del Folclore", "Marinera",
           "Elegante marinera con el " + "estilo característico de " + "Ayacucho.", "marinera.mp3", 220000),
      Song("song_005", "Viva Ayacucho", "Hermanos Ayacuchanos", "Folclore",
           "Himno de amor y orgullo " + "por la bella ciudad de " + "Ayacucho.", "huacachina.mp3", 195000)
    ]
  }

  /** The sample catalog holds five songs with distinct ids, each between
      two and five minutes long. */
  lemma SampleSongsShape()
    ensures |SampleSongs()| == 5
    ensures forall i, j :: 0 <= i < j < |SampleSongs()| ==> SampleSongs()[i].id != SampleSongs()[j].id
    ensures forall i :: 0 <= i < |SampleSongs()| ==> 120000 <= SampleSongs()[i].duration <= 300000
  {
    var r := SampleSongs();
    assert r[0].id[7] == '1' && r[1].id[7] == '2' && r[2].id[7] == '3' && r[3].id[7] == '4' && r[4].id[7] == '5';
  }

  /** On the sample catalog, "song_001" is the expected huayno. */
  lemma SampleSongById()
    ensures SongById(SampleSongs(), "song_001").Some?
    ensures SongById(SampleSongs(), "song_001").value.title == "Adiós Pueblo de Ayacucho"
  {
    FirstSongFound(SampleSongs(), "song_001");
  }

  /** On the sample catalog, Huayno has songs. */
  lemma SampleHasHuayno()
    ensures |SongsByCategory(SampleSongs(), "Huayno")| > 0
  {
    SongListed(SampleSongs(), 0, "Huayno");
  }

  /** On the sample catalog, Carnaval has songs. */
  lemma SampleHasCarnaval()
    ensures |SongsByCategory(SampleSongs(), "Carnaval")| > 0
  {
    SongListed(SampleSongs(), 1, "Carnaval");
  }

  /** A catalog whose first song has the id yields that song. */
  lemma {:induction false} FirstSongFound(songs: seq<Song>, id: string)
    requires |songs| > 0 && songs[0].id == id
    ensures SongById(songs, id) == Some(songs[0])
  {
  }

  /** A song of the category makes the category's query non-empty. */
  lemma {:induction false} SongListed(songs: seq<Song>, k: nat, category: string)
    requires k < |songs| && songs[k].category == category
    ensures |SongsByCategory(songs, category)| > 0
  {
    assert songs[k] in SongsByCategory(songs, category);
  }

  /** Every category of the sample catalog is one of `getCategories`. */
  lemma SampleCategoriesListed()
    ensures forall s :: s in SampleSongs() ==> IsValidCategory(s.category)
    ensures "Huayno" in Categories() && "Carnaval" in Categories() && "Marinera" in Categories()
    ensures "Folclore" in Categories() && "Tradicional" in Categories()
  {
    var songs := SampleSongs();
    assert songs[0].category == "Huayno" && songs[1].category == "Carnaval";
    assert songs[2].category == "Tradicional" && songs[3].category == "Marinera" && songs[4].category == "Folclore";
    forall s | s in songs ensures IsValidCategory(s.category) {
      var k :| 0 <= k < |songs| && songs[k] == s;
    }
  }

  /** The suite's formatter checks. */
  lemma FormatExamples()
    ensures FormatPlayTime(60000) == "1m" && FormatPlayTime(3600000) == "1h 0m" && FormatPlayTime(30000) == "< 1m"
    ensures FormatDuration(60000) == "1:00" && FormatDuration(240000) == "4:00"
  {
  }

  /** The duration of one song. */
  function SongDuration(s: Song): int
  {
    s.duration
  }

  /** `sumOf { it.duration }` over a list of songs. */
  function TotalDuration(songs: seq<Song>): (r: int)
    ensures (forall s :: s in songs ==> s.duration > 0) ==> r >= |songs|
  {
    SumOf(songs, SongDuration)
  }

  /** The sample's total duration is positive and its average, by integer
      division, lies between two and five minutes. */
  lemma SampleDurationsTypical()
    ensures TotalDuration(SampleSongs()) > 0
    ensures 120000 <= TotalDuration(SampleSongs()) / |SampleSongs()| <= 300000
  {
    var songs := SampleSongs();
    assert songs[0].duration == 240000 && songs[1].duration == 180000 && songs[2].duration == 200000;
    assert songs[3].duration == 220000 && songs[4].duration == 195000;
    forall s | s in songs ensures 120000 <= s.duration <= 300000 {
      var k :| 0 <= k < |songs| && songs[k] == s;
    }
    SumOfBounds(songs, SongDuration, 120000, 300000);
  }

  /** `createTestPlaylist`: a fixed playlist for the user, both timestamps
      from one clock reading, whose songs are the first two sample songs. */
  function CreateTestPlaylist(userId: string, now: int): (r: Playlist)
    ensures r.userId == userId && r.createdAt == now && r.updatedAt == now
    ensures SongsWithIds(SampleSongs(), r.songs) == SampleSongs()[..2]
  {
    var songs := SampleSongs();
    var ids := ["song_001", "song_002"];
    assert songs[0].id == "song_001" && songs[1].id == "song_002";
    assert songs[2].id == "song_003" && songs[3].id == "song_004" && songs[4].id == "song_005";
    FirstTwoListed(songs, ids);
    Playlist("test_playlist_123", "Test Playlist", "Playlist de prueba para regresión", userId, ids, now, now)
  }

  /** Filtering a catalog whose first two songs are listed and whose other
      songs are not keeps the first two. */
  lemma {:induction false} FirstTwoListed(songs: seq<Song>, ids: seq<string>)
    requires |songs| >= 2 && songs[0].id in ids && songs[1].id in ids
    requires forall k :: 2 <= k < |songs| ==> songs[k].id !in ids
    ensures SongsWithIds(songs, ids) == songs[..2]
  {
    var p := IdIn(ids);
    var head, tail := songs[..2], songs[2..];
    assert Filter(head, p) == head by {
      assert forall x :: x in head ==> p(x);
      FilterKeepsAll(head, p);
    }
    assert Filter(tail, p) == [] by {
      assert forall x :: x in tail ==> !p(x);
      FilterDropsAll(tail, p);
    }
    assert songs == head + tail;
    FilterConcat(head, tail, p);
  }

  /** `getFavoriteSongs`: the catalog songs whose ids the user's favorites
      query returns, in catalog order. */
  function FavoriteSongs(catalog: seq<Song>, favorites: seq<string>, userId: string): (r: seq<Song>)
    ensures forall s :: s in r <==> s in catalog && s.id in UserFavorites(favorites, userId)
    ensures forall s :: multiset(r)[s] == if s.id in UserFavorites(favorites, userId) then multiset(catalog)[s] else 0
    ensures IsSubsequence(r, catalog)
  {
    SongsWithIds(catalog, UserFavorites(favorites, userId))
  }

  /** For a user id without an underscore and no prefix collision, the
      favorite songs are exactly the catalog songs the user marked. */
  lemma {:induction false} FavoriteSongsExact(catalog: seq<Song>, favs: seq<Favorite>, userId: string)
    requires '_' !in userId
    requires NoPrefixCollision(favs, userId)
    ensures forall s :: s in FavoriteSongs(catalog, Keys(favs), userId) <==> s in catalog && s.id in SongsOf(favs, userId)
  {
    UserFavoritesExact(favs, userId);
  }

  class SimulatedUserData {
    var favorites: seq<string>
    var playlists: seq<Playlist>

    constructor ()
      ensures favorites == [] && playlists == []
    {
      favorites := [];
      playlists := [];
    }

    /** `addToFavorites`: stores the key unless it is already there. */
    method AddToFavorites(userId: string, songId: string) returns (added: bool)
      modifies this`favorites
      ensures added <==> !old(IsFavorite(userId, songId))
      ensures favorites == if added then old(favorites) + [Key(userId, songId)] else old(favorites)
      ensures IsFavorite(userId, songId)
      ensures old(NoDuplicates(favorites)) ==> NoDuplicates(favorites)
    {
      var favoriteId := Key(userId, songId);
      if favoriteId !in favorites {
        if NoDuplicates(favorites) {
          AppendNoDuplicates(favorites, favoriteId);
        }
        favorites := favorites + [favoriteId];
        added := true;
      } else {
        added := false;
      }
    }

    predicate IsFavorite(userId: string, songId: string)
      reads this
    {
      Favorites.FavoriteStored(favorites, userId, songId)
    }

    function GetUserFavorites(userId: string): seq<string>
      reads this
    {
      UserFavorites(favorites, userId)
    }

    function GetUserPlaylists(userId: string): seq<Playlist>
      reads this
    {
      UserPlaylists(playlists, userId)
    }
  }

  /** Adding the same favorite twice: the second call reports false and
      leaves the list as the first call left it. */
  method AddFavoriteTwice(data: SimulatedUserData, userId: string, songId: string) returns (first: bool, second: bool)
    modifies data`favorites
    ensures first <==> Key(userId, songId) !in old(data.favorites)
    ensures !second
    ensures data.favorites == if first then old(data.favorites) + [Key(userId, songId)] else old(data.favorites)
  {
    first := data.AddToFavorites(userId, songId);
    second := data.AddToFavorites(userId, songId);
  }
}
