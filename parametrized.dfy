/** The parametrized suite's validators: song and user-statistics validity,
    category membership and duration validity, with the suite's tables of
    cases as lemmas. Its `formatPlayTime` copy is `Format.FormatPlayTime`. */
module Parametrized {
  import opened Text
  import opened Model
  import opened Format
  import opened Catalog

  /** `validateSong`: id, title, artist, category and audio file name all
      non-blank, and a positive duration; the description is not checked. */
  predicate ValidateSong(song: Song): (b: bool)
    ensures b <==> HasVisible(song.id) && HasVisible(song.title) && HasVisible(song.artist) && HasVisible(song.category) && HasVisible(song.audioFileName) && song.duration > 0
  {
    !IsBlank(song.id) && !IsBlank(song.title) && !IsBlank(song.artist) &&
    !IsBlank(song.category) && !IsBlank(song.audioFileName) && song.duration > 0
  }

  /** Blanking any checked field, or a zero duration, invalidates a valid
      song; the description may be anything. */
  lemma {:induction false} ValidateSongFields(song: Song, blank: string, anything: string)
    requires ValidateSong(song) && IsBlank(blank)
    ensures !ValidateSong(song.(id := blank)) && !ValidateSong(song.(title := blank))
    ensures !ValidateSong(song.(artist := blank)) && !ValidateSong(song.(category := blank))
    ensures !ValidateSong(song.(audioFileName := blank)) && !ValidateSong(song.(duration := 0))
    ensures ValidateSong(song.(description := anything))
  {
  }

  /** `validateUserStats`. */
  predicate ValidateUserStats(stats: UserStats): (b: bool)
    ensures b <==> HasVisible(stats.userId) && stats.totalPlayTime >= 0 && stats.totalSongsPlayed >= 0 && stats.favoriteCount >= 0 && stats.playlistCount >= 0 && (stats.appOpenCount > 0 || (stats.totalSongsPlayed == 0 && stats.totalPlayTime == 0)) && stats.createdAt > 0 && stats.lastActive > 0
  {
    !IsBlank(stats.userId) &&
    stats.totalPlayTime >= 0 && stats.totalSongsPlayed >= 0 &&
    stats.favoriteCount >= 0 && stats.playlistCount >= 0 &&
    (stats.appOpenCount > 0 || (stats.totalSongsPlayed == 0 && stats.totalPlayTime == 0)) &&
    stats.createdAt > 0 && stats.lastActive > 0
  }

  /** Duration validity: strictly positive. */
  predicate IsValidDuration(duration: int)
  {
    duration > 0
  }

  /** The duration check is exactly `validateSong`'s duration condition: a
      song is valid iff its duration is and it is valid with any positive
      duration. */
  lemma {:induction false} DurationCheckOfValidateSong(song: Song)
    ensures ValidateSong(song) <==> IsValidDuration(song.duration) && ValidateSong(song.(duration := 1))
  {
  }

  function SongCase(id: string, title: string, artist: string, category: string, audioFileName: string, duration: int): Song
  {
    Song(id, title, artist, category, "Descripción", audioFileName, duration)
  }

  /** The suite's song table: three valid songs, then one case per checked
      field. */
  lemma SongTable()
    ensures ValidateSong(SongCase("song_001", "Adiós Pueblo de Ayacucho", "Los Tradicionales de Ayacucho", "Huayno", "adios_ayacucho.mp3", 240000))
    ensures ValidateSong(SongCase("song_002", "Carnaval Ayacuchano", "Conjunto Folclórico", "Carnaval", "carnaval.mp3", 180000))
    ensures ValidateSong(SongCase("song_003", "Marinera Ayacuchana", "Los Maestros del Folclore", "Marinera", "marinera.mp3", 220000))
    ensures !ValidateSong(SongCase("", "Título sin ID", "Artista", "Huayno", "audio.mp3", 120000))
    ensures !ValidateSong(SongCase("song_004", "", "Artista", "Marinera", "audio.mp3", 120000))
    ensures !ValidateSong(SongCase("song_005", "Título", "", "Folclore", "audio.mp3", 120000))
    ensures !ValidateSong(SongCase("song_006", "Título", "Artista", "", "audio.mp3", 120000))
    ensures !ValidateSong(SongCase("song_007", "Título", "Artista", "Huayno", "", 120000))
    ensures !ValidateSong(SongCase("song_008", "Título", "Artista", "Huayno", "audio.mp3", 0))
  {
    ValidCase("song_001", "Adiós Pueblo de Ayacucho", "Los Tradicionales de Ayacucho", "Huayno", "adios_ayacucho.mp3", 240000);
    ValidCase("song_002", "Carnaval Ayacuchano", "Conjunto Folclórico", "Carnaval", "carnaval.mp3", 180000);
    ValidCase("song_003", "Marinera Ayacuchana", "Los Maestros del Folclore", "Marinera", "marinera.mp3", 220000);
  }

  /** Fields whose first character is visible are non-blank. */
  lemma {:induction false} ValidCase(id: string, title: string, artist: string, category: string, audioFileName: string, duration: int)
    requires |id| > 0 && |title| > 0 && |artist| > 0 && |category| > 0 && |audioFileName| > 0
    requires !IsWhitespace(id[0]) && !IsWhitespace(title[0]) && !IsWhitespace(artist[0])
    requires !IsWhitespace(category[0]) && !IsWhitespace(audioFileName[0]) && duration > 0
    ensures ValidateSong(SongCase(id, title, artist, category, audioFileName, duration))
  {
  }

  /** The suite's `formatPlayTime` table, the rows under an hour. */
  lemma PlayTimeTable()
    ensures FormatPlayTime(0) == "< 1m" && FormatPlayTime(30000) == "< 1m" && FormatPlayTime(59999) == "< 1m"
    ensures FormatPlayTime(60000) == "1m" && FormatPlayTime(120000) == "2m"
    ensures FormatPlayTime(300000) == "5m" && FormatPlayTime(599000) == "9m"
    ensures FormatPlayTime(180000) == "3m" && FormatPlayTime(240000) == "4m" && FormatPlayTime(210000) == "3m"
  {
  }

  /** The suite's `formatPlayTime` table, the rows of an hour or more. */
  lemma PlayTimeHourTable()
    ensures FormatPlayTime(3600000) == "1h 0m" && FormatPlayTime(3660000) == "1h 1m"
    ensures FormatPlayTime(5400000) == "1h 30m" && FormatPlayTime(7200000) == "2h 0m"
    ensures FormatPlayTime(9000000) == "2h 30m"
  {
    assert NatToString(30) == "30";
  }

  /** The suite's statistics table, at any positive clock reading. */
  lemma {:induction false} StatsTable(now: int)
    requires now > 0
    ensures ValidateUserStats(UserStats("user123", 3600000, 25, 5, 3, "Huayno", 10, now, now))
    ensures ValidateUserStats(UserStats("newuser456", 0, 0, 0, 0, "", 1, now, now))
    ensures !ValidateUserStats(UserStats("", 1000, 1, 0, 0, "Huayno", 1, now, now))
    ensures !ValidateUserStats(UserStats("user123", -1000, 5, 2, 1, "Carnaval", 3, now, now))
    ensures !ValidateUserStats(UserStats("user123", 1000, -5, 2, 1, "Marinera", 3, now, now))
  {
    assert !IsBlank("user123") by { assert !IsWhitespace("user123"[0]); }
    assert !IsBlank("newuser456") by { assert !IsWhitespace("newuser456"[0]); }
  }

  /** The suite's category cases: the five names and nothing else, with
      case mattering. */
  lemma CategoryTable()
    ensures IsValidCategory("Huayno") && IsValidCategory("Carnaval") && IsValidCategory("Marinera")
    ensures IsValidCategory("Folclore") && IsValidCategory("Tradicional")
    ensures !IsValidCategory("Rock") && !IsValidCategory("Pop") && !IsValidCategory("")
    ensures !IsValidCategory("HUAYNO") && !IsValidCategory("huayno")
  {
  }

  /** The suite's duration cases, up to Kotlin's `Long.MAX_VALUE`. */
  lemma DurationTable()
    ensures !IsValidDuration(0) && !IsValidDuration(-1000)
    ensures IsValidDuration(1000) && IsValidDuration(30000) && IsValidDuration(60000)
    ensures IsValidDuration(180000) && IsValidDuration(240000) && IsValidDuration(600000)
    ensures IsValidDuration(0x7FFF_FFFF_FFFF_FFFF)
  {
  }
}
