/** The entities of the app's data model package, as their constructor calls
    in the test suites show them. Times and durations are epoch or elapsed
    milliseconds (Kotlin `Long`), modelled as unbounded integers. */
module Model {

  datatype Song = Song(
    id: string,
    title: string,
    artist: string,
    category: string,
    description: string,
    audioFileName: string,
    duration: int)

  /** `songs` holds song ids in playlist order. */
  datatype Playlist = Playlist(
    id: string,
    name: string,
    description: string,
    userId: string,
    songs: seq<string>,
    createdAt: int,
    updatedAt: int)

  /** One play event; title, artist and category are copied from the song when
      it is played. `completedPercentage` is a Kotlin `Float` that no helper
      computes with. */
  datatype PlayHistory = PlayHistory(
    id: string,
    userId: string,
    songId: string,
    songTitle: string,
    songArtist: string,
    songCategory: string,
    playedAt: int,
    playDuration: int,
    completedPercentage: real)

  datatype UserStats = UserStats(
    userId: string,
    totalPlayTime: int,
    totalSongsPlayed: int,
    favoriteCount: int,
    playlistCount: int,
    mostPlayedCategory: string,
    appOpenCount: int,
    lastActive: int,
    createdAt: int)
}
