/** The unit suite's checks on its own copies of `formatPlayTime` (the one of
    `Format`) and `getSongsByCategory` (the one of `Catalog`), and its
    category-partition filter over the list of valid categories. */
module UnitSuite {
  import opened Seqs
  import opened Text
  import opened Model
  import opened Format
  import opened Catalog

  /** A song as the suite builds it, with the description left at its
      default. */
  function UnitSong(id: string, title: string, artist: string, category: string, audioFileName: string,
                    duration: int): Song
  {
    Song(id, title, artist, category, "", audioFileName, duration)
  }

  /** The songs of the filtering test. */
  function FilteringSongs(): seq<Song>
  {
    [
      UnitSong("1", "Huayno 1", "Artista 1", "Huayno", "h1.mp3", 180000),
      UnitSong("2", "Carnaval 1", "Artista 2", "Carnaval", "c1.mp3", 200000),
      UnitSong("3", "Huayno 2", "Artista 3", "Huayno", "h2.mp3", 220000),
      UnitSong("4", "Marinera 1", "Artista 4", "Marinera", "m1.mp3", 210000)
    ]
  }

  /** The songs of the category-validation test: three of a valid category
      and one of "InvalidCategory". */
  function PartitionSongs(): seq<Song>
  {
    [
      UnitSong("1", "Test 1", "Test", "Huayno", "test1.mp3", 180000),
      UnitSong("2", "Test 2", "Test", "Carnaval", "test2.mp3", 200000),
      UnitSong("3", "Test 3", "Test", "Marinera", "test3.mp3", 220000),
      UnitSong("4", "Test 4", "Test", "InvalidCategory", "test4.mp3", 160000)
    ]
  }

  /** The suite's counts: two huaynos, one carnaval, one marinera, and
      nothing for a category the sample does not have. */
  lemma FilteringCounts()
    ensures |SongsByCategory(FilteringSongs(), "Huayno")| == 2
    ensures |SongsByCategory(FilteringSongs(), "Carnaval")| == 1
    ensures |SongsByCategory(FilteringSongs(), "Marinera")| == 1
    ensures |SongsByCategory(FilteringSongs(), "Inexistente")| == 0
  {
    FilteringQuery("Huayno");
    FilteringQuery("Carnaval");
    FilteringQuery("Marinera");
    FilteringQuery("Inexistente");
  }

  /** The result of the query for any category: the songs of the sample in
      that category, in sample order. */
  lemma {:induction false} FilteringQuery(category: string)
    ensures var songs := FilteringSongs();
      SongsByCategory(songs, category) ==
        (if category == "Huayno" then [songs[0]] else []) + (if category == "Carnaval" then [songs[1]] else [])
        + ((if category == "Huayno" then [songs[2]] else []) + (if category == "Marinera" then [songs[3]] else []))
  {
    var songs := FilteringSongs();
    assert songs[0].category == "Huayno" && songs[1].category == "Carnaval";
    assert songs[2].category == "Huayno" && songs[3].category == "Marinera";
    FilterOfFour(songs, InCategory(category));
  }

  /** The filter of a two-element list, spelled out. */
  lemma {:induction false} FilterOfTwo<T(!new)>(c: T, d: T, p: T -> bool)
    ensures Filter([c, d], p) == (if p(c) then [c] else []) + (if p(d) then [d] else [])
  {
    FilterCons(d, [], p);
    assert [d] + [] == [d];
    FilterCons(c, [d], p);
    assert [c] + [d] == [c, d];
  }

  /** The filter of a four-element list, spelled out element by element. */
  lemma {:induction false} FilterOfFour<T(!new)>(s: seq<T>, p: T -> bool)
    requires |s| == 4
    ensures Filter(s, p) == (if p(s[0]) then [s[0]] else []) + (if p(s[1]) then [s[1]] else [])
                          + ((if p(s[2]) then [s[2]] else []) + (if p(s[3]) then [s[3]] else []))
  {
    assert s == [s[0], s[1]] + [s[2], s[3]];
    FilterConcat([s[0], s[1]], [s[2], s[3]], p);
    FilterOfTwo(s[0], s[1], p);
    FilterOfTwo(s[2], s[3], p);
  }

  /** The category-validation test: filtering by membership in the valid
      categories keeps the three valid songs, and its negation keeps the one
      song of "InvalidCategory"; the two sizes add up to the list's. */
  lemma PartitionCounts()
    ensures |Filter(PartitionSongs(), HasValidCategory())| == 3
    ensures Filter(PartitionSongs(), Not(HasValidCategory())) == [PartitionSongs()[3]]
    ensures PartitionSongs()[3].category == "InvalidCategory"
  {
    var songs := PartitionSongs();
    assert IsValidCategory(songs[0].category) && IsValidCategory(songs[1].category);
    assert IsValidCategory(songs[2].category) && !IsValidCategory(songs[3].category);
    FilterOfFour(songs, HasValidCategory());
    FilterOfFour(songs, Not(HasValidCategory()));
  }

  /** The suite's `formatPlayTime` checks. */
  lemma UnitPlayTimeExamples()
    ensures FormatPlayTime(30000) == "< 1m" && FormatPlayTime(60000) == "1m" && FormatPlayTime(300000) == "5m"
    ensures FormatPlayTime(3600000) == "1h 0m" && FormatPlayTime(5400000) == "1h 30m"
    ensures FormatPlayTime(7200000) == "2h 0m"
  {
    assert NatToString(30) == "30";
  }
}
