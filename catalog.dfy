/** Catalog queries over a list of songs: by category, by id, by search term
    and by a list of ids (playlist and favorite songs). Every query is a
    Kotlin `filter` or `find` over the catalog, so results come out in
    catalog order whatever order the ids are given in. */
module Catalog {
  import opened Seqs
  import opened Text
  import opened Model

  /** The five categories of Ayacucho music the app offers. */
  function Categories(): (r: seq<string>)
    ensures |r| == 5 && NoDuplicates(r)
    ensures forall c :: c in r ==> HasVisible(c)
  {
    assert !IsWhitespace("Huayno"[0]) && !IsWhitespace("Carnaval"[0]) && !IsWhitespace("Tradicional"[0]);
    assert !IsWhitespace("Marinera"[0]) && !IsWhitespace("Folclore"[0]);
    ["Huayno", "Carnaval", "Tradicional", "Marinera", "Folclore"]
  }

  /** Category validity: exact, case-sensitive membership. */
  predicate IsValidCategory(category: string): (b: bool)
    ensures b ==> HasVisible(category)
    ensures b ==> |category| >= 6
  {
    category in Categories()
  }

  function InCategory(category: string): (p: Song -> bool)
    ensures forall s :: p(s) <==> s.category == category
  {
    (s: Song) => s.category == category
  }

  /** `getSongsByCategory`: the catalog songs of exactly that category, each
      as often as in the catalog, in catalog order. */
  function SongsByCategory(songs: seq<Song>, category: string): (r: seq<Song>)
    ensures forall s :: s in r <==> s in songs && s.category == category
    ensures forall s: Song :: s.category == category ==> multiset(r)[s] == multiset(songs)[s]
    ensures IsSubsequence(r, songs)
  {
    Filter(songs, InCategory(category))
  }

  /** A category no song has yields nothing. */
  lemma {:induction false} UnknownCategoryEmpty(songs: seq<Song>, category: string)
    requires forall s :: s in songs ==> s.category != category
    ensures SongsByCategory(songs, category) == []
  {
  }

  function HasValidCategory(): (p: Song -> bool)
    ensures forall s :: p(s) <==> IsValidCategory(s.category)
  {
    (s: Song) => IsValidCategory(s.category)
  }

  /** Songs of a valid category and songs of an invalid one split the list. */
  lemma {:induction false} CategoryPartition(songs: seq<Song>)
    ensures |Filter(songs, HasValidCategory())| + |Filter(songs, Not(HasValidCategory()))| == |songs|
  {
    FilterPartition(songs, HasValidCategory());
  }

  function HasSongId(id: string): (p: Song -> bool)
    ensures forall s :: p(s) <==> s.id == id
  {
    (s: Song) => s.id == id
  }

  /** No song before index `i` has the id. */
  predicate FirstWithId(songs: seq<Song>, id: string, i: int)
    requires 0 <= i <= |songs|
  {
    forall j :: 0 <= j < i ==> songs[j].id != id
  }

  /** `getSongById`: the first catalog song with that id, if any. */
  function SongById(songs: seq<Song>, id: string): (r: Option<Song>)
    ensures r.None? <==> forall i :: 0 <= i < |songs| ==> songs[i].id != id
    ensures r.Some? ==> r.value.id == id
    ensures r.Some? ==> exists i :: 0 <= i < |songs| && songs[i] == r.value && FirstWithId(songs, id, i)
  {
    var i := IndexWhere(songs, HasSongId(id));
    if i < |songs| then Some(songs[i]) else None
  }

  /** `searchSongs` match: the term occurs, ignoring case, in the title, the
      artist, the category or the description. */
  predicate Matches(song: Song, term: string)
  {
    ContainsIgnoreCase(song.title, term) || ContainsIgnoreCase(song.artist, term) ||
    ContainsIgnoreCase(song.category, term) || ContainsIgnoreCase(song.description, term)
  }

  function MatchesTerm(term: string): (p: Song -> bool)
    ensures forall s :: p(s) <==> Matches(s, term)
  {
    (s: Song) => Matches(s, term)
  }

  /** `searchSongs`: exactly the matching catalog songs, in catalog order. */
  function SearchSongs(songs: seq<Song>, term: string): (r: seq<Song>)
    ensures forall s :: s in r <==> s in songs && Matches(s, term)
    ensures forall s :: Matches(s, term) ==> multiset(r)[s] == multiset(songs)[s]
    ensures IsSubsequence(r, songs)
  {
    Filter(songs, MatchesTerm(term))
  }

  /** The empty term matches every song. */
  lemma {:induction false} SearchEmptyTermKeepsAll(songs: seq<Song>)
    ensures SearchSongs(songs, "") == songs
  {
    forall s | s in songs ensures MatchesTerm("")(s) {
      ContainsEmpty(s.title);
    }
    FilterKeepsAll(songs, MatchesTerm(""));
  }

  /** Searching is insensitive to the case of the term. */
  lemma {:induction false} SearchIgnoresCase(songs: seq<Song>, term: string)
    ensures SearchSongs(songs, Lower(term)) == SearchSongs(songs, term)
  {
    LowerIdempotent(term);
    FilterCongruent(songs, MatchesTerm(Lower(term)), MatchesTerm(term));
  }

  lemma {:induction false} ContainsSelf(s: string)
    ensures Contains(s, s)
  {
    assert OccursAt(s, s, 0) by { assert s[0..|s|] == s; }
  }

  /** Searching for a category name finds every song of that category. */
  lemma {:induction false} SearchFindsCategory(songs: seq<Song>, category: string)
    ensures forall s :: s in SongsByCategory(songs, category) ==> s in SearchSongs(songs, category)
  {
    forall s | s in SongsByCategory(songs, category)
      ensures s in SearchSongs(songs, category)
    {
      ContainsSelf(Lower(category));
    }
  }

  function IdIn(ids: seq<string>): (p: Song -> bool)
    ensures forall s :: p(s) <==> s.id in ids
  {
    (s: Song) => s.id in ids
  }

  /** `getPlaylistSongs` and `getFavoriteSongs`: the catalog songs whose id is
      listed, in catalog order; listed ids the catalog lacks are dropped. */
  function SongsWithIds(catalog: seq<Song>, ids: seq<string>): (r: seq<Song>)
    ensures forall s :: s in r <==> s in catalog && s.id in ids
    ensures forall s :: multiset(r)[s] == if s.id in ids then multiset(catalog)[s] else 0
    ensures IsSubsequence(r, catalog)
  {
    Filter(catalog, IdIn(ids))
  }

  /** Only the set of listed ids matters: neither their order nor repeats
      change the result. */
  lemma {:induction false} SongsWithIdsIgnoresOrder(catalog: seq<Song>, ids: seq<string>, ids': seq<string>)
    requires forall id :: id in ids <==> id in ids'
    ensures SongsWithIds(catalog, ids) == SongsWithIds(catalog, ids')
  {
    FilterCongruent(catalog, IdIn(ids), IdIn(ids'));
  }

  /** A catalog without repeated songs gives each song at most once. */
  lemma {:induction false} SongsWithIdsNoDuplicates(catalog: seq<Song>, ids: seq<string>)
    requires NoDuplicates(catalog)
    ensures NoDuplicates(SongsWithIds(catalog, ids))
  {
    FilterNoDuplicates(catalog, IdIn(ids));
  }
}
