/** The play-history log: entries are appended in play order; the per-user
    query filters by user, sorts by `playedAt` descending with Kotlin's stable
    `sortedByDescending`, and keeps the first `limit` entries. */
module History {
  import opened Seqs
  import opened Model

  function BelongsTo(userId: string): (p: PlayHistory -> bool)
    ensures forall e :: p(e) <==> e.userId == userId
  {
    (e: PlayHistory) => e.userId == userId
  }

  function PlayedAt(t: int): (p: PlayHistory -> bool)
    ensures forall e :: p(e) <==> e.playedAt == t
  {
    (e: PlayHistory) => e.playedAt == t
  }

  /** `isHistoryOrderedByDate`: every entry is at least as recent as the next
      one (`zipWithNext().all { >= }`), which is order between any two
      positions. */
  predicate IsOrderedByDate(h: seq<PlayHistory>): (b: bool)
    ensures b <==> SortedDesc(h)
  {
    OrderedByDateIffSorted(h);
    forall i :: 0 <= i < |h| - 1 ==> h[i].playedAt >= h[i + 1].playedAt
  }

  /** Non-increasing `playedAt` between any two positions. */
  predicate SortedDesc(h: seq<PlayHistory>)
  {
    forall i, j :: 0 <= i < j < |h| ==> h[i].playedAt >= h[j].playedAt
  }

  /** Order between neighbours is the same as order between any two
      positions. */
  lemma {:induction false} OrderedByDateIffSorted(h: seq<PlayHistory>)
    ensures (forall i :: 0 <= i < |h| - 1 ==> h[i].playedAt >= h[i + 1].playedAt) <==> SortedDesc(h)
    decreases |h|
  {
    if |h| > 1 && forall i :: 0 <= i < |h| - 1 ==> h[i].playedAt >= h[i + 1].playedAt {
      var t := h[1..];
      OrderedByDateIffSorted(t);
      assert forall i :: 0 <= i < |t| - 1 ==> t[i].playedAt >= t[i + 1].playedAt by {
        forall i | 0 <= i < |t| - 1 ensures t[i].playedAt >= t[i + 1].playedAt {
          assert t[i] == h[i + 1] && t[i + 1] == h[i + 2];
        }
      }
      forall i, j | 0 <= i < j < |h| ensures h[i].playedAt >= h[j].playedAt {
        if i > 0 {
          assert t[i - 1] == h[i] && t[j - 1] == h[j];
        } else if j > 1 {
          assert t[0] == h[1] && t[j - 1] == h[j];
        }
      }
    }
  }

  /** Places `e` before the first entry that is not more recent, so that
      among equal times the earlier-listed entry comes first. */
  function InsertByDate(e: PlayHistory, h: seq<PlayHistory>): (r: seq<PlayHistory>)
    ensures |r| == |h| + 1
    ensures forall x :: x in r <==> x in h || x == e
  {
    if |h| == 0 || e.playedAt >= h[0].playedAt then [e] + h
    else [h[0]] + InsertByDate(e, h[1..])
  }

  /** Inserting adds exactly one copy of `e`. */
  lemma {:induction false} InsertByDateMultiset(e: PlayHistory, h: seq<PlayHistory>)
    ensures multiset(InsertByDate(e, h)) == multiset(h) + multiset{e}
    decreases |h|
  {
    if |h| > 0 && e.playedAt < h[0].playedAt {
      InsertByDateMultiset(e, h[1..]);
      assert h == [h[0]] + h[1..];
    }
  }

  /** Inserting into a sorted log keeps it sorted. */
  lemma {:induction false} InsertByDateSorted(e: PlayHistory, h: seq<PlayHistory>)
    requires SortedDesc(h)
    ensures SortedDesc(InsertByDate(e, h))
    decreases |h|
  {
    var r := InsertByDate(e, h);
    if |h| == 0 || e.playedAt >= h[0].playedAt {
      forall i, j | 0 <= i < j < |r| ensures r[i].playedAt >= r[j].playedAt {
        if i == 0 {
          assert r[j] == h[j - 1];
          if j > 1 { assert h[0].playedAt >= h[j - 1].playedAt; }
        } else {
          assert r[i] == h[i - 1] && r[j] == h[j - 1];
        }
      }
    } else {
      var t := h[1..];
      assert SortedDesc(t) by {
        forall i, j | 0 <= i < j < |t| ensures t[i].playedAt >= t[j].playedAt {
          assert t[i] == h[i + 1] && t[j] == h[j + 1];
        }
      }
      InsertByDateSorted(e, t);
      var rest := InsertByDate(e, t);
      assert r == [h[0]] + rest;
      forall i, j | 0 <= i < j < |r| ensures r[i].playedAt >= r[j].playedAt {
        if i == 0 {
          assert r[j] == rest[j - 1] && rest[j - 1] in rest;
          if rest[j - 1] != e {
            var k :| 0 <= k < |t| && t[k] == rest[j - 1];
            assert h[k + 1] == t[k];
          }
        } else {
          assert r[i] == rest[i - 1] && r[j] == rest[j - 1];
        }
      }
    }
  }

  /** Kotlin `sortedByDescending { it.playedAt }`, a stable sort. */
  function SortByDateDesc(h: seq<PlayHistory>): (r: seq<PlayHistory>)
    ensures |r| == |h|
    ensures multiset(r) == multiset(h)
    ensures SortedDesc(r)
  {
    if |h| == 0 then []
    else
      var rest := SortByDateDesc(h[1..]);
      InsertStep(h, rest);
      InsertByDate(h[0], rest)
  }

  /** One insertion step of the sort: inserting the head into the sorted
      tail gives a sorted reordering of the whole log. */
  lemma {:induction false} InsertStep(h: seq<PlayHistory>, rest: seq<PlayHistory>)
    requires |h| > 0 && SortedDesc(rest) && multiset(rest) == multiset(h[1..])
    ensures SortedDesc(InsertByDate(h[0], rest))
    ensures multiset(InsertByDate(h[0], rest)) == multiset(h)
  {
    InsertByDateMultiset(h[0], rest);
    InsertByDateSorted(h[0], rest);
    assert h == [h[0]] + h[1..];
  }

  /** Inserting keeps the relative order of entries with the same time, and
      puts the new one first among them. */
  lemma {:induction false} InsertByDateStable(e: PlayHistory, h: seq<PlayHistory>, t: int)
    ensures e.playedAt == t ==> Filter(InsertByDate(e, h), PlayedAt(t)) == [e] + Filter(h, PlayedAt(t))
    ensures e.playedAt != t ==> Filter(InsertByDate(e, h), PlayedAt(t)) == Filter(h, PlayedAt(t))
    decreases |h|
  {
    var p := PlayedAt(t);
    var r := InsertByDate(e, h);
    if |h| == 0 || e.playedAt >= h[0].playedAt {
      assert r[0] == e && r[1..] == h;
    } else {
      var rest := InsertByDate(e, h[1..]);
      InsertByDateStable(e, h[1..], t);
      assert r[0] == h[0] && r[1..] == rest;
      if p(h[0]) {
        assert Filter(r, p) == [h[0]] + Filter(rest, p);
        assert Filter(h, p) == [h[0]] + Filter(h[1..], p);
      } else {
        assert Filter(r, p) == Filter(rest, p);
        assert Filter(h, p) == Filter(h[1..], p);
      }
    }
  }

  /** Stability: entries played at the same time keep their log order. */
  lemma {:induction false} SortByDateDescStable(h: seq<PlayHistory>, t: int)
    ensures Filter(SortByDateDesc(h), PlayedAt(t)) == Filter(h, PlayedAt(t))
    decreases |h|
  {
    if |h| > 0 {
      var p := PlayedAt(t);
      var rest := SortByDateDesc(h[1..]);
      assert SortByDateDesc(h) == InsertByDate(h[0], rest);
      SortByDateDescStable(h[1..], t);
      InsertByDateStable(h[0], rest, t);
      if p(h[0]) {
        assert Filter(h, p) == [h[0]] + Filter(h[1..], p);
      } else {
        assert Filter(h, p) == Filter(h[1..], p);
      }
    }
  }

  /** Kotlin `take(n)`. */
  function Take<T>(s: seq<T>, n: nat): (r: seq<T>)
    ensures |r| == if n <= |s| then n else |s|
    ensures r == s[..|r|]
  {
    if n <= |s| then s[..n] else s
  }

  /** The user's entries, most recent first. */
  function UserEntriesByDate(h: seq<PlayHistory>, userId: string): (r: seq<PlayHistory>)
    ensures |r| == |Filter(h, BelongsTo(userId))|
    ensures multiset(r) == multiset(Filter(h, BelongsTo(userId)))
    ensures SortedDesc(r)
  {
    SortByDateDesc(Filter(h, BelongsTo(userId)))
  }

  /** `getUserHistory`: the first `limit` of the user's entries sorted most
      recent first, so at most `limit` of them, fewer only when the user has
      fewer, each taken at most as often as the user played it. `take`
      rejects a negative limit. */
  function UserHistory(h: seq<PlayHistory>, userId: string, limit: int): (r: seq<PlayHistory>)
    requires limit >= 0
    ensures |r| == if limit <= |Filter(h, BelongsTo(userId))| then limit else |Filter(h, BelongsTo(userId))|
    ensures r == UserEntriesByDate(h, userId)[..|r|]
    ensures multiset(r) <= multiset(Filter(h, BelongsTo(userId)))
    ensures forall e :: e in r ==> e in h && e.userId == userId
    ensures IsOrderedByDate(r)
  {
    var sorted := UserEntriesByDate(h, userId);
    TakeSorted(sorted, limit);
    Take(sorted, limit)
  }

  /** A prefix of a most-recent-first list is itself most recent first and
      takes each entry at most as often as the list holds it. */
  lemma {:induction false} TakeSorted(sorted: seq<PlayHistory>, n: nat)
    requires SortedDesc(sorted)
    ensures SortedDesc(Take(sorted, n))
    ensures multiset(Take(sorted, n)) <= multiset(sorted)
  {
    var r := Take(sorted, n);
    PrefixMultiset(sorted, |r|);
    forall i, j | 0 <= i < j < |r| ensures r[i].playedAt >= r[j].playedAt {
      assert r[i] == sorted[i] && r[j] == sorted[j];
    }
  }

  /** With a limit at least the user's entry count, nothing is dropped. */
  lemma {:induction false} UserHistoryComplete(h: seq<PlayHistory>, userId: string, limit: int)
    requires limit >= |Filter(h, BelongsTo(userId))|
    ensures multiset(UserHistory(h, userId, limit)) == multiset(Filter(h, BelongsTo(userId)))
  {
    var sorted := UserEntriesByDate(h, userId);
    assert Take(sorted, limit) == sorted;
  }

  /** A log holding only the user's entries comes back whole when the limit
      allows: the query is a reordering of the log. */
  lemma {:induction false} OwnLogHistory(h: seq<PlayHistory>, userId: string, limit: int)
    requires forall e :: e in h ==> e.userId == userId
    requires limit >= |h|
    ensures multiset(UserHistory(h, userId, limit)) == multiset(h)
    ensures |h| == 1 ==> UserHistory(h, userId, limit) == h
  {
    FilterKeepsAll(h, BelongsTo(userId));
    UserHistoryComplete(h, userId, limit);
    if |h| == 1 {
      var r := UserHistory(h, userId, limit);
      assert |r| == 1 by { assert |multiset(r)| == |multiset(h)|; }
      assert r[0] in multiset(h);
    }
  }

  /** Entries of the user played at the same time appear in log order. */
  lemma {:induction false} UserHistoryTiesInLogOrder(h: seq<PlayHistory>, userId: string, limit: int, t: int)
    requires limit >= |Filter(h, BelongsTo(userId))|
    ensures Filter(UserHistory(h, userId, limit), PlayedAt(t)) == Filter(Filter(h, BelongsTo(userId)), PlayedAt(t))
  {
    var sorted := UserEntriesByDate(h, userId);
    assert UserHistory(h, userId, limit) == sorted;
    SortByDateDescStable(Filter(h, BelongsTo(userId)), t);
  }

  /** Under any limit, the returned entries played at one time are the
      first of the user's entries played at that time, in log order: the
      stable sort keeps ties in log order and `take` keeps a prefix. */
  lemma {:induction false} UserHistoryTiesPrefix(h: seq<PlayHistory>, userId: string, limit: int, t: int)
    requires limit >= 0
    ensures |Filter(UserHistory(h, userId, limit), PlayedAt(t))| <= |Filter(Filter(h, BelongsTo(userId)), PlayedAt(t))|
    ensures var ties := Filter(UserHistory(h, userId, limit), PlayedAt(t));
      ties == Filter(Filter(h, BelongsTo(userId)), PlayedAt(t))[..|ties|]
  {
    var sorted := UserEntriesByDate(h, userId);
    var r := UserHistory(h, userId, limit);
    assert r == sorted[..|r|];
    FilterPrefix(sorted, |r|, PlayedAt(t));
    SortByDateDescStable(Filter(h, BelongsTo(userId)), t);
  }

  /** The limit keeps the most recent entries: every kept entry is at least
      as recent as any of the user's entries the limit dropped. */
  lemma {:induction false} UserHistoryKeepsMostRecent(h: seq<PlayHistory>, userId: string, limit: int, e: PlayHistory)
    requires limit >= 0
    requires multiset(UserHistory(h, userId, limit))[e] < multiset(Filter(h, BelongsTo(userId)))[e]
    ensures forall x :: x in UserHistory(h, userId, limit) ==> x.playedAt >= e.playedAt
  {
    var sorted := UserEntriesByDate(h, userId);
    var r := UserHistory(h, userId, limit);
    assert r == sorted[..|r|];
    PrefixDominates(sorted, |r|, e);
  }

  lemma {:induction false} PrefixDominates(sorted: seq<PlayHistory>, n: nat, e: PlayHistory)
    requires SortedDesc(sorted) && n <= |sorted|
    requires multiset(sorted[..n])[e] < multiset(sorted)[e]
    ensures forall x :: x in sorted[..n] ==> x.playedAt >= e.playedAt
  {
    BeyondPrefix(sorted, n, e);
    var k :| n <= k < |sorted| && sorted[k] == e;
    forall x | x in sorted[..n] ensures x.playedAt >= e.playedAt {
      var i :| 0 <= i < n && sorted[..n][i] == x;
      assert sorted[i] == x;
    }
  }

  /** An element occurring more often in `s` than in its prefix sits past the prefix. */
  lemma {:induction false} BeyondPrefix<T>(s: seq<T>, n: nat, e: T)
    requires n <= |s| && multiset(s[..n])[e] < multiset(s)[e]
    ensures exists k :: n <= k < |s| && s[k] == e
  {
    var tail := s[n..];
    assert multiset(s) == multiset(s[..n]) + multiset(tail) by {
      assert s == s[..n] + tail;
    }
    assert e in multiset(tail);
    var j :| 0 <= j < |tail| && tail[j] == e;
    assert s[n + j] == e;
  }

  /** `clearUserHistory`'s `removeIf`: the log without the user's entries. */
  function RemoveUser(h: seq<PlayHistory>, userId: string): (r: seq<PlayHistory>)
    ensures forall e :: e in r <==> e in h && e.userId != userId
    ensures IsSubsequence(r, h)
  {
    Filter(h, Not(BelongsTo(userId)))
  }

  /** After clearing, the user's history is empty under every limit. */
  lemma {:induction false} RemoveUserClearsUser(h: seq<PlayHistory>, userId: string, limit: int)
    requires limit >= 0
    ensures UserHistory(RemoveUser(h, userId), userId, limit) == []
  {
  }

  /** Clearing one user leaves every other user's entries exactly as they
      were, in order. */
  lemma {:induction false} RemoveUserKeepsOthers(h: seq<PlayHistory>, userId: string, other: string)
    requires other != userId
    ensures Filter(RemoveUser(h, userId), BelongsTo(other)) == Filter(h, BelongsTo(other))
  {
    FilterOfFilter(h, Not(BelongsTo(userId)), BelongsTo(other));
  }

  /** Appending an entry adds it to its user's history and leaves every
      other user's history unchanged. */
  lemma {:induction false} AppendEffect(h: seq<PlayHistory>, e: PlayHistory, userId: string)
    ensures Filter(h + [e], BelongsTo(userId)) ==
      Filter(h, BelongsTo(userId)) + (if e.userId == userId then [e] else [])
  {
    FilterConcat(h, [e], BelongsTo(userId));
  }
}
