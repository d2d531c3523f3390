/** The aggregates `calculateUserStats` computes over one user's history:
    the summed play time and the most played category. */
module Stats {
  import opened Seqs
  import opened Model

  /** The category of every entry, in log order. */
  function CategoriesOf(h: seq<PlayHistory>): (r: seq<string>)
    ensures |r| == |h|
    ensures forall i :: 0 <= i < |h| ==> r[i] == h[i].songCategory
  {
    seq(|h|, i requires 0 <= i < |h| => h[i].songCategory)
  }

  /** The duration of one play. */
  function PlayDuration(e: PlayHistory): int
  {
    e.playDuration
  }

  /** `sumOf { it.playDuration }`. */
  function TotalPlayTime(h: seq<PlayHistory>): (r: int)
    ensures (forall e :: e in h ==> e.playDuration >= 0) ==> r >= 0
    ensures (forall e :: e in h ==> e.playDuration > 0) ==> r >= |h|
  {
    SumOf(h, PlayDuration)
  }

  /** Kotlin `maxByOrNull` over `keys` by `counts`: scans in order and moves
      to a later key only when its count is strictly larger, so the first key
      of maximal count wins. */
  function FirstMaxIndex(keys: seq<string>, counts: multiset<string>): (i: nat)
    requires |keys| > 0
    ensures i < |keys|
    ensures forall j :: 0 <= j < |keys| ==> counts[keys[j]] <= counts[keys[i]]
    ensures forall j :: 0 <= j < i ==> counts[keys[j]] < counts[keys[i]]
    decreases |keys|
  {
    if |keys| == 1 then 0
    else
      var init := keys[..|keys| - 1];
      var i := FirstMaxIndex(init, counts);
      assert forall j :: 0 <= j < |init| ==> init[j] == keys[j];
      if counts[keys[i]] < counts[keys[|keys| - 1]] then |keys| - 1 else i
  }

  /** `groupBy { it.songCategory }.maxByOrNull { it.value.size }?.key ?: ""`:
      the category played most often, the one met first in the log among
      equally frequent ones, and "" for an empty history. */
  function MostPlayedCategory(h: seq<PlayHistory>): (r: string)
    ensures |h| == 0 ==> r == ""
    ensures |h| > 0 ==> r in CategoriesOf(h)
    ensures forall c :: multiset(CategoriesOf(h))[c] <= multiset(CategoriesOf(h))[r]
    ensures forall c :: c in CategoriesOf(h) && multiset(CategoriesOf(h))[c] == multiset(CategoriesOf(h))[r] ==>
      IndexOf(CategoriesOf(h), r) <= IndexOf(CategoriesOf(h), c)
  {
    var cats := CategoriesOf(h);
    var keys := Distinct(cats);
    if |keys| == 0 then ""
    else
      var i := FirstMaxIndex(keys, multiset(cats));
      MaxKeyIsMax(cats, i);
      MaxKeyIsFirst(cats, i);
      keys[i]
  }

  lemma {:induction false} MaxKeyIsMax(cats: seq<string>, i: nat)
    requires |Distinct(cats)| > 0 && i == FirstMaxIndex(Distinct(cats), multiset(cats))
    ensures forall c :: multiset(cats)[c] <= multiset(cats)[Distinct(cats)[i]]
  {
    var keys := Distinct(cats);
    forall c | c in cats ensures multiset(cats)[c] <= multiset(cats)[keys[i]] {
      assert keys[IndexOf(keys, c)] == c;
    }
  }

  lemma {:induction false} MaxKeyIsFirst(cats: seq<string>, i: nat)
    requires |Distinct(cats)| > 0 && i == FirstMaxIndex(Distinct(cats), multiset(cats))
    ensures forall c :: c in cats && multiset(cats)[c] == multiset(cats)[Distinct(cats)[i]] ==>
      IndexOf(cats, Distinct(cats)[i]) <= IndexOf(cats, c)
  {
    var keys := Distinct(cats);
    var counts := multiset(cats);
    forall c | c in cats && counts[c] == counts[keys[i]] ensures IndexOf(cats, keys[i]) <= IndexOf(cats, c) {
      var j := IndexOf(keys, c);
      if j != i {
        assert i < j;
      }
    }
  }
}
