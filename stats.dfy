/** The summary shown under the history: entry count, score sum and best
    score, the recent window, and the most frequent tag. */
module Stats {
  import opened Entries
  import opened Tags

  datatype Option<T> = None | Some(value: T)

  /** Shown instead of a tag when no entry carries any tag. */
  const NoTag: string := "无"

  /** How many of the newest entries the recent average covers. */
  const RecentWindow: nat := 7

  /** The averages are kept as a sum and a divisor; the board divides them
      and rounds to one decimal when it renders. */
  datatype Summary = Summary(
    totalEntries: nat,
    scoreSum: int,
    bestMood: int,
    recentSum: int,
    recentCount: nat,
    mostCommonTag: string)

  function Min(a: nat, b: nat): (m: nat)
    ensures m <= a && m <= b && (m == a || m == b)
  {
    if a <= b then a else b
  }

  /** The running total of the scores, folded from the first entry on. */
  function SumScores(h: seq<Entry>): (r: int)
    ensures (forall k :: 0 <= k < |h| ==> 1 <= h[k].score <= 10) ==> |h| <= r <= 10 * |h|
  {
    if h == [] then 0 else SumScores(h[..|h| - 1]) + h[|h| - 1].score
  }

  /** The largest score. */
  function BestScore(h: seq<Entry>): (b: int)
    requires h != []
    ensures forall k :: 0 <= k < |h| ==> h[k].score <= b
    ensures exists k :: 0 <= k < |h| && h[k].score == b
  {
    if |h| == 1 then h[0].score
    else
      var m := BestScore(h[1..]);
      assert forall k :: 1 <= k < |h| ==> h[k] == h[1..][k - 1];
      if h[0].score >= m then h[0].score else m
  }

  /** When every score lies in [lo, hi], the sum lies in [n*lo, n*hi], so
      the average lies between the smallest and the largest score. */
  lemma {:induction false} SumBetween(h: seq<Entry>, lo: int, hi: int)
    requires forall k :: 0 <= k < |h| ==> lo <= h[k].score <= hi
    ensures |h| * lo <= SumScores(h) <= |h| * hi
  {
    if h != [] {
      var n := |h| - 1;
      var init := h[..n];
      assert forall k :: 0 <= k < n ==> init[k] == h[k];
      SumBetween(init, lo, hi);
      assert SumScores(h) == SumScores(init) + h[n].score;
      MulSucc(n, lo);
      MulSucc(n, hi);
    }
  }

  lemma MulSucc(n: nat, x: int)
    ensures (n + 1) * x == n * x + x
  {
  }

  /** The average never exceeds the best score. */
  lemma SumAtMostBest(h: seq<Entry>)
    requires h != []
    ensures SumScores(h) <= |h| * BestScore(h)
  {
    SumBetween(h, SmallestScore(h), BestScore(h));
  }

  /** The smallest score (used only to bound the sum from below). */
  function SmallestScore(h: seq<Entry>): (s: int)
    requires h != []
    ensures forall k :: 0 <= k < |h| ==> s <= h[k].score
  {
    if |h| == 1 then h[0].score
    else
      var m := SmallestScore(h[1..]);
      assert forall k :: 1 <= k < |h| ==> h[k] == h[1..][k - 1];
      if h[0].score <= m then h[0].score else m
  }

  /** Every tag of every entry, entry by entry, in list order. */
  function AllTags(h: seq<Entry>): (r: seq<string>)
  {
    if h == [] then [] else AllTags(h[..|h| - 1]) + h[|h| - 1].tags
  }

  /** How often `t` occurs in `s`. */
  function Count(s: seq<string>, t: string): (n: nat)
    ensures n <= |s|
    ensures n == 0 <==> t !in s
  {
    if s == [] then 0
    else
      var p := s[..|s| - 1];
      assert s == p + [s[|s| - 1]];
      Count(p, t) + (if s[|s| - 1] == t then 1 else 0)
  }

  /** The tags of `s` in order of first appearance, each once: the key order
      of a table filled by walking `s`. */
  function FirstAppearances(s: seq<string>): (keys: seq<string>)
    ensures Distinct(keys)
    ensures forall t :: t in keys <==> t in s
  {
    if s == [] then []
    else
      var p, x := s[..|s| - 1], s[|s| - 1];
      assert s == p + [x];
      var prior := FirstAppearances(p);
      if x in p then prior else prior + [x]
  }

  /** Sum of the counts of the given keys. */
  function SumCounts(keys: seq<string>, s: seq<string>): (n: nat)
  {
    if keys == [] then 0 else SumCounts(keys[..|keys| - 1], s) + Count(s, keys[|keys| - 1])
  }

  lemma {:induction false} SumCountsAppend(keys: seq<string>, p: seq<string>, x: string)
    requires Distinct(keys)
    ensures SumCounts(keys, p + [x]) == SumCounts(keys, p) + (if x in keys then 1 else 0)
  {
    if keys != [] {
      var init := keys[..|keys| - 1];
      assert keys == init + [keys[|keys| - 1]];
      assert (p + [x])[..|p|] == p;
      SumCountsAppend(init, p, x);
    }
  }

  /** The counts of the frequency table add up to the number of tags. */
  lemma {:induction false} CountsAddUp(s: seq<string>)
    ensures SumCounts(FirstAppearances(s), s) == |s|
  {
    if s != [] {
      var p, x := s[..|s| - 1], s[|s| - 1];
      assert s == p + [x];
      CountsAddUp(p);
      SumCountsAppend(FirstAppearances(p), p, x);
      if x !in p {
        var keys := FirstAppearances(p) + [x];
        assert keys[..|keys| - 1] == FirstAppearances(p);
      }
    }
  }

  /** One more tag seen: its count grows by one and it joins the key order
      the first time it appears. */
  lemma TallyOne(seen: seq<string>, t: string)
    ensures FirstAppearances(seen + [t]) ==
            if t in seen then FirstAppearances(seen) else FirstAppearances(seen) + [t]
    ensures forall x :: Count(seen + [t], x) == Count(seen, x) + (if x == t then 1 else 0)
  {
    assert (seen + [t])[..|seen|] == seen;
  }

  lemma AllTagsPrefix(h: seq<Entry>, i: nat)
    requires i < |h|
    ensures AllTags(h[..i + 1]) == AllTags(h[..i]) + h[i].tags
  {
    assert h[..i + 1][..i] == h[..i];
  }

  /** `counts` and `keys` are the frequency table of the tags in `seen` and
      that table's key order. */
  ghost predicate Tallied(counts: map<string, nat>, keys: seq<string>, seen: seq<string>) {
    && keys == FirstAppearances(seen)
    && (forall t :: t in counts <==> t in keys)
    && (forall t :: t in counts ==> counts[t] == Count(seen, t))
  }

  /** The inner pass: adds one entry's tags to the table. */
  method TallyEntry(counts0: map<string, nat>, keys0: seq<string>, tags: seq<string>, ghost seen: seq<string>)
    returns (counts: map<string, nat>, keys: seq<string>)
    requires Tallied(counts0, keys0, seen)
    ensures Tallied(counts, keys, seen + tags)
  {
    counts, keys := counts0, keys0;
    var j := 0;
    assert seen + tags[..0] == seen;
    while j < |tags|
      invariant 0 <= j <= |tags|
      invariant Tallied(counts, keys, seen + tags[..j])
    {
      var t := tags[j];
      assert seen + tags[..j + 1] == (seen + tags[..j]) + [t];
      TallyOne(seen + tags[..j], t);
      var n := if t in counts then counts[t] else 0;
      if t !in counts {
        keys := keys + [t];
      }
      counts := counts[t := n + 1];
      j := j + 1;
    }
    assert tags[..j] == tags;
  }

  /** Fills the frequency table the way the board does: one pass over the
      entries and, inside it, one pass over each entry's tags; `keys` records
      the table's insertion order. */
  method TallyTags(h: seq<Entry>) returns (counts: map<string, nat>, keys: seq<string>)
    ensures keys == FirstAppearances(AllTags(h))
    ensures forall t :: t in counts <==> t in keys
    ensures forall t :: t in counts ==> counts[t] == Count(AllTags(h), t)
  {
    counts, keys := map[], [];
    var i := 0;
    while i < |h|
      invariant 0 <= i <= |h|
      invariant Tallied(counts, keys, AllTags(h[..i]))
    {
      counts, keys := TallyEntry(counts, keys, h[i].tags, AllTags(h[..i]));
      AllTagsPrefix(h, i);
      i := i + 1;
    }
    assert h[..i] == h;
  }

  /** The most common tag: a left fold over the keys that keeps the
      accumulator only while its count is strictly greater, so the last of
      several tied keys wins. */
  function MostCommon(keys: seq<string>, counts: map<string, nat>): (r: string)
    requires keys != [] && Distinct(keys)
    requires forall k :: k in keys ==> k in counts
    ensures r in keys
    ensures forall j :: 0 <= j < |keys| ==> counts[keys[j]] <= counts[r]
    ensures forall j, k :: 0 <= j < k < |keys| && keys[j] == r ==> counts[keys[k]] < counts[r]
  {
    if |keys| == 1 then keys[0]
    else
      var init := keys[..|keys| - 1];
      var b := keys[|keys| - 1];
      assert keys == init + [b];
      var a := MostCommon(init, counts);
      if counts[a] > counts[b] then a else b
  }

  /** The statistics of a history, or nothing when the history is empty. */
  method LoadStats(h: seq<Entry>) returns (r: Option<Summary>)
    ensures r.None? <==> h == []
    ensures r.Some? ==>
      var s := r.value;
      && s.totalEntries == |h|
      && s.scoreSum == SumScores(h)
      && (forall k :: 0 <= k < |h| ==> h[k].score <= s.bestMood)
      && (exists k :: 0 <= k < |h| && h[k].score == s.bestMood)
      && s.recentCount == Min(RecentWindow, |h|) && s.recentCount > 0
      && s.recentSum == SumScores(h[..s.recentCount])
    ensures r.Some? && AllTags(h) == [] ==> r.value.mostCommonTag == NoTag
    ensures r.Some? && AllTags(h) != [] ==>
      var tags, m := AllTags(h), r.value.mostCommonTag;
      && m in tags
      && (forall t :: t in tags ==> Count(tags, t) <= Count(tags, m))
      && (forall j, k :: 0 <= j < k < |FirstAppearances(tags)| && FirstAppearances(tags)[j] == m ==>
            Count(tags, FirstAppearances(tags)[k]) < Count(tags, m))
  {
    if |h| == 0 {
      return None;
    }
    var total := |h|;
    var sum := SumScores(h);
    var best := BestScore(h);
    var window := Min(RecentWindow, |h|);
    var recentSum := SumScores(h[..window]);
    var counts, keys := TallyTags(h);
    var common := if |keys| > 0 then MostCommon(keys, counts) else NoTag;
    if AllTags(h) != [] {
      var tags := AllTags(h);
      assert tags[0] in keys;
      forall t | t in tags ensures Count(tags, t) <= Count(tags, common) {
        var j :| 0 <= j < |keys| && keys[j] == t;
      }
    }
    r := Some(Summary(total, sum, best, recentSum, window, common));
  }
}
