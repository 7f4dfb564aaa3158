/** The stored history: at most one entry per day, newest first, and the
    save-time upsert keyed by today's date. */
module History {
  import opened Entries

  /** Newest first: dates never increase along the list. */
  predicate NewestFirst(h: seq<Entry>) {
    forall p, q :: 0 <= p < q < |h| ==> h[p].date >= h[q].date
  }

  /** How many entries are dated `d`. */
  function CountDate(h: seq<Entry>, d: Date): (n: nat)
    ensures n <= |h|
    ensures n == 0 <==> forall k :: 0 <= k < |h| ==> h[k].date != d
  {
    if h == [] then 0 else (if h[0].date == d then 1 else 0) + CountDate(h[1..], d)
  }

  /** One entry per day at most. */
  ghost predicate UniqueDates(h: seq<Entry>) {
    forall d :: CountDate(h, d) <= 1
  }

  /** Position of the first entry dated `d`, or -1 when there is none. */
  function DateIndex(h: seq<Entry>, d: Date): (i: int)
    ensures -1 <= i < |h|
    ensures i == -1 <==> forall k :: 0 <= k < |h| ==> h[k].date != d
    ensures 0 <= i ==> h[i].date == d && forall k :: 0 <= k < i ==> h[k].date != d
  {
    if h == [] then -1
    else if h[0].date == d then 0
    else
      var j := DateIndex(h[1..], d);
      if j == -1 then -1 else j + 1
  }

  /** Insert-or-replace keyed by the entry's date: the first entry with that
      date is overwritten in place, otherwise the entry is appended. */
  function Upsert(h: seq<Entry>, e: Entry): (r: seq<Entry>)
    ensures e in r
    ensures DateIndex(h, e.date) > -1 ==> |r| == |h| && r[DateIndex(h, e.date)] == e
    ensures DateIndex(h, e.date) == -1 ==> |r| == |h| + 1 && r[|h|] == e
    ensures forall k :: 0 <= k < |h| && k != DateIndex(h, e.date) ==> r[k] == h[k]
  {
    var i := DateIndex(h, e.date);
    if i > -1 then
      assert h[i := e][i] == e;
      h[i := e]
    else
      assert (h + [e])[|h|] == e;
      h + [e]
  }

  lemma {:induction false} CountDateConcat(a: seq<Entry>, b: seq<Entry>, d: Date)
    ensures CountDate(a + b, d) == CountDate(a, d) + CountDate(b, d)
  {
    if a == [] {
      assert a + b == b;
    } else {
      assert (a + b)[1..] == a[1..] + b;
      CountDateConcat(a[1..], b, d);
    }
  }

  /** Overwriting an entry by one with the same date keeps every date's count. */
  lemma {:induction false} CountDateReplace(h: seq<Entry>, i: nat, e: Entry, d: Date)
    requires i < |h| && h[i].date == e.date
    ensures CountDate(h[i := e], d) == CountDate(h, d)
  {
    if i > 0 {
      assert h[i := e][1..] == h[1..][i - 1 := e];
      CountDateReplace(h[1..], i - 1, e, d);
    } else {
      assert h[i := e][1..] == h[1..];
    }
  }

  /** The upsert adds one entry dated `e.date` exactly when there was none,
      and leaves the count of every other date alone. */
  lemma UpsertCount(h: seq<Entry>, e: Entry, d: Date)
    ensures CountDate(Upsert(h, e), d) ==
            if d == e.date && CountDate(h, d) == 0 then 1 else CountDate(h, d)
  {
    var i := DateIndex(h, e.date);
    if i > -1 {
      CountDateReplace(h, i, e, d);
    } else {
      CountDateConcat(h, [e], d);
      assert CountDate([e], d) == if e.date == d then 1 else 0 by { assert [e][1..] == []; }
    }
  }

  /** Saving for a day that had at most one entry leaves exactly one. */
  lemma UpsertLeavesOneForToday(h: seq<Entry>, e: Entry)
    requires CountDate(h, e.date) <= 1
    ensures CountDate(Upsert(h, e), e.date) == 1
  {
    UpsertCount(h, e, e.date);
  }

  /** The upsert never creates a second entry for a day. */
  lemma UpsertKeepsUnique(h: seq<Entry>, e: Entry)
    requires UniqueDates(h)
    ensures UniqueDates(Upsert(h, e))
  {
    forall d ensures CountDate(Upsert(h, e), d) <= 1 {
      UpsertCount(h, e, d);
    }
  }

  /** Reordering the history does not change how many entries a day has. */
  lemma {:induction false} PermutationKeepsCount(a: seq<Entry>, b: seq<Entry>, d: Date)
    requires multiset(a) == multiset(b)
    ensures CountDate(a, d) == CountDate(b, d)
  {
    if a == [] {
      assert |multiset(b)| == 0;
    } else {
      var x := a[0];
      assert x in multiset(b);
      var j :| 0 <= j < |b| && b[j] == x;
      var rest := b[..j] + b[j + 1..];
      assert b == b[..j] + [x] + b[j + 1..];
      assert multiset(b) == multiset(b[..j]) + multiset([x]) + multiset(b[j + 1..]);
      assert multiset(b) == multiset(rest) + multiset{x};
      assert a == [x] + a[1..];
      assert multiset(a) == multiset{x} + multiset(a[1..]);
      assert multiset(a[1..]) == multiset(a) - multiset{x};
      assert multiset(rest) == multiset(b) - multiset{x};
      PermutationKeepsCount(a[1..], rest, d);
      CountDateConcat(b[..j] + [x], b[j + 1..], d);
      CountDateConcat(b[..j], [x], d);
      CountDateConcat(b[..j], b[j + 1..], d);
      assert CountDate([x], d) == if x.date == d then 1 else 0 by { assert [x][1..] == []; }
    }
  }

  lemma PermutationKeepsUnique(a: seq<Entry>, b: seq<Entry>)
    requires multiset(a) == multiset(b) && UniqueDates(a)
    ensures UniqueDates(b)
  {
    forall d ensures CountDate(b, d) <= 1 {
      PermutationKeepsCount(a, b, d);
    }
  }

  /** A fresh entry saved into an empty history is all it holds. */
  lemma UpsertIntoEmpty(e: Entry)
    ensures Upsert([], e) == [e]
  {
  }

  /** Saving again on the day of the only stored entry replaces it. */
  lemma UpsertSameDay(stored: Entry, e: Entry)
    requires stored.date == e.date
    ensures Upsert([stored], e) == [e]
  {
    assert DateIndex([stored], e.date) == 0;
  }

  /** Two different positions of a history without repeated days hold different dates. */
  lemma {:induction false} UniqueDatesDiffer(h: seq<Entry>, i: nat, j: nat)
    requires UniqueDates(h) && i < j < |h|
    ensures h[i].date != h[j].date
  {
    var d := h[i].date;
    assert h == h[..j] + h[j..];
    CountDateConcat(h[..j], h[j..], d);
    assert h[..j][i].date == d;
    assert CountDate(h, d) <= 1;
    assert CountDate(h[j..], d) == 0;
    assert h[j..][0] == h[j];
  }

  /** Newest first and one entry per day: the dates strictly decrease. */
  predicate StrictlyNewestFirst(h: seq<Entry>) {
    forall p, q :: 0 <= p < q < |h| ==> h[p].date > h[q].date
  }

  lemma SortedUniqueIsStrict(h: seq<Entry>)
    requires NewestFirst(h) && UniqueDates(h)
    ensures StrictlyNewestFirst(h)
  {
    forall p, q | 0 <= p < q < |h| ensures h[p].date > h[q].date {
      UniqueDatesDiffer(h, p, q);
    }
  }

  lemma StrictTail(h: seq<Entry>)
    requires StrictlyNewestFirst(h) && h != []
    ensures StrictlyNewestFirst(h[1..])
  {
    forall p, q | 0 <= p < q < |h| - 1 ensures h[1..][p].date > h[1..][q].date {
      assert h[1..][p] == h[p + 1] && h[1..][q] == h[q + 1];
    }
  }

  /** Two strictly newest-first lists with the same entries start alike. */
  lemma StrictHeadsAgree(a: seq<Entry>, b: seq<Entry>)
    requires StrictlyNewestFirst(a) && StrictlyNewestFirst(b)
    requires multiset(a) == multiset(b) && a != []
    ensures b != [] && a[0] == b[0]
  {
    assert a[0] in multiset(b);
    var j :| 0 <= j < |b| && b[j] == a[0];
    assert b[0] in multiset(a);
    var k :| 0 <= k < |a| && a[k] == b[0];
    assert a[0].date >= a[k].date == b[0].date;
    assert b[0].date >= b[j].date == a[0].date;
    assert j == 0;
  }

  lemma MultisetTail(a: seq<Entry>, b: seq<Entry>)
    requires a != [] && b != [] && a[0] == b[0] && multiset(a) == multiset(b)
    ensures multiset(a[1..]) == multiset(b[1..])
  {
    assert a == [a[0]] + a[1..] && b == [b[0]] + b[1..];
    assert multiset(a[1..]) == multiset(a) - multiset{a[0]};
    assert multiset(b[1..]) == multiset(b) - multiset{b[0]};
  }

  /** A history without repeated days has exactly one newest-first order, so
      the saved list does not depend on how the sort treats ties. */
  lemma {:induction false} StrictOrderIsUnique(a: seq<Entry>, b: seq<Entry>)
    requires StrictlyNewestFirst(a) && StrictlyNewestFirst(b)
    requires multiset(a) == multiset(b)
    ensures a == b
  {
    if a == [] {
      assert |multiset(b)| == 0;
    } else {
      StrictHeadsAgree(a, b);
      MultisetTail(a, b);
      StrictTail(a);
      StrictTail(b);
      StrictOrderIsUnique(a[1..], b[1..]);
      assert a == [a[0]] + a[1..] && b == [b[0]] + b[1..];
    }
  }

  /** Exchanges the entries at `j - 1` and `j`. */
  method SwapDown(a: array<Entry>, j: int)
    requires 0 < j < a.Length
    modifies a
    ensures a[j - 1] == old(a[j]) && a[j] == old(a[j - 1])
    ensures forall k :: 0 <= k < a.Length && k != j - 1 && k != j ==> a[k] == old(a[k])
    ensures multiset(a[..]) == multiset(old(a[..]))
  {
    a[j - 1], a[j] := a[j], a[j - 1];
  }

  /** Sorts the working copy of the history newest first, in place (an
      insertion sort standing in for the runtime's array sort with the
      comparator "later date first"). */
  method SortNewestFirst(a: array<Entry>)
    modifies a
    ensures NewestFirst(a[..])
    ensures multiset(a[..]) == multiset(old(a[..]))
  {
    var i := 0;
    while i < a.Length
      invariant 0 <= i <= a.Length
      invariant forall p, q :: 0 <= p < q < i ==> a[p].date >= a[q].date
      invariant multiset(a[..]) == multiset(old(a[..]))
    {
      var j := i;
      while j > 0 && a[j - 1].date < a[j].date
        invariant 0 <= j <= i
        invariant forall p, q :: 0 <= p < q <= i && p != j && q != j ==> a[p].date >= a[q].date
        invariant forall q :: j < q <= i ==> a[j].date > a[q].date
        invariant multiset(a[..]) == multiset(old(a[..]))
      {
        SwapDown(a, j);
        j := j - 1;
      }
      i := i + 1;
    }
  }
}
