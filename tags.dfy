/** The draft's tag list and the toggle that edits it. */
module Tags {

  /** No tag occurs twice in the list. */
  predicate Distinct(s: seq<string>) {
    forall i, j :: 0 <= i < j < |s| ==> s[i] != s[j]
  }

  /** Position of the first occurrence of `x`, or -1 when it is absent
      (strict equality, as the list search of the board does). */
  function IndexOf(s: seq<string>, x: string): (i: int)
    ensures -1 <= i < |s|
    ensures i == -1 <==> x !in s
    ensures 0 <= i ==> s[i] == x && x !in s[..i]
  {
    if s == [] then -1
    else if s[0] == x then 0
    else
      var j := IndexOf(s[1..], x);
      assert j >= 0 ==> s[..j + 1] == [s[0]] + s[1..][..j];
      if j == -1 then -1 else j + 1
  }

  /** Removes the element at position `i`, keeping the rest in order. */
  function RemoveAt(s: seq<string>, i: nat): (r: seq<string>)
    requires i < |s|
    ensures |r| == |s| - 1
    ensures forall k :: 0 <= k < i ==> r[k] == s[k]
    ensures forall k :: i <= k < |r| ==> r[k] == s[k + 1]
  {
    s[..i] + s[i + 1..]
  }

  /** A tag click: drop the first occurrence of the tag when it is selected,
      otherwise append it at the end. */
  function Toggled(tags: seq<string>, t: string): (r: seq<string>)
    ensures t in tags ==> |r| == |tags| - 1 && multiset(r) == multiset(tags) - multiset{t}
    ensures t !in tags ==> |r| == |tags| + 1 && multiset(r) == multiset(tags) + multiset{t}
  {
    var i := IndexOf(tags, t);
    if i > -1 then
      assert tags == tags[..i] + [t] + tags[i + 1..];
      RemoveAt(tags, i)
    else
      tags + [t]
  }

  /** The list with every occurrence of `t` filtered out. */
  function Without(s: seq<string>, t: string): (r: seq<string>)
    ensures t !in r
    ensures |r| <= |s|
  {
    if s == [] then [] else (if s[0] == t then [] else [s[0]]) + Without(s[1..], t)
  }

  lemma {:induction false} WithoutConcat(a: seq<string>, b: seq<string>, t: string)
    ensures Without(a + b, t) == Without(a, t) + Without(b, t)
  {
    if a == [] {
      assert a + b == b;
    } else {
      assert (a + b)[1..] == a[1..] + b;
      WithoutConcat(a[1..], b, t);
    }
  }

  /** A present tag loses its first occurrence; an absent one is appended. */
  lemma ToggleEffect(tags: seq<string>, t: string)
    ensures t in tags ==> exists i :: 0 <= i < |tags| && tags[i] == t && t !in tags[..i]
                                   && Toggled(tags, t) == tags[..i] + tags[i + 1..]
    ensures t !in tags ==> Toggled(tags, t) == tags + [t]
  {
    var i := IndexOf(tags, t);
    if i > -1 {
      assert tags[i] == t && t !in tags[..i];
      assert Toggled(tags, t) == tags[..i] + tags[i + 1..];
    }
  }

  /** On a duplicate-free list, membership of the toggled tag flips and the
      list stays duplicate-free. */
  lemma ToggleFlipsMembership(tags: seq<string>, t: string)
    requires Distinct(tags)
    ensures (t in Toggled(tags, t)) == (t !in tags)
    ensures Distinct(Toggled(tags, t))
  {
    var r := Toggled(tags, t);
    var i := IndexOf(tags, t);
    if i > -1 {
      forall k | 0 <= k < |r| ensures r[k] != t {
        if k < i { assert tags[k] != tags[i]; } else { assert tags[k + 1] != tags[i]; }
      }
    } else {
      assert r == tags + [t];
      forall p, q | 0 <= p < q < |r| ensures r[p] != r[q] {
        if q == |tags| { assert r[p] == tags[p]; }
      }
    }
  }

  /** Dropping one occurrence of `t` does not change the list with `t` filtered out. */
  lemma WithoutSkipsOne(before: seq<string>, after: seq<string>, t: string)
    ensures Without(before + ([t] + after), t) == Without(before + after, t)
  {
    assert Without([t], t) == [] by { assert [t][1..] == []; }
    WithoutConcat(before, [t] + after, t);
    WithoutConcat([t], after, t);
    WithoutConcat(before, after, t);
  }

  /** Every other tag keeps its relative order: filtering the toggled tag out
      gives the same list before and after. */
  lemma ToggleKeepsOthers(tags: seq<string>, t: string)
    ensures Without(Toggled(tags, t), t) == Without(tags, t)
  {
    var i := IndexOf(tags, t);
    if i > -1 {
      var before, after := tags[..i], tags[i + 1..];
      assert tags == before + ([t] + after);
      assert Toggled(tags, t) == before + after;
      WithoutSkipsOne(before, after, t);
    } else {
      WithoutConcat(tags, [t], t);
    }
  }

  /** Selecting an unselected tag and clicking it again restores the list exactly. */
  lemma ToggleTwiceAbsent(tags: seq<string>, t: string)
    requires t !in tags
    ensures Toggled(Toggled(tags, t), t) == tags
  {
    var once := tags + [t];
    assert IndexOf(once, t) == |tags| by {
      assert once[..|tags|] == tags;
    }
    assert RemoveAt(once, |tags|) == tags;
  }

  /** Deselecting a selected tag and clicking it again puts it at the end: the
      same set of tags, with that tag moved last. */
  lemma ToggleTwicePresent(tags: seq<string>, t: string)
    requires Distinct(tags) && t in tags
    ensures Toggled(Toggled(tags, t), t) == RemoveAt(tags, IndexOf(tags, t)) + [t]
    ensures forall x :: x in Toggled(Toggled(tags, t), t) <==> x in tags
  {
    var i := IndexOf(tags, t);
    ToggleFlipsMembership(tags, t);
    var once := Toggled(tags, t);
    assert t !in once;
    assert tags == tags[..i] + [t] + tags[i + 1..];
  }
}
