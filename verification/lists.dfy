/** Python's `list.remove(x)`: delete the first element equal to `x`, or raise `ValueError`. */
module Lists {
  import opened Wrappers

  /** Position of the first element equal to `x`, or `|s|` when there is none. */
  function IndexOf<T(==)>(s: seq<T>, x: T): (i: nat)
    ensures i <= |s|
    ensures i < |s| ==> s[i] == x
    ensures x !in s[..i]
  {
    if s == [] then 0
    else if s[0] == x then 0
    else
      var i := 1 + IndexOf(s[1..], x);
      assert s[..i] == [s[0]] + s[1..][..i - 1];
      i
  }

  /** `s.remove(x)`: `None` stands for the `ValueError` Python raises when `x` is absent.
      Otherwise exactly the first occurrence of `x` is gone, and everything before it and
      everything after it keeps its place and order. */
  function RemoveFirst<T(==)>(s: seq<T>, x: T): (r: Option<seq<T>>)
    ensures r.None? <==> x !in s
    ensures r.Some? ==> |r.value| == |s| - 1
    ensures r.Some? ==> multiset(r.value) == multiset(s) - multiset{x}
    ensures r.Some? ==> var i := IndexOf(s, x);
                        i < |s| && r.value[..i] == s[..i] && r.value[i..] == s[i + 1..]
  {
    var i := IndexOf(s, x);
    if i == |s| then
      assert s[..i] == s;
      None
    else
      assert s == s[..i] + [x] + s[i + 1..];
      Some(s[..i] + s[i + 1..])
  }

  /** Removing an element that was just appended, and was not already present, undoes the append. */
  lemma RemoveAppended<T>(s: seq<T>, x: T)
    requires x !in s
    ensures RemoveFirst(s + [x], x) == Some(s)
  {
    var t := s + [x];
    assert IndexOf(t, x) == |s| by {
      assert forall k :: 0 <= k < |s| ==> t[k] == s[k] && s[k] != x;
      assert t[..|t|] == t && t[|s|] == x;
    }
    assert t[..|s|] + t[|s| + 1..] == s;
  }

  /** Order is kept: from [a, b, c] removing b leaves [a, c], also when a equals b. */
  lemma RemoveMiddle<T>(a: T, b: T, c: T)
    ensures RemoveFirst([a, b, c], b) == Some([a, c])
  {
    if a == b {
      assert IndexOf([a, b, c], b) == 0;
      assert [a, b, c][..0] + [a, b, c][1..] == [a, c];
    } else {
      assert [a, b, c][1..] == [b, c];
      assert IndexOf([a, b, c], b) == 1;
      assert [a, b, c][..1] + [a, b, c][2..] == [a, c];
    }
  }

  /** With value-equal duplicates, removing the first equal element and removing a chosen
      occurrence leave the same elements, only possibly in a different order. */
  lemma RemoveFirstSameElements<T>(s: seq<T>, k: nat)
    requires k < |s|
    ensures RemoveFirst(s, s[k]).Some?
    ensures multiset(RemoveFirst(s, s[k]).value) == multiset(s[..k] + s[k + 1..])
  {
    assert s == s[..k] + [s[k]] + s[k + 1..];
  }

  /** ... but the order can differ: in [a, b, a], deleting the row of the second `a` through
      `remove` drops the first `a` instead, leaving [b, a] rather than [a, b]. */
  lemma RemoveFirstNotPositional<T>(a: T, b: T)
    requires a != b
    ensures RemoveFirst([a, b, a], a) == Some([b, a])
    ensures RemoveFirst([a, b, a], a).value != [a, b, a][..2] + [a, b, a][3..]
  {
    var s := [a, b, a];
    assert RemoveFirst(s, a) == Some([b, a]) by {
      assert IndexOf(s, a) == 0;
      assert s[..0] + s[1..] == [b, a];
    }
    assert s[..2] + s[3..] == [a, b];
    assert [b, a][0] != [a, b][0];
  }
}
