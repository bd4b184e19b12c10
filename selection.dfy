/** The collection-item multi-select: the page keeps the chosen item ids as a list and
    every click on an item flips that id's membership. */
module ItemSelection {

  /** `selected.filter(item => item !== id)`. */
  function Remove(selected: seq<int>, id: int): seq<int> {
    if selected == [] then []
    else (if selected[0] == id then [] else [selected[0]]) + Remove(selected[1..], id)
  }

  /** `r` is `s` with some elements left out and the rest kept in their order. */
  predicate IsSubsequence(r: seq<int>, s: seq<int>) {
    if r == [] then true
    else if s == [] then false
    else if r[0] == s[0] then IsSubsequence(r[1..], s[1..])
    else IsSubsequence(r, s[1..])
  }

  predicate Distinct(s: seq<int>) {
    forall i, j :: 0 <= i < j < |s| ==> s[i] != s[j]
  }

  /** The click handler: an id already selected is removed (every occurrence of it),
      any other id is appended at the end. */
  function Toggle(selected: seq<int>, id: int): (r: seq<int>)
    ensures id in r <==> id !in selected
  {
    if id in selected then
      RemoveSpec(selected, id);
      assert id !in multiset(Remove(selected, id));
      Remove(selected, id)
    else selected + [id]
  }

  /** Removal drops exactly the occurrences of `id` (every other id keeps its count)
      and keeps the remaining ids in their original order. */
  lemma {:induction false} RemoveSpec(s: seq<int>, id: int)
    ensures multiset(Remove(s, id)) == multiset(s)[id := 0]
    ensures IsSubsequence(Remove(s, id), s)
  {
    if s != [] {
      RemoveSpec(s[1..], id);
      assert s == [s[0]] + s[1..];
      var r := Remove(s, id);
      if s[0] == id {
        assert r == Remove(s[1..], id);
        assert id !in multiset(r);
        if r != [] {
          assert r[0] in multiset(r);
          assert r[0] != s[0];
        }
      } else {
        assert r == [s[0]] + Remove(s[1..], id);
        assert r[1..] == Remove(s[1..], id);
      }
    }
  }

  lemma {:induction false} RemoveAbsent(s: seq<int>, id: int)
    requires id !in s
    ensures Remove(s, id) == s
  {
    if s != [] {
      RemoveAbsent(s[1..], id);
      assert s == [s[0]] + s[1..];
    }
  }

  lemma {:induction false} RemoveAppend(s: seq<int>, x: int, id: int)
    ensures Remove(s + [x], id) == Remove(s, id) + Remove([x], id)
  {
    if s == [] {
      assert s + [x] == [x];
    } else {
      assert (s + [x])[1..] == s[1..] + [x];
      RemoveAppend(s[1..], x, id);
    }
  }

  lemma DistinctTail(s: seq<int>)
    requires Distinct(s) && s != []
    ensures Distinct(s[1..]) && s[0] !in multiset(s[1..])
  {
    forall i, j | 0 <= i < j < |s[1..]| ensures s[1..][i] != s[1..][j] {
      assert s[1..][i] == s[i + 1] && s[1..][j] == s[j + 1];
    }
    forall k | 0 <= k < |s[1..]| ensures s[1..][k] != s[0] {
      assert s[1..][k] == s[k + 1];
    }
  }

  lemma DistinctCons(x: int, s: seq<int>)
    requires Distinct(s) && x !in multiset(s)
    ensures Distinct([x] + s)
  {
    var r := [x] + s;
    forall i, j | 0 <= i < j < |r| ensures r[i] != r[j] {
      if i == 0 {
        assert r[j] == s[j - 1];
      } else {
        assert r[i] == s[i - 1] && r[j] == s[j - 1];
      }
    }
  }

  lemma {:induction false} RemoveDistinct(s: seq<int>, id: int)
    requires Distinct(s)
    ensures Distinct(Remove(s, id))
  {
    if s != [] {
      DistinctTail(s);
      RemoveDistinct(s[1..], id);
      var rest := Remove(s[1..], id);
      if s[0] != id {
        RemoveSpec(s[1..], id);
        assert s[0] !in multiset(rest);
        DistinctCons(s[0], rest);
      }
    }
  }

  /** What one click does, in full: a selected id disappears entirely, every other id
      keeps its number of occurrences and its relative order; an unselected id is
      appended at the end. */
  lemma ToggleSpec(s: seq<int>, id: int)
    ensures id in s ==> IsSubsequence(Toggle(s, id), s) && id !in Toggle(s, id)
    ensures id !in s ==> Toggle(s, id) == s + [id]
    ensures forall x :: x != id ==> multiset(Toggle(s, id))[x] == multiset(s)[x]
  {
    RemoveSpec(s, id);
  }

  /** Clicking the same item twice restores the original membership; when the item was
      not selected before, the list itself comes back unchanged. */
  lemma ToggleTwice(s: seq<int>, id: int)
    ensures forall x :: x in Toggle(Toggle(s, id), id) <==> x in s
    ensures id !in s ==> Toggle(Toggle(s, id), id) == s
  {
    var once := Toggle(s, id);
    var twice := Toggle(once, id);
    if id in s {
      RemoveSpec(s, id);
      assert once == Remove(s, id);
      assert twice == once + [id];
      forall x ensures x in twice <==> x in s {
        if x != id {
          assert x in twice <==> x in multiset(once);
          assert x in s <==> x in multiset(s);
        }
      }
    } else {
      RemoveAppend(s, id, id);
      RemoveAbsent(s, id);
      assert Remove([id], id) == [];
      assert twice == Remove(s + [id], id);
    }
  }

  /** A duplicate-free selection stays duplicate-free under any click. */
  lemma ToggleDistinct(s: seq<int>, id: int)
    requires Distinct(s)
    ensures Distinct(Toggle(s, id))
  {
    if id in s {
      RemoveDistinct(s, id);
    } else {
      var r := s + [id];
      forall i, j | 0 <= i < j < |r| ensures r[i] != r[j] {
        if j == |s| {
          assert r[i] == s[i];
        }
      }
    }
  }
}
