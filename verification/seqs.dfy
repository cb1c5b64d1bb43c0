/** Sequence helpers shared by the store, the hooks and the pages: the
    `filter`, `findIndex`, `splice(i, 1)` and `map`-replace patterns that the
    application applies to its arrays. */
module Seqs {

  datatype Option<+T> = None | Some(value: T)

  /** `a` is an order-preserving subsequence of `b`. */
  ghost predicate IsSubsequence<T>(a: seq<T>, b: seq<T>)
    decreases |b|
  {
    if |a| == 0 then true
    else if |b| == 0 then false
    else (a[0] == b[0] && IsSubsequence(a[1..], b[1..])) || IsSubsequence(a, b[1..])
  }

  /** Number of positions of `s` whose element satisfies `p`. */
  function CountWhere<T>(s: seq<T>, p: T -> bool): nat
  {
    if |s| == 0 then 0
    else (if p(s[0]) then 1 else 0) + CountWhere(s[1..], p)
  }

  /** `Array.prototype.filter`: the elements satisfying `p`, in order. */
  function Filter<T>(s: seq<T>, p: T -> bool): (r: seq<T>)
    ensures |r| == CountWhere(s, p) && |r| <= |s|
    ensures forall i :: 0 <= i < |r| ==> p(r[i])
  {
    if |s| == 0 then []
    else if p(s[0]) then [s[0]] + Filter(s[1..], p)
    else Filter(s[1..], p)
  }

  /** An element is in the filtered sequence iff it is in the original and
      satisfies the predicate. */
  lemma {:induction false} FilterMembership<T>(s: seq<T>, p: T -> bool, x: T)
    ensures x in Filter(s, p) <==> x in s && p(x)
  {
    if |s| > 0 {
      FilterMembership(s[1..], p, x);
      assert s == [s[0]] + s[1..];
    }
  }

  lemma {:induction false} FilterIsSubsequence<T>(s: seq<T>, p: T -> bool)
    ensures IsSubsequence(Filter(s, p), s)
  {
    if |s| > 0 {
      FilterIsSubsequence(s[1..], p);
      var rest := Filter(s[1..], p);
      if p(s[0]) {
        assert Filter(s, p) == [s[0]] + rest;
        assert ([s[0]] + rest)[1..] == rest;
      } else {
        if |rest| > 0 {
          assert IsSubsequence(rest, s[1..]);
        }
      }
    }
  }

  /** Filtering with a predicate that every element satisfies changes nothing. */
  lemma {:induction false} FilterKeepsAll<T>(s: seq<T>, p: T -> bool)
    requires forall i :: 0 <= i < |s| ==> p(s[i])
    ensures Filter(s, p) == s
  {
    if |s| > 0 {
      FilterKeepsAll(s[1..], p);
      assert [s[0]] + s[1..] == s;
    }
  }

  /** Filtering with a predicate no element satisfies leaves nothing. */
  lemma {:induction false} FilterDropsAll<T>(s: seq<T>, p: T -> bool)
    requires forall i :: 0 <= i < |s| ==> !p(s[i])
    ensures Filter(s, p) == []
  {
    if |s| > 0 {
      FilterDropsAll(s[1..], p);
    }
  }

  /** Filtering twice, where the second predicate implies the first, is
      filtering once with the second. */
  lemma {:induction false} FilterFilter<T>(s: seq<T>, p: T -> bool, q: T -> bool)
    requires forall x :: q(x) ==> p(x)
    ensures Filter(Filter(s, p), q) == Filter(s, q)
  {
    if |s| > 0 {
      FilterFilter(s[1..], p, q);
      if p(s[0]) {
        assert Filter(s, p) == [s[0]] + Filter(s[1..], p);
        assert ([s[0]] + Filter(s[1..], p))[1..] == Filter(s[1..], p);
      }
    }
  }

  /** Two filters commute. */
  lemma {:induction false} FilterCommute<T>(s: seq<T>, p: T -> bool, q: T -> bool)
    ensures Filter(Filter(s, p), q) == Filter(Filter(s, q), p)
  {
    if |s| > 0 {
      FilterCommute(s[1..], p, q);
      var x, rest := s[0], s[1..];
      if p(x) {
        assert ([x] + Filter(rest, p))[1..] == Filter(rest, p);
      }
      if q(x) {
        assert ([x] + Filter(rest, q))[1..] == Filter(rest, q);
      }
    }
  }

  lemma {:induction false} FilterAppend<T>(a: seq<T>, b: seq<T>, p: T -> bool)
    ensures Filter(a + b, p) == Filter(a, p) + Filter(b, p)
  {
    if |a| == 0 {
      assert a + b == b;
    } else {
      assert (a + b)[1..] == a[1..] + b;
      FilterAppend(a[1..], b, p);
    }
  }

  /** Filtering a prefix one element longer adds that element iff it
      passes. */
  lemma FilterSnoc<T>(s: seq<T>, i: nat, p: T -> bool)
    requires i < |s|
    ensures Filter(s[..i + 1], p) == Filter(s[..i], p) + (if p(s[i]) then [s[i]] else [])
  {
    assert s[..i + 1] == s[..i] + [s[i]];
    FilterAppend(s[..i], [s[i]], p);
    assert Filter([s[i]], p) == (if p(s[i]) then [s[i]] else []) by {
      assert [s[i]][1..] == [];
    }
  }

  /** Filtering a sequence with one element removed: when the removed element
      fails the predicate, the filtered result is the same. */
  lemma {:induction false} FilterRemoveAtUnmatched<T>(s: seq<T>, i: nat, p: T -> bool)
    requires i < |s| && !p(s[i])
    ensures Filter(RemoveAt(s, i), p) == Filter(s, p)
  {
    var before, after := s[..i], s[i+1..];
    assert s == before + [s[i]] + after;
    assert Filter([s[i]], p) == [];
    FilterAppend(before + [s[i]], after, p);
    FilterAppend(before, [s[i]], p);
    FilterAppend(before, after, p);
    calc {
      Filter(s, p);
      Filter(before + [s[i]], p) + Filter(after, p);
      Filter(before, p) + Filter([s[i]], p) + Filter(after, p);
      Filter(before + after, p);
    }
  }

  /** `Array.prototype.findIndex`: the first index whose element satisfies
      `p`, or None (-1 in the source) when there is none. */
  function FirstIndex<T>(s: seq<T>, p: T -> bool): (r: Option<nat>)
    ensures r.Some? ==> r.value < |s| && p(s[r.value])
    ensures r.Some? ==> forall j :: 0 <= j < r.value ==> !p(s[j])
    ensures r.None? <==> forall j :: 0 <= j < |s| ==> !p(s[j])
  {
    if |s| == 0 then None
    else if p(s[0]) then Some(0)
    else match FirstIndex(s[1..], p)
      case None => None
      case Some(k) => Some(k + 1)
  }

  /** `splice(i, 1)`: the sequence without its element at `i`. */
  function RemoveAt<T>(s: seq<T>, i: nat): (r: seq<T>)
    requires i < |s|
    ensures |r| == |s| - 1
    ensures forall j :: 0 <= j < i ==> r[j] == s[j]
    ensures forall j :: i <= j < |r| ==> r[j] == s[j + 1]
  {
    s[..i] + s[i+1..]
  }

  /** `prev.map(x => idOf(x) === id ? v : x)`: every element whose id is
      `id` becomes `v`, the others stay where they are. */
  function ReplaceWhere<T>(s: seq<T>, idOf: T -> string, id: string, v: T): (r: seq<T>)
    ensures |r| == |s|
    ensures forall i :: 0 <= i < |s| ==> r[i] == (if idOf(s[i]) == id then v else s[i])
  {
    if |s| == 0 then []
    else [if idOf(s[0]) == id then v else s[0]] + ReplaceWhere(s[1..], idOf, id, v)
  }

  /** The predicate "has id `id`" over records whose id is read by `idOf`. */
  function IdIs<T>(idOf: T -> string, id: string): T -> bool
  {
    x => idOf(x) == id
  }

  function IdIsNot<T>(idOf: T -> string, id: string): T -> bool
  {
    x => idOf(x) != id
  }

  /** `s.findIndex(x => x.id === id)`. */
  function IndexOfId<T>(s: seq<T>, idOf: T -> string, id: string): (r: Option<nat>)
    ensures r.Some? ==> r.value < |s| && idOf(s[r.value]) == id
    ensures r.Some? ==> forall j :: 0 <= j < r.value ==> idOf(s[j]) != id
    ensures r.None? <==> forall j :: 0 <= j < |s| ==> idOf(s[j]) != id
  {
    FirstIndex(s, IdIs(idOf, id))
  }

  /** Replacing the first element carrying `id` by another element with the
      same id leaves it the first one carrying `id`. */
  lemma IndexOfIdAfterUpdate<T>(s: seq<T>, idOf: T -> string, id: string, i: nat, x: T)
    requires IndexOfId(s, idOf, id) == Some(i)
    requires idOf(x) == id
    ensures IndexOfId(s[i := x], idOf, id) == Some(i)
  {
    var s' := s[i := x];
    assert forall j :: 0 <= j < i ==> s'[j] == s[j];
    var r := IndexOfId(s', idOf, id);
    assert idOf(s'[i]) == id;
    assert r.Some?;
    assert r.value >= i;
  }

  /** `s.filter(x => x.id !== id)`: every element not carrying `id`, in order. */
  function WithoutId<T>(s: seq<T>, idOf: T -> string, id: string): (r: seq<T>)
    ensures |r| <= |s|
    ensures forall i :: 0 <= i < |r| ==> idOf(r[i]) != id
  {
    Filter(s, IdIsNot(idOf, id))
  }

  /** Every element has a different id. */
  ghost predicate UniqueIds<T>(s: seq<T>, idOf: T -> string)
  {
    forall i, j :: 0 <= i < j < |s| ==> idOf(s[i]) != idOf(s[j])
  }

  /** With unique ids, replacing every element carrying `id` is replacing the
      one at its index: the store's `findIndex` update and the hooks' `map`
      update agree. */
  lemma ReplaceWhereUnique<T>(s: seq<T>, idOf: T -> string, id: string, v: T, i: nat)
    requires UniqueIds(s, idOf) && i < |s| && idOf(s[i]) == id
    ensures ReplaceWhere(s, idOf, id, v) == s[i := v]
  {
  }

  /** With unique ids, removing every element carrying `id` is removing the
      one at its index: the store's `splice` and the hooks' `filter` agree. */
  lemma {:induction false} WithoutIdUnique<T>(s: seq<T>, idOf: T -> string, id: string, i: nat)
    requires UniqueIds(s, idOf) && i < |s| && idOf(s[i]) == id
    ensures WithoutId(s, idOf, id) == RemoveAt(s, i)
  {
    var p := IdIsNot(idOf, id);
    forall k | 0 <= k < |s| && k != i
      ensures p(s[k])
    {
      if k < i {
        assert idOf(s[k]) != idOf(s[i]);
      } else {
        assert idOf(s[i]) != idOf(s[k]);
      }
    }
    FilterRemoveOne(s, i, p);
  }

  /** Filtering out exactly one position is removing that position. */
  lemma {:induction false} FilterRemoveOne<T>(s: seq<T>, i: nat, p: T -> bool)
    requires i < |s| && !p(s[i])
    requires forall k :: 0 <= k < |s| && k != i ==> p(s[k])
    ensures Filter(s, p) == RemoveAt(s, i)
  {
    var before, after := s[..i], s[i+1..];
    assert s == before + [s[i]] + after;
    assert forall k :: 0 <= k < |before| ==> p(before[k]) by {
      forall k | 0 <= k < |before| ensures p(before[k]) {
        assert before[k] == s[k];
      }
    }
    assert forall k :: 0 <= k < |after| ==> p(after[k]) by {
      forall k | 0 <= k < |after| ensures p(after[k]) {
        assert after[k] == s[i + 1 + k];
      }
    }
    FilterKeepsAll(before, p);
    FilterKeepsAll(after, p);
    assert Filter([s[i]], p) == [];
    FilterAppend(before + [s[i]], after, p);
    FilterAppend(before, [s[i]], p);
    calc {
      Filter(s, p);
      Filter(before + [s[i]], p) + Filter(after, p);
      Filter(before, p) + Filter([s[i]], p) + Filter(after, p);
      before + after;
    }
  }
}
