/**
 * Scans and counts over sequences, shared by every table of the model: the first element that passes a test, how many
 * pass, those that pass, and what is left when elements are taken out.
 *
 * Tests are functions to bool.
 */
module Sequences {

  /** The index at which a first-match scan of `s` stops; `|s|` when nothing matches. */
  function First<T>(s: seq<T>, p: T -> bool): (i: nat)
    ensures i <= |s|
    ensures i < |s| ==> p(s[i])
    ensures forall j :: 0 <= j < i ==> !p(s[j])
  {
    if |s| == 0 || p(s[0]) then 0 else
      var i := First(s[1..], p);
      assert forall j :: 1 <= j < i + 1 ==> s[j] == s[1..][j - 1];
      1 + i
  }

  function Repeated<T>(v: T, n: nat): (r: seq<T>)
    ensures |r| == n && forall i :: 0 <= i < n ==> r[i] == v
  {
    seq(n, i => v)
  }

  lemma {:induction false} FirstAppended<T>(s: seq<T>, v: T, p: T -> bool)
    requires First(s, p) == |s| && p(v)
    ensures First(s + [v], p) == |s|
  {
    if |s| > 0 {
      assert (s + [v])[1..] == s[1..] + [v];
      FirstAppended(s[1..], v, p);
    }
  }

  /** How many elements of `s` satisfy `p`. */
  function Count<T>(s: seq<T>, p: T -> bool): (n: nat)
  {
    if |s| == 0 then 0 else (if p(s[0]) then 1 else 0) + Count(s[1..], p)
  }

  lemma {:induction false} CountUpdate<T>(s: seq<T>, i: nat, v: T, p: T -> bool)
    requires i < |s|
    ensures Count(s[i := v], p) == Count(s, p) - (if p(s[i]) then 1 else 0) + (if p(v) then 1 else 0)
  {
    var t := s[i := v];
    if i == 0 {
      assert t[1..] == s[1..];
    } else {
      assert t[1..] == s[1..][i - 1 := v];
      CountUpdate(s[1..], i - 1, v, p);
    }
  }

  /** Sequences that agree pointwise on a predicate count alike. */
  lemma {:induction false} CountAlike<T, U>(s: seq<T>, t: seq<U>, p: T -> bool, q: U -> bool)
    requires |s| == |t|
    requires forall i :: 0 <= i < |s| ==> p(s[i]) == q(t[i])
    ensures Count(s, p) == Count(t, q)
  {
    if |s| > 0 {
      assert p(s[0]) == q(t[0]);
      assert forall i :: 0 <= i < |s| - 1 ==> p(s[1..][i]) == p(s[i + 1]) && q(t[1..][i]) == q(t[i + 1]);
      CountAlike(s[1..], t[1..], p, q);
    }
  }

  lemma {:induction false} CountNone<T>(s: seq<T>, p: T -> bool)
    requires forall i :: 0 <= i < |s| ==> !p(s[i])
    ensures Count(s, p) == 0
  {
    if |s| > 0 {
      assert !p(s[0]);
      CountNone(s[1..], p);
    }
  }

  lemma {:induction false} CountZeroIff<T>(s: seq<T>, p: T -> bool)
    ensures Count(s, p) == 0 <==> forall i :: 0 <= i < |s| ==> !p(s[i])
  {
    if |s| > 0 {
      CountZeroIff(s[1..], p);
      assert forall i :: 1 <= i < |s| ==> s[i] == s[1..][i - 1];
      assert forall i :: 0 <= i < |s| - 1 ==> s[1..][i] == s[i + 1];
    }
  }

  /** Element i is the only one that satisfies `p`. */
  ghost predicate OnlyAt<T>(s: seq<T>, p: T -> bool, i: nat) {
    i < |s| && p(s[i]) && forall k :: 0 <= k < |s| && k != i ==> !p(s[k])
  }

  lemma {:induction false} CountOneIff<T>(s: seq<T>, p: T -> bool)
    ensures Count(s, p) == 1 <==> exists i: nat :: OnlyAt(s, p, i)
  {
    CountZeroIff(s, p);
    var f := First(s, p);
    if f < |s| {
      CountSplit(s, f, p);
      CountNone(s[..f], p);
      CountZeroIff(s[f + 1..], p);
      var rest := s[f + 1..];
      assert forall k :: f < k < |s| ==> s[k] == rest[k - f - 1];
      assert forall k :: 0 <= k < |rest| ==> rest[k] == s[f + 1..][k];
      assert Count(s, p) == 1 <==> OnlyAt(s, p, f);
    }
  }

  lemma {:induction false} CountSplit<T>(s: seq<T>, i: nat, p: T -> bool)
    requires i < |s|
    ensures Count(s, p) == Count(s[..i], p) + (if p(s[i]) then 1 else 0) + Count(s[i + 1..], p)
  {
    CountConcat(s[..i], s[i..], p);
    assert s == s[..i] + s[i..] && s[i..][1..] == s[i + 1..];
  }

  lemma {:induction false} CountAppend<T>(s: seq<T>, v: T, p: T -> bool)
    ensures Count(s + [v], p) == Count(s, p) + (if p(v) then 1 else 0)
  {
    if |s| > 0 {
      assert (s + [v])[1..] == s[1..] + [v];
      CountAppend(s[1..], v, p);
    } else {
      assert s + [v] == [v];
      assert [v][1..] == [];
    }
  }

  lemma {:induction false} CountConcat<T>(s: seq<T>, t: seq<T>, p: T -> bool)
    ensures Count(s + t, p) == Count(s, p) + Count(t, p)
  {
    if |s| == 0 {
      assert s + t == t;
    } else {
      assert (s + t)[1..] == s[1..] + t;
      CountConcat(s[1..], t, p);
    }
  }

  lemma {:induction false} CountBounds<T>(s: seq<T>, p: T -> bool)
    ensures Count(s, p) <= |s|
    ensures Count(s, p) == |s| <==> forall i :: 0 <= i < |s| ==> p(s[i])
  {
    if |s| > 0 {
      CountBounds(s[1..], p);
      assert forall i :: 1 <= i < |s| ==> s[i] == s[1..][i - 1];
      assert forall i :: 0 <= i < |s| - 1 ==> s[1..][i] == s[i + 1];
    }
  }

  /** The elements of `s` satisfying `p`, in order. */
  function Filter<T>(s: seq<T>, p: T -> bool): (r: seq<T>)
  {
    if |s| == 0 then [] else (if p(s[0]) then [s[0]] else []) + Filter(s[1..], p)
  }

  lemma {:induction false} FilterConcat<T>(s: seq<T>, t: seq<T>, p: T -> bool)
    ensures Filter(s + t, p) == Filter(s, p) + Filter(t, p)
  {
    if |s| == 0 {
      assert s + t == t;
    } else {
      assert (s + t)[1..] == s[1..] + t;
      FilterConcat(s[1..], t, p);
      ConcatAssociates(if p(s[0]) then [s[0]] else [], Filter(s[1..], p), Filter(t, p));
    }
  }

  /** A filtered sequence holds exactly the elements that pass: each stands at the number of those before it. */
  lemma {:induction false} FilterPlace<T>(s: seq<T>, p: T -> bool, j: nat)
    requires j < |s| && p(s[j])
    ensures Count(s[..j], p) < |Filter(s, p)| == Count(s, p)
    ensures Filter(s, p)[Count(s[..j], p)] == s[j]
  {
    FilterLength(s, p);
    if j > 0 {
      assert s[..j][1..] == s[1..][..j - 1];
      FilterPlace(s[1..], p, j - 1);
    }
  }

  lemma {:induction false} FilterLength<T>(s: seq<T>, p: T -> bool)
    ensures |Filter(s, p)| == Count(s, p)
  {
    if |s| > 0 { FilterLength(s[1..], p); }
  }

  lemma {:induction false} FilterPasses<T>(s: seq<T>, p: T -> bool, i: nat)
    requires i < |Filter(s, p)|
    ensures p(Filter(s, p)[i]) && Filter(s, p)[i] in s
  {
    var n := if p(s[0]) then 1 else 0;
    if i >= n { FilterPasses(s[1..], p, i - n); }
  }

  function Is<T(==)>(x: T): T -> bool { (y: T) => y == x }

  function Not<T>(p: T -> bool): T -> bool { (x: T) => !p(x) }

  /** What passes a filter and what does not make up the whole. */
  lemma {:induction false} CountPartition<T>(s: seq<T>, p: T -> bool, q: T -> bool)
    ensures Count(Filter(s, p), q) + Count(Filter(s, Not(p)), q) == Count(s, q)
  {
    if |s| > 0 {
      var here, there := if p(s[0]) then p else Not(p), if p(s[0]) then Not(p) else p;
      assert Filter(s, here) == [s[0]] + Filter(s[1..], here);
      assert ([s[0]] + Filter(s[1..], here))[1..] == Filter(s[1..], here);
      assert Filter(s, there) == [] + Filter(s[1..], there) == Filter(s[1..], there);
      CountPartition(s[1..], p, q);
    }
  }

  // ----- what is left when elements are taken out -----

  /** `f` names, in order, the places in `t` of the elements of `s`. */
  ghost predicate Embeds<T>(f: seq<nat>, s: seq<T>, t: seq<T>) {
    && |f| == |s|
    && (forall i, j :: 0 <= i < j < |f| ==> f[i] < f[j])
    && (forall i :: 0 <= i < |f| ==> f[i] < |t| && t[f[i]] == s[i])
  }

  /** `s` is `t` with some elements taken out. */
  ghost predicate Sublist<T>(s: seq<T>, t: seq<T>) {
    exists f: seq<nat> :: Embeds(f, s, t)
  }

  lemma SublistReflexive<T>(s: seq<T>)
    ensures Sublist(s, s)
  {
    assert Embeds(seq(|s|, i => i), s, s);
  }

  lemma SublistEmpty<T>(s: seq<T>)
    ensures Sublist([], s)
  {
    assert Embeds([], [], s);
  }

  /** A common first element makes no difference. */
  lemma SublistHead<T>(v: T, s: seq<T>, t: seq<T>)
    ensures Sublist([v] + s, [v] + t) <==> Sublist(s, t)
  {
    var a, b := [v] + s, [v] + t;
    assert (forall i :: 0 <= i < |s| ==> a[i + 1] == s[i]) && forall i :: 0 < i < |b| ==> b[i] == t[i - 1];
    if f: seq<nat> :| Embeds(f, a, b) { EmbedsBehind(f, a, b, s, t); }
    if f: seq<nat> :| Embeds(f, s, t) { EmbedsAhead(f, a, b, s, t); }
  }

  lemma EmbedsAhead<T>(f: seq<nat>, a: seq<T>, b: seq<T>, s: seq<T>, t: seq<T>)
    requires Embeds(f, s, t) && |a| == |s| + 1 && |b| == |t| + 1 && a[0] == b[0]
    requires forall i :: 0 <= i < |s| ==> a[i + 1] == s[i]
    requires forall i :: 0 < i < |b| ==> b[i] == t[i - 1]
    ensures Sublist(a, b)
  {
    var h: seq<nat> := seq(|a|, i requires 0 <= i < |a| => if i == 0 then 0 else f[i - 1] + 1);
    assert forall i :: 0 < i < |a| ==> a[i] == s[i - 1];
    assert Embeds(h, a, b);
  }

  lemma EmbedsBehind<T>(f: seq<nat>, a: seq<T>, b: seq<T>, s: seq<T>, t: seq<T>)
    requires Embeds(f, a, b) && |a| == |s| + 1 && |b| == |t| + 1
    requires forall i :: 0 <= i < |s| ==> a[i + 1] == s[i]
    requires forall i :: 0 < i < |b| ==> b[i] == t[i - 1]
    ensures Sublist(s, t)
  {
    var g := f[1..];
    assert forall i :: 0 <= i < |g| ==> f[0] < g[i] && b[g[i]] == a[i + 1];
    var h: seq<nat> := seq(|g|, i requires 0 <= i < |g| => g[i] - 1);
    assert Embeds(h, s, t);
  }

  /** A first element of the longer list that the shorter one does not start with is among those taken out. */
  lemma SublistSkip<T>(v: T, s: seq<T>, w: T, t: seq<T>)
    requires v != w
    ensures Sublist([v] + s, [w] + t) <==> Sublist([v] + s, t)
  {
    var u := [v] + s;
    if f: seq<nat> :| Embeds(f, u, [w] + t) {
      assert f[0] != 0;
      assert Embeds(seq(|u|, i requires 0 <= i < |u| => f[i] - 1), u, t) by {
        assert forall i :: 0 < i < |u| ==> f[i] > f[0];
      }
    }
    if f: seq<nat> :| Embeds(f, u, t) {
      assert Embeds(seq(|u|, i requires 0 <= i < |u| => f[i] + 1), u, [w] + t);
    }
  }

  lemma SublistTransitive<T>(s: seq<T>, t: seq<T>, u: seq<T>)
    requires Sublist(s, t) && Sublist(t, u)
    ensures Sublist(s, u)
  {
    var f: seq<nat> :| Embeds(f, s, t);
    var g: seq<nat> :| Embeds(g, t, u);
    assert Embeds(seq(|s|, i requires 0 <= i < |s| => g[f[i]]), s, u);
  }

  lemma SublistWithout<T>(s: seq<T>, k: nat)
    requires k < |s|
    ensures Sublist(s[..k] + s[k + 1..], s)
  {
    assert Embeds(seq(|s| - 1, i => if i < k then i else i + 1), s[..k] + s[k + 1..], s);
  }

  lemma {:induction false} PlaceGrows<T>(f: seq<nat>, s: seq<T>, t: seq<T>, i: nat)
    requires Embeds(f, s, t) && i < |f|
    ensures f[i] >= i
  {
    if i > 0 { PlaceGrows(f, s, t, i - 1); }
  }

  /** A sublist is no longer, and one that is as long ends in the same place. */
  lemma SublistLength<T>(s: seq<T>, t: seq<T>)
    requires Sublist(s, t)
    ensures |s| <= |t|
    ensures |s| == |t| > 0 ==> s[|s| - 1] == t[|t| - 1]
  {
    var f: seq<nat> :| Embeds(f, s, t);
    if |s| > 0 { PlaceGrows(f, s, t, |s| - 1); }
  }

  ghost predicate AllDistinct<T>(s: seq<T>) {
    forall i, j :: 0 <= i < j < |s| ==> s[i] != s[j]
  }

  /** If element i of a sublist keeps its place, so do all before it. */
  lemma {:induction false} PlaceFixed<T>(f: seq<nat>, s: seq<T>, t: seq<T>, i: nat, k: nat)
    requires Embeds(f, s, t) && k <= i < |f| && f[i] == i
    ensures f[k] == k
    decreases i - k
  {
    PlaceGrows(f, s, t, k);
    if k < i { PlaceFixed(f, s, t, i, k + 1); }
  }

  /** If nothing up to element i was taken out, it keeps its place. */
  lemma {:induction false} PlaceKept<T>(f: seq<nat>, s: seq<T>, t: seq<T>, i: nat)
    requires Embeds(f, s, t) && AllDistinct(t) && i < |t| && forall k :: 0 <= k <= i ==> t[k] in s
    ensures i < |f| && f[i] == i
  {
    assert t[i] in s;
    var j :| 0 <= j < |s| && s[j] == t[i];
    assert f[j] == i;
    PlaceGrows(f, s, t, j);
    if j < i { PlaceKept(f, s, t, j); }
  }

  /** Element i of a list without repetition keeps its place in a sublist exactly when none up to it was taken out. */
  lemma SublistPlaceIff<T>(s: seq<T>, t: seq<T>, i: nat)
    requires Sublist(s, t) && AllDistinct(t) && i < |t|
    ensures (i < |s| && s[i] == t[i]) <==> forall k :: 0 <= k <= i ==> t[k] in s
  {
    var f: seq<nat> :| Embeds(f, s, t);
    if i < |s| && s[i] == t[i] {
      assert f[i] == i;
      forall k | 0 <= k <= i
        ensures t[k] in s
      {
        PlaceFixed(f, s, t, i, k);
        assert s[k] == t[k];
      }
    }
    if forall k :: 0 <= k <= i ==> t[k] in s { PlaceKept(f, s, t, i); }
  }

  lemma ConcatAssociates<T>(a: seq<T>, b: seq<T>, c: seq<T>)
    ensures (a + b) + c == a + (b + c)
  {}
}
