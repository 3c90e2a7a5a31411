/** The "toggle membership in a list" update shared by the profile form and the
    onboarding wizard:
    `list.includes(v) ? list.filter(item => item !== v) : [...list, v]`. */
module Lists {

  /** `list.filter(item => item !== v)`: every occurrence of `v` goes, the rest keeps its order. */
  function Remove(xs: seq<string>, v: string): (r: seq<string>)
    ensures v !in r
    ensures |r| <= |xs|
    ensures forall x :: x != v ==> multiset(r)[x] == multiset(xs)[x]
  {
    if |xs| == 0 then []
    else
      assert xs == [xs[0]] + xs[1..];
      (if xs[0] == v then [] else [xs[0]]) + Remove(xs[1..], v)
  }

  /** The filter works element by element: a one-element list keeps its element
      exactly when it differs from `v`. */
  lemma RemoveSingleton(x: string, v: string)
    ensures Remove([x], v) == if x == v then [] else [x]
  {
    assert [x][1..] == [];
  }

  /** The filter distributes over concatenation, so the kept elements keep their
      relative order: with `RemoveSingleton` this fixes `Remove` on every list. */
  lemma {:induction false} RemoveAppend(xs: seq<string>, ys: seq<string>, v: string)
    ensures Remove(xs + ys, v) == Remove(xs, v) + Remove(ys, v)
  {
    if |xs| == 0 {
      assert xs + ys == ys;
    } else {
      var head := if xs[0] == v then [] else [xs[0]];
      assert Remove(xs + ys, v) == head + Remove(xs[1..] + ys, v) by {
        assert (xs + ys)[1..] == xs[1..] + ys;
      }
      assert Remove(xs, v) == head + Remove(xs[1..], v);
      RemoveAppend(xs[1..], ys, v);
    }
  }

  /** Removing a value that is absent changes nothing. */
  lemma {:induction false} RemoveAbsent(xs: seq<string>, v: string)
    requires v !in xs
    ensures Remove(xs, v) == xs
  {
    if |xs| > 0 {
      RemoveAbsent(xs[1..], v);
      assert xs == [xs[0]] + xs[1..];
    }
  }

  /** Removing a value appended last gives back the list it was appended to. */
  lemma {:induction false} RemoveAppended(xs: seq<string>, v: string)
    requires v !in xs
    ensures Remove(xs + [v], v) == xs
  {
    if |xs| == 0 {
      assert [v][1..] == [];
    } else {
      RemoveAppended(xs[1..], v);
      assert (xs + [v])[1..] == xs[1..] + [v];
      assert xs == [xs[0]] + xs[1..];
    }
  }

  /** The toggle: the value leaves the list if it was in it, and is appended otherwise. */
  function Toggle(xs: seq<string>, v: string): (r: seq<string>)
    ensures v in r <==> v !in xs
    ensures forall x :: x != v ==> multiset(r)[x] == multiset(xs)[x]
    ensures v !in xs ==> |r| == |xs| + 1 && r[..|xs|] == xs && r[|xs|] == v
    ensures v in xs ==> r == Remove(xs, v)
  {
    if v in xs then Remove(xs, v) else xs + [v]
  }

  /** Toggling a value that is absent twice restores the original list, order included. */
  lemma ToggleTwiceRestores(xs: seq<string>, v: string)
    requires v !in xs
    ensures Toggle(Toggle(xs, v), v) == xs
  {
    RemoveAppended(xs, v);
  }

  /** Toggling a present value twice leaves it once, at the end, with every other element in place. */
  lemma ToggleTwicePresent(xs: seq<string>, v: string)
    requires v in xs
    ensures Toggle(Toggle(xs, v), v) == Remove(xs, v) + [v]
  {
  }

  /** Toggling keeps a list free of duplicates. */
  lemma ToggleKeepsDistinct(xs: seq<string>, v: string)
    requires forall x :: multiset(xs)[x] <= 1
    ensures forall x :: multiset(Toggle(xs, v))[x] <= 1
  {
    var r := Toggle(xs, v);
    forall x
      ensures multiset(r)[x] <= 1
    {
      if x == v {
        if v !in xs {
          assert r == xs + [v];
          assert multiset(r)[v] == multiset(xs)[v] + 1;
        }
      }
    }
  }
}
