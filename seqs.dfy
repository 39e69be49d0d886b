/**
 * The loop shapes of the chart bot, stated once over any element type:
 * appending one value per element (a list comprehension, a loop of
 * `append`), appending a value only for the elements that yield one,
 * concatenating lists (`extend`), and filling a dict by `d[key] = value`
 * for the elements that pass a test, a later element overwriting an
 * earlier one's entry.
 */
module Seqs {
  import opened Wrappers

  function MapSeq<A, B>(f: A -> B, xs: seq<A>): (ys: seq<B>)
    ensures |ys| == |xs|
  {
    if xs == [] then [] else MapSeq(f, xs[..|xs| - 1]) + [f(xs[|xs| - 1])]
  }

  /** The element at each position is the image of the element at that position. */
  lemma {:induction false} MapSeqAt<A, B>(f: A -> B, xs: seq<A>, i: nat)
    requires i < |xs|
    ensures MapSeq(f, xs)[i] == f(xs[i])
  {
    var init := xs[..|xs| - 1];
    if i < |init| {
      MapSeqAt(f, init, i);
      assert init[i] == xs[i];
    }
  }

  /** One more element appends its image: the step of a loop that appends. */
  lemma MapSeqStep<A, B>(f: A -> B, xs: seq<A>, i: nat)
    requires i < |xs|
    ensures MapSeq(f, xs[..i + 1]) == MapSeq(f, xs[..i]) + [f(xs[i])]
  {
    assert xs[..i + 1][..i] == xs[..i];
  }

  /** The dict built from empty by assigning `entry(x)` for each `x` that passes `keep`, in order. */
  function Assign<A, K, V>(xs: seq<A>, keep: A -> bool, entry: A -> (K, V)): map<K, V>
  {
    if xs == [] then map[]
    else
      var m := Assign(xs[..|xs| - 1], keep, entry);
      var x := xs[|xs| - 1];
      if keep(x) then m[entry(x).0 := entry(x).1] else m
  }

  /** One more element updates the dict built so far, or leaves it alone. */
  lemma AssignStep<A, K, V>(xs: seq<A>, keep: A -> bool, entry: A -> (K, V), i: nat)
    requires i < |xs|
    ensures Assign(xs[..i + 1], keep, entry) ==
      if keep(xs[i]) then Assign(xs[..i], keep, entry)[entry(xs[i]).0 := entry(xs[i]).1]
      else Assign(xs[..i], keep, entry)
  {
    assert xs[..i + 1][..i] == xs[..i];
  }

  /** The dict's keys are exactly the keys of the elements that pass. */
  lemma {:induction false} AssignKeys<A, K, V>(xs: seq<A>, keep: A -> bool, entry: A -> (K, V))
    ensures Assign(xs, keep, entry).Keys == set j | 0 <= j < |xs| && keep(xs[j]) :: entry(xs[j]).0
  {
    if xs != [] {
      var init := xs[..|xs| - 1];
      AssignKeys(init, keep, entry);
      forall k | k in set j | 0 <= j < |xs| && keep(xs[j]) :: entry(xs[j]).0
        ensures k in Assign(xs, keep, entry)
      {
        var j :| 0 <= j < |xs| && keep(xs[j]) && entry(xs[j]).0 == k;
        if j < |init| {
          assert init[j] == xs[j];
        }
      }
      forall k | k in Assign(xs, keep, entry)
        ensures k in set j | 0 <= j < |xs| && keep(xs[j]) :: entry(xs[j]).0
      {
        var last := xs[|xs| - 1];
        if !(keep(last) && k == entry(last).0) {
          var j :| 0 <= j < |init| && keep(init[j]) && entry(init[j]).0 == k;
          assert xs[j] == init[j];
        }
      }
    }
  }

  /** The last element that passes with a given key decides that key's value. */
  lemma {:induction false} AssignLast<A, K, V>(xs: seq<A>, keep: A -> bool, entry: A -> (K, V), j: nat)
    requires j < |xs| && keep(xs[j])
    requires forall m :: j < m < |xs| && keep(xs[m]) ==> entry(xs[m]).0 != entry(xs[j]).0
    ensures entry(xs[j]).0 in Assign(xs, keep, entry)
    ensures Assign(xs, keep, entry)[entry(xs[j]).0] == entry(xs[j]).1
  {
    if j < |xs| - 1 {
      var init := xs[..|xs| - 1];
      assert init[j] == xs[j];
      AssignLast(init, keep, entry, j);
    }
  }

  /** Every entry of the dict was assigned by some element that passes. */
  lemma {:induction false} AssignValues<A, K, V>(xs: seq<A>, keep: A -> bool, entry: A -> (K, V), k: K)
    requires k in Assign(xs, keep, entry)
    ensures exists j :: 0 <= j < |xs| && keep(xs[j]) && entry(xs[j]) == (k, Assign(xs, keep, entry)[k])
  {
    var init := xs[..|xs| - 1];
    var last := xs[|xs| - 1];
    if keep(last) && k == entry(last).0 {
      assert entry(xs[|xs| - 1]) == (k, Assign(xs, keep, entry)[k]);
    } else {
      AssignValues(init, keep, entry, k);
      var j :| 0 <= j < |init| && keep(init[j]) && entry(init[j]) == (k, Assign(init, keep, entry)[k]);
      assert xs[j] == init[j];
    }
  }

  /** The values `f` yields, in order, skipping the elements it yields none for. */
  function FilterMap<A, B>(f: A -> Option<B>, xs: seq<A>): (ys: seq<B>)
    ensures |ys| <= |xs|
  {
    if xs == [] then []
    else
      var y := f(xs[|xs| - 1]);
      FilterMap(f, xs[..|xs| - 1]) + (if y.Some? then [y.value] else [])
  }

  /** One more element appends its value, if it yields one. */
  lemma FilterMapStep<A, B>(f: A -> Option<B>, xs: seq<A>, i: nat)
    requires i < |xs|
    ensures FilterMap(f, xs[..i + 1]) == FilterMap(f, xs[..i]) + (if f(xs[i]).Some? then [f(xs[i]).value] else [])
  {
    assert xs[..i + 1][..i] == xs[..i];
  }

  /** The values of a concatenation are the values of its parts, in order. */
  lemma {:induction false} FilterMapAppend<A, B>(f: A -> Option<B>, xs: seq<A>, zs: seq<A>)
    ensures FilterMap(f, xs + zs) == FilterMap(f, xs) + FilterMap(f, zs)
    decreases |zs|
  {
    if zs != [] {
      var init := zs[..|zs| - 1];
      FilterMapAppend(f, xs, init);
      assert (xs + zs)[..|xs + zs| - 1] == xs + init;
      assert (xs + zs)[|xs + zs| - 1] == zs[|zs| - 1];
    } else {
      assert xs + zs == xs;
    }
  }

  /** Every value was yielded by some element. */
  lemma {:induction false} FilterMapFrom<A, B>(f: A -> Option<B>, xs: seq<A>, k: nat)
    requires k < |FilterMap(f, xs)|
    ensures exists j :: 0 <= j < |xs| && f(xs[j]) == Some(FilterMap(f, xs)[k])
  {
    var init := xs[..|xs| - 1];
    if k < |FilterMap(f, init)| {
      FilterMapFrom(f, init, k);
      var j :| 0 <= j < |init| && f(init[j]) == Some(FilterMap(f, init)[k]);
      assert xs[j] == init[j];
    } else {
      assert f(xs[|xs| - 1]) == Some(FilterMap(f, xs)[k]);
    }
  }

  /** Every element that yields a value contributes it. */
  lemma {:induction false} FilterMapTo<A, B>(f: A -> Option<B>, xs: seq<A>, j: nat)
    requires j < |xs| && f(xs[j]).Some?
    ensures f(xs[j]).value in FilterMap(f, xs)
  {
    FilterMapAppend(f, xs[..j + 1], xs[j + 1..]);
    assert xs[..j + 1] + xs[j + 1..] == xs;
    FilterMapStep(f, xs, j);
  }

  /** The lists concatenated in order, as a loop of `extend` builds them. */
  function Concat<T>(xss: seq<seq<T>>): seq<T>
  {
    if xss == [] then [] else Concat(xss[..|xss| - 1]) + xss[|xss| - 1]
  }

  /** One more list extends the concatenation so far. */
  lemma ConcatStep<T>(xss: seq<seq<T>>, i: nat)
    requires i < |xss|
    ensures Concat(xss[..i + 1]) == Concat(xss[..i]) + xss[i]
  {
    assert xss[..i + 1][..i] == xss[..i];
  }
}
