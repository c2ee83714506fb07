/** The two `Vec` operations the core relies on: `iter().position(pred)`,
    which finds the first element satisfying a closure, and `remove(pos)`,
    which takes one element out and shifts the rest down. */
module Seqs {

  import opened Wrappers

  /** `iter().position(f)`: the index of the first element satisfying `f`. */
  function Position<T>(s: seq<T>, f: T -> bool): (r: Option<nat>)
    ensures r.Some? ==> r.value < |s| && f(s[r.value])
    ensures r.Some? ==> forall j :: 0 <= j < r.value ==> !f(s[j])
    ensures r.None? <==> forall j :: 0 <= j < |s| ==> !f(s[j])
    decreases |s|
  {
    if |s| == 0 then None
    else if f(s[0]) then Some(0)
    else
      match Position(s[1..], f)
      case None => None
      case Some(k) => Some(k + 1)
  }

  /** `Vec::remove(i)`: the sequence without its `i`-th element. */
  function RemoveAt<T>(s: seq<T>, i: nat): (r: seq<T>)
    requires i < |s|
    ensures |r| == |s| - 1
    ensures forall k :: 0 <= k < i ==> r[k] == s[k]
    ensures forall k :: i <= k < |r| ==> r[k] == s[k + 1]
    ensures multiset(r) == multiset(s) - multiset{s[i]}
  {
    assert s == s[..i] + [s[i]] + s[i + 1..];
    s[..i] + s[i + 1..]
  }

  /** The multiset of the images of the elements of `s` under `f`. */
  function Image<T, U>(s: seq<T>, f: T -> U): multiset<U>
  {
    if s == [] then multiset{} else Image(s[..|s| - 1], f) + multiset{f(s[|s| - 1])}
  }

  lemma {:induction false} ImageConcat<T, U>(a: seq<T>, b: seq<T>, f: T -> U)
    ensures Image(a + b, f) == Image(a, f) + Image(b, f)
    decreases |b|
  {
    if b != [] {
      var b' := b[..|b| - 1];
      assert (a + b)[..|a + b| - 1] == a + b';
      ImageConcat(a, b', f);
    } else {
      assert a + b == a;
    }
  }

  lemma ImageRemoveAt<T, U>(s: seq<T>, i: nat, f: T -> U)
    requires i < |s|
    ensures Image(s[..i] + s[i + 1..], f) == Image(s, f) - multiset{f(s[i])}
  {
    var a, x, b := s[..i], s[i], s[i + 1..];
    assert s == a + ([x] + b);
    ImageConcat(a, [x] + b, f);
    ImageConcat([x], b, f);
    ImageConcat(a, b, f);
    assert [x][..0] == [];
    var ia, ix, ib := Image(a, f), Image([x], f), Image(b, f);
    assert ix == multiset{f(x)};
    assert Image(s, f) == ia + (ix + ib);
    assert Image(a + b, f) == ia + ib;
  }
}
