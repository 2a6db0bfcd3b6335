/** Resource quantities. A `ResourceItem` is a consistent (CPU, memory) pair with
    CPU in milli-units and memory in bytes; both are exact integers, so the
    aggregation below never rounds or overflows. */
module Resources {

  datatype ResourceItem = ResourceItem(cpu: int, memory: int)

  /** The two dimensions on which pairs are compared. */
  datatype Dimension = Cpu | Memory

  /** Go's newEmptyResourceItem: the all-zero pair every accumulator starts from. */
  const Empty: ResourceItem := ResourceItem(0, 0)

  /** One dimension of a pair. */
  function Measure(r: ResourceItem, d: Dimension): int
  {
    match d
    case Cpu => r.cpu
    case Memory => r.memory
  }

  function Add(a: ResourceItem, b: ResourceItem): ResourceItem
  {
    ResourceItem(a.cpu + b.cpu, a.memory + b.memory)
  }

  function Sub(a: ResourceItem, b: ResourceItem): ResourceItem
  {
    ResourceItem(a.cpu - b.cpu, a.memory - b.memory)
  }

  predicate NonNegative(r: ResourceItem)
  {
    0 <= r.cpu && 0 <= r.memory
  }

  function Max(a: int, b: int): int
  {
    if a < b then b else a
  }

  /** The componentwise sum of `f` over `xs`. */
  function Sum<T>(xs: seq<T>, f: T -> ResourceItem): ResourceItem
  {
    if |xs| == 0 then Empty else Add(f(xs[0]), Sum(xs[1..], f))
  }

  lemma {:induction false} SumAppend<T>(xs: seq<T>, ys: seq<T>, f: T -> ResourceItem)
    ensures Sum(xs + ys, f) == Add(Sum(xs, f), Sum(ys, f))
  {
    if |xs| == 0 {
      assert xs + ys == ys;
    } else {
      assert (xs + ys)[1..] == xs[1..] + ys;
      SumAppend(xs[1..], ys, f);
    }
  }

  /** Taking one term out of the middle of a sum. */
  lemma {:induction false} SumRemoveAt<T>(ys: seq<T>, k: int, f: T -> ResourceItem)
    requires 0 <= k < |ys|
    ensures Sum(ys, f) == Add(f(ys[k]), Sum(ys[..k] + ys[k + 1..], f))
  {
    if k == 0 {
      assert ys[..0] + ys[1..] == ys[1..];
    } else {
      var tail := ys[1..];
      SumRemoveAt(tail, k - 1, f);
      assert tail[k - 1] == ys[k];
      assert ys[..k] + ys[k + 1..] == [ys[0]] + (tail[..k - 1] + tail[k..]);
    }
  }

  /** Taking one element out of a sequence takes it out of the multiset. */
  lemma MultisetRemoveAt<T>(ys: seq<T>, k: int)
    requires 0 <= k < |ys|
    ensures multiset(ys[..k] + ys[k + 1..]) == multiset(ys) - multiset{ys[k]}
  {
    assert ys == ys[..k] + [ys[k]] + ys[k + 1..];
  }

  /** The sum does not depend on the order of its terms. */
  lemma {:induction false} SumOrderIndependent<T>(xs: seq<T>, ys: seq<T>, f: T -> ResourceItem)
    requires multiset(xs) == multiset(ys)
    ensures Sum(xs, f) == Sum(ys, f)
    decreases |xs|
  {
    if |xs| == 0 {
      assert |ys| == |multiset(ys)|;
    } else {
      var x := xs[0];
      assert x in multiset(ys);
      var k :| 0 <= k < |ys| && ys[k] == x;
      MultisetRemoveAt(xs, 0);
      MultisetRemoveAt(ys, k);
      assert xs[..0] + xs[1..] == xs[1..];
      SumOrderIndependent(xs[1..], ys[..k] + ys[k + 1..], f);
      SumRemoveAt(ys, k, f);
    }
  }

  lemma SumSingleton<T>(x: T, f: T -> ResourceItem)
    ensures Sum([x], f) == f(x)
  {
    assert [x][1..] == [];
  }

  lemma {:induction false} SumNonNegative<T>(xs: seq<T>, f: T -> ResourceItem)
    requires forall i :: 0 <= i < |xs| ==> NonNegative(f(xs[i]))
    ensures NonNegative(Sum(xs, f))
  {
    if |xs| != 0 {
      assert forall i :: 0 <= i < |xs[1..]| ==> xs[1..][i] == xs[i + 1];
      SumNonNegative(xs[1..], f);
    }
  }
}
