/** Python objects at reusable addresses, their reference counts, and the values the interner
    tells apart (`_canonical_value`, intj/annotation.py). */
module PyObjects {
  import opened Optional

  type Addr = nat

  /** What of an object an argument's id depends on; fixed while the object lives. `exact` tells
      whether a dtype's `name` is an exact str or one that only compares as `name` does. */
  datatype Object =
    | Str(text: string)
    | Dtype(name: string, exact: bool)
    | Jit(moduleName: string, qualname: string, cacheKey: string)
    | Scalar(kind: string, digits: string)
    | Unsupported

  datatype Canonical =
    | OfDtype(name: string)
    | OfStr(text: string)
    | OfJit(moduleName: string, qualname: string, cacheKey: string)
    | OfScalar(kind: string, digits: string)

  /** None where `_canonical_value` raises ValueError. */
  function CanonicalOf(o: Object): Option<Canonical> {
    match o
    case Dtype(name, _) => Some(OfDtype(name))
    case Str(text) => Some(OfStr(text))
    case Jit(m, q, k) => Some(OfJit(m, q, k))
    case Scalar(kind, digits) => Some(OfScalar(kind, digits))
    case Unsupported => None
  }

  /** Every supported object has a canonical value, and two have one exactly when they are of one kind
      and agree on what that kind is told apart by. */
  lemma SameCanonical(a: Object, b: Object)
    ensures CanonicalOf(a).None? <==> a.Unsupported?
    ensures CanonicalOf(a).Some? && CanonicalOf(a) == CanonicalOf(b) <==>
              || (a.Str? && a == b)
              || (a.Dtype? && b.Dtype? && a.name == b.name)
              || (a.Jit? && b.Jit? && (a.moduleName, a.qualname, a.cacheKey) == (b.moduleName, b.qualname, b.cacheKey))
              || (a.Scalar? && a == b)
  {
  }

  type Heap = map<Addr, Object>

  /** The heap with every object's reference count. */
  datatype Store = Store(heap: Heap, refs: multiset<Addr>)

  /** An object is in memory as long as something refers to it. */
  ghost predicate Counted(st: Store) {
    forall a :: a in st.heap <==> a in st.refs
  }

  /** Two stores agree on every object that is in both. */
  ghost predicate Agree(st: Store, st': Store) {
    forall a :: a in st.heap && a in st'.heap ==> st.heap[a] == st'.heap[a]
  }

  function Incref(st: Store, items: multiset<Addr>): Store {
    st.(refs := st.refs + items)
  }

  /** The last reference frees the object, and its address may be used again. */
  function Decref(st: Store, a: Addr): Store {
    var refs := st.refs - multiset{a};
    Store(if a in refs then st.heap else st.heap - {a}, refs)
  }

  /** A new object, with one reference. */
  function Allocated(st: Store, a: Addr, o: Object): Store {
    Store(st.heap[a := o], st.refs + multiset{a})
  }

  lemma IncrefCounted(st: Store, items: multiset<Addr>)
    requires Counted(st) && forall a :: a in items ==> a in st.refs
    ensures Counted(Incref(st, items)) && Agree(st, Incref(st, items))
  {
  }

  lemma DecrefCounted(st: Store, a: Addr)
    requires Counted(st)
    ensures Counted(Decref(st, a)) && Agree(st, Decref(st, a))
  {
    forall b | b in st.heap
      ensures b in Decref(st, a).heap <==> b in Decref(st, a).refs
    {
    }
  }

  lemma AllocatedCounted(st: Store, a: Addr, o: Object)
    requires Counted(st) && a !in st.heap
    ensures Counted(Allocated(st, a, o)) && Agree(st, Allocated(st, a, o))
  {
  }

  // ---------------------------------------------------------------- who holds references

  /** The references `held` says the items hold, in all. */
  ghost function Total<T>(xs: seq<T>, held: T -> multiset<Addr>): multiset<Addr> {
    if xs == [] then multiset{} else Total(xs[..|xs| - 1], held) + held(xs[|xs| - 1])
  }

  lemma TotalAppend<T>(xs: seq<T>, x: T, held: T -> multiset<Addr>)
    ensures Total(xs + [x], held) == Total(xs, held) + held(x)
  {
    assert (xs + [x])[..|xs|] == xs;
  }

  lemma AddBoth<T>(a: multiset<T>, b: multiset<T>, c: multiset<T>, d: multiset<T>, e: multiset<T>)
    requires a + b == c + d
    ensures (a + e) + b == (c + e) + d
  {
    forall x
      ensures ((a + e) + b)[x] == ((c + e) + d)[x]
    {
      assert (a + b)[x] == (c + d)[x];
    }
  }

  lemma AddUnder<T>(h: multiset<T>, x: multiset<T>, y: multiset<T>, z: multiset<T>)
    requires x == y + z
    ensures h + x == (h + y) + z
  {
  }

  lemma TakeBalance<T>(refs: multiset<T>, items: multiset<T>, held: multiset<T>, held': multiset<T>)
    requires held' == held + items
    ensures (refs + items) + held == refs + held'
  {
  }

  lemma DropBalance<T>(refs: multiset<T>, a: T, held: multiset<T>, held': multiset<T>)
    requires held == held' + multiset{a} && a in refs
    ensures (refs - multiset{a}) + held == refs + held'
  {
  }

  lemma {:induction false} TotalUpdate<T>(xs: seq<T>, i: nat, x: T, held: T -> multiset<Addr>)
    requires i < |xs|
    ensures Total(xs[i := x], held) + held(xs[i]) == Total(xs, held) + held(x)
    decreases |xs|
  {
    var last := |xs| - 1;
    if i < last {
      TotalUpdate(xs[..last], i, x, held);
      assert xs[i := x][..last] == xs[..last][i := x];
      assert xs[..last][i] == xs[i];
      var before, after := Total(xs[..last], held), Total(xs[..last][i := x], held);
      assert Total(xs[i := x], held) == after + held(xs[last]);
      AddBoth(after, held(xs[i]), before, held(x), held(xs[last]));
    } else {
      assert xs[i := x][..last] == xs[..last];
    }
  }

  lemma {:induction false} TotalHas<T>(xs: seq<T>, i: nat, held: T -> multiset<Addr>)
    requires i < |xs|
    ensures held(xs[i]) <= Total(xs, held)
    decreases |xs|
  {
    if i < |xs| - 1 {
      TotalHas(xs[..|xs| - 1], i, held);
    }
  }
}
