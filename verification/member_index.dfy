/**
 * Name-keyed member indices, the shape of the Fields, Methods and Properties containers
 * a class descriptor fills: scanning members in order, each kept member is appended to
 * the list under its name. A "public" index keeps only public members, an "all" index
 * keeps every scanned member.
 */
module MemberIndex {

  /** The list stored under `n`, or the empty list when `n` is absent (Java's null). */
  function Lookup<M>(idx: map<string, seq<M>>, n: string): seq<M> {
    if n in idx then idx[n] else []
  }

  /** Appends `m` to the list under `n`, creating the entry when needed. */
  function Append<M>(idx: map<string, seq<M>>, n: string, m: M): (r: map<string, seq<M>>)
    ensures r.Keys == idx.Keys + {n}
    ensures Lookup(r, n) == Lookup(idx, n) + [m]
    ensures forall k :: k != n ==> Lookup(r, k) == Lookup(idx, k)
  {
    idx[n := Lookup(idx, n) + [m]]
  }

  /** Whether a scan for the public (publicOnly) or the all partition keeps `m`. */
  predicate Kept<M>(m: M, isPublic: M -> bool, publicOnly: bool) {
    !publicOnly || isPublic(m)
  }

  /** The members of `ms` satisfying `keep`, in order. */
  function FilterBy<M>(ms: seq<M>, keep: M -> bool): (r: seq<M>)
    ensures |r| <= |ms|
    decreases |ms|
  {
    if ms == [] then []
    else
      var rest := FilterBy(ms[..|ms| - 1], keep);
      var last := ms[|ms| - 1];
      if keep(last) then rest + [last] else rest
  }

  /** FilterBy keeps exactly the members satisfying `keep`. */
  lemma {:induction false} FilterByMembers<M>(ms: seq<M>, keep: M -> bool, m: M)
    ensures m in FilterBy(ms, keep) <==> m in ms && keep(m)
    decreases |ms|
  {
    if ms != [] {
      FilterByMembers(ms[..|ms| - 1], keep, m);
      assert ms == ms[..|ms| - 1] + [ms[|ms| - 1]];
    }
  }

  /** The index a scan of `ms` builds: the operational definition, one append per kept member. */
  function Index<M>(ms: seq<M>, name: M -> string, isPublic: M -> bool, publicOnly: bool)
    : (idx: map<string, seq<M>>)
    ensures forall k :: k in idx ==> idx[k] != []
    decreases |ms|
  {
    if ms == [] then map[]
    else
      var idx := Index(ms[..|ms| - 1], name, isPublic, publicOnly);
      var last := ms[|ms| - 1];
      if Kept(last, isPublic, publicOnly) then Append(idx, name(last), last) else idx
  }

  /**
   * One pass over the scanned members, filling both partitions: every member is appended
   * to the all index under its name, the public ones also to the public index.
   */
  method ScanPartitions<M>(ms: seq<M>, name: M -> string, isPublic: M -> bool)
    returns (pub: map<string, seq<M>>, all: map<string, seq<M>>)
    ensures pub == Index(ms, name, isPublic, true)
    ensures all == Index(ms, name, isPublic, false)
  {
    pub, all := map[], map[];
    for i := 0 to |ms|
      invariant pub == Index(ms[..i], name, isPublic, true)
      invariant all == Index(ms[..i], name, isPublic, false)
    {
      var m := ms[i];
      assert ms[..i + 1][..i] == ms[..i];
      if isPublic(m) {
        pub := Append(pub, name(m), m);
      }
      all := Append(all, name(m), m);
    }
    assert ms[..|ms|] == ms;
  }

  /** Reference definition: the kept members of `ms` that are named `n`, in scan order. */
  function Named<M>(ms: seq<M>, name: M -> string, isPublic: M -> bool, publicOnly: bool, n: string)
    : seq<M>
    decreases |ms|
  {
    if ms == [] then []
    else
      var rest := Named(ms[..|ms| - 1], name, isPublic, publicOnly, n);
      var last := ms[|ms| - 1];
      if name(last) == n && Kept(last, isPublic, publicOnly) then rest + [last] else rest
  }

  /** The index holds, under each name, exactly the kept members of that name in scan order. */
  lemma {:induction false} IndexLookup<M>(
    ms: seq<M>, name: M -> string, isPublic: M -> bool, publicOnly: bool, n: string)
    ensures Lookup(Index(ms, name, isPublic, publicOnly), n) == Named(ms, name, isPublic, publicOnly, n)
    ensures n in Index(ms, name, isPublic, publicOnly) <==> Named(ms, name, isPublic, publicOnly, n) != []
    decreases |ms|
  {
    if ms != [] {
      IndexLookup(ms[..|ms| - 1], name, isPublic, publicOnly, n);
    }
  }

  /** A member is listed under `n` exactly when it was scanned, is named `n` and is kept. */
  lemma {:induction false} NamedMembers<M>(
    ms: seq<M>, name: M -> string, isPublic: M -> bool, publicOnly: bool, n: string, m: M)
    ensures m in Named(ms, name, isPublic, publicOnly, n) <==> m in ms && name(m) == n && Kept(m, isPublic, publicOnly)
    decreases |ms|
  {
    if ms != [] {
      NamedMembers(ms[..|ms| - 1], name, isPublic, publicOnly, n, m);
      assert ms == ms[..|ms| - 1] + [ms[|ms| - 1]];
    }
  }

  /** The public list under a name is the all list under that name with non-public members dropped. */
  lemma {:induction false} NamedPublicIsFiltered<M>(ms: seq<M>, name: M -> string, isPublic: M -> bool, n: string)
    ensures Named(ms, name, isPublic, true, n) == FilterBy(Named(ms, name, isPublic, false, n), isPublic)
    decreases |ms|
  {
    if ms != [] {
      NamedPublicIsFiltered(ms[..|ms| - 1], name, isPublic, n);
      var rest := Named(ms[..|ms| - 1], name, isPublic, false, n);
      var last := ms[|ms| - 1];
      assert (rest + [last])[..|rest|] == rest;
    }
  }

  /**
   * The public partition refines the all partition: every public name is also an all name,
   * and its public list is its all list restricted to public members.
   */
  lemma PublicIndexWithinAll<M>(ms: seq<M>, name: M -> string, isPublic: M -> bool)
    ensures forall n :: n in Index(ms, name, isPublic, true) ==>
      n in Index(ms, name, isPublic, false) &&
      Index(ms, name, isPublic, true)[n] == FilterBy(Index(ms, name, isPublic, false)[n], isPublic)
  {
    forall n | n in Index(ms, name, isPublic, true)
      ensures n in Index(ms, name, isPublic, false)
      ensures Index(ms, name, isPublic, true)[n] == FilterBy(Index(ms, name, isPublic, false)[n], isPublic)
    {
      IndexLookup(ms, name, isPublic, true, n);
      IndexLookup(ms, name, isPublic, false, n);
      NamedPublicIsFiltered(ms, name, isPublic, n);
    }
  }

  /** Every scanned member that the partition keeps is listed under its own name. */
  lemma {:induction false} ScannedMembersIndexed<M>(ms: seq<M>, name: M -> string, isPublic: M -> bool, publicOnly: bool)
    ensures forall m :: m in ms && Kept(m, isPublic, publicOnly) ==>
      name(m) in Index(ms, name, isPublic, publicOnly) && m in Index(ms, name, isPublic, publicOnly)[name(m)]
  {
    forall m | m in ms && Kept(m, isPublic, publicOnly)
      ensures name(m) in Index(ms, name, isPublic, publicOnly)
      ensures m in Index(ms, name, isPublic, publicOnly)[name(m)]
    {
      NamedMembers(ms, name, isPublic, publicOnly, name(m), m);
      IndexLookup(ms, name, isPublic, publicOnly, name(m));
    }
  }

  /** Conversely, every listed member was scanned, carries the name it is listed under and is kept. */
  lemma IndexedMembersScanned<M>(ms: seq<M>, name: M -> string, isPublic: M -> bool, publicOnly: bool)
    ensures forall n, m :: n in Index(ms, name, isPublic, publicOnly) && m in Index(ms, name, isPublic, publicOnly)[n] ==>
      m in ms && name(m) == n && Kept(m, isPublic, publicOnly)
  {
    forall n, m | n in Index(ms, name, isPublic, publicOnly) && m in Index(ms, name, isPublic, publicOnly)[n]
      ensures m in ms && name(m) == n && Kept(m, isPublic, publicOnly)
    {
      IndexLookup(ms, name, isPublic, publicOnly, n);
      NamedMembers(ms, name, isPublic, publicOnly, n, m);
    }
  }
}
