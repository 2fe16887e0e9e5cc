/** The cache of wrappers as it is keyed in memory: by an address, which a container that has been dropped gives
    free for another one. What the other modules say holds exactly as long as no clone gets such an address. */
module CowIdentity {
  import opened CloneJson
  import opened CowSpec
  import opened CowOperations
  import opened CowViews
  import opened CowSlots

  type Address = nat

  /** Containers keep their names for ever; an address is where one lies while it is alive. */
  datatype Memory = Memory(raw: Store, address: map<nat, Address>)

  /** The owner of one view: the containers its snapshot keeps alive, and its cache of wrappers. */
  datatype Owner = Owner(view: View, held: set<nat>, cache: map<Address, nat>)

  // ---- What keeps a container alive ----------------------------------------------------------

  ghost predicate Root(o: Owner, n: nat) {
    || n in o.held
    || (n in o.view.wrappers && KeepsBacking(o.view.wrappers[n]))
    || exists h <- o.view.wrappers :: Unwrapped(Ref(n)) in Stored(o.view.wrappers[h])
  }

  ghost predicate Live(raw: Store, o: Owner, n: nat) {
    exists r: nat, d: nat :: Root(o, r) && Reaches(raw, Ref(r), Ref(n), d)
  }

  // ---- What a cached wrapper is found by ------------------------------------------------------

  /** The container whose wrapper is handed out for container n: the cached one at its address, if there is one. */
  function Target(m: Memory, o: Owner, n: nat): nat
    requires n in m.address
  {
    if m.address[n] in o.cache then o.cache[m.address[n]] else n
  }

  /** Every container that can still be read is found under its own wrapper or none. */
  ghost predicate Right(m: Memory, o: Owner) {
    forall n | Live(m.raw, o, n) :: n in m.address && Target(m, o, n) == n
  }

  /** The cache holds exactly the wrappers that were made, each under the address its container had. */
  ghost predicate IsIndex(cache: map<Address, nat>, address: map<nat, Address>, wrapped: set<nat>) {
    && (forall a <- cache :: cache[a] in wrapped && cache[a] in address && address[cache[a]] == a)
    && (forall h <- wrapped :: h in address && address[h] in cache && cache[address[h]] == h)
  }

  ghost predicate Indexed(m: Memory, o: Owner) {
    IsIndex(o.cache, m.address, o.view.wrappers.Keys)
  }

  ghost predicate Backed(raw: Store, view: View) {
    forall h <- view.wrappers :: h in raw && BackedBy(view.wrappers[h], raw[h])
  }

  ghost predicate SlotKnown(raw: Store, view: View, slot: Slot) {
    (slot.Handle? ==> slot.id in view.wrappers) && (Escapes(slot) ==> slot.v.id in raw)
  }

  ghost predicate SlotsKnown(raw: Store, view: View) {
    forall h <- view.wrappers, slot <- Stored(view.wrappers[h]) :: SlotKnown(raw, view, slot)
  }

  /** No two live containers lie at one address. */
  ghost predicate Apart(m: Memory, o: Owner) {
    forall x, y | Live(m.raw, o, x) && Live(m.raw, o, y) :: x in m.address && y in m.address && (m.address[x] == m.address[y] ==> x == y)
  }

  ghost predicate Sound(m: Memory, o: Owner) {
    && m.address.Keys == m.raw.Keys && ViewOk(m.raw, o.view) && o.held <= o.view.ids
    && Indexed(m, o) && Backed(m.raw, o.view) && SlotsKnown(m.raw, o.view) && Apart(m, o)
  }

  // ---- Steps -----------------------------------------------------------------------------------

  /** Cloning puts new containers where no live one lies. */
  ghost predicate Legal(m: Memory, o: Owner, m': Memory, cloned: Store) {
    && cloned.Keys !! m.raw.Keys && WellFormed(cloned)
    && m'.raw == m.raw + cloned && m'.address.Keys == m'.raw.Keys
    && (forall n <- m.address :: n in m'.address && m'.address[n] == m.address[n])
    && (forall n <- cloned, x | Live(m.raw, o, x) :: x in m.address && m'.address[n] != m.address[x])
    && (forall n <- cloned, k <- cloned :: m'.address[n] == m'.address[k] ==> n == k)
  }

  /** No clone lies where a cached wrapper will be found instead of its own. */
  ghost predicate Spared(o: Owner, m': Memory, cloned: Store) {
    forall n <- cloned :: n in m'.address && m'.address[n] !in o.cache
  }

  /** Wrappers made on the way are cached under their containers' addresses. */
  ghost predicate Caches(cache: map<Address, nat>, cache': map<Address, nat>, address: map<nat, Address>, handed: set<nat>) {
    && handed <= address.Keys
    && (forall a <- cache :: a in cache' && cache'[a] == cache[a])
    && (forall n <- handed :: address[n] in cache' && (address[n] !in cache ==> cache'[address[n]] == n))
    && (forall a <- cache' :: a in cache || (cache'[a] in handed && address[cache'[a]] == a))
  }

  /** What a reader is really given: the wrappers found by address. */
  function Found(m: Memory, o: Owner, answer: Answer<Slot>): Answer<Slot>
    requires Handed(answer) <= m.address.Keys
  {
    match answer
    case Told(keys, values) =>
      Told(keys, seq(|values|, i requires 0 <= i < |values| =>
        if values[i].Handle? then (assert values[i] in values; Handle(Target(m, o, values[i].id))) else values[i]))
    case _ => answer
  }

  /** An operation by names, with the cache that goes with it as long as every wrapper it hands out is the right one. */
  ghost predicate Operates(m: Memory, o: Owner, m': Memory, o': Owner, h: nat, op: Operation, cloned: Store, named: Answer<Slot>) {
    && Acts(World(m.raw, [o.view]), World(m'.raw, [o'.view]), 0, h, op, cloned, named)
    && Legal(m, o, m', cloned) && o'.held == o.held && Caches(o.cache, o'.cache, m'.address, Handed(named))
  }

  ghost predicate Truthful(m': Memory, o: Owner, named: Answer<Slot>) {
    forall n <- Handed(named) :: n in m'.address && Target(m', o, n) == n
  }

  // ---- What is alive after it ----------------------------------------------------------------------

  lemma RootIsLive(raw: Store, o: Owner, n: nat)
    requires Root(o, n)
    ensures Live(raw, o, n)
  {
    assert Reaches(raw, Ref(n), Ref(n), 0);
  }

  lemma ChildIsLive(raw: Store, o: Owner, n: nat, child: nat)
    requires Live(raw, o, n) && n in raw && Ref(child) in raw[n].items
    ensures Live(raw, o, child)
  {
    var r, d :| Root(o, r) && Reaches(raw, Ref(r), Ref(n), d);
    ReachesOneMore(raw, Ref(r), Ref(n), Ref(child), d);
  }

  /** What a wrapper offers is a wrapper already made, or a container that is alive. */
  lemma OfferedIsLive(m: Memory, o: Owner, h: nat, slot: Slot)
    requires Sound(m, o) && h in o.view.wrappers && Offers(o.view.wrappers[h], slot)
    ensures slot.Handle? ==> slot.id in o.view.wrappers
    ensures Escapes(slot) ==> Live(m.raw, o, slot.v.id)
  {
    var w := o.view.wrappers[h];
    assert h in o.view.ids && ContainerOk(m.raw, o.view, h);
    if slot in Stored(w) {
      assert SlotKnown(m.raw, o.view, slot);
      if Escapes(slot) {
        assert slot == Unwrapped(Ref(slot.v.id));
        RootIsLive(m.raw, o, slot.v.id);
      }
    } else {
      OfferedIsBacked(w, m.raw[h], slot);
      if Escapes(slot) {
        RootIsLive(m.raw, o, h);
        ChildIsLive(m.raw, o, h, slot.v.id);
      }
    }
  }

  lemma RootIsKnown(m: Memory, o: Owner, n: nat)
    requires Sound(m, o) && Root(o, n)
    ensures n in m.raw
  {
    assert n in o.held || n in o.view.wrappers ==> n in o.view.ids;
    assert n in o.view.ids ==> ContainerOk(m.raw, o.view, n);
    if h :| h in o.view.wrappers && Unwrapped(Ref(n)) in Stored(o.view.wrappers[h]) {
      assert SlotKnown(m.raw, o.view, Unwrapped(Ref(n)));
    }
  }

  lemma {:induction false} ReachIsKnown(raw: Store, u: Value, n: nat, d: nat)
    requires WellFormed(raw) && Held(raw, u) && Reaches(raw, u, Ref(n), d)
    ensures n in raw
    decreases d
  {
    if d > 0 {
      var x :| x in raw[u.id].items && Reaches(raw, x, Ref(n), d - 1);
      assert NodeWellFormed(raw, raw[u.id]);
      ReachIsKnown(raw, x, n, d - 1);
    }
  }

  lemma LiveIsKnown(m: Memory, o: Owner, n: nat)
    requires Sound(m, o) && Live(m.raw, o, n)
    ensures n in m.raw && n in m.address
  {
    var r, d :| Root(o, r) && Reaches(m.raw, Ref(r), Ref(n), d);
    RootIsKnown(m, o, r);
    ReachIsKnown(m.raw, Ref(r), n, d);
  }

  ghost predicate LiveOrNew(raw: Store, o: Owner, cloned: Store, n: nat) {
    Live(raw, o, n) || n in cloned
  }

  /** From what was alive or has been cloned only what was alive or has been cloned can be reached. */
  lemma {:induction false} ReachStays(m: Memory, o: Owner, cloned: Store, u: nat, n: nat, d: nat)
    requires Sound(m, o) && WellFormed(cloned) && cloned.Keys !! m.raw.Keys
    requires LiveOrNew(m.raw, o, cloned, u) && Reaches(m.raw + cloned, Ref(u), Ref(n), d)
    ensures LiveOrNew(m.raw, o, cloned, n)
    decreases d
  {
    if d > 0 {
      var x :| x in (m.raw + cloned)[u].items && Reaches(m.raw + cloned, x, Ref(n), d - 1);
      hide Live, Sound;
      assert x.Ref?;
      if u in cloned {
        assert NodeWellFormed(cloned, cloned[u]);
      } else {
        LiveIsKnown(m, o, u);
        ChildIsLive(m.raw, o, u, x.id);
      }
      ReachStays(m, o, cloned, x.id, n, d - 1);
    }
  }

  /** The parts of an operation by names. */
  lemma OperationParts(m: Memory, o: Owner, m': Memory, o': Owner, h: nat, op: Operation, cloned: Store, named: Answer<Slot>)
    requires Sound(m, o) && Operates(m, o, m', o', h, op, cloned, named)
    ensures h in o.view.wrappers && Applicable(o.view.wrappers[h], op) && WrapperOk(o.view.wrappers[h])
    ensures WellFormed(cloned) && cloned.Keys !! m.raw.Keys && m'.raw == m.raw + cloned && RefsWithin(Inserted(op), cloned.Keys)
    ensures named == Operate(o.view.wrappers[h], op).1 && o'.held == o.held
    ensures o'.view.ids == o.view.ids + cloned.Keys && o'.view.wrappers.Keys == o.view.wrappers.Keys + Handed(named)
    ensures o'.view.wrappers[h] == Operate(o.view.wrappers[h], op).0
    ensures forall x <- o.view.wrappers :: x != h ==> o'.view.wrappers[x] == o.view.wrappers[x]
    ensures forall x <- o'.view.wrappers :: x !in o.view.wrappers ==> x in m'.raw && NodeWellFormed(m'.raw, m'.raw[x]) && o'.view.wrappers[x] == Fresh(m'.raw[x])
  {
    hide Sound, Legal, Caches, Live, Operate, Handed, Applicable, WrapperOk, NodeWellFormed, WellFormed, Fresh, RefsWithin;
    var view, world, world' := o.view, World(m.raw, [o.view]), World(m'.raw, [o'.view]);
    assert world.views[0] == view && world'.views[0] == o'.view;
    assert Acts(world, world', 0, h, op, cloned, named);
    WrapperIsOk(view.wrappers[h]);
    AfterParts(m.raw, view, h, Operate(view.wrappers[h], op).0, Handed(named), cloned);
    hide After;
  }

  lemma AfterParts(raw: Store, view: View, h: nat, w': Wrapper, handed: set<nat>, cloned: Store)
    requires AllKnown(raw + cloned, handed) && h in view.wrappers
    ensures forall id <- handed :: id in raw + cloned && ((raw + cloned)[id].DictNode? ==> |(raw + cloned)[id].keys| == |(raw + cloned)[id].items|)
    ensures var view' := After(raw, view, h, w', handed, cloned);
      && view'.ids == view.ids + cloned.Keys && view'.wrappers.Keys == view.wrappers.Keys + handed
      && view'.wrappers[h] == w' && (forall x <- view.wrappers :: x != h ==> view'.wrappers[x] == view.wrappers[x])
      && forall x <- handed :: x !in view.wrappers ==> NodeWellFormed(raw + cloned, (raw + cloned)[x]) && view'.wrappers[x] == Fresh((raw + cloned)[x])
  {
    hide Fresh;
  }

  lemma ViewStaysOk(m: Memory, o: Owner, m': Memory, o': Owner, h: nat, op: Operation, cloned: Store, named: Answer<Slot>)
    requires Sound(m, o) && Operates(m, o, m', o', h, op, cloned, named)
    ensures ViewOk(m'.raw, o'.view)
  {
    hide ViewOk, Acts, Legal, Caches;
    assert WorldOk(World(m.raw, [o.view]));
    ActingViewRefines(World(m.raw, [o.view]), World(m'.raw, [o'.view]), 0, h, op, cloned, named);
  }

  lemma HandedIsLive(m: Memory, o: Owner, h: nat, op: Operation, cloned: Store, n: nat)
    requires Sound(m, o) && h in o.view.wrappers && Applicable(o.view.wrappers[h], op) && WrapperOk(o.view.wrappers[h])
    requires RefsWithin(Inserted(op), cloned.Keys) && n in Handed(Operate(o.view.wrappers[h], op).1)
    ensures n in o.view.wrappers || LiveOrNew(m.raw, o, cloned, n)
  {
    hide Sound, Operate, Live, Offers, Applicable, WrapperOk, Handed;
    var w := o.view.wrappers[h];
    OperationHands(w, op, n);
    if Offers(w, Handle(n)) {
      OfferedIsLive(m, o, h, Handle(n));
    } else if Offers(w, Unwrapped(Ref(n))) {
      OfferedIsLive(m, o, h, Unwrapped(Ref(n)));
    }
  }

  /** What is stored afterwards is a wrapper there is, or a container that was alive or has been cloned. */
  lemma StoredAfter(m: Memory, o: Owner, m': Memory, o': Owner, h: nat, op: Operation, cloned: Store, named: Answer<Slot>, x: nat, slot: Slot)
    requires Sound(m, o) && Operates(m, o, m', o', h, op, cloned, named)
    requires x in o'.view.wrappers && slot in Stored(o'.view.wrappers[x])
    ensures slot.Handle? ==> slot.id in o'.view.wrappers
    ensures Escapes(slot) ==> LiveOrNew(m.raw, o, cloned, slot.v.id)
  {
    OperationParts(m, o, m', o', h, op, cloned, named);
    hide Operates, Operate, Applicable, WrapperOk, Handed, Live, NodeWellFormed, WellFormed;
    if x == h {
      OperationStores(o.view.wrappers[h], op, slot);
      if Offers(o.view.wrappers[h], slot) {
        OfferedIsLive(m, o, h, slot);
      }
    } else if x in o.view.wrappers {
      assert SlotKnown(m.raw, o.view, slot);
      if Escapes(slot) {
        assert slot == Unwrapped(Ref(slot.v.id));
        RootIsLive(m.raw, o, slot.v.id);
      }
    } else {
      FreshStoresNothing(m'.raw, m'.raw[x]);
    }
  }

  lemma RootAfter(m: Memory, o: Owner, m': Memory, o': Owner, h: nat, op: Operation, cloned: Store, named: Answer<Slot>, r: nat)
    requires Sound(m, o) && Operates(m, o, m', o', h, op, cloned, named) && Root(o', r)
    ensures LiveOrNew(m.raw, o, cloned, r)
  {
    OperationParts(m, o, m', o', h, op, cloned, named);
    hide Sound, Operates, Operate, Live, Stored, WrapperOk, Applicable, Handed, NodeWellFormed, WellFormed, RefsWithin;
    if r in o'.held {
      RootIsLive(m.raw, o, r);
    } else if r in o'.view.wrappers && KeepsBacking(o'.view.wrappers[r]) {
      WrapperKept(m, o, m', o', h, op, cloned, named, r);
    } else {
      var x :| x in o'.view.wrappers && Unwrapped(Ref(r)) in Stored(o'.view.wrappers[x]);
      StoredAfter(m, o, m', o', h, op, cloned, named, x, Unwrapped(Ref(r)));
    }
  }

  lemma WrapperKept(m: Memory, o: Owner, m': Memory, o': Owner, h: nat, op: Operation, cloned: Store, named: Answer<Slot>, r: nat)
    requires Sound(m, o) && Operates(m, o, m', o', h, op, cloned, named)
    requires r in o'.view.wrappers && KeepsBacking(o'.view.wrappers[r])
    ensures LiveOrNew(m.raw, o, cloned, r)
  {
    OperationParts(m, o, m', o', h, op, cloned, named);
    hide Operates, Operate, Applicable, WrapperOk, Handed, Live, NodeWellFormed, WellFormed, RefsWithin;
    if r in o.view.wrappers {
      if r == h {
        OperationKeepsBacking(o.view.wrappers[h], op, m.raw[h]);
      }
      RootIsLive(m.raw, o, r);
    } else {
      HandedIsLive(m, o, h, op, cloned, r);
    }
  }

  /** Nothing comes alive again: what is alive after an operation was alive before it or has been cloned. */
  lemma LiveAfter(m: Memory, o: Owner, m': Memory, o': Owner, h: nat, op: Operation, cloned: Store, named: Answer<Slot>, n: nat)
    requires Sound(m, o) && Operates(m, o, m', o', h, op, cloned, named) && Live(m'.raw, o', n)
    ensures LiveOrNew(m.raw, o, cloned, n)
  {
    OperationParts(m, o, m', o', h, op, cloned, named);
    var r, d :| Root(o', r) && Reaches(m'.raw, Ref(r), Ref(n), d);
    hide Sound, Operates, Root;
    RootAfter(m, o, m', o', h, op, cloned, named, r);
    ReachStays(m, o, cloned, r, n, d);
  }

  /** Containers that were alive, and new ones, lie apart. */
  lemma StillApart(m: Memory, o: Owner, m': Memory, cloned: Store, x: nat, y: nat)
    requires Sound(m, o) && Legal(m, o, m', cloned) && LiveOrNew(m.raw, o, cloned, x) && LiveOrNew(m.raw, o, cloned, y)
    ensures x in m'.address && y in m'.address && (m'.address[x] == m'.address[y] ==> x == y)
  {
    hide ViewOk, WellFormed, Indexed, Backed, SlotsKnown, Live;
    if x in cloned {
      assert x in m'.raw;
    } else {
      assert x in m.address && x in m.raw by { LiveIsKnown(m, o, x); }
    }
    if y in cloned {
      assert y in m'.raw;
    } else {
      assert y in m.address && y in m.raw by { LiveIsKnown(m, o, y); }
    }
  }

  lemma IndexGrows(cache: map<Address, nat>, cache': map<Address, nat>, address: map<nat, Address>, address': map<nat, Address>, wrapped: set<nat>, handed: set<nat>)
    requires IsIndex(cache, address, wrapped) && Caches(cache, cache', address', handed)
    requires forall n <- address :: n in address' && address'[n] == address[n]
    requires forall n <- handed :: n in address' && (address'[n] in cache ==> cache[address'[n]] == n)
    ensures IsIndex(cache', address', wrapped + handed)
  {
  }

  lemma CacheParts(m: Memory, o: Owner, m': Memory, o': Owner, h: nat, op: Operation, cloned: Store, named: Answer<Slot>)
    requires Sound(m, o) && Operates(m, o, m', o', h, op, cloned, named)
    ensures IsIndex(o.cache, m.address, o.view.wrappers.Keys) && Caches(o.cache, o'.cache, m'.address, Handed(named))
    ensures forall n <- m.address :: n in m'.address && m'.address[n] == m.address[n]
  {
    hide ViewOk, Backed, SlotsKnown, Apart, Live, Acts, Caches, IsIndex, WellFormed;
  }

  lemma HandedInIndex(m': Memory, o: Owner, named: Answer<Slot>)
    requires Truthful(m', o, named)
    ensures forall n <- Handed(named) :: n in m'.address && (m'.address[n] in o.cache ==> o.cache[m'.address[n]] == n)
  {
    hide Handed;
  }

  lemma IndexedAfter(m: Memory, o: Owner, m': Memory, o': Owner, h: nat, op: Operation, cloned: Store, named: Answer<Slot>)
    requires Sound(m, o) && Operates(m, o, m', o', h, op, cloned, named) && Truthful(m', o, named)
    ensures Indexed(m', o')
  {
    hide Sound, Operates, Truthful, Caches, IsIndex, Handed, Operate, Applicable, WrapperOk, NodeWellFormed, WellFormed, RefsWithin;
    OperationParts(m, o, m', o', h, op, cloned, named);
    CacheParts(m, o, m', o', h, op, cloned, named);
    HandedInIndex(m', o, named);
    IndexGrows(o.cache, o'.cache, m.address, m'.address, o.view.wrappers.Keys, Handed(named));
  }

  lemma BackedAfter(m: Memory, o: Owner, m': Memory, o': Owner, h: nat, op: Operation, cloned: Store, named: Answer<Slot>)
    requires Sound(m, o) && Operates(m, o, m', o', h, op, cloned, named)
    ensures Backed(m'.raw, o'.view) && SlotsKnown(m'.raw, o'.view)
  {
    OperationParts(m, o, m', o', h, op, cloned, named);
    hide Operates, Operate, Applicable, WrapperOk, Handed, Live, NodeWellFormed, WellFormed, RefsWithin, BackedBy;
    forall x <- o'.view.wrappers ensures x in m'.raw && BackedBy(o'.view.wrappers[x], m'.raw[x]) {
      if x == h {
        OperationKeepsBacking(o.view.wrappers[h], op, m.raw[h]);
      } else if x !in o.view.wrappers {
        FreshStoresNothing(m'.raw, m'.raw[x]);
      }
    }
    forall x <- o'.view.wrappers, slot <- Stored(o'.view.wrappers[x]) ensures SlotKnown(m'.raw, o'.view, slot) {
      StoredAfter(m, o, m', o', h, op, cloned, named, x, slot);
      if Escapes(slot) && slot.v.id !in cloned {
        LiveIsKnown(m, o, slot.v.id);
      }
    }
  }

  lemma ApartAfter(m: Memory, o: Owner, m': Memory, o': Owner, h: nat, op: Operation, cloned: Store, named: Answer<Slot>)
    requires Sound(m, o) && Operates(m, o, m', o', h, op, cloned, named)
    ensures Apart(m', o')
  {
    hide Sound, Live, Acts, Legal, Caches;
    forall x, y | Live(m'.raw, o', x) && Live(m'.raw, o', y)
      ensures x in m'.address && y in m'.address && (m'.address[x] == m'.address[y] ==> x == y)
    {
      LiveAfter(m, o, m', o', h, op, cloned, named, x);
      LiveAfter(m, o, m', o', h, op, cloned, named, y);
      StillApart(m, o, m', cloned, x, y);
    }
  }

  /** As long as no wrong wrapper is handed out, the owner stays consistent. */
  lemma OperationStaysSound(m: Memory, o: Owner, m': Memory, o': Owner, h: nat, op: Operation, cloned: Store, named: Answer<Slot>)
    requires Sound(m, o) && Operates(m, o, m', o', h, op, cloned, named) && Truthful(m', o, named)
    ensures Sound(m', o')
  {
    OperationParts(m, o, m', o', h, op, cloned, named);
    ViewStaysOk(m, o, m', o', h, op, cloned, named);
    IndexedAfter(m, o, m', o', h, op, cloned, named);
    BackedAfter(m, o, m', o', h, op, cloned, named);
    ApartAfter(m, o, m', o', h, op, cloned, named);
    hide ViewOk, Live, Indexed, Backed, SlotsKnown, Apart, Acts, Caches, Truthful;
  }

  // ---- When the cache is right -----------------------------------------------------------------------

  /** A live container is found right afterwards exactly when it was there before, or is a clone whose address no
      cached wrapper occupies. */
  lemma FoundRightAfter(m: Memory, o: Owner, m': Memory, o': Owner, h: nat, op: Operation, cloned: Store, named: Answer<Slot>, n: nat)
    requires Sound(m, o) && Right(m, o) && Operates(m, o, m', o', h, op, cloned, named) && Truthful(m', o, named)
    requires Live(m'.raw, o', n)
    ensures n in m'.address && (Target(m', o', n) == n <==> (n in cloned ==> m'.address[n] !in o.cache))
  {
    OperationParts(m, o, m', o', h, op, cloned, named);
    LiveAfter(m, o, m', o', h, op, cloned, named, n);
    StillApart(m, o, m', cloned, n, n);
    var a := m'.address[n];
    if a in o.cache {
      assert o.cache[a] in o.view.wrappers && o.cache[a] in m.raw;
      if n !in cloned {
        assert Live(m.raw, o, n);
      }
    } else if a in o'.cache {
      var x := o'.cache[a];
      assert x in Handed(named) && m'.address[x] == a;
      hide Live, Acts, ViewOk, Backed, SlotsKnown, Apart;
      assert x !in o.view.wrappers;
      HandedIsLive(m, o, h, op, cloned, x);
      StillApart(m, o, m', cloned, n, x);
    }
  }

  /** The exact condition. After an operation every container that can still be read is found under its own wrapper
      if and only if no clone that can be read got the address of a cached wrapper. */
  lemma RightExactlyWhenSpared(m: Memory, o: Owner, m': Memory, o': Owner, h: nat, op: Operation, cloned: Store, named: Answer<Slot>)
    requires Sound(m, o) && Right(m, o) && Operates(m, o, m', o', h, op, cloned, named) && Truthful(m', o, named)
    ensures Sound(m', o')
    ensures Right(m', o') <==> forall n <- cloned | Live(m'.raw, o', n) :: n in m'.address && m'.address[n] !in o.cache
  {
    hide Sound, Live, Operates, Truthful;
    OperationStaysSound(m, o, m', o', h, op, cloned, named);
    forall n | Live(m'.raw, o', n)
      ensures n in m'.address && (Target(m', o', n) == n <==> (n in cloned ==> m'.address[n] !in o.cache))
    {
      FoundRightAfter(m, o, m', o', h, op, cloned, named, n);
    }
  }

  /** What an operation hands out is found under its own wrapper, apart from clones that lie where a cached one is. */
  lemma HandedIsFound(m: Memory, o: Owner, m': Memory, h: nat, op: Operation, cloned: Store, n: nat)
    requires Sound(m, o) && Right(m, o) && Legal(m, o, m', cloned)
    requires h in o.view.wrappers && Applicable(o.view.wrappers[h], op) && WrapperOk(o.view.wrappers[h])
    requires RefsWithin(Inserted(op), cloned.Keys) && n in Handed(Operate(o.view.wrappers[h], op).1)
    ensures n in m'.address && ((n in cloned && m'.address[n] in o.cache) || Target(m', o, n) == n)
  {
    hide Operate, Applicable, WrapperOk, Handed, Live, ViewOk, Backed, SlotsKnown, Apart, WellFormed, RefsWithin;
    HandedIsLive(m, o, h, op, cloned, n);
    if n in cloned {
      assert n in m'.raw;
    } else if n in o.view.wrappers {
      DroppedIsCached(m, o, n);
    } else {
      assert n in m.address && Target(m, o, n) == n;
    }
  }

  /** Without such a clone the wrappers handed out are the right ones too: the code answers what names would. */
  lemma SparedIsTruthful(m: Memory, o: Owner, m': Memory, o': Owner, h: nat, op: Operation, cloned: Store, named: Answer<Slot>)
    requires Sound(m, o) && Right(m, o) && Operates(m, o, m', o', h, op, cloned, named) && Spared(o, m', cloned)
    ensures Truthful(m', o, named) && Handed(named) <= m'.address.Keys && Found(m', o, named) == named
  {
    hide Sound, Right, Acts, Legal, Caches, Operate, Applicable, WrapperOk, NodeWellFormed, WellFormed, RefsWithin, Handed, Target;
    OperationParts(m, o, m', o', h, op, cloned, named);
    forall n <- Handed(named) ensures n in m'.address && Target(m', o, n) == n {
      HandedIsFound(m, o, m', h, op, cloned, n);
    }
    FoundIsNamed(m', o, named);
  }

  lemma FoundIsNamed(m: Memory, o: Owner, named: Answer<Slot>)
    requires Truthful(m, o, named)
    ensures Handed(named) <= m.address.Keys && Found(m, o, named) == named
  {
    if named.Told? {
      forall i | 0 <= i < |named.values| && named.values[i].Handle? ensures Target(m, o, named.values[i].id) == named.values[i].id {
        assert named.values[i] in named.values && named.values[i].id in Handed(named);
      }
    }
  }

  // ---- Whose address can be taken ----------------------------------------------------------------------

  /** Only a list that has materialised, that the snapshot does not hold and that nothing stores any more can lose its
      address; dictionaries and lists without structural changes never do. */
  lemma OnlyDroppedListsAreHit(m: Memory, o: Owner, m': Memory, cloned: Store, n: nat)
    requires Sound(m, o) && Legal(m, o, m', cloned) && n in cloned && m'.address[n] in o.cache
    ensures var h := o.cache[m'.address[n]];
      h in o.view.wrappers && !Live(m.raw, o, h) && !KeepsBacking(o.view.wrappers[h]) && h !in o.held
  {
    var h := o.cache[m'.address[n]];
    assert m.address[h] == m'.address[n];
    if Root(o, h) {
      RootIsLive(m.raw, o, h);
    }
  }

  ghost predicate NoneDropped(m: Memory, o: Owner) {
    forall h <- o.view.wrappers :: Live(m.raw, o, h)
  }

  /** A view none of whose own lists has been restructured is safe: what a caller can see to beforehand. */
  lemma UnstructuredIsSafe(m: Memory, o: Owner)
    requires forall h <- o.view.wrappers :: KeepsBacking(o.view.wrappers[h]) || h in o.held
    ensures NoneDropped(m, o)
  {
    forall h <- o.view.wrappers ensures Live(m.raw, o, h) {
      RootIsLive(m.raw, o, h);
    }
  }

  lemma {:induction false} Above(s: set<nat>) returns (b: nat)
    ensures forall x <- s :: x < b
    decreases s
  {
    if s == {} {
      b := 0;
    } else {
      var x :| x in s;
      var c := Above(s - {x});
      assert forall y <- s :: y == x || y in s - {x};
      b := if c > x then c else x + 1;
    }
  }

  /** A memory that puts one of the new containers where a dropped one lay. */
  function Reusing(m: Memory, cloned: Store, n: nat, a: Address, b: nat): Memory {
    Memory(m.raw + cloned,
           map k | k in m.raw.Keys + cloned.Keys :: if k in cloned then (if k == n then a else b + k) else if k in m.address then m.address[k] else 0)
  }

  lemma ReusingIsLegal(m: Memory, o: Owner, cloned: Store, n: nat, h: nat, b: nat)
    requires Sound(m, o) && Right(m, o) && WellFormed(cloned) && cloned.Keys !! m.raw.Keys && n in cloned
    requires h in o.view.wrappers && !Live(m.raw, o, h) && forall a <- m.address.Values :: a < b
    ensures Legal(m, o, Reusing(m, cloned, n, m.address[h], b), cloned)
    ensures !Spared(o, Reusing(m, cloned, n, m.address[h], b), cloned)
  {
    var a := m.address[h];
    DroppedIsCached(m, o, h);
    forall x | Live(m.raw, o, x) ensures x in m.address && m.address[x] != a && m.address[x] in m.address.Values {
      LiveKeepsAway(m, o, h, x);
    }
    hide Sound, Right, Live, WellFormed;
    ReusedAddresses(m, cloned, n, a, b);
    hide Reusing;
  }

  lemma DroppedIsCached(m: Memory, o: Owner, h: nat)
    requires Sound(m, o) && h in o.view.wrappers
    ensures m.address.Keys == m.raw.Keys && h in m.address && m.address[h] in m.address.Values
    ensures m.address[h] in o.cache && o.cache[m.address[h]] == h
  {
    hide ViewOk, Backed, SlotsKnown, Apart;
  }

  lemma LiveKeepsAway(m: Memory, o: Owner, h: nat, x: nat)
    requires Sound(m, o) && Right(m, o) && h in o.view.wrappers && !Live(m.raw, o, h) && Live(m.raw, o, x)
    ensures x in m.address && h in m.address && m.address[x] != m.address[h]
  {
    DroppedIsCached(m, o, h);
    hide Sound, Live;
    assert Target(m, o, x) == x;
  }

  lemma ReusedAddresses(m: Memory, cloned: Store, n: nat, a: Address, b: nat)
    requires m.address.Keys == m.raw.Keys && cloned.Keys !! m.raw.Keys && n in cloned
    ensures var m' := Reusing(m, cloned, n, a, b);
      && m'.raw == m.raw + cloned && m'.address.Keys == m'.raw.Keys && m'.address[n] == a
      && (forall k <- m.address :: k in m'.address && m'.address[k] == m.address[k])
      && forall k <- cloned :: k in m'.address && (k != n ==> m'.address[k] == b + k)
  {
  }

  /** The exact condition without regard to the allocator: whatever addresses it may give the next clone, no cached
      wrapper is hit, if and only if the container of every wrapper is still alive. */
  lemma SafeExactlyWhenNoneDropped(m: Memory, o: Owner, cloned: Store)
    requires Sound(m, o) && Right(m, o) && WellFormed(cloned) && cloned.Keys !! m.raw.Keys && cloned != map[]
    ensures NoneDropped(m, o) <==> forall m' | Legal(m, o, m', cloned) :: Spared(o, m', cloned)
  {
    if NoneDropped(m, o) {
      forall m' | Legal(m, o, m', cloned) ensures Spared(o, m', cloned) {
        forall n <- cloned ensures n in m'.address && m'.address[n] !in o.cache {
          assert n in m'.raw;
          if m'.address[n] in o.cache {
            OnlyDroppedListsAreHit(m, o, m', cloned, n);
          }
        }
      }
    } else {
      var h :| h in o.view.wrappers && !Live(m.raw, o, h);
      var n :| n in cloned;
      var b := Above(m.address.Values);
      ReusingIsLegal(m, o, cloned, n, h, b);
    }
  }

  lemma MistakenAnswer(m: Memory, o: Owner, named: Answer<Slot>, n: nat)
    requires Handed(named) <= m.address.Keys && n in Handed(named) && Target(m, o, n) != n
    ensures Found(m, o, named) != named
  {
    var i :| 0 <= i < |named.values| && named.values[i] == Handle(n);
    assert Found(m, o, named).values[i] == Handle(Target(m, o, n));
  }

  /** The exact condition for an answer: whatever addresses the allocator may give the clones, the code answers with
      the right wrappers, if and only if the operation hands out no clone or the container of every wrapper is alive. */
  lemma AnswerIsSafeExactlyWhen(m: Memory, o: Owner, h: nat, op: Operation, cloned: Store)
    requires Sound(m, o) && Right(m, o)
    requires h in o.view.wrappers && Applicable(o.view.wrappers[h], op) && Allocated(m.raw, cloned, op)
    ensures WrapperOk(o.view.wrappers[h])
    ensures var named := Operate(o.view.wrappers[h], op).1;
      (forall m' | Legal(m, o, m', cloned) :: Handed(named) <= m'.address.Keys && Found(m', o, named) == named)
      <==> NoneDropped(m, o) || Handed(named) !! cloned.Keys
  {
    hide Sound, Right, Legal, NoneDropped, Operate, Applicable, WrapperOk, Handed, Found, Target, RefsWithin, WellFormed;
    assert ViewOk(m.raw, o.view) by { SoundParts(m, o); }
    HandedAreKnown(m.raw, o.view, h, op, cloned);
    WrapperIsOk(o.view.wrappers[h]);
    var named := Operate(o.view.wrappers[h], op).1;
    forall m' | Legal(m, o, m', cloned) && (NoneDropped(m, o) || Handed(named) !! cloned.Keys)
      ensures Handed(named) <= m'.address.Keys && Found(m', o, named) == named
    {
      SafelyFound(m, o, m', h, op, cloned);
    }
    if !NoneDropped(m, o) && exists n :: n in Handed(named) && n in cloned {
      var n :| n in Handed(named) && n in cloned;
      var m' := DroppedIsReused(m, o, h, op, cloned, n);
      assert Legal(m, o, m', cloned);
    }
  }

  lemma SoundParts(m: Memory, o: Owner)
    requires Sound(m, o)
    ensures ViewOk(m.raw, o.view) && m.address.Keys == m.raw.Keys
  {
  }

  lemma SafelyFound(m: Memory, o: Owner, m': Memory, h: nat, op: Operation, cloned: Store)
    requires Sound(m, o) && Right(m, o) && Legal(m, o, m', cloned) && h in o.view.wrappers && Applicable(o.view.wrappers[h], op)
    requires WrapperOk(o.view.wrappers[h]) && RefsWithin(Inserted(op), cloned.Keys)
    requires NoneDropped(m, o) || Handed(Operate(o.view.wrappers[h], op).1) !! cloned.Keys
    ensures var named := Operate(o.view.wrappers[h], op).1; Handed(named) <= m'.address.Keys && Found(m', o, named) == named
  {
    hide Sound, Right, Legal, Live, Operate, Applicable, WrapperOk, Handed, Target, RefsWithin, KeepsBacking;
    WrapperIsOk(o.view.wrappers[h]);
    var named := Operate(o.view.wrappers[h], op).1;
    forall n <- Handed(named) ensures n in m'.address && Target(m', o, n) == n {
      HandedIsFound(m, o, m', h, op, cloned, n);
      if n in cloned && m'.address[n] in o.cache {
        OnlyDroppedListsAreHit(m, o, m', cloned, n);
      }
    }
    FoundIsNamed(m', o, named);
  }

  lemma DroppedIsReused(m: Memory, o: Owner, h: nat, op: Operation, cloned: Store, n: nat) returns (m': Memory)
    requires Sound(m, o) && Right(m, o) && !NoneDropped(m, o) && h in o.view.wrappers && Applicable(o.view.wrappers[h], op)
    requires WrapperOk(o.view.wrappers[h]) && WellFormed(cloned) && cloned.Keys !! m.raw.Keys && RefsWithin(Inserted(op), cloned.Keys)
    requires n in cloned && n in Handed(Operate(o.view.wrappers[h], op).1)
    ensures Legal(m, o, m', cloned)
    ensures var named := Operate(o.view.wrappers[h], op).1; Handed(named) <= m'.address.Keys && Found(m', o, named) != named
  {
    var g :| g in o.view.wrappers && !Live(m.raw, o, g);
    hide Sound, Right, Legal, Live, Operate, Applicable, WrapperOk, WellFormed, RefsWithin, Handed, Found;
    DroppedIsCached(m, o, g);
    var b := Above(m.address.Values);
    ReusingIsLegal(m, o, cloned, n, g, b);
    ReusedAddresses(m, cloned, n, m.address[g], b);
    m' := Reusing(m, cloned, n, m.address[g], b);
    hide Reusing;
    var named := Operate(o.view.wrappers[h], op).1;
    forall x <- Handed(named) ensures x in m'.address {
      HandedIsFound(m, o, m', h, op, cloned, x);
    }
    MistakenAnswer(m', o, named, n);
  }

  // ---- Runs ----------------------------------------------------------------------------------------------

  /** What happens to one owner: an operation through one of its handles, or containers made for somebody else. */
  datatype Move = Own(handle: nat, op: Operation, cloned: Store) | Elsewhere(cloned: Store)

  ghost predicate Moves(m: Memory, o: Owner, m': Memory, o': Owner, move: Move, named: Answer<Slot>) {
    match move
    case Own(h, op, cloned) => Operates(m, o, m', o', h, op, cloned, named)
    case Elsewhere(cloned) => Legal(m, o, m', cloned) && o' == o && named.Nothing?
  }

  /** A fresh view of a snapshot, whose containers all lie apart. */
  ghost predicate Begins(m: Memory, o: Owner, ids: set<nat>, root: nat) {
    && IsSnapshot(m.raw, ids, root) && NodeWellFormed(m.raw, m.raw[root]) && m.address.Keys == m.raw.Keys
    && (forall x <- ids, y <- ids :: m.address[x] == m.address[y] ==> x == y)
    && o == Owner(Opening(m.raw, ids, root), ids, map[m.address[root] := root])
  }

  lemma ItemsStayInside(raw: Store, ids: set<nat>, n: nat, child: nat)
    requires WellFormed(raw) && n in ids && ids <= raw.Keys && PlainWithin(Snapshot(raw, ids)[n], ids) && Ref(child) in raw[n].items
    ensures child in ids
  {
    var node := raw[n];
    assert NodeWellFormed(raw, node);
    if node.DictNode? {
      var i :| 0 <= i < |node.items| && node.items[i] == Ref(child);
      assert node.keys[i] in node.keys && IndexOf(node.keys, node.keys[i]) == i;
      assert OrderedOf(node).values[node.keys[i]] == Ref(child);
    }
  }

  lemma {:induction false} SnapshotIsClosed(raw: Store, ids: set<nat>, root: nat, u: nat, n: nat, d: nat)
    requires IsSnapshot(raw, ids, root) && u in ids && Reaches(raw, Ref(u), Ref(n), d)
    ensures n in ids
    decreases d
  {
    if d > 0 {
      var x :| x in raw[u].items && Reaches(raw, x, Ref(n), d - 1);
      assert x.Ref?;
      ItemsStayInside(raw, ids, u, x.id);
      SnapshotIsClosed(raw, ids, root, x.id, n, d - 1);
    }
  }

  lemma BeginningKeepsToItself(m: Memory, o: Owner, ids: set<nat>, root: nat, n: nat)
    requires Begins(m, o, ids, root) && Live(m.raw, o, n)
    ensures n in ids
  {
    FreshStoresNothing(m.raw, m.raw[root]);
    var r, d :| Root(o, r) && Reaches(m.raw, Ref(r), Ref(n), d);
    hide IsSnapshot;
    SnapshotParts(m.raw, ids, root);
    SnapshotIsClosed(m.raw, ids, root, r, n, d);
  }

  lemma BeginningPlaces(m: Memory, o: Owner, ids: set<nat>, root: nat)
    requires Begins(m, o, ids, root) && (forall n | Live(m.raw, o, n) :: n in ids) && ids <= m.raw.Keys && root in ids
    ensures Indexed(m, o) && Apart(m, o) && Right(m, o)
  {
    hide Live, IsSnapshot, NodeWellFormed;
    assert o.view.wrappers.Keys == {root};
  }

  lemma BeginningSlots(m: Memory, o: Owner, ids: set<nat>, root: nat)
    requires Begins(m, o, ids, root)
    ensures Backed(m.raw, o.view) && SlotsKnown(m.raw, o.view) && ViewOk(m.raw, o.view)
  {
    OpeningStands(m.raw, ids, root);
    FreshStoresNothing(m.raw, m.raw[root]);
    hide ViewOk, IsSnapshot, BackedBy, NodeWellFormed;
  }

  lemma BeginningIsRight(m: Memory, o: Owner, ids: set<nat>, root: nat)
    requires Begins(m, o, ids, root)
    ensures Sound(m, o) && Right(m, o)
  {
    SnapshotParts(m.raw, ids, root);
    forall n | Live(m.raw, o, n) ensures n in ids {
      BeginningKeepsToItself(m, o, ids, root, n);
    }
    BeginningPlaces(m, o, ids, root);
    BeginningSlots(m, o, ids, root);
    hide ViewOk, IsSnapshot, Live, Indexed, Apart, Right, Backed, SlotsKnown, NodeWellFormed;
  }

  lemma SnapshotParts(raw: Store, ids: set<nat>, root: nat)
    requires IsSnapshot(raw, ids, root)
    ensures ids <= raw.Keys && root in ids
  {
  }

  lemma {:induction false} OldReach(m: Memory, o: Owner, m': Memory, cloned: Store, u: nat, n: nat, d: nat)
    requires Sound(m, o) && Legal(m, o, m', cloned) && u in m.raw && Reaches(m'.raw, Ref(u), Ref(n), d)
    ensures Reaches(m.raw, Ref(u), Ref(n), d)
    decreases d
  {
    if d > 0 {
      var x :| x in m'.raw[u].items && Reaches(m'.raw, x, Ref(n), d - 1);
      assert NodeWellFormed(m.raw, m.raw[u]) && x in m.raw[u].items && x.Ref?;
      OldReach(m, o, m', cloned, x.id, n, d - 1);
    }
  }

  lemma ElsewhereSameLife(m: Memory, o: Owner, m': Memory, cloned: Store, n: nat)
    requires Sound(m, o) && Legal(m, o, m', cloned)
    ensures Live(m'.raw, o, n) <==> Live(m.raw, o, n)
  {
    if Live(m.raw, o, n) {
      var r, d :| Root(o, r) && Reaches(m.raw, Ref(r), Ref(n), d);
      ExtensionKeepsReach(m.raw, m'.raw, Ref(r), Ref(n), d);
    }
    if Live(m'.raw, o, n) {
      var r, d :| Root(o, r) && Reaches(m'.raw, Ref(r), Ref(n), d);
      RootIsKnown(m, o, r);
      OldReach(m, o, m', cloned, r, n, d);
    }
  }

  lemma ElsewhereKeepsSlots(m: Memory, o: Owner, m': Memory, cloned: Store)
    requires Backed(m.raw, o.view) && SlotsKnown(m.raw, o.view) && m'.raw == m.raw + cloned && cloned.Keys !! m.raw.Keys
    ensures Backed(m'.raw, o.view) && SlotsKnown(m'.raw, o.view)
  {
    hide BackedBy, Stored;
    forall h <- o.view.wrappers, slot <- Stored(o.view.wrappers[h]) ensures SlotKnown(m'.raw, o.view, slot) {
      assert SlotKnown(m.raw, o.view, slot);
    }
  }

  lemma ElsewhereKeepsPlaces(m: Memory, o: Owner, m': Memory, cloned: Store)
    requires Sound(m, o) && Legal(m, o, m', cloned)
    ensures m'.address.Keys == m'.raw.Keys && Indexed(m', o) && Apart(m', o) && (Right(m', o) <==> Right(m, o))
  {
    forall n ensures Live(m'.raw, o, n) <==> Live(m.raw, o, n) {
      ElsewhereSameLife(m, o, m', cloned, n);
    }
    forall n | Live(m.raw, o, n) ensures n in m.address && n in m'.address && m'.address[n] == m.address[n] {
      LiveIsKnown(m, o, n);
    }
    hide Live, ViewOk, Backed, SlotsKnown, WellFormed;
  }

  /** Containers made for somebody else are none of this owner's business. */
  lemma ElsewhereStaysRight(m: Memory, o: Owner, m': Memory, cloned: Store)
    requires Sound(m, o) && Legal(m, o, m', cloned)
    ensures Sound(m', o) && (Right(m', o) <==> Right(m, o))
  {
    OtherViewsUnchanged(m.raw, o.view, cloned);
    ElsewhereKeepsSlots(m, o, m', cloned);
    ElsewhereKeepsPlaces(m, o, m', cloned);
    hide Live, ViewOk, Backed, SlotsKnown, WellFormed, Indexed, Apart, Right;
  }

  ghost predicate CodeRun(ms: seq<Memory>, os: seq<Owner>, moves: seq<Move>, named: seq<Answer<Slot>>, ids: set<nat>, root: nat) {
    && |ms| == |moves| + 1 && |os| == |moves| + 1 && |named| == |moves| && Begins(ms[0], os[0], ids, root)
    && forall i :: 0 <= i < |moves| ==> Moves(ms[i], os[i], ms[i + 1], os[i + 1], moves[i], named[i])
  }

  /** No clone of this move lies where a cached wrapper of the owner would be found. */
  ghost predicate MoveSpared(o: Owner, m': Memory, move: Move) {
    move.Own? ==> Spared(o, m', move.cloned)
  }

  lemma MoveStaysRight(m: Memory, o: Owner, m': Memory, o': Owner, move: Move, named: Answer<Slot>)
    requires Sound(m, o) && Right(m, o) && Moves(m, o, m', o', move, named) && MoveSpared(o, m', move)
    ensures Sound(m', o') && Right(m', o') && Handed(named) <= m'.address.Keys && Found(m', o, named) == named
  {
    hide Sound, Right, Operates, Legal, Found;
    match move {
      case Own(h, op, cloned) =>
        SparedIsTruthful(m, o, m', o', h, op, cloned, named);
        RightExactlyWhenSpared(m, o, m', o', h, op, cloned, named);
      case Elsewhere(cloned) =>
        ElsewhereStaysRight(m, o, m', cloned);
        NothingIsFound(m', o);
    }
  }

  lemma NothingIsFound(m: Memory, o: Owner)
    ensures Handed(Nothing) == {} && Found(m, o, Nothing) == Nothing
  {
  }

  /** As long as no clone gets the address of a cached wrapper, the code finds by address what names would find: over
      the whole run every answer is the one the views' own specification gives, which is that of a deep copy. */
  lemma {:induction false} SparedRunsAreRight(
      ms: seq<Memory>, os: seq<Owner>, moves: seq<Move>, named: seq<Answer<Slot>>, ids: set<nat>, root: nat, i: nat)
    requires CodeRun(ms, os, moves, named, ids, root) && i <= |moves|
    requires forall j :: 0 <= j < |moves| ==> MoveSpared(os[j], ms[j + 1], moves[j])
    ensures Sound(ms[i], os[i]) && Right(ms[i], os[i])
    ensures i < |moves| ==> Handed(named[i]) <= ms[i + 1].address.Keys && Found(ms[i + 1], os[i], named[i]) == named[i]
    decreases i
  {
    hide Sound, Right, Begins, Moves, MoveSpared, Found;
    if i == 0 {
      BeginningIsRight(ms[0], os[0], ids, root);
    } else {
      SparedRunsAreRight(ms, os, moves, named, ids, root, i - 1);
      MoveStaysRight(ms[i - 1], os[i - 1], ms[i], os[i], moves[i - 1], named[i - 1]);
    }
    if i < |moves| {
      MoveStaysRight(ms[i], os[i], ms[i + 1], os[i + 1], moves[i], named[i]);
    }
  }

  /** No clone of this move that can still be read got the address of a cached wrapper. */
  ghost predicate KeptSpared(o: Owner, m': Memory, o': Owner, move: Move) {
    move.Own? ==> forall n <- move.cloned | Live(m'.raw, o', n) :: n in m'.address && m'.address[n] !in o.cache
  }

  lemma MoveIsRightExactlyWhenSpared(m: Memory, o: Owner, m': Memory, o': Owner, move: Move, named: Answer<Slot>)
    requires Sound(m, o) && Right(m, o) && Moves(m, o, m', o', move, named) && Truthful(m', o, named)
    ensures Sound(m', o') && (Right(m', o') <==> KeptSpared(o, m', o', move))
  {
    hide Sound, Right, Operates, Legal, Truthful, Live;
    match move {
      case Own(h, op, cloned) => RightExactlyWhenSpared(m, o, m', o', h, op, cloned, named);
      case Elsewhere(cloned) => ElsewhereStaysRight(m, o, m', cloned);
    }
  }

  lemma {:induction false} RightSoFar(
      ms: seq<Memory>, os: seq<Owner>, moves: seq<Move>, named: seq<Answer<Slot>>, ids: set<nat>, root: nat, i: nat)
    requires CodeRun(ms, os, moves, named, ids, root) && i <= |moves|
    requires forall j :: 0 <= j < i ==> Truthful(ms[j + 1], os[j], named[j])
    requires (forall j :: 0 <= j < i ==> KeptSpared(os[j], ms[j + 1], os[j + 1], moves[j])) || forall j :: 0 <= j <= i ==> Right(ms[j], os[j])
    ensures Sound(ms[i], os[i]) && Right(ms[i], os[i])
    decreases i
  {
    hide Sound, Right, Begins, Moves, Truthful, KeptSpared;
    if i == 0 {
      BeginningIsRight(ms[0], os[0], ids, root);
    } else {
      RightSoFar(ms, os, moves, named, ids, root, i - 1);
      MoveIsRightExactlyWhenSpared(ms[i - 1], os[i - 1], ms[i], os[i], moves[i - 1], named[i - 1]);
    }
  }

  /** The exact condition over whole runs: every container that can be read is found right in every state if and only
      if no clone that could be read ever got the address of a cached wrapper. */
  lemma RunIsRightExactlyWhenSpared(
      ms: seq<Memory>, os: seq<Owner>, moves: seq<Move>, named: seq<Answer<Slot>>, ids: set<nat>, root: nat)
    requires CodeRun(ms, os, moves, named, ids, root)
    requires forall j :: 0 <= j < |moves| ==> Truthful(ms[j + 1], os[j], named[j])
    ensures (forall i :: 0 <= i <= |moves| ==> Right(ms[i], os[i]))
      <==> forall j :: 0 <= j < |moves| ==> KeptSpared(os[j], ms[j + 1], os[j + 1], moves[j])
  {
    hide Sound, Right, Begins, Moves, Truthful, KeptSpared;
    if forall i :: 0 <= i <= |moves| ==> Right(ms[i], os[i]) {
      forall j | 0 <= j < |moves| ensures KeptSpared(os[j], ms[j + 1], os[j + 1], moves[j]) {
        RightSoFar(ms, os, moves, named, ids, root, j);
        MoveIsRightExactlyWhenSpared(ms[j], os[j], ms[j + 1], os[j + 1], moves[j], named[j]);
      }
    }
    if forall j :: 0 <= j < |moves| ==> KeptSpared(os[j], ms[j + 1], os[j + 1], moves[j]) {
      forall i | 0 <= i <= |moves| ensures Right(ms[i], os[i]) {
        RightSoFar(ms, os, moves, named, ids, root, i);
      }
    }
  }

  /** A step of a world of many views is a move of its own view's owner, and of every other owner a move elsewhere. */
  lemma WorldStepIsOwnMove(world: World, world': World, v: nat, h: nat, op: Operation, cloned: Store, answer: Answer<Slot>)
    requires Acts(world, world', v, h, op, cloned, answer)
    ensures |world'.views| == |world.views| && world'.raw == world.raw + cloned
    ensures Acts(World(world.raw, [world.views[v]]), World(world'.raw, [world'.views[v]]), 0, h, op, cloned, answer)
    ensures forall u :: 0 <= u < |world.views| && u != v ==> world'.views[u] == world.views[u]
  {
    hide Operate, Applicable, WrapperOk, Handed, Allocated, AllKnown, After;
    var one := World(world.raw, [world.views[v]]);
    assert one.views[0] == world.views[v];
    assert one.views[0 := world'.views[v]] == [world'.views[v]];
  }
}
