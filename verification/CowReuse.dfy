/** A legal run in which a dropped list's address is used again, and a view answers with the wrong list. */
module CowReuse {
  import opened CloneJson
  import opened CowSpec
  import opened CowOperations
  import opened CowViews
  import opened CowIdentity

  const Root0: Node := DictNode([], [])
  const EmptyList: Node := ListNode([])

  function RootWith(keys: seq<Key>, slots: map<Key, Slot>): Wrapper {
    DictWrapper(Overlay(Ordered([], map[]), false, map[], keys, slots, {}))
  }

  const Grown: Wrapper := ListWrapper(Solid([Unwrapped(Plain(Null))]))

  lemma RootWithIsOk(keys: seq<Key>, slots: map<Key, Slot>)
    requires forall k :: k in keys <==> k in slots
    requires forall i, j :: 0 <= i < j < |keys| ==> keys[i] != keys[j]
    ensures WrapperOk(RootWith(keys, slots))
  {
  }

  lemma DefaultOperates(keys: seq<Key>, slots: map<Key, Slot>, k: Key, n: nat)
    requires WrapperOk(RootWith(keys, slots)) && k !in slots
    ensures Operate(RootWith(keys, slots), OnDict(SetDefault(k, Ref(n)))) == (RootWith(keys + [k], slots[k := Handle(n)]), Told([], [Handle(n)]))
    ensures Handed(Told([], [Handle(n)])) == {n}
  {
    var o := RootWith(keys, slots).overlay;
    var set' := SetSlot(o, k, Unwrapped(Ref(n)));
    SetKeeps(o, k, Unwrapped(Ref(n)));
    assert Touch(set', k) == RootWith(keys + [k], slots[k := Handle(n)]).overlay;
    assert [Handle(n)][0] in [Handle(n)];
  }

  lemma ListIsAllocated(raw: Store, k: Key, n: nat)
    requires n !in raw
    ensures var cloned: Store := map[n := EmptyList];
      raw + cloned == raw[n := EmptyList] && Allocated(raw, cloned, OnDict(SetDefault(k, Ref(n)))) && AllKnown(raw + cloned, {n})
  {
    var cloned: Store := map[n := EmptyList];
    assert NodeWellFormed(raw + cloned, EmptyList) && NodeWellFormed(cloned, EmptyList);
  }

  /** The view after an empty list n has been inserted into the root and read. */
  function WithList(view: View, w': Wrapper, n: nat): View {
    View(view.ids + {n}, view.wrappers[0 := w'][n := ListWrapper(Lazy([], map[]))])
  }

  lemma InsertionOpens(raw: Store, view: View, w': Wrapper, n: nat)
    requires n !in raw && n !in view.wrappers && 0 in view.wrappers && n != 0
    ensures var cloned: Store := map[n := EmptyList];
      n in raw + cloned && (raw + cloned)[n] == EmptyList && After(raw, view, 0, w', {n}, cloned) == WithList(view, w', n)
  {
    var cloned: Store := map[n := EmptyList];
    assert cloned.Keys == {n};
    assert Fresh(EmptyList) == ListWrapper(Lazy([], map[]));
    var wrappers := Opened(raw + cloned, view.wrappers[0 := w'], {n});
    assert wrappers == view.wrappers[0 := w'][n := ListWrapper(Lazy([], map[]))];
  }

  lemma InsertionActs(raw: Store, view: View, keys: seq<Key>, slots: map<Key, Slot>, k: Key, n: nat)
    requires WrapperOk(RootWith(keys, slots)) && k !in slots && n !in raw && n !in view.wrappers && n != 0
    requires 0 in view.wrappers && view.wrappers[0] == RootWith(keys, slots)
    ensures Acts(World(raw, [view]), World(raw[n := EmptyList], [WithList(view, RootWith(keys + [k], slots[k := Handle(n)]), n)]),
      0, 0, OnDict(SetDefault(k, Ref(n))), map[n := EmptyList], Told([], [Handle(n)]))
  {
    var op, w' := OnDict(SetDefault(k, Ref(n))), RootWith(keys + [k], slots[k := Handle(n)]);
    DefaultOperates(keys, slots, k, n);
    ListIsAllocated(raw, k, n);
    InsertionOpens(raw, view, w', n);
    assert RootWith(keys, slots).DictWrapper? && op.dict.Sane();
    WrapperIsOk(RootWith(keys, slots));
    assert Applicable(RootWith(keys, slots), op);
    hide Operate, Handed, WrapperOk, RootWith, Allocated, AllKnown, After, WithList, Applicable;
    var world := World(raw, [view]);
    assert world.views[0] == view && [view][0 := WithList(view, w', n)] == [WithList(view, w', n)];
  }

  lemma InsertionIsLegal(m: Memory, o: Owner, n: nat, a: Address)
    requires n !in m.raw && m.address.Keys == m.raw.Keys && forall x | Live(m.raw, o, x) :: x in m.address && m.address[x] != a
    ensures Legal(m, o, Memory(m.raw[n := EmptyList], m.address[n := a]), map[n := EmptyList])
  {
    var cloned: Store := map[n := EmptyList];
    assert NodeWellFormed(cloned, EmptyList) && m.raw + cloned == m.raw[n := EmptyList];
    hide Live;
  }

  lemma InsertionCaches(o: Owner, address: map<nat, Address>, n: nat, a: Address)
    ensures Caches(o.cache, if a in o.cache then o.cache else o.cache[a := n], address[n := a], {n})
  {
  }

  /** Inserting an empty list under a new key of the root and reading it, the list lying at address a. */
  lemma InsertsList(m: Memory, o: Owner, keys: seq<Key>, slots: map<Key, Slot>, k: Key, n: nat, a: Address)
    requires WrapperOk(RootWith(keys, slots)) && k !in slots && n !in m.raw && n !in o.view.wrappers && n != 0 && m.address.Keys == m.raw.Keys
    requires 0 in o.view.wrappers && o.view.wrappers[0] == RootWith(keys, slots)
    requires forall x | Live(m.raw, o, x) :: x in m.address && m.address[x] != a
    ensures Operates(m, o, Memory(m.raw[n := EmptyList], m.address[n := a]),
      Owner(WithList(o.view, RootWith(keys + [k], slots[k := Handle(n)]), n), o.held, if a in o.cache then o.cache else o.cache[a := n]),
      0, OnDict(SetDefault(k, Ref(n))), map[n := EmptyList], Told([], [Handle(n)]))
  {
    hide Live, WrapperOk, RootWith, WithList, Acts, Legal, Caches, Handed;
    InsertionActs(m.raw, o.view, keys, slots, k, n);
    InsertionIsLegal(m, o, n, a);
    InsertionCaches(o, m.address, n, a);
    HandsOne(n);
  }

  lemma HandsOne(n: nat)
    ensures Handed(Told([], [Handle(n)])) == {n}
  {
    assert [Handle(n)][0] in [Handle(n)];
  }

  /** Where only the root is kept, only the root is alive. */
  lemma OnlyRootLives(m: Memory, o: Owner, x: nat)
    requires 0 in m.raw && m.raw[0] == Root0 && (forall r: nat | Root(o, r) :: r == 0) && Live(m.raw, o, x)
    ensures x == 0
  {
    var r: nat, d: nat :| Root(o, r) && Reaches(m.raw, Ref(r), Ref(x), d);
    assert d == 0;
  }

  // A list is inserted and read, something is appended to it, another list is inserted where the first one lay.

  const A: Key := Text("a")
  const B: Key := Text("b")
  const M0: Memory := Memory(map[0 := Root0], map[0 := 0])
  const M1: Memory := Memory(M0.raw[1 := EmptyList], M0.address[1 := 1])
  const M3: Memory := Memory(M1.raw[2 := EmptyList], M1.address[2 := 1])
  const O0: Owner := Owner(View({0}, map[0 := RootWith([], map[])]), {0}, map[0 := 0])
  const O1: Owner := Owner(WithList(O0.view, RootWith([] + [A], map[][A := Handle(1)]), 1), {0}, O0.cache[1 := 1])
  const O2: Owner := Owner(View(O1.view.ids, O1.view.wrappers[1 := Grown]), {0}, O1.cache)
  const O3: Owner := Owner(WithList(O2.view, RootWith([A] + [B], map[A := Handle(1)][B := Handle(2)]), 2), {0}, O2.cache)
  const First: Move := Own(0, OnDict(SetDefault(A, Ref(1))), map[1 := EmptyList])
  const Second: Move := Own(1, OnList(Append(Plain(Null))), map[])
  const Third: Move := Own(0, OnDict(SetDefault(B, Ref(2))), map[2 := EmptyList])

  lemma FirstMove()
    ensures Moves(M0, O0, M1, O1, First, Told([], [Handle(1)]))
  {
    RootWithIsOk([], map[]);
    forall x | Live(M0.raw, O0, x) ensures x in M0.address && M0.address[x] != 1 {
      OnlyRootLives(M0, O0, x);
    }
    hide Operates, Live, WithList, RootWith, WrapperOk;
    InsertsList(M0, O0, [], map[], A, 1, 1);
  }

  lemma AppendOperates()
    ensures Operate(ListWrapper(Lazy([], map[])), OnList(Append(Plain(Null)))) == (Grown, Told([], []))
    ensures Handed(Told([], [])) == {}
  {
    assert InsertAt(Lazy([], map[]), 0, Unwrapped(Plain(Null))) == Solid([Unwrapped(Plain(Null))]);
  }

  lemma NothingNew(raw: Store)
    ensures var none: Store := map[]; raw + none == raw && WellFormed(none) && Allocated(raw, none, OnList(Append(Plain(Null)))) && AllKnown(raw + none, {})
  {
  }

  lemma AppendAfter(raw: Store, view: View, h: nat, w': Wrapper)
    requires h in view.wrappers
    ensures After(raw, view, h, w', {}, map[]) == View(view.ids, view.wrappers[h := w'])
  {
    var none: Store := map[];
    assert Opened(raw + none, view.wrappers[h := w'], {}) == view.wrappers[h := w'];
    assert view.ids + none.Keys == view.ids;
  }

  lemma AppendActs(raw: Store, view: View)
    requires 1 in view.wrappers && view.wrappers[1] == ListWrapper(Lazy([], map[]))
    ensures Acts(World(raw, [view]), World(raw, [View(view.ids, view.wrappers[1 := Grown])]), 0, 1, OnList(Append(Plain(Null))), map[], Told([], []))
  {
    AppendOperates();
    NothingNew(raw);
    AppendAfter(raw, view, 1, Grown);
    assert WrapperOk(view.wrappers[1]) && Applicable(view.wrappers[1], OnList(Append(Plain(Null))));
    hide Operate, Handed, WrapperOk, Allocated, AllKnown, After, Applicable;
    assert [view][0] == view && [view][0 := View(view.ids, view.wrappers[1 := Grown])] == [View(view.ids, view.wrappers[1 := Grown])];
  }

  lemma NothingIsLegal(m: Memory, o: Owner)
    requires m.address.Keys == m.raw.Keys
    ensures Legal(m, o, m, map[]) && Caches(o.cache, o.cache, m.address, {})
  {
    var none: Store := map[];
    assert m.raw + none == m.raw;
    hide Live;
  }

  lemma SecondMove()
    ensures Moves(M1, O1, M1, O2, Second, Told([], []))
  {
    AppendActs(M1.raw, O1.view);
    AppendOperates();
    NothingIsLegal(M1, O1);
    hide Acts, Legal, Caches, WithList, RootWith, Handed;
  }

  lemma OnlyRootIsLeft()
    ensures forall x | Live(M1.raw, O2, x) :: x in M1.address && M1.address[x] != 1
  {
    forall x | Live(M1.raw, O2, x) ensures x in M1.address && M1.address[x] != 1 {
      OnlyRootLives(M1, O2, x);
    }
  }

  lemma ThirdMove()
    ensures Moves(M1, O2, M3, O3, Third, Told([], [Handle(2)]))
  {
    hide Operates, Live, RootWith, WrapperOk;
    var keys: seq<Key>, slots: map<Key, Slot> := [] + [A], map[][A := Handle(1)];
    RootWithIsOk(keys, slots);
    OnlyRootIsLeft();
    assert O2.view.wrappers[0] == RootWith(keys, slots);
    hide WithList;
    assert [A] + [B] == keys + [B] && map[A := Handle(1)][B := Handle(2)] == slots[B := Handle(2)];
    InsertsList(M1, O2, keys, slots, B, 2, 1);
  }

  lemma BeginsEmpty()
    ensures Begins(M0, O0, {0}, 0)
  {
    assert OrderedOf(Root0) == Ordered([], map[]);
    assert NodeWellFormed(M0.raw, M0.raw[0]);
  }

  /** The second list is read as the first one: the move is a legal one and every earlier answer was right, and yet
      what is handed out for the new empty list is the wrapper of the list under the other key, with its element. */
  lemma StaleWrapperIsFound()
    ensures CodeRun([M0, M1, M1, M3], [O0, O1, O2, O3], [First, Second, Third],
      [Told([], [Handle(1)]), Told([], []), Told([], [Handle(2)])], {0}, 0)
    ensures Truthful(M1, O0, Told([], [Handle(1)])) && Truthful(M1, O1, Told([], []))
    ensures Handed(Told([], [Handle(2)])) <= M3.address.Keys && Found(M3, O2, Told([], [Handle(2)])) == Told([], [Handle(1)])
    ensures Standing(O2.view.wrappers[1]) == List([Plain(Null)]) && PlainOf(M3.raw[2]) == List([])
    ensures !NoneDropped(M1, O2)
  {
    BeginsEmpty();
    FirstMove();
    SecondMove();
    ThirdMove();
    StaleParts();
    hide *;
    ThreeMoves(M0, M1, M1, M3, O0, O1, O2, O3, First, Second, Third, Told([], [Handle(1)]), Told([], []), Told([], [Handle(2)]), {0}, 0);
  }

  lemma ThreeMoves(
      a: Memory, b: Memory, c: Memory, d: Memory, p: Owner, q: Owner, r: Owner, s: Owner,
      x: Move, y: Move, z: Move, k: Answer<Slot>, l: Answer<Slot>, n: Answer<Slot>, ids: set<nat>, root: nat)
    requires Begins(a, p, ids, root) && Moves(a, p, b, q, x, k) && Moves(b, q, c, r, y, l) && Moves(c, r, d, s, z, n)
    ensures CodeRun([a, b, c, d], [p, q, r, s], [x, y, z], [k, l, n], ids, root)
  {
    hide Begins, Moves;
  }

  lemma StaleParts()
    ensures Truthful(M1, O0, Told([], [Handle(1)])) && Truthful(M1, O1, Told([], []))
    ensures Handed(Told([], [Handle(2)])) <= M3.address.Keys && Found(M3, O2, Told([], [Handle(2)])) == Told([], [Handle(1)])
    ensures Standing(O2.view.wrappers[1]) == List([Plain(Null)]) && PlainOf(M3.raw[2]) == List([])
    ensures !NoneDropped(M1, O2)
  {
    HandsOne(1);
    HandsOne(2);
    FirstIsDropped();
    hide Live, RootWith, WithList;
  }

  lemma FirstIsDropped()
    ensures !NoneDropped(M1, O2)
  {
    OnlyRootIsLeft();
    assert 1 in O2.view.wrappers && M1.address[1] == 1;
    hide Live;
  }
}
