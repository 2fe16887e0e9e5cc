/** Where the slots that an operation leaves behind or hands out come from. */
module CowSlots {
  import opened Sequences
  import opened CloneJson
  import opened CowSpec
  import opened CowOperations
  import opened CowViews

  /** The slots a wrapper stores itself. */
  function Stored(w: Wrapper): set<Slot> {
    match w
    case DictWrapper(o) => o.updated.Values + o.added.Values
    case ListWrapper(Lazy(_, wrapped)) => wrapped.Values
    case ListWrapper(Solid(items)) => set slot <- items
  }

  /** A wrapper keeps the container it was made for, until a list materialises. */
  predicate KeepsBacking(w: Wrapper) {
    w.ListWrapper? ==> w.lazy.Lazy?
  }

  /** What a wrapper reads through to is the container it was made for. */
  ghost predicate BackedBy(w: Wrapper, node: Node) {
    match w
    case DictWrapper(o) => node.DictNode? && |node.keys| == |node.items| && o.source == OrderedOf(node)
    case ListWrapper(Lazy(source, _)) => node.ListNode? && source == node.items
    case ListWrapper(Solid(_)) => true
  }

  // ---- Where the slots after an operation come from ---------------------------------------------

  ghost predicate Offers(w: Wrapper, slot: Slot) {
    match w
    case DictWrapper(o) => exists k :: Has(o, k) && Lookup(o, k) == slot
    case ListWrapper(l) => slot in Slots(l)
  }

  /** A slot that was there, an inserted value, or a wrapper that was handed out. */
  ghost predicate ComesFrom(w: Wrapper, inserted: seq<Value>, handed: set<nat>, slot: Slot) {
    || Offers(w, slot)
    || (slot.Unwrapped? && slot.v in inserted)
    || (slot.Handle? && slot.id in handed)
  }

  function StoredIn(o: Overlay): set<Slot> { Stored(DictWrapper(o)) }

  lemma StoredIsOffered(o: Overlay, slot: Slot)
    requires OverlayOk(o) && slot in StoredIn(o)
    ensures Offers(DictWrapper(o), slot)
    ensures forall inserted: seq<Value>, handed: set<nat> :: ComesFrom(DictWrapper(o), inserted, handed, slot)
  {
    if k :| k in o.added && o.added[k] == slot {
      assert Has(o, k) && Lookup(o, k) == slot;
    } else {
      var k :| k in o.updated && o.updated[k] == slot;
      assert Has(o, k) && Lookup(o, k) == slot;
    }
  }

  lemma StoredAfterTouch(o: Overlay, k: Key, slot: Slot)
    requires Has(o, k) && slot in StoredIn(Touch(o, k))
    ensures slot in StoredIn(o) || slot == Wrapped(Lookup(o, k))
  {
    var o' := Touch(o, k);
    if x :| x in o'.added && o'.added[x] == slot {
      assert x == k || slot in o.added.Values;
    } else {
      var x :| x in o'.updated && o'.updated[x] == slot;
      assert x == k || slot in o.updated.Values;
    }
  }

  lemma StoredAfterSet(o: Overlay, k: Key, fresh': Slot, slot: Slot)
    requires slot in StoredIn(SetSlot(o, k, fresh'))
    ensures slot in StoredIn(o) || slot == fresh'
  {
    var o' := SetSlot(o, k, fresh');
    if x :| x in o'.added && o'.added[x] == slot {
      assert x == k || slot in o.added.Values;
    } else {
      var x :| x in o'.updated && o'.updated[x] == slot;
      assert x == k || slot in o.updated.Values;
    }
  }

  lemma StoredAfterDelete(o: Overlay, k: Key, slot: Slot)
    requires Has(o, k) && slot in StoredIn(Delete(o, k))
    ensures slot in StoredIn(o)
  {
  }

  lemma {:induction false} StoredAfterUpdate(o: Overlay, keys: seq<Key>, items: seq<Value>, slot: Slot)
    requires |keys| == |items| && slot in StoredIn(SetAllSlots(o, keys, items))
    ensures slot in StoredIn(o) || (slot.Unwrapped? && slot.v in items)
  {
    if keys != [] {
      var n := |keys| - 1;
      StoredAfterSet(SetAllSlots(o, keys[..n], items[..n]), keys[n], Unwrapped(items[n]), slot);
      if slot in StoredIn(SetAllSlots(o, keys[..n], items[..n])) {
        StoredAfterUpdate(o, keys[..n], items[..n], slot);
      }
    }
  }

  lemma {:induction false} StoredAfterTouchAll(o: Overlay, keys: seq<Key>, slot: Slot)
    requires OverlayOk(o) && (forall k <- keys :: Has(o, k)) && slot in StoredIn(TouchAll(o, keys))
    ensures slot in StoredIn(o) || exists k <- keys :: Has(o, k) && slot == Wrapped(Lookup(o, k))
  {
    if keys != [] {
      var n := |keys| - 1;
      assert keys[n] in keys;
      IterationRefines(o, keys[..n]);
      StoredAfterTouch(TouchAll(o, keys[..n]), keys[n], slot);
      if slot in StoredIn(TouchAll(o, keys[..n])) {
        StoredAfterTouchAll(o, keys[..n], slot);
      }
    }
  }

  function HandedBy(values: seq<Slot>): set<nat> { set slot <- values | slot.Handle? :: slot.id }

  /** A reader is handed what the wrapper offers, wrapped, or a value it has just inserted. */
  ghost predicate Readable(w: Wrapper, inserted: seq<Value>, n: nat) {
    Offers(w, Handle(n)) || Offers(w, Unwrapped(Ref(n))) || Ref(n) in inserted
  }

  lemma OfferedIsReadable(o: Overlay, k: Key, inserted: seq<Value>, n: nat)
    requires Has(o, k) && Wrapped(Lookup(o, k)) == Handle(n)
    ensures Readable(DictWrapper(o), inserted, n)
  {
    assert Offers(DictWrapper(o), Lookup(o, k));
  }

  lemma DictHands(o: Overlay, op: DictOp, n: nat)
    requires OverlayOk(o) && op.Sane() && OnOverlay(o, op).1.Some? && n in HandedBy(OnOverlay(o, op).1.value.values)
    ensures Readable(DictWrapper(o), op.Inserted(), n)
  {
    hide OverlayOk, Offers;
    var values := OnOverlay(o, op).1.value.values;
    var i :| 0 <= i < |values| && values[i] == Handle(n);
    match op {
      case GetItem(k) => OfferedIsReadable(o, k, op.Inserted(), n);
      case PopKey(k) => OfferedIsReadable(o, k, op.Inserted(), n);
      case PopLast =>
        KeysAreHad(o);
        OfferedIsReadable(o, Keys(o)[|Keys(o)| - 1], op.Inserted(), n);
      case SetDefault(k, v) =>
        if Has(o, k) {
          OfferedIsReadable(o, k, op.Inserted(), n);
        } else {
          SetKeeps(o, k, Unwrapped(v));
          assert v in op.Inserted();
        }
      case Iterate =>
        KeysAreHad(o);
        OfferedIsReadable(o, Keys(o)[i], op.Inserted(), n);
      case _ =>
    }
  }

  /** A wrapper that was put in place of its container is one that was handed out. */
  lemma WrappedComesFrom(o: Overlay, k: Key, inserted: seq<Value>, values: seq<Slot>)
    requires Has(o, k) && Wrapped(Lookup(o, k)) in values
    ensures ComesFrom(DictWrapper(o), inserted, HandedBy(values), Wrapped(Lookup(o, k)))
  {
    assert Offers(DictWrapper(o), Lookup(o, k));
  }

  lemma DictStores(o: Overlay, op: DictOp, slot: Slot)
    requires OverlayOk(o) && op.Sane() && slot in StoredIn(OnOverlay(o, op).0)
    ensures var reply := OnOverlay(o, op).1;
      ComesFrom(DictWrapper(o), op.Inserted(), if reply.Some? then HandedBy(reply.value.values) else {}, slot)
  {
    hide OverlayOk, StoredIn, Touch, SetSlot, Delete, Lookup, Has, ComesFrom;
    if slot in StoredIn(o) {
      StoredIsOffered(o, slot);
      return;
    }
    var reply := OnOverlay(o, op).1;
    match op {
      case GetItem(k) => TouchStores(o, k, op.Inserted(), reply.value.values, slot);
      case SetItem(k, v) => StoredAfterSet(o, k, Unwrapped(v), slot); NewComesFrom(o, op, v);
      case DelItem(k) => StoredAfterDelete(o, k, slot);
      case PopKey(k) =>
        TakeOutStores(o, k);
        assert false;
      case PopLast =>
        KeysAreHad(o);
        TakeOutStores(o, Keys(o)[|Keys(o)| - 1]);
        assert false;
      case SetDefault(k, v) => DefaultStores(o, k, v, slot);
      case UpdateAll(keys, values) => StoredAfterUpdate(o, keys, values, slot); InsertedComesFrom(o, op, slot);
      case ClearDict => ClearStores(o, slot);
      case Iterate =>
        KeysAreHad(o);
        StoredAfterTouchAll(o, Keys(o), slot);
        IterationStores(o, slot);
      case _ =>
    }
  }

  lemma InsertedComesFrom(o: Overlay, op: DictOp, slot: Slot)
    requires slot.Unwrapped? && slot.v in op.Inserted()
    ensures ComesFrom(DictWrapper(o), op.Inserted(), {}, slot) && ComesFrom(DictWrapper(o), op.Inserted(), HandedBy([]), slot)
  {
  }

  lemma NewComesFrom(o: Overlay, op: DictOp, v: Value)
    requires op.SetItem? && v == op.value
    ensures ComesFrom(DictWrapper(o), op.Inserted(), HandedBy([]), Unwrapped(v))
  {
    assert v in op.Inserted();
  }

  lemma TouchStores(o: Overlay, k: Key, inserted: seq<Value>, values: seq<Slot>, slot: Slot)
    requires Has(o, k) && slot in StoredIn(Touch(o, k)) && slot !in StoredIn(o) && Wrapped(Lookup(o, k)) in values
    ensures ComesFrom(DictWrapper(o), inserted, HandedBy(values), slot)
  {
    StoredAfterTouch(o, k, slot);
    WrappedComesFrom(o, k, inserted, values);
  }

  /** What is taken out goes with its slot, the wrapper just made of it included. */
  lemma TakeOutStores(o: Overlay, k: Key)
    requires OverlayOk(o) && Has(o, k)
    ensures StoredIn(TakeOut(o, k).0) <= StoredIn(o)
  {
    TouchRefines(o, k);
    var o' := TakeOut(o, k).0;
    assert forall x <- o'.added :: x != k && x in o.added && o'.added[x] == o.added[x];
    assert forall x <- o'.updated :: x != k && x in o.updated && o'.updated[x] == o.updated[x];
  }

  lemma DefaultStores(o: Overlay, k: Key, v: Value, slot: Slot)
    requires OverlayOk(o) && slot in StoredIn(OnOverlay(o, SetDefault(k, v)).0) && slot !in StoredIn(o)
    ensures OnOverlay(o, SetDefault(k, v)).1.Some?
    ensures ComesFrom(DictWrapper(o), [v], HandedBy(OnOverlay(o, SetDefault(k, v)).1.value.values), slot)
  {
    if Has(o, k) {
      TouchStores(o, k, [v], [Wrapped(Lookup(o, k))], slot);
    } else {
      var o' := SetSlot(o, k, Unwrapped(v));
      SetKeeps(o, k, Unwrapped(v));
      StoredAfterTouch(o', k, slot);
      if slot in StoredIn(o') {
        StoredAfterSet(o, k, Unwrapped(v), slot);
      }
      assert v in [v] && Wrapped(Unwrapped(v)) in [Wrapped(Lookup(o', k))];
    }
  }

  lemma ClearStores(o: Overlay, slot: Slot)
    requires slot in StoredIn(Clear(o))
    ensures slot in StoredIn(o)
  {
  }

  lemma IterationStores(o: Overlay, slot: Slot)
    requires (forall k <- Keys(o) :: Has(o, k)) && exists k <- Keys(o) :: Has(o, k) && slot == Wrapped(Lookup(o, k))
    ensures ComesFrom(DictWrapper(o), [], HandedBy(WrappedAll(o, Keys(o))), slot)
  {
    var k :| k in Keys(o) && Has(o, k) && slot == Wrapped(Lookup(o, k));
    var i :| 0 <= i < |Keys(o)| && Keys(o)[i] == k;
    assert WrappedAll(o, Keys(o))[i] == slot;
    WrappedComesFrom(o, k, [], WrappedAll(o, Keys(o)));
  }

  // ---- The same for lists ----------------------------------------------------------------------

  lemma ListHands(l: Lazy, op: ListOp, n: nat)
    requires OnLazy(l, op).1.Some? && n in HandedBy(OnLazy(l, op).1.value)
    ensures Readable(ListWrapper(l), op.Inserted(), n)
  {
    var values := OnLazy(l, op).1.value;
    var i :| 0 <= i < |values| && values[i] == Handle(n);
    match op {
      case GetAt(index) => assert SlotAt(l, Normal(index, Size(l)).value) == Slots(l)[Normal(index, Size(l)).value];
      case PopAt(index) => assert SlotAt(l, Normal(index, Size(l)).value) == Slots(l)[Normal(index, Size(l)).value];
      case IterateList => assert SlotAt(l, i) == Slots(l)[i];
      case _ =>
    }
  }

  lemma StoredIsInSlots(l: Lazy, slot: Slot)
    requires LazyOk(l) && slot in Stored(ListWrapper(l))
    ensures slot in Slots(l)
  {
    if l.Lazy? {
      var i :| i in l.wrapped && l.wrapped[i] == slot;
      assert Slots(l)[i] == slot;
    } else {
      assert Slots(l) == l.items;
    }
  }

  lemma StoredAfterTouchAt(l: Lazy, i: nat, slot: Slot)
    requires LazyOk(l) && i < Size(l) && slot in Stored(ListWrapper(TouchAt(l, i)))
    ensures slot in Stored(ListWrapper(l)) || slot == Wrapped(SlotAt(l, i))
  {
  }

  lemma {:induction false} StoredAfterTouchFirst(l: Lazy, n: nat, slot: Slot)
    requires LazyOk(l) && n <= Size(l) && slot in Stored(ListWrapper(TouchFirst(l, n)))
    ensures slot in Stored(ListWrapper(l)) || exists i: nat :: i < n && slot == Wrapped(Slots(l)[i])
  {
    if n > 0 {
      ListIterationRefines(l, n - 1);
      StoredAfterTouchAt(TouchFirst(l, n - 1), n - 1, slot);
      if slot in Stored(ListWrapper(TouchFirst(l, n - 1))) {
        StoredAfterTouchFirst(l, n - 1, slot);
      } else {
        assert slot == Wrapped(Slots(l)[n - 1]);
      }
    }
  }

  ghost predicate ListStoresFrom(l: Lazy, op: ListOp, slot: Slot) {
    var reply := OnLazy(l, op).1;
    ComesFrom(ListWrapper(l), op.Inserted(), if reply.Some? then HandedBy(reply.value) else {}, slot)
  }

  lemma IndexedStores(l: Lazy, op: ListOp, slot: Slot)
    requires LazyOk(l) && (op.GetAt? || op.SetAt? || op.DelAt? || op.PopAt?)
    requires slot in Stored(ListWrapper(OnLazy(l, op).0)) && slot !in Slots(l)
    ensures ListStoresFrom(l, op, slot)
  {
    if slot in Stored(ListWrapper(l)) {
      StoredIsInSlots(l, slot);
    }
    var i := Normal(op.index, Size(l));
    if i.Some? {
      match op {
        case GetAt(_) => StoredAfterTouchAt(l, i.value, slot);
        case SetAt(_, v) => assert v in op.Inserted();
        case DelAt(_) =>
        case PopAt(_) =>
          MaterializingRefines(TouchAt(l, i.value));
          assert slot in Slots(TouchAt(l, i.value));
          TouchedSlots(l, i.value, slot);
      }
    }
  }

  lemma TouchedSlots(l: Lazy, i: nat, slot: Slot)
    requires LazyOk(l) && i < Size(l) && slot in Slots(TouchAt(l, i))
    ensures slot in Slots(l) || slot == Wrapped(SlotAt(l, i))
  {
    var j :| 0 <= j < Size(l) && Slots(TouchAt(l, i))[j] == slot;
    assert j != i ==> slot == Slots(l)[j];
  }

  lemma GrowingStores(l: Lazy, op: ListOp, slot: Slot)
    requires LazyOk(l) && (op.Append? || op.Insert? || op.Extend? || op.Reverse? || op.ClearList?)
    requires slot in Stored(ListWrapper(OnLazy(l, op).0)) && slot !in Slots(l)
    ensures ListStoresFrom(l, op, slot)
  {
    if slot in Stored(ListWrapper(l)) {
      StoredIsInSlots(l, slot);
    }
    match op {
      case Append(v) => assert v in op.Inserted();
      case Insert(_, v) => assert v in op.Inserted();
      case _ =>
    }
  }

  lemma ListStores(l: Lazy, op: ListOp, slot: Slot)
    requires LazyOk(l) && slot in Stored(ListWrapper(OnLazy(l, op).0))
    ensures ListStoresFrom(l, op, slot)
  {
    if slot in Slots(l) {
      return;
    }
    if op.IterateList? {
      StoredAfterTouchFirst(l, Size(l), slot);
      if slot in Stored(ListWrapper(l)) {
        StoredIsInSlots(l, slot);
      }
      var i: nat :| i < Size(l) && slot == Wrapped(Slots(l)[i]);
      assert WrappedElements(l)[i] == slot && slot in WrappedElements(l);
    } else if op.GetAt? || op.SetAt? || op.DelAt? || op.PopAt? {
      IndexedStores(l, op, slot);
    } else {
      GrowingStores(l, op, slot);
    }
  }

  // ---- One operation -----------------------------------------------------------------------------

  lemma OperationStores(w: Wrapper, op: Operation, slot: Slot)
    requires WrapperOk(w) && Applicable(w, op) && slot in Stored(Operate(w, op).0)
    ensures ComesFrom(w, Inserted(op), Handed(Operate(w, op).1), slot)
  {
    hide OnOverlay, OnLazy, ComesFrom, OverlayOk, LazyOk, Stored;
    match w {
      case DictWrapper(o) => DictStores(o, op.dict, slot);
      case ListWrapper(l) => ListStores(l, op.list, slot);
    }
  }

  lemma OperationHands(w: Wrapper, op: Operation, n: nat)
    requires WrapperOk(w) && Applicable(w, op) && n in Handed(Operate(w, op).1)
    ensures Readable(w, Inserted(op), n)
  {
    hide OnOverlay, OnLazy, Readable, OverlayOk, LazyOk;
    match w {
      case DictWrapper(o) => DictHands(o, op.dict, n);
      case ListWrapper(l) => ListHands(l, op.list, n);
    }
  }

  lemma {:induction false} SourceAfterUpdate(o: Overlay, keys: seq<Key>, items: seq<Value>)
    requires |keys| == |items|
    ensures SetAllSlots(o, keys, items).source == o.source
  {
    if keys != [] {
      SourceAfterUpdate(o, keys[..|keys| - 1], items[..|keys| - 1]);
    }
  }

  lemma {:induction false} SourceAfterTouchAll(o: Overlay, keys: seq<Key>)
    requires forall k <- keys :: Has(o, k)
    ensures TouchAll(o, keys).source == o.source
  {
    if keys != [] {
      SourceAfterTouchAll(o, keys[..|keys| - 1]);
    }
  }

  lemma {:induction false} SourceAfterTouchFirst(l: Lazy, n: nat)
    requires n <= Size(l)
    ensures l.Lazy? ==> TouchFirst(l, n).Lazy? && TouchFirst(l, n).source == l.source
    ensures l.Solid? ==> TouchFirst(l, n).Solid?
  {
    if n > 0 {
      SourceAfterTouchFirst(l, n - 1);
    }
  }

  lemma DictKeepsSource(o: Overlay, op: DictOp)
    requires OverlayOk(o) && op.Sane()
    ensures OnOverlay(o, op).0.source == o.source
  {
    hide OverlayOk, Contents, Keys, Lookup;
    match op {
      case UpdateAll(keys, values) => SourceAfterUpdate(o, keys, values);
      case Iterate => KeysAreHad(o); SourceAfterTouchAll(o, Keys(o));
      case SetDefault(k, v) => SetKeeps(o, k, Unwrapped(v));
      case PopLast => KeysAreHad(o);
      case _ =>
    }
  }

  lemma ListKeepsSource(l: Lazy, op: ListOp)
    ensures var l' := OnLazy(l, op).0; l'.Lazy? ==> l.Lazy? && l'.source == l.source
  {
    SourceAfterTouchFirst(l, Size(l));
  }

  /** A container's backing never changes under its wrapper, and a list once materialised never gets it back. */
  lemma OperationKeepsBacking(w: Wrapper, op: Operation, node: Node)
    requires WrapperOk(w) && Applicable(w, op) && BackedBy(w, node)
    ensures BackedBy(Operate(w, op).0, node)
    ensures KeepsBacking(Operate(w, op).0) ==> KeepsBacking(w)
  {
    hide OnOverlay, OnLazy, OverlayOk, LazyOk, OrderedOf;
    match w {
      case DictWrapper(o) => DictKeepsSource(o, op.dict);
      case ListWrapper(l) => ListKeepsSource(l, op.list);
    }
  }

  lemma OfferedIsBacked(w: Wrapper, node: Node, slot: Slot)
    requires WrapperOk(w) && BackedBy(w, node) && Offers(w, slot) && slot !in Stored(w)
    ensures KeepsBacking(w) && slot.Unwrapped? && slot.v in node.items
  {
    match w {
      case DictWrapper(o) =>
        var k :| Has(o, k) && Lookup(o, k) == slot;
        assert forall x <- o.added :: o.added[x] in Stored(w);
        assert forall x <- o.updated :: o.updated[x] in Stored(w);
        assert k in node.keys && slot == Unwrapped(ItemOf(node, k));
      case ListWrapper(l) =>
        var i :| 0 <= i < Size(l) && Slots(l)[i] == slot;
    }
  }

  lemma FreshStoresNothing(raw: Store, node: Node)
    requires NodeWellFormed(raw, node)
    ensures Stored(Fresh(node)) == {} && BackedBy(Fresh(node), node)
  {
  }
}
