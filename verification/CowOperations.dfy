/** Every operation of a copy-on-write container beside the same operation on the plain container. */
module CowOperations {
  import opened Sequences
  import opened CloneJson
  import opened CowSpec

  // ---- Dictionaries ------------------------------------------------------------------------

  /** Inserted values have already been cloned. */
  datatype DictOp =
    | GetItem(key: Key)
    | SetItem(key: Key, value: Value)
    | DelItem(key: Key)
    | PopKey(key: Key)
    | PopLast
    | SetDefault(key: Key, value: Value)
    | UpdateAll(keys: seq<Key>, values: seq<Value>)
    | ClearDict
    | Iterate
    | IterateBackwards
    | Contains(key: Key)
  {
    predicate Sane() { UpdateAll? ==> |keys| == |values| }

    function Inserted(): seq<Value> {
      match this
      case SetItem(_, value) => [value]
      case SetDefault(_, value) => [value]
      case UpdateAll(_, values) => values
      case _ => []
    }
  }

  /** What a caller gets: keys and values, or nothing where the operation raises. */
  datatype Reply<T> = Reply(keys: seq<Key>, values: seq<T>)

  function WrappedAll(o: Overlay, keys: seq<Key>): seq<Slot>
    requires forall k <- keys :: Has(o, k)
  {
    seq(|keys|, i requires 0 <= i < |keys| => assert keys[i] in keys; Wrapped(Lookup(o, keys[i])))
  }

  function Kept(o: Overlay): (Overlay, Option<Reply<Slot>>) { (o, Some(Reply([], []))) }

  function TakeOut(o: Overlay, k: Key): (Overlay, Option<Reply<Slot>>)
    requires OverlayOk(o) && Has(o, k)
  {
    TouchRefines(o, k);
    (Delete(Touch(o, k), k), Some(Reply([k], [Wrapped(Lookup(o, k))])))
  }

  /** The overlay's own steps, as the copy-on-write dictionary takes them. */
  function OnOverlay(o: Overlay, op: DictOp): (Overlay, Option<Reply<Slot>>)
    requires OverlayOk(o) && op.Sane()
  {
    match op
    case GetItem(k) => if Has(o, k) then (Touch(o, k), Some(Reply([], [Wrapped(Lookup(o, k))]))) else (o, None)
    case SetItem(k, v) => Kept(SetSlot(o, k, Unwrapped(v)))
    case DelItem(k) => if Has(o, k) then Kept(Delete(o, k)) else (o, None)
    case PopKey(k) => if Has(o, k) then TakeOut(o, k) else (o, None)
    case PopLast =>
      KeysAreHad(o);
      if Keys(o) == [] then (o, None)
      else (assert Keys(o)[|Keys(o)| - 1] in Keys(o); TakeOut(o, Keys(o)[|Keys(o)| - 1]))
    case SetDefault(k, v) =>
      if Has(o, k) then (Touch(o, k), Some(Reply([], [Wrapped(Lookup(o, k))])))
      else
        SetRefines(o, k, Unwrapped(v));
        ContentsAgree(SetSlot(o, k, Unwrapped(v)));
        var set' := SetSlot(o, k, Unwrapped(v));
        assert k in Contents(set').values;
        (Touch(set', k), Some(Reply([], [Wrapped(Lookup(set', k))])))
    case UpdateAll(keys, values) => Kept(SetAllSlots(o, keys, values))
    case ClearDict => Kept(Clear(o))
    case Iterate => KeysAreHad(o); (TouchAll(o, Keys(o)), Some(Reply(Keys(o), WrappedAll(o, Keys(o)))))
    case IterateBackwards => (o, Some(Reply(Backwards(Keys(o)), [])))
    case Contains(k) => (o, if Has(o, k) then Some(Reply([k], [])) else None)
  }

  function SlotsOf(o: Overlay, keys: seq<Key>): seq<Slot>
    requires forall k <- keys :: Has(o, k)
  {
    seq(|keys|, i requires 0 <= i < |keys| => assert keys[i] in keys; Lookup(o, keys[i]))
  }

  /** The slots whose wrappers an operation hands out. */
  function DictReads(o: Overlay, op: DictOp): seq<Slot>
    requires OverlayOk(o) && op.Sane()
  {
    match op
    case GetItem(k) => if Has(o, k) then [Lookup(o, k)] else []
    case PopKey(k) => if Has(o, k) then [Lookup(o, k)] else []
    case PopLast =>
      KeysAreHad(o);
      if Keys(o) == [] then []
      else (assert Keys(o)[|Keys(o)| - 1] in Keys(o); [Lookup(o, Keys(o)[|Keys(o)| - 1])])
    case SetDefault(k, v) => [if Has(o, k) then Lookup(o, k) else Unwrapped(v)]
    case Iterate => KeysAreHad(o); SlotsOf(o, Keys(o))
    case _ => []
  }

  function WrappedEach(slots: seq<Slot>): seq<Slot> {
    seq(|slots|, i requires 0 <= i < |slots| => Wrapped(slots[i]))
  }

  lemma DictHandsWhatItReads(o: Overlay, op: DictOp)
    requires OverlayOk(o) && op.Sane()
    ensures var reply, slots := OnOverlay(o, op).1, DictReads(o, op);
      if reply.None? then slots == [] else reply.value.values == WrappedEach(slots)
  {
    hide OverlayOk, Contents, SetEntry, Delete, Touch, SetAllSlots, Clear;
    match op {
      case SetDefault(k, v) => SetKeeps(o, k, Unwrapped(v));
      case Iterate =>
        KeysAreHad(o);
        assert WrappedAll(o, Keys(o)) == WrappedEach(SlotsOf(o, Keys(o)));
      case _ =>
    }
    hide Lookup, Has, SetSlot, Keys;
  }

  function Values(d: Ordered, keys: seq<Key>): seq<Value>
    requires forall k <- keys :: k in d.values
  {
    seq(|keys|, i requires 0 <= i < |keys| => assert keys[i] in keys; d.values[keys[i]])
  }

  /** The same operation on a plain insertion-ordered dictionary. */
  function OnPlainDict(d: Ordered, op: DictOp): (Ordered, Option<Reply<Value>>)
    requires OrderedOk(d) && op.Sane()
  {
    match op
    case GetItem(k) => (d, if k in d.values then Some(Reply([], [d.values[k]])) else None)
    case SetItem(k, v) => (SetEntry(d, k, v), Some(Reply([], [])))
    case DelItem(k) => if k in d.values then (DeleteEntry(d, k), Some(Reply([], []))) else (d, None)
    case PopKey(k) => if k in d.values then (DeleteEntry(d, k), Some(Reply([k], [d.values[k]]))) else (d, None)
    case PopLast =>
      if d.keys == [] then (d, None)
      else
        var k := d.keys[|d.keys| - 1];
        assert k in d.keys;
        (DeleteEntry(d, k), Some(Reply([k], [d.values[k]])))
    case SetDefault(k, v) =>
      if k in d.values then (d, Some(Reply([], [d.values[k]]))) else (SetEntry(d, k, v), Some(Reply([], [v])))
    case UpdateAll(keys, values) => (SetAll(d, keys, values), Some(Reply([], [])))
    case ClearDict => (Ordered([], map[]), Some(Reply([], [])))
    case Iterate => (d, Some(Reply(d.keys, Values(d, d.keys))))
    case IterateBackwards => (d, Some(Reply(Backwards(d.keys), [])))
    case Contains(k) => (d, if k in d.values then Some(Reply([k], [])) else None)
  }

  /** A copy-on-write reply says the same as the plain one, and hands out no snapshot container. */
  ghost predicate SameReply(cow: Option<Reply<Slot>>, plain: Option<Reply<Value>>) {
    && (cow.Some? <==> plain.Some?)
    && (cow.Some? ==>
          cow.value.keys == plain.value.keys && PlainlyAll(cow.value.values) == plain.value.values
          && forall slot <- cow.value.values :: !Escapes(slot))
  }

  ghost predicate DictRefined(o: Overlay, op: DictOp)
    requires OverlayOk(o) && op.Sane()
  {
    var (o', reply) := OnOverlay(o, op);
    && OverlayOk(o') && OrderedOk(Contents(o))
    && Contents(o') == OnPlainDict(Contents(o), op).0 && SameReply(reply, OnPlainDict(Contents(o), op).1)
  }

  lemma TakeOutRefines(o: Overlay, k: Key)
    requires OverlayOk(o) && Has(o, k)
    ensures OverlayOk(TakeOut(o, k).0) && Contents(TakeOut(o, k).0) == DeleteEntry(Contents(o), k)
    ensures !Escapes(Wrapped(Lookup(o, k))) && Plainly(Wrapped(Lookup(o, k))) == Plainly(Lookup(o, k))
  {
    TouchRefines(o, k);
    DeleteRefines(Touch(o, k), k);
  }

  lemma OneReply(slot: Slot)
    ensures PlainlyAll([Wrapped(slot)]) == [Plainly(slot)] && !Escapes(Wrapped(slot))
    ensures PlainlyAll([]) == []
  {
  }

  lemma ReadRefines(o: Overlay, op: DictOp)
    requires OverlayOk(o) && (op.GetItem? || op.Contains? || op.IterateBackwards?)
    ensures DictRefined(o, op)
  {
    hide OverlayOk, Touch, Lookup, Has, Keys;
    ContentsAgree(o);
    assert PlainlyAll([]) == [];
    if !op.IterateBackwards? && Has(o, op.key) {
      TouchRefines(o, op.key);
      OneReply(Lookup(o, op.key));
    }
  }

  lemma ContentsKeys(o: Overlay)
    requires OverlayOk(o)
    ensures Contents(o).keys == Keys(o) && forall k <- Keys(o) :: Has(o, k)
  {
    KeysAreHad(o);
  }

  lemma DelRefines(o: Overlay, k: Key)
    requires OverlayOk(o)
    ensures DictRefined(o, DelItem(k))
  {
    hide OverlayOk, Touch, Lookup, Has, Keys, Contents, Delete, DeleteEntry;
    ContentsAgree(o);
    if Has(o, k) {
      DeleteRefines(o, k);
    }
    assert PlainlyAll([]) == [];
  }

  lemma PopRefines(o: Overlay, op: DictOp)
    requires OverlayOk(o) && (op.PopKey? || op.PopLast?)
    ensures DictRefined(o, op)
  {
    hide OverlayOk, Touch, Lookup, Has, Keys, Contents, Delete, DeleteEntry, TakeOut;
    ContentsAgree(o);
    ContentsKeys(o);
    if op.PopKey? && Has(o, op.key) {
      TakeOutReplies(o, op.key);
    } else if op.PopLast? && Keys(o) != [] {
      TakeOutReplies(o, Keys(o)[|Keys(o)| - 1]);
    }
  }

  lemma TakeOutReplies(o: Overlay, k: Key)
    requires OverlayOk(o) && Has(o, k)
    ensures k in Contents(o).values && OverlayOk(TakeOut(o, k).0) && Contents(TakeOut(o, k).0) == DeleteEntry(Contents(o), k)
    ensures SameReply(TakeOut(o, k).1, Some(Reply([k], [Contents(o).values[k]])))
  {
    hide OverlayOk, Touch, Lookup, Has, Keys, Contents, Delete, DeleteEntry;
    ContentsAgree(o);
    TakeOutRefines(o, k);
    OneReply(Lookup(o, k));
  }

  lemma InsertionRefines(o: Overlay, op: DictOp)
    requires OverlayOk(o) && op.Sane() && (op.SetItem? || op.UpdateAll? || op.ClearDict?)
    ensures DictRefined(o, op)
  {
    ContentsAgree(o);
    match op {
      case SetItem(k, v) => SetRefines(o, k, Unwrapped(v));
      case UpdateAll(keys, values) => UpdateRefines(o, keys, values);
      case _ => ClearRefines(o);
    }
    hide OverlayOk, Contents, SetSlot, SetAllSlots, Clear, SetAll;
    assert PlainlyAll([]) == [];
  }

  lemma SetDefaultRefines(o: Overlay, k: Key, v: Value)
    requires OverlayOk(o)
    ensures DictRefined(o, SetDefault(k, v))
  {
    hide OverlayOk, Contents, SetSlot, Touch, Lookup, Has, SetEntry;
    ContentsAgree(o);
    var set' := SetSlot(o, k, Unwrapped(v));
    if Has(o, k) {
      TouchRefines(o, k);
      OneReply(Lookup(o, k));
    } else {
      SetRefines(o, k, Unwrapped(v));
      SetKeeps(o, k, Unwrapped(v));
      TouchRefines(set', k);
      OneReply(Unwrapped(v));
    }
  }

  lemma IterateRefines(o: Overlay)
    requires OverlayOk(o)
    ensures DictRefined(o, Iterate)
  {
    hide OverlayOk, Contents, TouchAll, Lookup, Has, Keys, WrappedAll, Values;
    ContentsAgree(o);
    ContentsKeys(o);
    IterationRefines(o, Keys(o));
    IterationReplies(o);
  }

  lemma IterationReplies(o: Overlay)
    requires OverlayOk(o) && forall k <- Keys(o) :: Has(o, k)
    ensures forall k <- Contents(o).keys :: k in Contents(o).values
    ensures PlainlyAll(WrappedAll(o, Keys(o))) == Values(Contents(o), Contents(o).keys)
    ensures forall slot <- WrappedAll(o, Keys(o)) :: !Escapes(slot)
  {
    hide OverlayOk, Contents, Lookup, Has, Keys;
    ContentsAgree(o);
    ContentsKeys(o);
  }

  /** Every dictionary operation refines the plain one: same new contents, same reply, nothing escapes. */
  lemma DictOperationRefines(o: Overlay, op: DictOp)
    requires OverlayOk(o) && op.Sane()
    ensures DictRefined(o, op)
  {
    hide DictRefined, OverlayOk;
    match op {
      case GetItem(_) => ReadRefines(o, op);
      case Contains(_) => ReadRefines(o, op);
      case IterateBackwards => ReadRefines(o, op);
      case DelItem(k) => DelRefines(o, k);
      case PopKey(_) => PopRefines(o, op);
      case PopLast => PopRefines(o, op);
      case SetItem(_, _) => InsertionRefines(o, op);
      case UpdateAll(_, _) => InsertionRefines(o, op);
      case ClearDict => InsertionRefines(o, op);
      case SetDefault(k, v) => SetDefaultRefines(o, k, v);
      case Iterate => IterateRefines(o);
    }
  }

  // ---- Lists -------------------------------------------------------------------------------

  datatype ListOp =
    | GetAt(index: int)
    | SetAt(index: int, value: Value)
    | DelAt(index: int)
    | PopAt(index: int)
    | Append(value: Value)
    | Insert(index: int, value: Value)
    | Extend(values: seq<Value>)
    | Reverse
    | ClearList
    | IterateList
  {
    function Inserted(): seq<Value> {
      match this
      case SetAt(_, value) => [value]
      case Append(value) => [value]
      case Insert(_, value) => [value]
      case Extend(values) => values
      case _ => []
    }
  }

  function WrappedElements(l: Lazy): seq<Slot> {
    seq(Size(l), i requires 0 <= i < Size(l) => Wrapped(SlotAt(l, i)))
  }

  /** The list's own steps, as the copy-on-write list takes them. */
  function OnLazy(l: Lazy, op: ListOp): (Lazy, Option<seq<Slot>>) {
    match op
    case GetAt(index) =>
      var i := Normal(index, Size(l));
      if i.None? then (l, None) else (TouchAt(l, i.value), Some([Wrapped(SlotAt(l, i.value))]))
    case SetAt(index, v) =>
      var i := Normal(index, Size(l));
      if i.None? then (l, None) else (PutAt(l, i.value, Unwrapped(v)), Some([]))
    case DelAt(index) =>
      var i := Normal(index, Size(l));
      if i.None? then (Materialized(l), None) else (DropAt(l, i.value), Some([]))
    case PopAt(index) =>
      var i := Normal(index, Size(l));
      if i.None? then (l, None) else (DropAt(TouchAt(l, i.value), i.value), Some([Wrapped(SlotAt(l, i.value))]))
    case Append(v) => (InsertAt(l, Size(l), Unwrapped(v)), Some([]))
    case Insert(index, v) => (InsertAt(l, Clamped(index, Size(l)), Unwrapped(v)), Some([]))
    case Extend(values) => (Extended(l, values), Some([]))
    case Reverse => (Reversed(l), Some([]))
    case ClearList => (Emptied(l), Some([]))
    case IterateList => (TouchFirst(l, Size(l)), Some(WrappedElements(l)))
  }

  function ListReads(l: Lazy, op: ListOp): seq<Slot> {
    match op
    case GetAt(index) => var i := Normal(index, Size(l)); if i.None? then [] else [SlotAt(l, i.value)]
    case PopAt(index) => var i := Normal(index, Size(l)); if i.None? then [] else [SlotAt(l, i.value)]
    case IterateList => Slots(l)
    case _ => []
  }

  lemma ListHandsWhatItReads(l: Lazy, op: ListOp)
    ensures var reply, slots := OnLazy(l, op).1, ListReads(l, op);
      if reply.None? then slots == [] else reply.value == WrappedEach(slots)
  {
    assert WrappedElements(l) == WrappedEach(Slots(l));
    hide SlotAt, Elements;
  }

  /** The same operation on a plain list. */
  function OnPlainList(s: seq<Value>, op: ListOp): (seq<Value>, Option<seq<Value>>) {
    match op
    case GetAt(index) => (s, var i := Normal(index, |s|); if i.None? then None else Some([s[i.value]]))
    case SetAt(index, v) => var i := Normal(index, |s|); if i.None? then (s, None) else (s[i.value := v], Some([]))
    case DelAt(index) => var i := Normal(index, |s|); if i.None? then (s, None) else (RemoveAt(s, i.value), Some([]))
    case PopAt(index) => var i := Normal(index, |s|); if i.None? then (s, None) else (RemoveAt(s, i.value), Some([s[i.value]]))
    case Append(v) => (s + [v], Some([]))
    case Insert(index, v) => (s[..Clamped(index, |s|)] + [v] + s[Clamped(index, |s|)..], Some([]))
    case Extend(values) => (s + values, Some([]))
    case Reverse => (Backwards(s), Some([]))
    case ClearList => ([], Some([]))
    case IterateList => (s, Some(s))
  }

  ghost predicate ListRefined(l: Lazy, op: ListOp) {
    var (l', reply) := OnLazy(l, op);
    var (s', plain) := OnPlainList(Elements(l), op);
    && LazyOk(l') && Elements(l') == s'
    && (reply.Some? <==> plain.Some?)
    && (reply.Some? ==> PlainlyAll(reply.value) == plain.value && forall slot <- reply.value :: !Escapes(slot))
  }

  lemma IndexedRefines(l: Lazy, op: ListOp)
    requires LazyOk(l) && (op.GetAt? || op.SetAt? || op.DelAt? || op.PopAt?)
    ensures ListRefined(l, op)
  {
    var i := Normal(op.index, Size(l));
    MaterializingRefines(l);
    if i.Some? {
      TouchAtRefines(l, i.value);
      DropAtRefines(l, i.value);
      DropAtRefines(TouchAt(l, i.value), i.value);
      if op.SetAt? {
        PutAtRefines(l, i.value, Unwrapped(op.value));
      }
      OneReply(SlotAt(l, i.value));
      assert Plainly(SlotAt(l, i.value)) == Elements(l)[i.value];
    }
    assert |Elements(l)| == Size(l);
    hide Elements, TouchAt, PutAt, DropAt, SlotAt, Size, Materialized;
    assert PlainlyAll([]) == [];
  }

  lemma GrowingRefines(l: Lazy, op: ListOp)
    requires LazyOk(l) && (op.Append? || op.Insert? || op.Extend? || op.Reverse? || op.ClearList?)
    ensures ListRefined(l, op)
  {
    assert |Elements(l)| == Size(l);
    match op {
      case Append(v) =>
        InsertAtRefines(l, Size(l), Unwrapped(v));
        assert Elements(l)[..|Elements(l)|] + [v] + Elements(l)[|Elements(l)|..] == Elements(l) + [v];
      case Insert(index, v) => InsertAtRefines(l, Clamped(index, Size(l)), Unwrapped(v));
      case Extend(values) => ExtendedRefines(l, values);
      case Reverse => ReversedRefines(l);
      case ClearList => EmptiedRefines(l);
    }
    hide Elements, InsertAt, Extended, Size, Emptied;
    assert PlainlyAll([]) == [];
  }

  lemma IterateListRefines(l: Lazy)
    requires LazyOk(l)
    ensures ListRefined(l, IterateList)
  {
    ListIterationRefines(l, Size(l));
    assert PlainlyAll(WrappedElements(l)) == Elements(l);
  }

  /** Every list operation, in either phase, refines the plain one. */
  lemma ListOperationRefines(l: Lazy, op: ListOp)
    requires LazyOk(l)
    ensures ListRefined(l, op)
  {
    hide ListRefined;
    match op {
      case GetAt(_) => IndexedRefines(l, op);
      case SetAt(_, _) => IndexedRefines(l, op);
      case DelAt(_) => IndexedRefines(l, op);
      case PopAt(_) => IndexedRefines(l, op);
      case IterateList => IterateListRefines(l);
      case _ => GrowingRefines(l, op);
    }
  }
}
