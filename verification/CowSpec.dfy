/** Copy-on-write dictionaries and lists as sparse changes over a snapshot, and the plain containers they
    stand for. */
module CowSpec {
  import opened Sequences
  import opened CloneJson

  // ---- Plain containers --------------------------------------------------------------------

  /** An insertion-ordered dictionary. */
  datatype Ordered = Ordered(keys: seq<Key>, values: map<Key, Value>)

  ghost predicate OrderedOk(d: Ordered) {
    && (forall k :: k in d.keys <==> k in d.values)
    && (forall i, j :: 0 <= i < j < |d.keys| ==> d.keys[i] != d.keys[j])
  }

  /** The keys that are not gone, in order. */
  function Without(keys: seq<Key>, gone: set<Key>): seq<Key> {
    if keys == [] then []
    else
      var n := |keys| - 1;
      Without(keys[..n], gone) + if keys[n] in gone then [] else [keys[n]]
  }

  function SetEntry(d: Ordered, k: Key, v: Value): Ordered {
    Ordered(if k in d.values then d.keys else d.keys + [k], d.values[k := v])
  }

  function DeleteEntry(d: Ordered, k: Key): Ordered {
    Ordered(Without(d.keys, {k}), d.values - {k})
  }

  function SetAll(d: Ordered, keys: seq<Key>, items: seq<Value>): Ordered
    requires |keys| == |items|
  {
    if keys == [] then d
    else
      var n := |keys| - 1;
      SetEntry(SetAll(d, keys[..n], items[..n]), keys[n], items[n])
  }

  // ---- Slots -------------------------------------------------------------------------------

  /** What an overlay stores: a snapshot value as it is, or the wrapper of one of its containers. */
  datatype Slot = Unwrapped(v: Value) | Handle(id: nat)

  function Plainly(slot: Slot): Value {
    match slot
    case Unwrapped(v) => v
    case Handle(id) => Ref(id)
  }

  /** What a reader is given: containers only ever as wrappers. */
  function Wrapped(slot: Slot): Slot {
    if slot.Unwrapped? && slot.v.Ref? then Handle(slot.v.id) else slot
  }

  predicate Escapes(slot: Slot) {
    slot.Unwrapped? && slot.v.Ref?
  }

  /** The container that reading a slot wraps. */
  function Wraps(slot: Slot): set<nat> {
    if Escapes(slot) then {slot.v.id} else {}
  }

  /** The containers that reading several slots wraps. */
  function WrapsAll(slots: seq<Slot>): set<nat> {
    set slot <- slots | Escapes(slot) :: slot.v.id
  }

  lemma WrapsOneMore(slots: seq<Slot>, slot: Slot)
    ensures WrapsAll(slots + [slot]) == WrapsAll(slots) + Wraps(slot)
  {
    forall n ensures n in WrapsAll(slots + [slot]) <==> n in WrapsAll(slots) || n in Wraps(slot) {
      var s := Unwrapped(Ref(n));
      assert s in slots + [slot] <==> s in slots || s == slot;
    }
  }

  // ---- The dictionary overlay --------------------------------------------------------------

  datatype Overlay = Overlay(
    source: Ordered,
    cleared: bool,
    updated: map<Key, Slot>,
    addedKeys: seq<Key>,
    added: map<Key, Slot>,
    deleted: set<Key>)

  function Untouched(source: Ordered): Overlay {
    Overlay(source, false, map[], [], map[], {})
  }

  predicate Visible(o: Overlay, k: Key) {
    !o.cleared && k in o.source.values && k !in o.deleted
  }

  /** The overlay invariant. */
  ghost predicate OverlayOk(o: Overlay) {
    && OrderedOk(o.source)
    && (forall k <- o.deleted :: k in o.source.values)
    && (forall k <- o.updated :: Visible(o, k))
    && (forall k <- o.added :: !Visible(o, k))
    && (forall k :: k in o.addedKeys <==> k in o.added)
    && (forall i, j :: 0 <= i < j < |o.addedKeys| ==> o.addedKeys[i] != o.addedKeys[j])
    && (o.cleared ==> o.updated == map[] && o.deleted == {})
  }

  predicate Has(o: Overlay, k: Key) {
    k in o.added || Visible(o, k)
  }

  function Lookup(o: Overlay, k: Key): Slot
    requires Has(o, k)
  {
    if k in o.added then o.added[k]
    else if k in o.updated then o.updated[k]
    else Unwrapped(o.source.values[k])
  }

  function Keys(o: Overlay): seq<Key> {
    (if o.cleared then [] else Without(o.source.keys, o.deleted)) + o.addedKeys
  }

  function Length(o: Overlay): int {
    (if o.cleared then 0 else |o.source.keys|) - |o.deleted| + |o.addedKeys|
  }

  /** The plain dictionary an overlay stands for. */
  function Contents(o: Overlay): Ordered {
    Ordered(Keys(o), map k | k in Keys(o) && Has(o, k) :: Plainly(Lookup(o, k)))
  }

  /** Remember the wrapper of the container under this key. */
  function Touch(o: Overlay, k: Key): Overlay
    requires Has(o, k)
  {
    var slot := Lookup(o, k);
    if !Escapes(slot) then o
    else if k in o.added then o.(added := o.added[k := Wrapped(slot)])
    else o.(updated := o.updated[k := Wrapped(slot)])
  }

  function SetSlot(o: Overlay, k: Key, slot: Slot): Overlay {
    if k in o.added then o.(added := o.added[k := slot])
    else if Visible(o, k) then o.(updated := o.updated[k := slot])
    else o.(addedKeys := o.addedKeys + [k], added := o.added[k := slot])
  }

  function Delete(o: Overlay, k: Key): Overlay
    requires Has(o, k)
  {
    if k in o.added then o.(addedKeys := Without(o.addedKeys, {k}), added := o.added - {k})
    else o.(updated := o.updated - {k}, deleted := o.deleted + {k})
  }

  function Clear(o: Overlay): Overlay {
    if Length(o) == 0 then o else Overlay(o.source, true, map[], [], map[], {})
  }

  function SetAllSlots(o: Overlay, keys: seq<Key>, items: seq<Value>): Overlay
    requires |keys| == |items|
  {
    if keys == [] then o
    else
      var n := |keys| - 1;
      SetSlot(SetAllSlots(o, keys[..n], items[..n]), keys[n], Unwrapped(items[n]))
  }

  // ---- Filtering ---------------------------------------------------------------------------

  lemma {:induction false} WithoutKeeps(keys: seq<Key>, gone: set<Key>, k: Key)
    ensures k in Without(keys, gone) <==> k in keys && k !in gone
  {
    if keys != [] {
      var n := |keys| - 1;
      WithoutKeeps(keys[..n], gone, k);
      assert keys == keys[..n] + [keys[n]];
    }
  }

  lemma {:induction false} WithoutDistinct(keys: seq<Key>, gone: set<Key>)
    requires forall i, j :: 0 <= i < j < |keys| ==> keys[i] != keys[j]
    ensures forall i, j :: 0 <= i < j < |Without(keys, gone)| ==> Without(keys, gone)[i] != Without(keys, gone)[j]
  {
    if keys != [] {
      var n := |keys| - 1;
      WithoutDistinct(keys[..n], gone);
      WithoutKeeps(keys[..n], gone, keys[n]);
    }
  }

  lemma {:induction false} WithoutTwice(keys: seq<Key>, a: set<Key>, b: set<Key>)
    ensures Without(Without(keys, a), b) == Without(keys, a + b)
  {
    if keys != [] {
      var n := |keys| - 1;
      WithoutTwice(keys[..n], a, b);
      var left := Without(keys[..n], a);
      assert left + [] == left;
      assert (left + [keys[n]])[..|left|] == left;
    }
  }

  lemma {:induction false} WithoutConcat(a: seq<Key>, b: seq<Key>, gone: set<Key>)
    ensures Without(a + b, gone) == Without(a, gone) + Without(b, gone)
  {
    if b == [] {
      assert a + b == a;
    } else {
      var n := |b| - 1;
      WithoutConcat(a, b[..n], gone);
      assert (a + b)[..|a + b| - 1] == a + b[..n];
    }
  }

  lemma {:induction false} WithoutNothing(keys: seq<Key>, gone: set<Key>)
    requires forall k <- keys :: k !in gone
    ensures Without(keys, gone) == keys
  {
    if keys != [] {
      var n := |keys| - 1;
      assert keys == keys[..n] + [keys[n]] && keys[n] in keys;
      WithoutNothing(keys[..n], gone);
    }
  }

  lemma {:induction false} WithoutCounts(keys: seq<Key>, gone: set<Key>)
    requires forall i, j :: 0 <= i < j < |keys| ==> keys[i] != keys[j]
    requires forall k <- gone :: k in keys
    ensures |Without(keys, gone)| == |keys| - |gone|
  {
    if keys == [] {
      assert gone == {};
    } else {
      var n := |keys| - 1;
      var last := keys[n];
      assert keys == keys[..n] + [last];
      WithoutCounts(keys[..n], gone - {last});
      SameWithout(keys[..n], gone, gone - {last});
    }
  }

  lemma {:induction false} SameWithout(keys: seq<Key>, a: set<Key>, b: set<Key>)
    requires forall k <- keys :: k in a <==> k in b
    ensures Without(keys, a) == Without(keys, b)
  {
    if keys != [] {
      var n := |keys| - 1;
      assert keys[n] in keys;
      SameWithout(keys[..n], a, b);
    }
  }

  // ---- The overlay refines the plain dictionary ---------------------------------------------

  lemma KeysAreHad(o: Overlay)
    requires OverlayOk(o)
    ensures forall k :: k in Keys(o) <==> Has(o, k)
  {
    forall k ensures k in Keys(o) <==> Has(o, k) {
      WithoutKeeps(o.source.keys, o.deleted, k);
    }
  }

  lemma KeysDistinct(o: Overlay)
    requires OverlayOk(o)
    ensures forall i, j :: 0 <= i < j < |Keys(o)| ==> Keys(o)[i] != Keys(o)[j]
  {
    WithoutDistinct(o.source.keys, o.deleted);
    var shown := if o.cleared then [] else Without(o.source.keys, o.deleted);
    forall i, j | 0 <= i < j < |Keys(o)| ensures Keys(o)[i] != Keys(o)[j] {
      if i < |shown| <= j {
        WithoutKeeps(o.source.keys, o.deleted, shown[i]);
        assert shown[i] in shown && o.addedKeys[j - |shown|] in o.addedKeys;
      }
    }
  }

  /** Length, membership, lookup and order are those of the plain dictionary. */
  lemma ContentsAgree(o: Overlay)
    requires OverlayOk(o)
    ensures OrderedOk(Contents(o)) && |Contents(o).keys| == Length(o)
    ensures forall k :: Has(o, k) <==> k in Contents(o).values
    ensures forall k :: Has(o, k) ==> Contents(o).values[k] == Plainly(Lookup(o, k))
  {
    KeysAreHad(o);
    KeysDistinct(o);
    if !o.cleared {
      WithoutCounts(o.source.keys, o.deleted);
    }
  }

  lemma UntouchedIsSource(source: Ordered)
    requires OrderedOk(source)
    ensures OverlayOk(Untouched(source)) && Contents(Untouched(source)) == source
  {
    var o := Untouched(source);
    UntouchedReads(source);
    hide *;
    ContentsIs(o, source);
  }

  lemma UntouchedReads(source: Ordered)
    requires OrderedOk(source)
    ensures var o := Untouched(source);
      && OverlayOk(o) && Keys(o) == source.keys
      && (forall k :: Has(o, k) <==> k in source.values) && forall k :: Has(o, k) ==> source.values[k] == Plainly(Lookup(o, k))
  {
    WithoutNothing(source.keys, {});
    hide Without, OrderedOk;
    assert source.keys + [] == source.keys;
  }

  lemma ContentsIs(o: Overlay, d: Ordered)
    requires OverlayOk(o) && Keys(o) == d.keys
    requires forall k :: Has(o, k) <==> k in d.values
    requires forall k :: Has(o, k) ==> d.values[k] == Plainly(Lookup(o, k))
    ensures Contents(o) == d
  {
    KeysAreHad(o);
    hide OverlayOk, Has, Lookup, Keys, Plainly;
    assert Contents(o).values == d.values;
  }

  /** Reading a container changes only how it is stored. */
  lemma TouchRefines(o: Overlay, k: Key)
    requires OverlayOk(o) && Has(o, k)
    ensures OverlayOk(Touch(o, k)) && Contents(Touch(o, k)) == Contents(o)
    ensures Has(Touch(o, k), k) && Lookup(Touch(o, k), k) == Wrapped(Lookup(o, k))
  {
    ContentsAgree(o);
    TouchKeeps(o, k);
    hide OverlayOk, Has, Lookup, Keys, Touch, Contents;
    ContentsIs(Touch(o, k), Contents(o));
  }

  lemma TouchKeeps(o: Overlay, k: Key)
    requires OverlayOk(o) && Has(o, k)
    ensures OverlayOk(Touch(o, k)) && Keys(Touch(o, k)) == Contents(o).keys
    ensures forall x :: Has(Touch(o, k), x) <==> Has(o, x)
    ensures forall x :: Has(o, x) ==> Plainly(Lookup(Touch(o, k), x)) == Plainly(Lookup(o, x))
    ensures Lookup(Touch(o, k), k) == Wrapped(Lookup(o, k))
  {
    hide Without;
    assert OverlayOk(Touch(o, k));
    hide OverlayOk;
  }

  lemma SetRefines(o: Overlay, k: Key, slot: Slot)
    requires OverlayOk(o)
    ensures OverlayOk(SetSlot(o, k, slot))
    ensures Contents(SetSlot(o, k, slot)) == SetEntry(Contents(o), k, Plainly(slot))
  {
    ContentsAgree(o);
    SetKeepsOk(o, k, slot);
    SetKeeps(o, k, slot);
    hide OverlayOk, Has, Lookup, Keys, SetSlot, Contents;
    ContentsIs(SetSlot(o, k, slot), SetEntry(Contents(o), k, Plainly(slot)));
  }

  lemma SetKeeps(o: Overlay, k: Key, slot: Slot)
    requires OverlayOk(o)
    ensures Keys(SetSlot(o, k, slot)) == Contents(o).keys + if Has(o, k) then [] else [k]
    ensures forall x :: Has(SetSlot(o, k, slot), x) <==> Has(o, x) || x == k
    ensures forall x :: Has(o, x) && x != k ==> Plainly(Lookup(SetSlot(o, k, slot), x)) == Plainly(Lookup(o, x))
    ensures Lookup(SetSlot(o, k, slot), k) == slot
  {
    hide Without;
    KeysAreHad(o);
  }

  lemma SetKeepsOk(o: Overlay, k: Key, slot: Slot)
    requires OverlayOk(o)
    ensures OverlayOk(SetSlot(o, k, slot))
  {
  }

  /** Deleting removes the key from the order, so a later insertion puts it at the end. */
  lemma DeleteRefines(o: Overlay, k: Key)
    requires OverlayOk(o) && Has(o, k)
    ensures OverlayOk(Delete(o, k)) && Contents(Delete(o, k)) == DeleteEntry(Contents(o), k)
  {
    ContentsAgree(o);
    DeletedKeys(o, k);
    DeleteKeepsOk(o, k);
    DeleteKeeps(o, k);
    assert Contents(o).keys == Keys(o);
    hide OverlayOk, Has, Lookup, Keys, Delete, Contents, Without;
    ContentsIs(Delete(o, k), DeleteEntry(Contents(o), k));
  }

  lemma DeleteKeeps(o: Overlay, k: Key)
    requires OverlayOk(o) && Has(o, k)
    ensures forall x :: Has(Delete(o, k), x) <==> Has(o, x) && x != k
    ensures forall x :: Has(o, x) && x != k ==> Plainly(Lookup(Delete(o, k), x)) == Plainly(Lookup(o, x))
  {
  }

  lemma DeleteKeepsOk(o: Overlay, k: Key)
    requires OverlayOk(o) && Has(o, k)
    ensures OverlayOk(Delete(o, k))
  {
    WithoutDistinct(o.addedKeys, {k});
    forall x ensures x in Without(o.addedKeys, {k}) <==> x in o.addedKeys && x != k {
      WithoutKeeps(o.addedKeys, {k}, x);
    }
  }

  lemma DeletedKeys(o: Overlay, k: Key)
    requires OverlayOk(o) && Has(o, k)
    ensures Keys(Delete(o, k)) == Without(Keys(o), {k})
  {
    var shown := if o.cleared then [] else Without(o.source.keys, o.deleted);
    WithoutConcat(shown, o.addedKeys, {k});
    WithoutTwice(o.source.keys, o.deleted, {k});
    if k in o.added {
      forall x <- shown ensures x != k {
        WithoutKeeps(o.source.keys, o.deleted, x);
      }
      WithoutNothing(shown, {k});
    } else {
      WithoutNothing(o.addedKeys, {k});
    }
  }

  lemma ClearRefines(o: Overlay)
    requires OverlayOk(o)
    ensures OverlayOk(Clear(o)) && Contents(Clear(o)) == Ordered([], map[])
  {
    ContentsAgree(o);
    EmptyOverlay(o.source);
    hide Contents, OverlayOk, Has, Lookup, Keys;
    if Length(o) == 0 {
      assert Contents(o).keys == [];
      assert Contents(o).values == map[];
    }
  }

  lemma EmptyOverlay(source: Ordered)
    requires OrderedOk(source)
    ensures var o := Overlay(source, true, map[], [], map[], {}); OverlayOk(o) && Contents(o) == Ordered([], map[])
  {
  }

  lemma {:induction false} UpdateRefines(o: Overlay, keys: seq<Key>, items: seq<Value>)
    requires OverlayOk(o) && |keys| == |items|
    ensures OverlayOk(SetAllSlots(o, keys, items))
    ensures Contents(SetAllSlots(o, keys, items)) == SetAll(Contents(o), keys, items)
  {
    if keys != [] {
      var n := |keys| - 1;
      UpdateRefines(o, keys[..n], items[..n]);
      SetRefines(SetAllSlots(o, keys[..n], items[..n]), keys[n], Unwrapped(items[n]));
    }
  }

  /** Deleting a key and inserting it again moves it to the end. */
  lemma ReinsertionMovesToTheEnd(o: Overlay, k: Key, slot: Slot)
    requires OverlayOk(o) && Has(o, k)
    ensures Contents(SetSlot(Delete(o, k), k, slot)).keys == Without(Contents(o).keys, {k}) + [k]
  {
    DeleteRefines(o, k);
    SetRefines(Delete(o, k), k, slot);
  }

  /** Touch every entry, in order: what iterating over the items leaves behind. */
  function TouchAll(o: Overlay, keys: seq<Key>): Overlay
    requires forall k <- keys :: Has(o, k)
    ensures forall k :: Has(TouchAll(o, keys), k) <==> Has(o, k)
  {
    if keys == [] then o
    else
      var n := |keys| - 1;
      assert keys[n] in keys;
      Touch(TouchAll(o, keys[..n]), keys[n])
  }

  lemma {:induction false} IterationRefines(o: Overlay, keys: seq<Key>)
    requires OverlayOk(o) && forall k <- keys :: Has(o, k)
    ensures OverlayOk(TouchAll(o, keys)) && Contents(TouchAll(o, keys)) == Contents(o)
    ensures forall k :: Has(o, k) ==> Has(TouchAll(o, keys), k) && Wrapped(Lookup(TouchAll(o, keys), k)) == Wrapped(Lookup(o, k))
  {
    if keys != [] {
      var n := |keys| - 1;
      assert keys[n] in keys;
      IterationRefines(o, keys[..n]);
      var o' := TouchAll(o, keys[..n]);
      assert TouchAll(o, keys) == Touch(o', keys[n]);
      TouchRefines(o', keys[n]);
      TouchKeeps(o', keys[n]);
      hide OverlayOk, Contents, Keys, Lookup, Has, Touch;
      forall k | Has(o, k) ensures Wrapped(Lookup(TouchAll(o, keys), k)) == Wrapped(Lookup(o, k)) {
        SamePlainSameWrapped(Lookup(TouchAll(o, keys), k), Lookup(o', k));
      }
    }
  }

  /** Iterating over other keys leaves a slot as it is. */
  lemma {:induction false} TouchedElsewhere(o: Overlay, keys: seq<Key>, k: Key)
    requires (forall x <- keys :: Has(o, x)) && Has(o, k) && k !in keys
    ensures Lookup(TouchAll(o, keys), k) == Lookup(o, k)
  {
    if keys != [] {
      var n := |keys| - 1;
      assert keys[n] in keys;
      TouchedElsewhere(o, keys[..n], k);
    }
  }

  lemma SamePlainSameWrapped(a: Slot, b: Slot)
    requires Plainly(a) == Plainly(b)
    ensures Wrapped(a) == Wrapped(b)
  {
  }

  // ---- The lazily materialised list ---------------------------------------------------------

  datatype Lazy =
    | Lazy(source: seq<Value>, wrapped: map<nat, Slot>)  // the snapshot's list under a sparse map of changes
    | Solid(items: seq<Slot>)                            // its own storage

  ghost predicate LazyOk(l: Lazy) {
    l.Lazy? ==> forall i <- l.wrapped :: i < |l.source|
  }

  function Size(l: Lazy): nat {
    match l
    case Lazy(source, _) => |source|
    case Solid(items) => |items|
  }

  function SlotAt(l: Lazy, i: nat): Slot
    requires i < Size(l)
  {
    match l
    case Lazy(source, wrapped) => if i in wrapped then wrapped[i] else Unwrapped(source[i])
    case Solid(items) => items[i]
  }

  function Slots(l: Lazy): seq<Slot> {
    seq(Size(l), i requires 0 <= i < Size(l) => SlotAt(l, i))
  }

  function PlainlyAll(slots: seq<Slot>): seq<Value> {
    seq(|slots|, i requires 0 <= i < |slots| => Plainly(slots[i]))
  }

  /** The plain list a copy-on-write list stands for. */
  function Elements(l: Lazy): seq<Value> {
    seq(Size(l), i requires 0 <= i < Size(l) => Plainly(SlotAt(l, i)))
  }

  /** An index from either end; None when out of range. */
  function Normal(index: int, size: nat): (r: Option<nat>)
    ensures r.Some? ==> r.value < size
    ensures r.Some? <==> 0 - size <= index < size
  {
    if 0 <= index < size then Some(index)
    else if 0 - size <= index < 0 then Some(size + index)
    else None
  }

  /** Insertion never fails: the index is clamped. */
  function Clamped(index: int, size: nat): (r: nat)
    ensures r <= size
  {
    if index < 0 then (if size + index < 0 then 0 else size + index)
    else if index > size then size
    else index
  }

  function Materialized(l: Lazy): Lazy {
    Solid(Slots(l))
  }

  function TouchAt(l: Lazy, i: nat): Lazy
    requires i < Size(l)
  {
    var slot := SlotAt(l, i);
    if !Escapes(slot) then l else PutAt(l, i, Wrapped(slot))
  }

  function PutAt(l: Lazy, i: nat, slot: Slot): Lazy
    requires i < Size(l)
  {
    match l
    case Lazy(source, wrapped) => Lazy(source, wrapped[i := slot])
    case Solid(items) => Solid(items[i := slot])
  }

  function InsertAt(l: Lazy, i: nat, slot: Slot): Lazy
    requires i <= Size(l)
  {
    Solid(Slots(l)[..i] + [slot] + Slots(l)[i..])
  }

  function DropAt(l: Lazy, i: nat): Lazy
    requires i < Size(l)
  {
    Solid(RemoveAt(Slots(l), i))
  }

  function Extended(l: Lazy, items: seq<Value>): Lazy {
    if items == [] then l
    else Solid(Slots(l) + seq(|items|, i requires 0 <= i < |items| => Unwrapped(items[i])))
  }

  function Backwards<T>(s: seq<T>): seq<T> {
    seq(|s|, i requires 0 <= i < |s| => s[|s| - 1 - i])
  }

  function Reversed(l: Lazy): Lazy {
    Solid(Backwards(Slots(l)))
  }

  function Emptied(l: Lazy): Lazy {
    if Size(l) == 0 then l else Solid([])
  }

  /** Materialising, in either phase, never changes what the list stands for. */
  lemma MaterializingRefines(l: Lazy)
    ensures LazyOk(Materialized(l)) && Elements(Materialized(l)) == Elements(l) && Slots(Materialized(l)) == Slots(l)
  {
  }

  lemma TouchAtRefines(l: Lazy, i: nat)
    requires LazyOk(l) && i < Size(l)
    ensures LazyOk(TouchAt(l, i)) && Size(TouchAt(l, i)) == Size(l) && Elements(TouchAt(l, i)) == Elements(l)
    ensures SlotAt(TouchAt(l, i), i) == Wrapped(SlotAt(l, i))
  {
  }

  lemma PutAtRefines(l: Lazy, i: nat, slot: Slot)
    requires LazyOk(l) && i < Size(l)
    ensures LazyOk(PutAt(l, i, slot)) && Elements(PutAt(l, i, slot)) == Elements(l)[i := Plainly(slot)]
  {
  }

  lemma InsertAtRefines(l: Lazy, i: nat, slot: Slot)
    requires i <= Size(l)
    ensures Elements(InsertAt(l, i, slot)) == Elements(l)[..i] + [Plainly(slot)] + Elements(l)[i..]
  {
    var s := Slots(l);
    var t := s[..i] + [slot] + s[i..];
    assert Elements(InsertAt(l, i, slot)) == PlainlyAll(t);
    assert PlainlyAll(t) == PlainlyAll(s)[..i] + [Plainly(slot)] + PlainlyAll(s)[i..];
    assert PlainlyAll(s) == Elements(l);
  }

  lemma DropAtRefines(l: Lazy, i: nat)
    requires i < Size(l)
    ensures Elements(DropAt(l, i)) == RemoveAt(Elements(l), i)
  {
  }

  lemma ExtendedRefines(l: Lazy, items: seq<Value>)
    requires LazyOk(l)
    ensures LazyOk(Extended(l, items)) && Elements(Extended(l, items)) == Elements(l) + items
  {
  }

  lemma ReversedRefines(l: Lazy)
    ensures Elements(Reversed(l)) == Backwards(Elements(l))
  {
  }

  lemma EmptiedRefines(l: Lazy)
    requires LazyOk(l)
    ensures LazyOk(Emptied(l)) && Elements(Emptied(l)) == []
  {
  }

  /** Touch the first n elements, in order: what iterating over the list leaves behind. */
  function TouchFirst(l: Lazy, n: nat): (r: Lazy)
    requires n <= Size(l)
    ensures Size(r) == Size(l)
  {
    if n == 0 then l else TouchAt(TouchFirst(l, n - 1), n - 1)
  }

  lemma {:induction false} TouchedFurtherOn(l: Lazy, n: nat, i: nat)
    requires n <= i < Size(l)
    ensures SlotAt(TouchFirst(l, n), i) == SlotAt(l, i)
  {
    if n > 0 {
      TouchedFurtherOn(l, n - 1, i);
    }
  }

  lemma {:induction false} ListIterationRefines(l: Lazy, n: nat)
    requires LazyOk(l) && n <= Size(l)
    ensures LazyOk(TouchFirst(l, n)) && Elements(TouchFirst(l, n)) == Elements(l)
    ensures forall i :: 0 <= i < Size(l) ==> Wrapped(SlotAt(TouchFirst(l, n), i)) == Wrapped(SlotAt(l, i))
  {
    if n > 0 {
      ListIterationRefines(l, n - 1);
      TouchAtRefines(TouchFirst(l, n - 1), n - 1);
    }
  }
}
