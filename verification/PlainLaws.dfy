/** What the plain list and dictionary operations do, in terms of positions and of each other, and what a
    copy-on-write reply is beside the plain one. */
module PlainLaws {
  import opened Sequences
  import opened CloneJson
  import opened CowSpec
  import opened CowOperations
  import opened CowViews

  // ---- Lists -------------------------------------------------------------------------------

  /** Positions count from the front. */
  lemma AtPosition(s: seq<Value>, i: nat, v: Value)
    requires i < |s|
    ensures OnPlainList(s, GetAt(i)) == (s, Some([s[i]]))
    ensures OnPlainList(s, SetAt(i, v)) == (s[..i] + [v] + s[i + 1..], Some([]))
    ensures OnPlainList(s, DelAt(i)) == (s[..i] + s[i + 1..], Some([]))
    ensures OnPlainList(s, PopAt(i)) == (s[..i] + s[i + 1..], Some([s[i]]))
  {
    assert s[i := v] == s[..i] + [v] + s[i + 1..];
    assert RemoveAt(s, i) == s[..i] + s[i + 1..];
  }

  /** A negative index counts from the end: it is the position that many before the length. */
  lemma FromTheEnd(s: seq<Value>, index: int, v: Value)
    requires -|s| <= index < 0
    ensures OnPlainList(s, GetAt(index)) == OnPlainList(s, GetAt(|s| + index))
    ensures OnPlainList(s, SetAt(index, v)) == OnPlainList(s, SetAt(|s| + index, v))
    ensures OnPlainList(s, DelAt(index)) == OnPlainList(s, DelAt(|s| + index))
    ensures OnPlainList(s, PopAt(index)) == OnPlainList(s, PopAt(|s| + index))
    ensures OnPlainList(s, Insert(index, v)) == OnPlainList(s, Insert(|s| + index, v))
  {
  }

  /** Any other index is an error and changes nothing. */
  lemma OutsideIsAnError(s: seq<Value>, index: int, v: Value)
    requires !(-|s| <= index < |s|)
    ensures OnPlainList(s, GetAt(index)) == OnPlainList(s, SetAt(index, v)) == (s, None)
    ensures OnPlainList(s, DelAt(index)) == OnPlainList(s, PopAt(index)) == (s, None)
  {
  }

  /** The last element is at -1, and taking it undoes an append. */
  lemma PopUndoesAppend(s: seq<Value>, v: Value)
    ensures OnPlainList(OnPlainList(s, Append(v)).0, GetAt(-1)) == (s + [v], Some([v]))
    ensures OnPlainList(OnPlainList(s, Append(v)).0, PopAt(-1)) == (s, Some([v]))
    ensures OnPlainList(OnPlainList(s, Append(v)).0, DelAt(-1)) == (s, Some([]))
  {
    AtPosition(s + [v], |s|, v);
    FromTheEnd(s + [v], -1, v);
    assert (s + [v])[..|s|] + (s + [v])[|s| + 1..] == s;
  }

  /** An insertion puts the value at the position and moves what was there behind it; deleting it there undoes it. */
  lemma InsertionIs(s: seq<Value>, i: nat, v: Value)
    requires i <= |s|
    ensures OnPlainList(s, Insert(i, v)) == (s[..i] + [v] + s[i..], Some([]))
    ensures OnPlainList(OnPlainList(s, Insert(i, v)).0, DelAt(i)).0 == s
  {
    var t := s[..i] + [v] + s[i..];
    AtPosition(t, i, v);
    assert t[..i] + t[i + 1..] == s[..i] + s[i..] == s;
  }

  /** An insertion beyond the end appends, and one before the beginning comes first. */
  lemma InsertionOutside(s: seq<Value>, index: int, v: Value)
    ensures |s| <= index ==> OnPlainList(s, Insert(index, v)) == OnPlainList(s, Append(v))
    ensures index <= -|s| && s != [] ==> OnPlainList(s, Insert(index, v)) == ([v] + s, Some([]))
  {
    assert s[..|s|] + [v] + s[|s|..] == s + [v];
    assert s[..0] + [v] + s[0..] == [v] + s;
  }

  /** Reversing puts each element as far from the end as it was from the front; twice, it changes nothing. */
  lemma ReversalIs(s: seq<Value>)
    ensures var t := OnPlainList(s, Reverse).0; |t| == |s| && forall i :: 0 <= i < |s| ==> t[i] == s[|s| - 1 - i]
    ensures OnPlainList(OnPlainList(s, Reverse).0, Reverse).0 == s
    ensures OnPlainList(s, Reverse).1 == Some([])
  {
  }

  /** Extending is appending one by one. */
  lemma {:induction false} ExtensionIs(s: seq<Value>, values: seq<Value>)
    ensures OnPlainList(s, Extend([])) == (s, Some([]))
    ensures values != [] ==>
      OnPlainList(s, Extend(values)) == OnPlainList(OnPlainList(s, Append(values[0])).0, Extend(values[1..]))
    ensures OnPlainList(s, Append(if values == [] then Plain(Null) else values[0])).1 == Some([])
  {
    assert s + [] == s;
    if values != [] {
      assert s + values == s + [values[0]] + values[1..];
    }
  }

  /** Clearing leaves nothing, and iterating leaves everything and gives it in order. */
  lemma ClearingAndIteratingAre(s: seq<Value>)
    ensures OnPlainList(s, ClearList) == ([], Some([])) && OnPlainList(s, IterateList) == (s, Some(s))
  {
  }

  // ---- Dictionaries ------------------------------------------------------------------------

  /** An assigned key reads as assigned and every other as before; a new key comes last, and a key that is there keeps
      its place. */
  lemma AssignmentIs(d: Ordered, k: Key, v: Value, other: Key)
    requires OrderedOk(d)
    ensures var d' := OnPlainDict(d, SetItem(k, v)).0;
      && OrderedOk(d') && d'.keys == (if k in d.keys then d.keys else d.keys + [k])
      && OnPlainDict(d', GetItem(k)) == (d', Some(Reply([], [v])))
      && (other != k ==> OnPlainDict(d', GetItem(other)).1 == OnPlainDict(d, GetItem(other)).1)
    ensures OnPlainDict(d, SetItem(k, v)).1 == Some(Reply([], []))
  {
  }

  /** A key that is there reads as the value kept for it; one that is not is an error and changes nothing. */
  lemma LookupIs(d: Ordered, k: Key)
    requires OrderedOk(d)
    ensures if k in d.keys then k in d.values && OnPlainDict(d, GetItem(k)) == (d, Some(Reply([], [d.values[k]])))
            else OnPlainDict(d, GetItem(k)) == OnPlainDict(d, DelItem(k)) == OnPlainDict(d, PopKey(k)) == (d, None)
    ensures OnPlainDict(d, Contains(k)) == (d, if k in d.keys then Some(Reply([k], [])) else None)
    ensures d.keys == [] ==> OnPlainDict(d, PopLast) == (d, None)
  {
  }

  lemma {:induction false} WithoutOneKey(keys: seq<Key>, i: nat)
    requires i < |keys| && forall p, q :: 0 <= p < q < |keys| ==> keys[p] != keys[q]
    ensures Without(keys, {keys[i]}) == keys[..i] + keys[i + 1..]
  {
    var a, b := keys[..i], keys[i + 1..];
    assert keys == a + ([keys[i]] + b);
    WithoutConcat(a, [keys[i]] + b, {keys[i]});
    WithoutConcat([keys[i]], b, {keys[i]});
    WithoutNothing(a, {keys[i]});
    WithoutNothing(b, {keys[i]});
    assert [keys[i]][..0] == [] && Without([keys[i]], {keys[i]}) == [];
    assert [] + b == b;
  }

  lemma OneKeyTaken(keys: seq<Key>, i: nat)
    requires i < |keys| && forall p, q :: 0 <= p < q < |keys| ==> keys[p] != keys[q]
    ensures var left := keys[..i] + keys[i + 1..];
      && (forall x :: x in left <==> x in keys && x != keys[i])
      && forall p, q :: 0 <= p < q < |left| ==> left[p] != left[q]
  {
    var left := keys[..i] + keys[i + 1..];
    forall x ensures x in left <==> x in keys && x != keys[i] {
      if x in keys && x != keys[i] {
        var j :| 0 <= j < |keys| && keys[j] == x;
        assert left[if j < i then j else j - 1] == x;
      }
    }
  }

  lemma EntryDeleted(d: Ordered, i: nat)
    requires OrderedOk(d) && i < |d.keys|
    ensures DeleteEntry(d, d.keys[i]) == Ordered(d.keys[..i] + d.keys[i + 1..], d.values - {d.keys[i]})
    ensures OrderedOk(DeleteEntry(d, d.keys[i]))
  {
    hide Without;
    WithoutOneKey(d.keys, i);
    OneKeyTaken(d.keys, i);
  }

  /** Deleting takes the key out of the order and leaves the rest; popping is reading and then deleting. */
  lemma DeletionIs(d: Ordered, i: nat, other: Key)
    requires OrderedOk(d) && i < |d.keys|
    ensures var k := d.keys[i]; var d' := OnPlainDict(d, DelItem(k)).0;
      && k in d.values && OrderedOk(d') && d'.keys == d.keys[..i] + d.keys[i + 1..]
      && (other != k ==> OnPlainDict(d', GetItem(other)).1 == OnPlainDict(d, GetItem(other)).1)
      && OnPlainDict(d, DelItem(k)).1 == Some(Reply([], []))
      && OnPlainDict(d, PopKey(k)) == (d', Some(Reply([k], [d.values[k]])))
  {
    hide DeleteEntry;
    EntryDeleted(d, i);
    assert d.keys[i] in d.keys;
  }

  lemma EntriesAreKeys(d: Ordered, k: Key)
    requires OrderedOk(d)
    ensures k in d.keys <==> k in d.values
  {
  }

  lemma NewEntryIsOk(d: Ordered, k: Key, v: Value)
    requires OrderedOk(d) && k !in d.keys
    ensures OrderedOk(Ordered(d.keys + [k], d.values[k := v]))
  {
  }

  lemma NewEntryDeleted(d: Ordered, k: Key, v: Value)
    requires OrderedOk(d) && k !in d.keys
    ensures OrderedOk(SetEntry(d, k, v)) && DeleteEntry(SetEntry(d, k, v), k) == d
  {
    hide DeleteEntry, OrderedOk, OnPlainDict;
    var d' := Ordered(d.keys + [k], d.values[k := v]);
    EntriesAreKeys(d, k);
    NewEntryIsOk(d, k, v);
    EntryDeleted(d', |d.keys|);
    assert d'.keys[..|d.keys|] + d'.keys[|d.keys| + 1..] == d.keys;
    assert d'.values - {k} == d.values;
  }

  /** The last key goes first, so taking it undoes the assignment of a new one. */
  lemma PopUndoesAssignment(d: Ordered, k: Key, v: Value)
    requires OrderedOk(d) && k !in d.keys
    ensures OrderedOk(OnPlainDict(d, SetItem(k, v)).0)
    ensures OnPlainDict(OnPlainDict(d, SetItem(k, v)).0, PopLast) == (d, Some(Reply([k], [v])))
    ensures OnPlainDict(OnPlainDict(d, SetItem(k, v)).0, DelItem(k)).0 == d
  {
    hide OrderedOk, DeleteEntry;
    NewEntryDeleted(d, k, v);
    EntriesAreKeys(d, k);
    EntriesAreKeys(SetEntry(d, k, v), k);
  }

  /** A default is assigned only where the key is missing, and read either way. */
  lemma DefaultIs(d: Ordered, k: Key, v: Value)
    requires OrderedOk(d)
    ensures OnPlainDict(d, SetDefault(k, v)) ==
      if k in d.keys then OnPlainDict(d, GetItem(k)) else OnPlainDict(OnPlainDict(d, SetItem(k, v)).0, GetItem(k))
  {
  }

  /** Updating is assigning one key after the other. */
  lemma UpdateIs(d: Ordered, keys: seq<Key>, values: seq<Value>, k: Key, v: Value)
    requires OrderedOk(d) && |keys| == |values|
    ensures OnPlainDict(d, UpdateAll([], [])) == (d, Some(Reply([], [])))
    ensures OrderedOk(OnPlainDict(d, UpdateAll(keys, values)).0)
    ensures OnPlainDict(d, UpdateAll(keys + [k], values + [v])).0 == OnPlainDict(OnPlainDict(d, UpdateAll(keys, values)).0, SetItem(k, v)).0
    ensures OnPlainDict(d, UpdateAll(keys, values)).1 == Some(Reply([], []))
  {
    SetAllIsOk(d, keys, values);
    assert (keys + [k])[..|keys|] == keys && (values + [v])[..|values|] == values;
  }

  lemma {:induction false} SetAllIsOk(d: Ordered, keys: seq<Key>, values: seq<Value>)
    requires OrderedOk(d) && |keys| == |values|
    ensures OrderedOk(SetAll(d, keys, values))
  {
    if keys != [] {
      SetAllIsOk(d, keys[..|keys| - 1], values[..|keys| - 1]);
    }
  }

  /** Iteration gives the keys in their order, each with its value, or backwards without values. */
  lemma DictIterationIs(d: Ordered, i: nat)
    requires OrderedOk(d) && i < |d.keys|
    ensures OnPlainDict(d, Iterate).0 == OnPlainDict(d, IterateBackwards).0 == d
    ensures OnPlainDict(d, Iterate).1.Some? && OnPlainDict(d, IterateBackwards).1.Some?
    ensures var items, back := OnPlainDict(d, Iterate).1.value, OnPlainDict(d, IterateBackwards).1.value;
      && items.keys == d.keys && |items.values| == |d.keys| && OnPlainDict(d, GetItem(d.keys[i])).1 == Some(Reply([], [items.values[i]]))
      && |back.keys| == |d.keys| && back.keys[i] == d.keys[|d.keys| - 1 - i] && back.values == []
    ensures OnPlainDict(d, ClearDict) == (Ordered([], map[]), Some(Reply([], [])))
  {
    assert d.keys[i] in d.keys;
  }

  // ---- Replies ------------------------------------------------------------------------------

  /** What a reader of a view gets for a plain value: containers as wrappers, anything else as it is. */
  function Given(v: Value): Slot {
    match v
    case Ref(id) => Handle(id)
    case _ => Unwrapped(v)
  }

  ghost predicate AreGiven(slots: seq<Slot>, values: seq<Value>) {
    |slots| == |values| && forall i :: 0 <= i < |slots| ==> slots[i] == Given(values[i])
  }

  lemma SlotsAreGiven(slots: seq<Slot>, values: seq<Value>)
    requires PlainlyAll(slots) == values && forall slot <- slots :: !Escapes(slot)
    ensures AreGiven(slots, values)
  {
    assert |PlainlyAll(slots)| == |slots|;
    forall i | 0 <= i < |slots| ensures slots[i] == Given(values[i]) {
      assert slots[i] in slots && PlainlyAll(slots)[i] == Plainly(slots[i]);
    }
  }

  /** A copy-on-write dictionary answers what the plain one answers, with every container as a wrapper. */
  lemma DictAnswersPlainly(o: Overlay, op: DictOp)
    requires OverlayOk(o) && op.Sane()
    ensures OrderedOk(Contents(o))
    ensures match (OnOverlay(o, op).1, OnPlainDict(Contents(o), op).1)
      case (None, None) => true
      case (Some(reply), Some(plain)) => reply.keys == plain.keys && AreGiven(reply.values, plain.values)
      case _ => false
  {
    ContentsAgree(o);
    DictOperationRefines(o, op);
    hide OverlayOk, OnOverlay, OnPlainDict, Contents, Escapes, AreGiven, PlainlyAll;
    var reply, plain := OnOverlay(o, op).1, OnPlainDict(Contents(o), op).1;
    if reply.Some? {
      SlotsAreGiven(reply.value.values, plain.value.values);
    }
  }

  lemma ListAnswersPlainly(l: Lazy, op: ListOp)
    requires LazyOk(l)
    ensures match (OnLazy(l, op).1, OnPlainList(Elements(l), op).1)
      case (None, None) => true
      case (Some(reply), Some(plain)) => AreGiven(reply, plain)
      case _ => false
  {
    ListOperationRefines(l, op);
    hide LazyOk, OnLazy, OnPlainList, Elements, Escapes, AreGiven, PlainlyAll;
    var reply, plain := OnLazy(l, op).1, OnPlainList(Elements(l), op).1;
    if reply.Some? {
      SlotsAreGiven(reply.value, plain.value);
    }
  }

  // ---- Untouched containers ------------------------------------------------------------------

  /** A wrapper nobody has used yet stands for its container: a list's items in their places, a dictionary's keys in
      their order, each with its own item. */
  lemma UntouchedIsTheContainer(node: Node)
    requires node.DictNode? ==> |node.keys| == |node.items| && forall i, j :: 0 <= i < j < |node.keys| ==> node.keys[i] != node.keys[j]
    ensures Standing(Fresh(node)) == PlainOf(node)
    ensures match PlainOf(node)
      case List(items) => node.ListNode? && items == node.items
      case Dict(d) => node.DictNode? && OrderedOk(d) && d.keys == node.keys
                      && forall i :: 0 <= i < |d.keys| ==> d.keys[i] in d.values && d.values[d.keys[i]] == node.items[i]
  {
    if node.ListNode? {
      assert Elements(Lazy(node.items, map[])) == node.items;
    } else {
      UntouchedIsSource(OrderedOf(node));
      hide Contents, OverlayOk;
      forall i | 0 <= i < |node.keys| ensures node.keys[i] in node.keys && ItemOf(node, node.keys[i]) == node.items[i] {
        assert node.keys[i] in node.keys;
        assert IndexOf(node.keys, node.keys[i]) == i;
      }
    }
  }

  /** The flag of a container says that reading all of it wraps nothing: exactly then iterating an untouched list hands
      out no wrapper and remembers none. */
  lemma FlaggedNeedsNoWrapper(items: seq<Value>)
    ensures OnLazy(Lazy(items, map[]), IterateList).1.Some?
    ensures OnlyScalars(items) <==> forall slot <- OnLazy(Lazy(items, map[]), IterateList).1.value :: !slot.Handle?
    ensures OnlyScalars(items) ==> OnLazy(Lazy(items, map[]), IterateList).0 == Lazy(items, map[])
  {
    var reply := WrappedElements(Lazy(items, map[]));
    forall i | 0 <= i < |items| ensures reply[i] in reply && (reply[i].Handle? <==> items[i].Ref?) {
      assert reply[i] == Wrapped(Unwrapped(items[i]));
    }
    if OnlyScalars(items) {
      NothingToTouch(items, |items|);
    }
  }

  lemma {:induction false} NothingToTouch(items: seq<Value>, n: nat)
    requires OnlyScalars(items) && n <= |items|
    ensures TouchFirst(Lazy(items, map[]), n) == Lazy(items, map[])
  {
    if n > 0 {
      NothingToTouch(items, n - 1);
    }
  }
}
