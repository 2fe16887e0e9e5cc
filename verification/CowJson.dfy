/** The copy-on-write objects: a view's owner with its cache of wrappers, dictionaries and lists. */
module CowJson {
  import opened Sequences
  import opened CloneJson
  import opened CowSpec
  import opened CowOperations
  import opened CowViews

  datatype Container = DictHandle(dict: CowDict) | ListHandle(list: CowList)

  /** An insertion-ordered dict of slots. */
  datatype Added = Added(keys: seq<Key>, slots: map<Key, Slot>)

  /** A value whose containers, if any, the view knows. */
  ghost predicate Known(raw: Store, v: Value) {
    v.Ref? ==> v.id in raw && (raw[v.id].DictNode? ==> |raw[v.id].keys| == |raw[v.id].items|) && (raw[v.id].DictNode? ==> OrderedOk(OrderedOf(raw[v.id])))
  }

  class CowOwner {
    var raw: Store                        // the snapshot's containers and every clone inserted since
    var containers: map<nat, Container>   // the wrapper of each raw container, by identity
    var scalarsOnly: map<nat, bool>       // the snapshot's flags
    var changes: nat                      // how often the mutation callback ran

    constructor (raw: Store, scalarsOnly: map<nat, bool>)
      ensures this.raw == raw && this.scalarsOnly == scalarsOnly && containers == map[] && changes == 0
    {
      this.raw, this.scalarsOnly, containers, changes := raw, scalarsOnly, map[], 0;
    }

    ghost predicate FlagsSound()
      reads `raw, `scalarsOnly
    {
      forall id <- raw :: id in scalarsOnly ==> scalarsOnly[id] == OnlyScalars(raw[id].items)
    }

    /** The wrapper of a container, made on first use; any other value as it is. */
    method Wrap(slot: Slot) returns (wrapped: Slot)
      requires Known(raw, Plainly(slot)) && FlagsSound()
      modifies this`containers
      ensures wrapped == Wrapped(slot)
      ensures Opens(Wraps(slot)) && AllMade(containers.Keys - old(containers).Keys)
    {
      if slot.Handle? || !slot.v.Ref? {
        return slot;
      }
      var id := slot.v.id;
      hide Made;
      if id !in containers {
        MakeWrapper(id);
      }
      wrapped := Handle(id);
    }

    method MakeWrapper(id: nat)
      requires id in raw && id !in containers && Known(raw, Ref(id)) && FlagsSound()
      modifies this`containers
      ensures id in containers && containers == old(containers)[id := containers[id]] && Made(id) && fresh(Instance(containers[id]))
    {
      var only := if id in scalarsOnly then Some(scalarsOnly[id]) else None;
      if raw[id].DictNode? {
        SourceItems(raw[id]);
        UntouchedIsSource(OrderedOf(raw[id]));
        var dict := new CowDict(this, OrderedOf(raw[id]), raw[id].items, only);
        containers := containers[id := DictHandle(dict)];
      } else {
        var list := new CowList(this, raw[id].items, only);
        containers := containers[id := ListHandle(list)];
      }
    }

    lemma SourceItems(node: Node)
      requires node.DictNode? && |node.keys| == |node.items| && OrderedOk(OrderedOf(node))
      ensures forall i :: 0 <= i < |node.keys| ==> OrderedOf(node).values[node.keys[i]] == node.items[i]
    {
      forall i | 0 <= i < |node.keys| ensures OrderedOf(node).values[node.keys[i]] == node.items[i] {
        assert node.keys[i] in node.keys && OrderedOf(node).keys[i] == node.keys[i];
        assert IndexOf(node.keys, node.keys[i]) == i;
      }
    }

    /** A wrapper that stands for its container as the snapshot has it. */
    ghost predicate Made(id: nat)
      reads `raw, `containers, if id in containers then {Instance(containers[id])} else {}
    {
      id in containers && id in raw && StandsAsMade(this, raw[id], containers[id])
    }

    /** The cache has got wrappers for these containers: those it had are kept, the others are new objects. */
    twostate predicate Opens(handed: set<nat>)
      reads `containers
    {
      Grown(old(containers), containers, handed) && forall id <- containers | id !in old(containers) :: fresh(Instance(containers[id]))
    }

    ghost predicate AllMade(ids: set<nat>)
      reads `raw, `containers, set id <- ids | id in containers :: Instance(containers[id])
    {
      forall id <- ids :: Made(id)
    }

    ghost predicate Adoptable(cloned: Store)
      reads `raw, `scalarsOnly
    {
      cloned.Keys !! raw.Keys && forall id <- cloned :: id !in scalarsOnly
    }

    /** Take over the containers of an inserted clone. */
    method Adopt(cloned: Store)
      requires Adoptable(cloned)
      modifies this`raw
      ensures raw == old(raw) + cloned
      ensures old(FlagsSound()) ==> FlagsSound()
    {
      raw := raw + cloned;
    }

    method Changed()
      modifies this`changes
      ensures changes == old(changes) + 1
    {
      changes := changes + 1;
    }
  }

  function Instance(c: Container): object {
    match c
    case DictHandle(dict) => dict
    case ListHandle(list) => list
  }

  ghost function Instances(containers: map<nat, Container>): set<object> {
    set id <- containers :: Instance(containers[id])
  }

  ghost predicate StandsAsMade(owner: CowOwner, node: Node, c: Container)
    reads Instance(c)
  {
    match c
    case DictHandle(dict) =>
      dict.owner == owner && node.DictNode? && |node.keys| == |node.items| && dict.State() == Untouched(OrderedOf(node)) && dict.Valid()
    case ListHandle(list) => list.owner == owner && node.ListNode? && list.State() == Lazy(node.items, map[]) && list.Valid()
  }

  /** A cache beside what it was before: wrappers of these containers have been made, each a new object of its own. */
  ghost predicate Grown(before: map<nat, Container>, after: map<nat, Container>, handed: set<nat>) {
    && after.Keys == before.Keys + handed
    && (forall id <- before :: after[id] == before[id])
    && (forall id <- after | id !in before :: Instance(after[id]) !in Instances(before))
    && (forall x <- after, y <- after | x !in before && y !in before && x != y :: Instance(after[x]) != Instance(after[y]))
  }

  lemma GrownTwice(a: map<nat, Container>, b: map<nat, Container>, c: map<nat, Container>, first: set<nat>, second: set<nat>)
    requires Grown(a, b, first) && Grown(b, c, second)
    ensures Grown(a, c, first + second)
  {
    assert forall id <- a :: Instance(b[id]) in Instances(b);
    assert forall id <- b :: Instance(b[id]) in Instances(b);
    assert Instances(a) <= Instances(b);
  }

  class CowDict {
    const owner: CowOwner
    const source: Ordered
    const sourceItems: seq<Value>
    var cleared: bool
    var updated: Option<map<Key, Slot>>
    var added: Option<Added>
    var deleted: Option<set<Key>>
    var scalarsOnly: Option<bool>

    constructor (owner: CowOwner, source: Ordered, sourceItems: seq<Value>, scalarsOnly: Option<bool>)
      ensures this.owner == owner && this.source == source && this.sourceItems == sourceItems && this.scalarsOnly == scalarsOnly
      ensures State() == Untouched(source) && Tight()
    {
      this.owner, this.source, this.sourceItems, this.scalarsOnly := owner, source, sourceItems, scalarsOnly;
      cleared, updated, added, deleted := false, None, None, None;
    }

    ghost function State(): Overlay
      reads `cleared, `updated, `added, `deleted
    {
      Overlay(source, cleared, if updated.Some? then updated.value else map[],
              if added.Some? then added.value.keys else [], if added.Some? then added.value.slots else map[],
              if deleted.Some? then deleted.value else {})
    }

    /** Absent overlays are None, never empty. */
    ghost predicate Tight()
      reads `updated, `added, `deleted
    {
      && (updated.Some? ==> updated.value != map[]) && (added.Some? ==> added.value.slots != map[]) && (deleted.Some? ==> deleted.value != {})
    }

    ghost predicate SourceSound()
      reads `scalarsOnly
    {
      && |sourceItems| == |source.keys|
      && (forall i :: 0 <= i < |source.keys| ==> source.keys[i] in source.values && source.values[source.keys[i]] == sourceItems[i])
      && (scalarsOnly.Some? ==> scalarsOnly.value == OnlyScalars(sourceItems))
    }

    ghost predicate Valid()
      reads this
    {
      OverlayOk(State()) && Tight() && SourceSound()
    }

    /** The four overlay fields, one write at a time. */
    method PutAdded(key: Key, slot: Slot)
      requires key in State().added
      modifies `added
      ensures State() == old(State()).(added := old(State()).added[key := slot]) && (old(Tight()) ==> Tight())
    {
      added := Some(added.value.(slots := added.value.slots[key := slot]));
    }

    method AppendAdded(key: Key, slot: Slot)
      modifies `added
      ensures State() == old(State()).(addedKeys := old(State()).addedKeys + [key], added := old(State()).added[key := slot])
      ensures old(Tight()) ==> Tight()
    {
      var before := if added.None? then Added([], map[]) else added.value;
      added := Some(Added(before.keys + [key], before.slots[key := slot]));
      assert key in added.value.slots;
    }

    method PutUpdated(key: Key, slot: Slot)
      modifies `updated
      ensures State() == old(State()).(updated := old(State()).updated[key := slot]) && (old(Tight()) ==> Tight())
    {
      updated := Some((if updated.None? then map[] else updated.value)[key := slot]);
      assert key in updated.value;
    }

    method DropAdded(key: Key)
      requires key in State().added && forall k :: k in State().addedKeys <==> k in State().added
      modifies `added
      ensures State() == old(State()).(addedKeys := Without(old(State()).addedKeys, {key}), added := old(State()).added - {key})
      ensures old(Tight()) ==> Tight()
    {
      var rest := Added(Without(added.value.keys, {key}), added.value.slots - {key});
      NoKeysLeft(added.value, key);
      hide Without;
      added := if rest.slots == map[] then None else Some(rest);
    }

    method DropUpdated(key: Key)
      modifies `updated, `deleted
      ensures State() == old(State()).(updated := old(State()).updated - {key}, deleted := old(State()).deleted + {key})
      ensures old(Tight()) ==> Tight()
    {
      if updated.Some? {
        var rest := updated.value - {key};
        updated := if rest == map[] then None else Some(rest);
      }
      deleted := Some((if deleted.None? then {} else deleted.value) + {key});
    }

    method DropEverything()
      modifies `cleared, `updated, `added, `deleted
      ensures State() == Overlay(source, true, map[], [], map[], {}) && Tight()
    {
      cleared := true;
      updated, added, deleted := None, None, None;
    }

    /** Every container among the contents is known to the owner. */
    ghost predicate Rooted()
      reads this, owner`raw
    {
      forall k :: Has(State(), k) ==> Known(owner.raw, Plainly(Lookup(State(), k)))
    }

    ghost predicate Ready()
      reads this, owner`raw, owner`scalarsOnly
    {
      Valid() && Rooted() && owner.FlagsSound()
    }

    method Length() returns (n: int)
      requires Valid()
      ensures n == |Contents(State()).keys|
    {
      ContentsAgree(State());
      n := (if cleared then 0 else |source.keys|) - (if deleted.None? then 0 else |deleted.value|)
           + if added.None? then 0 else |added.value.keys|;
    }

    method SourceKeyIsVisible(key: Key) returns (visible: bool)
      ensures visible == Visible(State(), key)
    {
      visible := !cleared && key in source.values && (deleted.None? || key !in deleted.value);
    }

    method ContainsKey(key: Key) returns (found: bool)
      requires Valid()
      ensures found == (key in Contents(State()).values)
    {
      ContentsAgree(State());
      hide OverlayOk, Contents;
      if added.Some? && key in added.value.slots {
        return true;
      }
      found := SourceKeyIsVisible(key);
    }

    /** The keys in order: the visible ones of the snapshot, then the added ones. */
    method IterKeys() returns (keys: seq<Key>)
      requires Valid()
      ensures keys == Contents(State()).keys
    {
      keys := [];
      if !cleared {
        var gone := if deleted.None? then {} else deleted.value;
        for i := 0 to |source.keys|
          invariant keys == Without(source.keys[..i], gone)
        {
          assert source.keys[..i + 1][..i] == source.keys[..i];
          if source.keys[i] !in gone {
            keys := keys + [source.keys[i]];
          }
        }
        assert source.keys[..|source.keys|] == source.keys;
      }
      if added.Some? {
        keys := keys + added.value.keys;
      }
    }

    /** The keys from the last to the first. */
    method IterKeysReversed() returns (keys: seq<Key>)
      requires Valid()
      ensures keys == Backwards(Contents(State()).keys)
    {
      hide OverlayOk, Tight, SourceSound, Backwards, Without, Visible, ReversedFrom;
      ghost var tail: seq<Key> := State().addedKeys;
      keys := if added.None? then [] else Backwards(added.value.keys);
      NothingBackwards<Key>();
      if !cleared {
        var gone := if deleted.None? then {} else deleted.value;
        var i := |source.keys|;
        ReversedEnds(source.keys, gone, tail);
        while i > 0
          invariant 0 <= i <= |source.keys|
          invariant keys == ReversedFrom(source.keys, i, gone, tail)
        {
          i := i - 1;
          ReversedStep(source.keys, i, gone, tail);
          if source.keys[i] !in gone {
            keys := keys + [source.keys[i]];
          }
        }
      } else {
        assert [] + tail == tail;
      }
    }

    /** Where a value is kept. */
    method Find(key: Key) returns (found: bool, inAdded: bool, slot: Slot)
      requires Valid()
      ensures found == Has(State(), key)
      ensures found ==> slot == Lookup(State(), key) && inAdded == (key in State().added)
    {
      hide OverlayOk;
      if added.Some? && key in added.value.slots {
        return true, true, added.value.slots[key];
      }
      found := SourceKeyIsVisible(key);
      inAdded, slot := false, Unwrapped(Plain(Null));
      if updated.Some? && key in updated.value {
        UpdatedIsVisible(State(), key);
        slot := updated.value[key];
      } else if found {
        slot := Unwrapped(source.values[key]);
      }
    }

    /** Keep the wrapper where the value was found. */
    method Remember(key: Key, inAdded: bool, wrapped: Slot)
      requires Valid() && Has(State(), key) && inAdded == (key in State().added)
      requires Escapes(Lookup(State(), key)) && wrapped == Wrapped(Lookup(State(), key))
      modifies `added, `updated
      ensures Valid() && State() == Touch(old(State()), key)
    {
      hide OverlayOk, Tight, SourceSound, Contents, Has, Lookup, State, Escapes, Wrapped;
      TouchRefines(State(), key);
      if inAdded {
        PutAdded(key, wrapped);
      } else {
        PutUpdated(key, wrapped);
      }
    }

    /** Find the value and hand out its wrapper, remembering it. None stands for a KeyError. */
    method GetItem(key: Key) returns (value: Option<Slot>)
      requires Ready()
      modifies `added, `updated, owner`containers
      ensures Ready() && State() == OnOverlay(old(State()), CowOperations.GetItem(key)).0
      ensures var wraps := if Has(old(State()), key) then Wraps(Lookup(old(State()), key)) else {};
        owner.Opens(wraps) && owner.AllMade(owner.containers.Keys - old(owner.containers).Keys)
      ensures value == if Has(old(State()), key) then Some(Wrapped(Lookup(old(State()), key))) else None
    {
      hide OverlayOk, Tight, SourceSound, Rooted, OrderedOk, CowOwner.AllMade, CowOwner.FlagsSound, Lookup, Wrapped, Wraps;
      var found, inAdded, slot := Find(key);
      if !found {
        NothingOpened();
        return None;
      }
      var wrapped := WrapFound(key, inAdded, slot);
      return Some(wrapped);
    }

    twostate lemma NothingOpened()
      requires owner.containers == old(owner.containers)
      ensures owner.Opens({}) && owner.AllMade(owner.containers.Keys - old(owner.containers).Keys)
    {
    }

    /** Wrap a value that was found and remember the wrapper there. */
    method WrapFound(key: Key, inAdded: bool, slot: Slot) returns (wrapped: Slot)
      requires Ready() && Has(State(), key) && inAdded == (key in State().added) && slot == Lookup(State(), key)
      modifies `added, `updated, owner`containers
      ensures Ready() && State() == Touch(old(State()), key) && wrapped == Wrapped(slot)
      ensures owner.Opens(Wraps(slot)) && owner.AllMade(owner.containers.Keys - old(owner.containers).Keys)
    {
      hide Ready, Valid, State, Rooted, OverlayOk, Has, Lookup, Known, Touch, Wrapped, Escapes, Wraps, StandsAsMade, CowOwner.FlagsSound;
      ghost var before, raw := State(), owner.raw;
      FoundIsKnown(key);
      wrapped := owner.Wrap(slot);
      if wrapped != slot {
        Remember(key, inAdded, wrapped);
      }
      TouchedIsReady(before, raw, key);
    }

    lemma FoundIsKnown(key: Key)
      requires Ready() && Has(State(), key)
      ensures Valid() && owner.FlagsSound() && OverlayOk(State()) && Known(owner.raw, Plainly(Lookup(State(), key)))
      ensures Wrapped(Lookup(State(), key)) != Lookup(State(), key) <==> Escapes(Lookup(State(), key))
      ensures !Escapes(Lookup(State(), key)) ==> Touch(State(), key) == State()
      ensures forall k :: Has(State(), k) ==> Known(owner.raw, Plainly(Lookup(State(), k)))
    {
      hide OverlayOk, Tight, SourceSound, OrderedOk;
    }

    /** Reading keeps every container known. */
    lemma TouchedIsReady(before: Overlay, raw: Store, key: Key)
      requires Valid() && OverlayOk(before) && Has(before, key) && State() == Touch(before, key) && owner.raw == raw && owner.FlagsSound()
      requires forall k :: Has(before, k) ==> Known(raw, Plainly(Lookup(before, k)))
      ensures Ready()
    {
      TouchKeeps(before, key);
      hide OverlayOk, Tight, SourceSound, OrderedOk, Has, Lookup, Touch, State;
    }

    /** Store a value that has already been cloned. */
    method SetCloned(key: Key, value: Value)
      requires Valid()
      modifies `added, `updated
      ensures Valid() && State() == SetSlot(old(State()), key, Unwrapped(value))
    {
      SetRefines(State(), key, Unwrapped(value));
      hide OverlayOk, Tight, SourceSound, Contents, SetEntry, Visible;
      var inAdded := added.Some? && key in added.value.slots;
      var visible := SourceKeyIsVisible(key);
      assert inAdded == (key in State().added);
      hide State;
      if inAdded {
        PutAdded(key, Unwrapped(value));
      } else if visible {
        PutUpdated(key, Unwrapped(value));
      } else {
        AppendAdded(key, Unwrapped(value));
      }
    }

    /** Assign a key: the value has been cloned, and the clone's containers join the owner's. */
    method SetItem(key: Key, value: Value, cloned: Store)
      requires Ready() && owner.Adoptable(cloned) && Known(cloned, value)
      modifies `added, `updated, owner`raw, owner`changes
      ensures Ready() && State() == OnOverlay(old(State()), CowOperations.SetItem(key, value)).0
      ensures owner.raw == old(owner.raw) + cloned && owner.changes == old(owner.changes) + 1
    {
      hide OverlayOk, Tight, SourceSound, OrderedOk, Has, Lookup, SetSlot, State, Known;
      ghost var before, raw := State(), owner.raw;
      SetCloned(key, value);
      owner.Adopt(cloned);
      owner.Changed();
      RootedAfterSet(before, raw, key, value, cloned);
    }

    /** Growing the owner and storing a known value keeps every container known. */
    lemma RootedAfterSet(before: Overlay, raw: Store, key: Key, value: Value, cloned: Store)
      requires OverlayOk(before) && State() == SetSlot(before, key, Unwrapped(value))
      requires owner.raw == raw + cloned && cloned.Keys !! raw.Keys && Known(cloned, value)
      requires forall k :: Has(before, k) ==> Known(raw, Plainly(Lookup(before, k)))
      ensures Rooted()
    {
      SetKeeps(before, key, Unwrapped(value));
      hide OverlayOk, OrderedOk, Has, Lookup, SetSlot, State, OrderedOf;
    }

    /** Assign every key of an already cloned dict, in its order. */
    method Update(keys: seq<Key>, items: seq<Value>, cloned: Store)
      requires Ready() && |keys| == |items| && owner.Adoptable(cloned) && forall v <- items :: Known(cloned, v)
      modifies `added, `updated, owner`raw, owner`changes
      ensures owner.raw == old(owner.raw) + cloned
      ensures Ready() && State() == OnOverlay(old(State()), UpdateAll(keys, items)).0
      ensures owner.changes == old(owner.changes) + if keys == [] then 0 else 1
    {
      hide OverlayOk, Tight, SourceSound, State, Has, Lookup, Known, CowOwner.Adoptable, CowOwner.FlagsSound, SetAllSlots, OnOverlay, Ready, Rooted;
      ReadyIsOk();
      AdoptAll(items, cloned);
      ghost var before := State();
      UpdatesNothing(before, keys, items);
      for i := 0 to |keys|
        invariant Ready() && State() == SetAllSlots(before, keys[..i], items[..i])
        invariant forall v <- items :: Known(owner.raw, v)
        invariant owner.changes == old(owner.changes) && owner.raw == old(owner.raw) + cloned
      {
        SetNext(before, keys, items, i);
      }
      WholeUpdate(before, keys, items);
      if keys != [] {
        owner.Changed();
      }
    }

    /** Growing the owner keeps every container known. */
    method AdoptAll(ghost items: seq<Value>, cloned: Store)
      requires Ready() && owner.Adoptable(cloned) && forall v <- items :: Known(cloned, v)
      modifies owner`raw
      ensures Ready() && owner.raw == old(owner.raw) + cloned && forall v <- items :: Known(owner.raw, v)
    {
      AdoptKeepsReady(cloned);
      hide OverlayOk, Tight, SourceSound, State, Has, Lookup, OrderedOk;
      owner.Adopt(cloned);
    }

    method SetNext(ghost before: Overlay, keys: seq<Key>, items: seq<Value>, i: nat)
      requires Ready() && i < |keys| == |items| && State() == SetAllSlots(before, keys[..i], items[..i])
      requires forall v <- items :: Known(owner.raw, v)
      modifies `added, `updated
      ensures Ready() && State() == SetAllSlots(before, keys[..i + 1], items[..i + 1])
    {
      assert keys[..i + 1][..i] == keys[..i] && items[..i + 1][..i] == items[..i];
      assert items[i] in items;
      SetKeeps(State(), keys[i], Unwrapped(items[i]));
      hide OverlayOk, Tight, SourceSound, OrderedOk, Has, Lookup, SetSlot, State, Known;
      SetCloned(keys[i], items[i]);
    }

    /** Delete a key; false stands for a KeyError. */
    method DelItem(key: Key) returns (ok: bool)
      requires Ready()
      modifies `added, `updated, `deleted, owner`changes
      ensures Ready() && ok == Has(old(State()), key)
      ensures State() == OnOverlay(old(State()), CowOperations.DelItem(key)).0
      ensures owner.changes == old(owner.changes) + if ok then 1 else 0
    {
      hide OverlayOk, Tight, SourceSound, OrderedOk, Contents, DeleteEntry, Has, Lookup, Delete, State, Known;
      ContentsAgree(State());
      ok := ContainsKey(key);
      if !ok {
        return;
      }
      DeleteRefines(State(), key);
      DeleteKeeps(State(), key);
      Remove(key);
      owner.Changed();
    }

    method Remove(key: Key)
      requires Valid() && Has(State(), key) && OverlayOk(Delete(State(), key))
      modifies `added, `updated, `deleted
      ensures Valid() && State() == Delete(old(State()), key)
    {
      AddedKeysAgree(State());
      var inAdded := added.Some? && key in added.value.slots;
      assert inAdded == (key in State().added);
      hide OverlayOk, Tight, SourceSound, Has, State, Without;
      if inAdded {
        DropAdded(key);
      } else {
        DropUpdated(key);
      }
    }

    /** Drop everything; nothing happens to an empty dictionary. */
    method Clear()
      requires Ready()
      modifies `cleared, `updated, `added, `deleted, owner`changes
      ensures Ready() && State() == OnOverlay(old(State()), ClearDict).0
      ensures Contents(State()).keys == []
    {
      hide *;
      ghost var before := State();
      BeforeClear();
      var n := Length();
      if n != 0 {
        DropEverything();
        owner.Changed();
        ClearedIsReady();
      }
    }

    lemma BeforeClear()
      requires Ready()
      ensures Valid() && SourceSound() && owner.FlagsSound()
      ensures |Contents(State()).keys| == 0 ==> CowSpec.Clear(State()) == State()
      ensures |Contents(State()).keys| != 0 ==> CowSpec.Clear(State()) == Overlay(source, true, map[], [], map[], {})
      ensures OverlayOk(Overlay(source, true, map[], [], map[], {}))
      ensures OnOverlay(State(), ClearDict).0 == CowSpec.Clear(State()) && Contents(CowSpec.Clear(State())).keys == []
    {
      ContentsAgree(State());
      ClearRefines(State());
      EmptyOverlay(source);
      hide OverlayOk, Contents;
    }

    lemma ClearedIsReady()
      requires State() == Overlay(source, true, map[], [], map[], {}) && OverlayOk(State())
      requires Tight() && SourceSound() && owner.FlagsSound()
      ensures Ready()
    {
      hide OverlayOk, Tight, SourceSound, State;
    }

    /** Remove a key and hand out its value. */
    method Pop(key: Key) returns (value: Option<Slot>)
      requires Ready()
      modifies `added, `updated, `deleted, owner`containers, owner`changes
      ensures Ready() && State() == OnOverlay(old(State()), PopKey(key)).0
      ensures value == if Has(old(State()), key) then Some(Wrapped(Lookup(old(State()), key))) else None
      ensures var wraps := if Has(old(State()), key) then Wraps(Lookup(old(State()), key)) else {};
        owner.Opens(wraps) && owner.AllMade(owner.containers.Keys - old(owner.containers).Keys)
    {
      hide OverlayOk, Tight, SourceSound, Rooted, CowOwner.FlagsSound, Contents, Lookup, Wrapped, Wraps, Has, Touch, Delete;
      ghost var before := State();
      value := GetItem(key);
      if value.Some? {
        TouchRefines(before, key);
        var ok := DelItem(key);
      }
    }

    /** Remove the last key and hand it out with its value. */
    method PopItem() returns (item: Option<(Key, Slot)>)
      requires Ready()
      modifies `added, `updated, `deleted, owner`containers, owner`changes
      ensures Ready() && State() == OnOverlay(old(State()), PopLast).0
      ensures item.Some? <==> Keys(old(State())) != []
      ensures item.Some? ==> OnOverlay(old(State()), PopLast).1 == Some(Reply([item.value.0], [item.value.1]))
      ensures owner.Opens(WrapsAll(DictReads(old(State()), PopLast)))
      ensures owner.AllMade(owner.containers.Keys - old(owner.containers).Keys)
    {
      hide OverlayOk, Tight, SourceSound, Rooted, Ready, State, CowOwner.FlagsSound, CowOwner.AllMade, Contents, Backwards, OnOverlay;
      hide Grown, DictReads, WrapsAll, Wraps, Has, Lookup, Wrapped, Keys;
      ghost var before := State();
      ReadyIsOk();
      var keys := IterKeysReversed();
      LastKey(before, keys);
      if |keys| == 0 {
        NothingOpened();
        return None;
      }
      var value := Pop(keys[0]);
      LastTaken(before, keys[0]);
      return Some((keys[0], value.value));
    }

    lemma LastKey(before: Overlay, keys: seq<Key>)
      requires OverlayOk(before) && keys == Backwards(Contents(before).keys)
      ensures keys == [] <==> Keys(before) == []
      ensures keys == [] ==> OnOverlay(before, PopLast) == (before, None) && WrapsAll(DictReads(before, PopLast)) == {}
      ensures keys != [] ==> Has(before, keys[0]) && keys[0] == Keys(before)[|Keys(before)| - 1]
    {
      ContentsKeys(before);
      assert |keys| == |Keys(before)|;
      if keys != [] {
        assert keys[0] == Keys(before)[|Keys(before)| - 1];
        assert keys[0] in Keys(before);
      }
    }

    lemma LastTaken(before: Overlay, key: Key)
      requires OverlayOk(before) && Keys(before) != [] && key == Keys(before)[|Keys(before)| - 1] && Has(before, key)
      ensures OnOverlay(before, PopLast) == OnOverlay(before, PopKey(key))
      ensures OnOverlay(before, PopLast).1 == Some(Reply([key], [Wrapped(Lookup(before, key))]))
      ensures WrapsAll(DictReads(before, PopLast)) == Wraps(Lookup(before, key))
    {
      WrapsOneMore([], Lookup(before, key));
    }

    /** The value of a key, inserting a cloned default first where there is none. */
    method GetOrSet(key: Key, default: Value, cloned: Store) returns (value: Slot)
      requires Ready() && owner.Adoptable(cloned) && Known(cloned, default)
      modifies `added, `updated, owner
      ensures owner.raw == old(owner.raw) + if Has(old(State()), key) then map[] else cloned
      ensures Ready() && State() == OnOverlay(old(State()), SetDefault(key, default)).0
      ensures OnOverlay(old(State()), SetDefault(key, default)).1 == Some(Reply([], [value]))
      ensures owner.Opens(Wraps(if Has(old(State()), key) then Lookup(old(State()), key) else Unwrapped(default)))
      ensures owner.AllMade(owner.containers.Keys - old(owner.containers).Keys)
    {
      hide OverlayOk, Tight, SourceSound, Rooted, Ready, State, CowOwner.FlagsSound, CowOwner.AllMade, CowOwner.Adoptable, Known, Contents;
      hide Grown, OnOverlay, Wraps, Has, Lookup, Wrapped;
      ghost var before := State();
      ReadyIsOk();
      var found := ContainsKey(key);
      DefaultReplies(before, key, default);
      if !found {
        SetItem(key, default, cloned);
      }
      ReadyIsOk();
      ghost var ready := State();
      var got := GetItem(key);
      value := got.value;
    }

    /** A missing default is assigned and then read, a present one only read. */
    lemma DefaultReplies(before: Overlay, key: Key, default: Value)
      requires OverlayOk(before)
      ensures Has(before, key) <==> key in Contents(before).values
      ensures var ready := if Has(before, key) then before else OnOverlay(before, CowOperations.SetItem(key, default)).0;
        && OverlayOk(ready) && Has(ready, key)
        && Lookup(ready, key) == (if Has(before, key) then Lookup(before, key) else Unwrapped(default))
        && OnOverlay(before, SetDefault(key, default)).0 == OnOverlay(ready, CowOperations.GetItem(key)).0
        && OnOverlay(before, SetDefault(key, default)).1 == Some(Reply([], [Wrapped(Lookup(ready, key))]))
    {
      ContentsAgree(before);
      SetRefines(before, key, Unwrapped(default));
      SetKeeps(before, key, Unwrapped(default));
      hide OverlayOk, Contents, Lookup, SetSlot, Touch;
    }

    /** Whether the snapshot can be read directly: nothing has changed and it holds scalars only. */
    method HasUnchangedScalarSource() returns (direct: bool)
      requires Ready()
      modifies `scalarsOnly
      ensures Ready()
      ensures direct == (State() == Untouched(source) && OnlyScalars(sourceItems))
    {
      if cleared || updated.Some? || added.Some? || deleted.Some? {
        return false;
      }
      if scalarsOnly.None? {
        var only := true;
        for i := 0 to |sourceItems|
          invariant only == OnlyScalars(sourceItems[..i])
        {
          if sourceItems[i].Ref? {
            only := false;
          }
        }
        assert sourceItems[..|sourceItems|] == sourceItems;
        scalarsOnly := Some(only);
      }
      direct := scalarsOnly.value;
    }

    /** Iterate over the items: directly over an unchanged scalar snapshot, otherwise wrapping as it goes. Both
        ways give the same items and leave the same contents, and neither hands out a raw container. */
    method IterItems() returns (keys: seq<Key>, values: seq<Slot>)
      requires Ready()
      modifies `added, `updated, `scalarsOnly, owner`containers
      ensures Ready() && State() == OnOverlay(old(State()), Iterate).0
      ensures OnOverlay(old(State()), Iterate).1 == Some(Reply(keys, values))
      ensures owner.Opens(WrapsAll(DictReads(old(State()), Iterate)))
      ensures owner.AllMade(owner.containers.Keys - old(owner.containers).Keys)
    {
      hide OverlayOk, Tight, SourceSound, Rooted, Ready, State, CowOwner.FlagsSound, CowOwner.Made, Contents, OnOverlay, OnlyScalars;
      hide Grown, DictReads, WrapsAll, Has, Lookup, Wrapped, Keys, TouchAll, UnwrappedAll, SlotsOf;
      ghost var before, cache := State(), owner.containers;
      ReadyIsOk();
      ContentsKeys(before);
      var direct := HasUnchangedScalarSource();
      if direct {
        IterateDirectly(before);
        NothingOpened();
        return source.keys, UnwrappedAll(sourceItems);
      }
      keys := IterKeys();
      values := [];
      KeysDistinct(before);
      TouchesNothing(before, keys);
      NothingGrows(cache);
      for i := 0 to |keys|
        invariant Ready() && |values| == i && State() == TouchAll(before, keys[..i])
        invariant forall j :: 0 <= j < i ==> values[j] == Wrapped(Lookup(before, keys[j]))
        invariant Grown(cache, owner.containers, WrapsAll(SlotsOf(before, keys[..i])))
        invariant forall id <- owner.containers | id !in cache :: owner.Made(id) && fresh(Instance(owner.containers[id]))
      {
        var value := TouchNext(before, keys, i, cache);
        values := values + [value];
      }
      WholeIteration(before, keys, values);
    }

    lemma ReadyIsOk()
      requires Ready()
      ensures Valid() && OverlayOk(State())
    {
    }

    lemma IterateDirectly(before: Overlay)
      requires Valid() && before == Untouched(source) && OverlayOk(before) && OnlyScalars(sourceItems)
      ensures OnOverlay(before, Iterate) == (before, Some(Reply(source.keys, UnwrappedAll(sourceItems))))
      ensures WrapsAll(DictReads(before, Iterate)) == {}
    {
      ScalarsIterateDirectly(source, sourceItems);
    }

    lemma AdoptKeepsReady(cloned: Store)
      requires Ready() && owner.Adoptable(cloned)
      ensures forall k :: Has(State(), k) ==> Known(owner.raw + cloned, Plainly(Lookup(State(), k)))
    {
      hide OverlayOk, Tight, SourceSound, Has, Lookup, State, OrderedOf, OrderedOk;
    }

    /** One step of the iteration, beside the cache there was before it. */
    method TouchNext(ghost before: Overlay, keys: seq<Key>, i: nat, ghost cache: map<nat, Container>) returns (value: Slot)
      requires Ready() && i < |keys| && OverlayOk(before) && (forall k <- keys :: Has(before, k)) && State() == TouchAll(before, keys[..i])
      requires keys[i] !in keys[..i] && Grown(cache, owner.containers, WrapsAll(SlotsOf(before, keys[..i])))
      requires forall id <- owner.containers | id !in cache :: owner.Made(id) && Instance(owner.containers[id]) != this
      modifies `added, `updated, owner`containers
      ensures Ready() && State() == TouchAll(before, keys[..i + 1]) && value == Wrapped(Lookup(before, keys[i]))
      ensures Grown(cache, owner.containers, WrapsAll(SlotsOf(before, keys[..i + 1])))
      ensures forall id <- owner.containers | id !in cache :: owner.Made(id)
      ensures forall id <- owner.containers ::
        if id in old(owner.containers) then owner.containers[id] == old(owner.containers)[id] else fresh(Instance(owner.containers[id]))
    {
      hide OverlayOk, Tight, SourceSound, Rooted, Ready, State, CowOwner.FlagsSound, Contents, OnOverlay;
      hide StandsAsMade, WrapsAll, Wraps, Has, Lookup, Wrapped, Keys, TouchAll, SlotsOf;
      ghost var earlier := owner.containers;
      NextTouched(before, keys, i);
      NextWraps(before, keys, i);
      var got := GetItem(keys[i]);
      value := got.value;
      GrownTwice(cache, earlier, owner.containers, WrapsAll(SlotsOf(before, keys[..i])), Wraps(Lookup(before, keys[i])));
    }
  }

  /** The keys from index i on that are not gone, and then the tail, in reverse. */
  ghost function ReversedFrom(keys: seq<Key>, i: nat, gone: set<Key>, tail: seq<Key>): seq<Key>
    requires i <= |keys|
  {
    Backwards(Without(keys[i..], gone) + tail)
  }

  lemma NothingBackwards<T>()
    ensures Backwards<T>([]) == []
  {
  }

  lemma ReversedEnds(keys: seq<Key>, gone: set<Key>, tail: seq<Key>)
    ensures ReversedFrom(keys, |keys|, gone, tail) == Backwards(tail)
    ensures ReversedFrom(keys, 0, gone, tail) == Backwards(Without(keys, gone) + tail)
  {
    assert keys[|keys|..] == [] && keys[0..] == keys;
    assert [] + tail == tail;
  }

  lemma BackwardsOnto(key: Key, rest: seq<Key>)
    ensures Backwards([key] + rest) == Backwards(rest) + [key]
  {
  }

  lemma ReversedStep(keys: seq<Key>, i: nat, gone: set<Key>, tail: seq<Key>)
    requires i < |keys|
    ensures ReversedFrom(keys, i, gone, tail) == ReversedFrom(keys, i + 1, gone, tail) + if keys[i] in gone then [] else [keys[i]]
  {
    hide Backwards, Without;
    WithoutFrom(keys, i, gone);
    OneMoreBackwards(keys[i], keys[i] in gone, Without(keys[i + 1..], gone), tail);
  }

  lemma WithoutFrom(keys: seq<Key>, i: nat, gone: set<Key>)
    requires i < |keys|
    ensures Without(keys[i..], gone) == (if keys[i] in gone then [] else [keys[i]]) + Without(keys[i + 1..], gone)
  {
    assert keys[i..] == [keys[i]] + keys[i + 1..];
    hide Without;
    WithoutConcat([keys[i]], keys[i + 1..], gone);
    WithoutOne(keys[i], gone);
  }

  lemma OneMoreBackwards(key: Key, skipped: bool, rest: seq<Key>, tail: seq<Key>)
    ensures Backwards((if skipped then [] else [key]) + rest + tail) == Backwards(rest + tail) + if skipped then [] else [key]
  {
    BackwardsOnto(key, rest + tail);
    assert [] + rest == rest;
    assert [key] + rest + tail == [key] + (rest + tail);
    hide Backwards;
  }

  lemma WithoutOne(key: Key, gone: set<Key>)
    ensures Without([key], gone) == if key in gone then [] else [key]
  {
    assert [key][..0] == [];
  }

  function UnwrappedAll(items: seq<Value>): seq<Slot> {
    seq(|items|, i requires 0 <= i < |items| => Unwrapped(items[i]))
  }

  lemma UpdatesNothing(o: Overlay, keys: seq<Key>, items: seq<Value>)
    requires |keys| == |items|
    ensures SetAllSlots(o, keys[..0], items[..0]) == o
  {
  }

  lemma WholeUpdate(o: Overlay, keys: seq<Key>, items: seq<Value>)
    requires OverlayOk(o) && |keys| == |items|
    ensures SetAllSlots(o, keys[..|keys|], items[..|items|]) == OnOverlay(o, UpdateAll(keys, items)).0
  {
    assert keys[..|keys|] == keys && items[..|items|] == items;
  }

  lemma TouchesNothing(o: Overlay, keys: seq<Key>)
    ensures TouchAll(o, keys[..0]) == o && SlotsOf(o, keys[..0]) == []
  {
  }

  lemma NothingGrows(cache: map<nat, Container>)
    ensures Grown(cache, cache, WrapsAll([]))
  {
  }

  /** The next key is read as it was before the iteration. */
  lemma NextTouched(o: Overlay, keys: seq<Key>, i: nat)
    requires OverlayOk(o) && i < |keys| && (forall k <- keys :: Has(o, k)) && keys[i] !in keys[..i]
    ensures forall k <- keys[..i] :: Has(o, k)
    ensures forall k <- keys[..i + 1] :: Has(o, k)
    ensures var touched := TouchAll(o, keys[..i]);
      && OverlayOk(touched) && Has(touched, keys[i]) && Lookup(touched, keys[i]) == Lookup(o, keys[i])
      && OnOverlay(touched, GetItem(keys[i])).0 == TouchAll(o, keys[..i + 1])
  {
    hide OverlayOk, Contents, Lookup, Touch, Has;
    assert keys[i] in keys && keys[..i + 1][..i] == keys[..i];
    IterationRefines(o, keys[..i]);
    TouchedElsewhere(o, keys[..i], keys[i]);
  }

  lemma NextWraps(o: Overlay, keys: seq<Key>, i: nat)
    requires i < |keys| && forall k <- keys :: Has(o, k)
    ensures keys[i] in keys && (forall k <- keys[..i] :: Has(o, k)) && (forall k <- keys[..i + 1] :: Has(o, k))
    ensures WrapsAll(SlotsOf(o, keys[..i + 1])) == WrapsAll(SlotsOf(o, keys[..i])) + Wraps(Lookup(o, keys[i]))
  {
    hide Lookup, Has, Wraps, WrapsAll;
    assert keys[i] in keys;
    assert SlotsOf(o, keys[..i + 1]) == SlotsOf(o, keys[..i]) + [Lookup(o, keys[i])];
    WrapsOneMore(SlotsOf(o, keys[..i]), Lookup(o, keys[i]));
  }

  lemma WholeIteration(o: Overlay, keys: seq<Key>, values: seq<Slot>)
    requires OverlayOk(o) && keys == Keys(o) && |values| == |keys| && forall k <- keys :: Has(o, k)
    requires forall j :: 0 <= j < |keys| ==> values[j] == Wrapped(Lookup(o, keys[j]))
    ensures TouchAll(o, keys[..|keys|]) == OnOverlay(o, Iterate).0
    ensures OnOverlay(o, Iterate).1 == Some(Reply(keys, values))
    ensures WrapsAll(SlotsOf(o, keys[..|keys|])) == WrapsAll(DictReads(o, Iterate))
  {
    assert keys[..|keys|] == keys;
    assert WrappedAll(o, keys) == values;
  }

  lemma UpdatedIsVisible(o: Overlay, key: Key)
    requires OverlayOk(o) && key in o.updated && key !in o.added
    ensures Visible(o, key)
  {
  }

  lemma AddedKeysAgree(o: Overlay)
    requires OverlayOk(o)
    ensures forall k :: k in o.addedKeys <==> k in o.added
  {
  }

  lemma NoKeysLeft(a: Added, key: Key)
    requires forall k :: k in a.keys <==> k in a.slots
    ensures a.slots - {key} == map[] ==> Without(a.keys, {key}) == []
  {
    forall k <- Without(a.keys, {key}) ensures k in a.slots - {key} {
      WithoutKeeps(a.keys, {key}, k);
    }
    var left := Without(a.keys, {key});
    assert |left| > 0 ==> left[0] in left;
  }

  /** The fast path over an unchanged snapshot of scalars is the slow path. */
  lemma ScalarsIterateDirectly(source: Ordered, items: seq<Value>)
    requires OrderedOk(source) && |items| == |source.keys| && OnlyScalars(items)
    requires forall i :: 0 <= i < |source.keys| ==> source.keys[i] in source.values && source.values[source.keys[i]] == items[i]
    ensures var o := Untouched(source);
      && OverlayOk(o) && Keys(o) == source.keys && (forall k <- Keys(o) :: Has(o, k)) && TouchAll(o, Keys(o)) == o
      && WrappedAll(o, Keys(o)) == UnwrappedAll(items)
  {
    var o := Untouched(source);
    UntouchedIsSource(source);
    ContentsKeys(o);
    NothingToTouch(o, source.keys);
  }

  lemma {:induction false} NothingToTouch(o: Overlay, keys: seq<Key>)
    requires forall k <- keys :: Has(o, k) && !Escapes(Lookup(o, k))
    ensures TouchAll(o, keys) == o
  {
    if keys != [] {
      var n := |keys| - 1;
      assert keys[n] in keys;
      NothingToTouch(o, keys[..n]);
    }
  }

  class CowList {
    const owner: CowOwner
    var source: Option<seq<Value>>         // None once materialised
    var wrapped: Option<map<nat, Slot>>
    var storage: seq<Slot>
    var scalarsOnly: Option<bool>

    constructor (owner: CowOwner, source: seq<Value>, scalarsOnly: Option<bool>)
      ensures this.owner == owner && State() == Lazy(source, map[]) && this.scalarsOnly == scalarsOnly
      ensures (scalarsOnly.Some? ==> scalarsOnly.value == OnlyScalars(source)) ==> Valid()
    {
      this.owner, this.source, wrapped, storage, this.scalarsOnly := owner, Some(source), None, [], scalarsOnly;
    }

    ghost function State(): Lazy
      reads `source, `wrapped, `storage
    {
      if source.Some? then Lazy(source.value, if wrapped.Some? then wrapped.value else map[]) else Solid(storage)
    }

    ghost predicate Valid()
      reads this
    {
      && LazyOk(State())
      && (wrapped.Some? ==> source.Some? && wrapped.value != map[])
      && (source.Some? && scalarsOnly.Some? ==> scalarsOnly.value == OnlyScalars(source.value))
    }

    /** Every container among the elements is known to the owner. */
    ghost predicate Rooted()
      reads this, owner`raw
    {
      forall v <- Elements(State()) :: Known(owner.raw, v)
    }

    ghost predicate Ready()
      reads this, owner`raw, owner`scalarsOnly
    {
      Valid() && Rooted() && owner.FlagsSound()
    }

    method Length() returns (n: nat)
      ensures n == |Elements(State())|
    {
      n := if source.Some? then |source.value| else |storage|;
    }

    /** Give the list its own storage. */
    method Materialize()
      requires Valid()
      modifies `source, `wrapped, `storage
      ensures Valid() && source.None? && storage == Slots(old(State()))
      ensures State() == Materialized(old(State())) && Elements(State()) == Elements(old(State()))
    {
      MaterializingRefines(State());
      if source.None? {
        assert storage == Slots(State());
        return;
      }
      var values := CopySource();
      source, wrapped, storage := None, None, values;
    }

    /** Copy the snapshot's list and write the sparse changes over it, one by one. */
    method CopySource() returns (values: seq<Slot>)
      requires Valid() && source.Some?
      ensures values == Slots(State())
    {
      values := UnwrappedAll(source.value);
      var left := if wrapped.None? then {} else wrapped.value.Keys;
      while left != {}
        invariant |values| == |source.value| && left <= State().wrapped.Keys
        invariant forall i :: 0 <= i < |values| ==>
          values[i] == if i in State().wrapped && i !in left then State().wrapped[i] else Unwrapped(source.value[i])
        decreases left
      {
        var i :| i in left;
        values := values[i := wrapped.value[i]];
        left := left - {i};
      }
    }

    /** Store a slot at an index, sparsely while the snapshot is still in use. */
    method Put(i: nat, slot: Slot)
      requires Valid() && i < Size(State())
      modifies `wrapped, `storage
      ensures Valid() && State() == PutAt(old(State()), i, slot)
    {
      if source.None? {
        storage := storage[i := slot];
      } else {
        wrapped := Some((if wrapped.None? then map[] else wrapped.value)[i := slot]);
        assert i in wrapped.value;
      }
    }

    method At(i: nat) returns (slot: Slot)
      requires i < Size(State())
      ensures slot == SlotAt(State(), i)
    {
      if source.None? {
        return storage[i];
      }
      slot := if wrapped.Some? && i in wrapped.value then wrapped.value[i] else Unwrapped(source.value[i]);
    }

    /** Hand out the wrapper of an element, remembering it. None stands for an IndexError. */
    method GetItem(index: int) returns (value: Option<Slot>)
      requires Ready()
      modifies `wrapped, `storage, owner`containers
      ensures Ready() && State() == OnLazy(old(State()), GetAt(index)).0
      ensures var wraps := match Normal(index, Size(old(State()))) case None => {} case Some(i) => Wraps(SlotAt(old(State()), i));
        owner.Opens(wraps) && owner.AllMade(owner.containers.Keys - old(owner.containers).Keys)
      ensures value == match Normal(index, Size(old(State()))) case None => None case Some(i) => Some(Wrapped(SlotAt(old(State()), i)))
    {
      hide LazyOk, Elements, State, SlotAt, PutAt, Known, CowOwner.Made, CowOwner.FlagsSound, OnlyScalars;
      ghost var before := State();
      var size := Length();
      ElementCount(before);
      var i := Normal(index, size);
      if i.None? {
        return None;
      }
      var slot := At(i.value);
      ElementKnown(i.value);
      TouchAtRefines(before, i.value);
      var wrapped := owner.Wrap(slot);
      if wrapped != slot {
        Put(i.value, wrapped);
      }
      return Some(wrapped);
    }

    lemma ElementCount(l: Lazy)
      ensures |Elements(l)| == Size(l) == |Slots(l)|
    {
    }

    lemma ElementKnown(i: nat)
      requires Rooted() && i < Size(State())
      ensures Known(owner.raw, Plainly(SlotAt(State(), i)))
    {
      assert Elements(State())[i] in Elements(State());
    }

    /** Growing the owner and replacing, adding or dropping elements keeps every container known. */
    lemma RootedAfter(before: seq<Value>, raw: Store, cloned: Store, inserted: seq<Value>)
      requires owner.raw == raw + cloned && cloned.Keys !! raw.Keys
      requires forall v <- before :: Known(raw, v)
      requires forall v <- inserted :: Known(cloned, v)
      requires forall v <- Elements(State()) :: v in before || v in inserted
      ensures Rooted()
    {
      hide Elements, State, OrderedOk, OrderedOf;
    }

    twostate lemma NothingOpened()
      requires owner.containers == old(owner.containers)
      ensures owner.Opens({}) && owner.AllMade(owner.containers.Keys - old(owner.containers).Keys)
    {
    }

    /** Assign an element with an already cloned value; false stands for an IndexError. */
    method SetItem(index: int, value: Value, cloned: Store) returns (ok: bool)
      requires Ready() && owner.Adoptable(cloned) && Known(cloned, value)
      modifies `wrapped, `storage, owner`raw, owner`changes
      ensures owner.raw == old(owner.raw) + cloned
      ensures Ready() && State() == OnLazy(old(State()), SetAt(index, value)).0
      ensures ok <==> OnLazy(old(State()), SetAt(index, value)).1.Some?
      ensures owner.changes == old(owner.changes) + if ok then 1 else 0
    {
      hide LazyOk, Elements, State, SlotAt, PutAt, Known;
      ghost var before, raw := State(), owner.raw;
      var size := Length();
      ElementCount(before);
      owner.Adopt(cloned);
      var i := Normal(index, size);
      if i.None? {
        RootedAfter(Elements(before), raw, cloned, []);
        return false;
      }
      PutAtRefines(before, i.value, Unwrapped(value));
      Put(i.value, Unwrapped(value));
      RootedAfter(Elements(before), raw, cloned, [value]);
      owner.Changed();
      return true;
    }

    /** Replace the storage, once materialised. */
    method Store(slots: seq<Slot>)
      requires Valid()
      modifies `source, `wrapped, `storage
      ensures Valid() && State() == Solid(slots)
    {
      source, wrapped, storage := None, None, slots;
    }

    method Insert(index: int, value: Value, cloned: Store)
      requires Ready() && owner.Adoptable(cloned) && Known(cloned, value)
      modifies `source, `wrapped, `storage, owner`raw, owner`changes
      ensures owner.raw == old(owner.raw) + cloned
      ensures Ready() && State() == OnLazy(old(State()), CowOperations.Insert(index, value)).0
      ensures owner.changes == old(owner.changes) + 1
    {
      hide LazyOk, Elements, State, SlotAt, Known, Slots;
      ghost var before, raw := State(), owner.raw;
      ElementCount(before);
      Materialize();
      var at := Clamped(index, |storage|);
      InsertAtRefines(before, at, Unwrapped(value));
      Store(storage[..at] + [Unwrapped(value)] + storage[at..]);
      owner.Adopt(cloned);
      owner.Changed();
      RootedAfter(Elements(before), raw, cloned, [value]);
    }

    method Append(value: Value, cloned: Store)
      requires Ready() && owner.Adoptable(cloned) && Known(cloned, value)
      modifies `source, `wrapped, `storage, owner`raw, owner`changes
      ensures owner.raw == old(owner.raw) + cloned
      ensures Ready() && State() == OnLazy(old(State()), CowOperations.Append(value)).0
      ensures owner.changes == old(owner.changes) + 1
    {
      hide LazyOk, Elements, State, SlotAt, Known, Slots;
      ghost var before, raw := State(), owner.raw;
      ElementCount(before);
      Materialize();
      InsertAtRefines(before, |storage|, Unwrapped(value));
      assert storage + [Unwrapped(value)] == storage[..|storage|] + [Unwrapped(value)] + storage[|storage|..];
      Store(storage + [Unwrapped(value)]);
      owner.Adopt(cloned);
      owner.Changed();
      RootedAfter(Elements(before), raw, cloned, [value]);
    }

    /** Extending by nothing neither materialises nor counts as a change. */
    method Extend(values: seq<Value>, cloned: Store)
      requires Ready() && owner.Adoptable(cloned) && forall v <- values :: Known(cloned, v)
      modifies `source, `wrapped, `storage, owner`raw, owner`changes
      ensures owner.raw == old(owner.raw) + cloned
      ensures Ready() && State() == OnLazy(old(State()), CowOperations.Extend(values)).0
      ensures owner.changes == old(owner.changes) + if values == [] then 0 else 1
    {
      hide LazyOk, Elements, State, SlotAt, Known, Slots;
      ghost var before, raw := State(), owner.raw;
      ExtendedRefines(before, values);
      owner.Adopt(cloned);
      if values != [] {
        Materialize();
        Store(storage + UnwrappedAll(values));
        owner.Changed();
      }
      RootedAfter(Elements(before), raw, cloned, values);
    }

    /** Delete an element; a wrong index is found out only after materialising. */
    method DelItem(index: int) returns (ok: bool)
      requires Ready()
      modifies `source, `wrapped, `storage, owner`changes
      ensures Ready() && State() == OnLazy(old(State()), DelAt(index)).0
      ensures ok <==> OnLazy(old(State()), DelAt(index)).1.Some?
      ensures Elements(State()) == OnPlainList(Elements(old(State())), DelAt(index)).0
      ensures owner.changes == old(owner.changes) + if ok then 1 else 0
    {
      hide LazyOk, Elements, State, SlotAt, Known, Slots, RemoveAt;
      ghost var before := State();
      ElementCount(before);
      Materialize();
      var i := Normal(index, |storage|);
      if i.None? {
        return false;
      }
      DropAtRefines(before, i.value);
      DroppedWithin(Elements(before), i.value);
      Store(RemoveAt(storage, i.value));
      owner.Changed();
      return true;
    }

    lemma ElementWraps(l: Lazy, index: int)
      ensures WrapsAll(ListReads(l, GetAt(index))) == (match Normal(index, Size(l)) case None => {} case Some(i) => Wraps(SlotAt(l, i)))
      ensures WrapsAll(ListReads(l, PopAt(index))) == WrapsAll(ListReads(l, GetAt(index)))
    {
      var i := Normal(index, Size(l));
      if i.Some? {
        WrapsOneMore([], SlotAt(l, i.value));
      }
    }

    lemma DroppedWithin(s: seq<Value>, i: nat)
      requires i < |s|
      ensures forall v <- RemoveAt(s, i) :: v in s
    {
    }

    /** Remove an element and hand out its wrapper. None stands for an IndexError. */
    method Pop(index: int) returns (value: Option<Slot>)
      requires Ready()
      modifies `source, `wrapped, `storage, owner`containers, owner`changes
      ensures Ready() && State() == OnLazy(old(State()), PopAt(index)).0
      ensures Elements(State()) == OnPlainList(Elements(old(State())), PopAt(index)).0
      ensures value == match Normal(index, Size(old(State()))) case None => None case Some(i) => Some(Wrapped(SlotAt(old(State()), i)))
      ensures owner.Opens(WrapsAll(ListReads(old(State()), PopAt(index))))
      ensures owner.AllMade(owner.containers.Keys - old(owner.containers).Keys)
    {
      hide LazyOk, Elements, State, SlotAt, Known, Slots, RemoveAt, CowOwner.FlagsSound, StandsAsMade, Grown, ListReads, WrapsAll;
      ghost var before := State();
      ElementWraps(before, index);
      ElementCount(before);
      value := GetItem(index);
      if value.Some? {
        TouchAtRefines(before, Normal(index, Size(before)).value);
        var ok := DelItem(index);
      }
    }

    method Reverse()
      requires Ready()
      modifies `source, `wrapped, `storage, owner`changes
      ensures Ready() && State() == OnLazy(old(State()), CowOperations.Reverse).0
    {
      hide LazyOk, Elements, State, SlotAt, Known, Slots;
      ghost var before := State();
      Materialize();
      ReversedRefines(before);
      BackwardsWithin(Elements(before));
      hide Backwards;
      Store(Backwards(storage));
      owner.Changed();
    }

    lemma BackwardsWithin(s: seq<Value>)
      ensures forall v <- Backwards(s) :: v in s
    {
    }

    /** Clearing an empty list changes nothing. */
    method Clear()
      requires Ready()
      modifies `source, `wrapped, `storage, owner`changes
      ensures Ready() && State() == OnLazy(old(State()), ClearList).0 && Elements(State()) == []
    {
      hide LazyOk, Elements, State, SlotAt, Known, Slots;
      ghost var before := State();
      ElementCount(before);
      EmptiedRefines(before);
      var n := Length();
      if n != 0 {
        Store([]);
        owner.Changed();
      }
    }

    /** Iterate: directly over an unchanged list of scalars, otherwise wrapping as it goes. Both ways give the same
        elements, and neither hands out a raw container. */
    method Iterate() returns (values: seq<Slot>)
      requires Ready()
      modifies `wrapped, `storage, `scalarsOnly, owner`containers
      ensures Ready() && State() == OnLazy(old(State()), IterateList).0
      ensures OnLazy(old(State()), IterateList).1 == Some(values)
      ensures owner.Opens(WrapsAll(ListReads(old(State()), IterateList)))
      ensures owner.AllMade(owner.containers.Keys - old(owner.containers).Keys)
    {
      hide Ready, Rooted, State, LazyOk, CowOwner.FlagsSound, CowOwner.Made, OnLazy, Grown, ListReads, WrapsAll, Wrapped, Slots, SlotAt, TouchFirst;
      ghost var before, cache := State(), owner.containers;
      ReadyIsLazy();
      var direct := CanIterateDirectly();
      if direct {
        IterateDirectly();
        return UnwrappedAll(source.value);
      }
      var n := Length();
      ElementCount(before);
      values := [];
      FirstNone(before);
      NothingGrows(cache);
      for i := 0 to n
        invariant Ready() && |values| == i && State() == TouchFirst(before, i)
        invariant forall j :: 0 <= j < i ==> values[j] == Wrapped(SlotAt(before, j))
        invariant Grown(cache, owner.containers, WrapsAll(Slots(before)[..i]))
        invariant forall id <- owner.containers | id !in cache :: owner.Made(id) && fresh(Instance(owner.containers[id]))
      {
        var value := Next(before, i, cache);
        values := values + [value];
      }
      WholeList(before, values);
    }

    /** Whether the list is unchanged and holds scalars only. */
    method CanIterateDirectly() returns (direct: bool)
      requires Ready()
      modifies `scalarsOnly
      ensures Ready() && direct == (source.Some? && wrapped.None? && OnlyScalars(source.value))
    {
      direct := false;
      if source.Some? && wrapped.None? {
        direct := SourceHoldsScalarsOnly();
      }
    }

    twostate lemma IterateDirectly()
      requires source.Some? && wrapped.None? && OnlyScalars(source.value) && State() == old(State())
      requires owner.containers == old(owner.containers)
      ensures State() == OnLazy(old(State()), IterateList).0 && OnLazy(old(State()), IterateList).1 == Some(UnwrappedAll(source.value))
      ensures owner.Opens(WrapsAll(ListReads(old(State()), IterateList)))
      ensures owner.AllMade(owner.containers.Keys - old(owner.containers).Keys)
    {
      ScalarListIteratesDirectly(source.value, |source.value|);
    }

    lemma ReadyIsLazy()
      requires Ready()
      ensures LazyOk(State()) && Valid()
    {
    }

    /** One step of the iteration, beside the cache there was before it. */
    method Next(ghost before: Lazy, i: nat, ghost cache: map<nat, Container>) returns (value: Slot)
      requires Ready() && LazyOk(before) && i < Size(before) == |Slots(before)| && State() == TouchFirst(before, i)
      requires Grown(cache, owner.containers, WrapsAll(Slots(before)[..i]))
      requires forall id <- owner.containers | id !in cache :: owner.Made(id) && Instance(owner.containers[id]) != this
      modifies `wrapped, `storage, owner`containers
      ensures Ready() && State() == TouchFirst(before, i + 1) && value == Wrapped(SlotAt(before, i))
      ensures Grown(cache, owner.containers, WrapsAll(Slots(before)[..i + 1]))
      ensures forall id <- owner.containers | id !in cache :: owner.Made(id)
      ensures forall id <- owner.containers ::
        if id in old(owner.containers) then owner.containers[id] == old(owner.containers)[id] else fresh(Instance(owner.containers[id]))
    {
      hide Ready, Rooted, State, LazyOk, CowOwner.FlagsSound, OnLazy, StandsAsMade, WrapsAll, Wraps, Wrapped, Slots, SlotAt, TouchFirst;
      ghost var earlier := owner.containers;
      NextElement(before, i);
      var got := GetItem(i);
      value := got.value;
      GrownTwice(cache, earlier, owner.containers, WrapsAll(Slots(before)[..i]), Wraps(SlotAt(before, i)));
    }

    lemma FirstNone(l: Lazy)
      ensures TouchFirst(l, 0) == l && Slots(l)[..0] == []
    {
    }

    /** The next element is read as it was before the iteration. */
    lemma NextElement(l: Lazy, i: nat)
      requires LazyOk(l) && i < Size(l) == |Slots(l)|
      ensures var touched := TouchFirst(l, i);
        && Normal(i, Size(touched)) == Some(i) && SlotAt(touched, i) == SlotAt(l, i)
        && OnLazy(touched, GetAt(i)).0 == TouchFirst(l, i + 1)
      ensures WrapsAll(Slots(l)[..i + 1]) == WrapsAll(Slots(l)[..i]) + Wraps(SlotAt(l, i))
    {
      TouchedFurtherOn(l, i, i);
      assert Slots(l)[..i + 1] == Slots(l)[..i] + [SlotAt(l, i)];
      WrapsOneMore(Slots(l)[..i], SlotAt(l, i));
    }

    lemma WholeList(l: Lazy, values: seq<Slot>)
      requires |values| == Size(l) == |Slots(l)| && forall j :: 0 <= j < Size(l) ==> values[j] == Wrapped(SlotAt(l, j))
      ensures TouchFirst(l, Size(l)) == OnLazy(l, IterateList).0
      ensures OnLazy(l, IterateList).1 == Some(values) && Slots(l)[..Size(l)] == ListReads(l, IterateList)
    {
      assert WrappedElements(l) == values;
    }

    method SourceHoldsScalarsOnly() returns (only: bool)
      requires Valid() && source.Some?
      modifies `scalarsOnly
      ensures Valid() && only == OnlyScalars(source.value)
    {
      if scalarsOnly.None? {
        var all := true;
        for i := 0 to |source.value|
          invariant all == OnlyScalars(source.value[..i])
        {
          if source.value[i].Ref? {
            all := false;
          }
        }
        assert source.value[..|source.value|] == source.value;
        scalarsOnly := Some(all);
      }
      only := scalarsOnly.value;
    }
  }

  /** The fast path over an unchanged list of scalars is the slow path. */
  lemma {:induction false} ScalarListIteratesDirectly(source: seq<Value>, n: nat)
    requires OnlyScalars(source) && n <= |source|
    ensures TouchFirst(Lazy(source, map[]), n) == Lazy(source, map[])
    ensures WrappedElements(Lazy(source, map[])) == UnwrappedAll(source)
  {
    if n > 0 {
      ScalarListIteratesDirectly(source, n - 1);
    }
  }
}
