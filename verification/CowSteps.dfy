/** The objects as one view: a call on a wrapper is a step of the views' own specification. */
module CowSteps {
  import opened Sequences
  import opened CloneJson
  import opened CowSpec
  import opened CowOperations
  import opened CowViews
  import opened CowSlots
  import opened CowJson

  ghost function StateOf(c: Container): Wrapper
    reads Instance(c)
  {
    match c
    case DictHandle(dict) => DictWrapper(dict.State())
    case ListHandle(list) => ListWrapper(list.State())
  }

  ghost predicate HandleOk(owner: CowOwner, c: Container)
    reads Instance(c)
  {
    match c
    case DictHandle(dict) => dict.owner == owner && dict.Valid()
    case ListHandle(list) => list.owner == owner && list.Valid()
  }

  /** The view an owner and its wrappers are, over the containers it can reach. */
  ghost function ViewOf(containers: map<nat, Container>, ids: set<nat>): View
    reads Instances(containers)
  {
    View(ids, map id | id in containers :: StateOf(containers[id]))
  }

  ghost predicate Separate(containers: map<nat, Container>) {
    forall x <- containers, y <- containers :: x != y ==> Instance(containers[x]) != Instance(containers[y])
  }

  ghost predicate HandlesKnown(containers: map<nat, Container>)
    reads Instances(containers)
  {
    forall id <- containers, slot <- Stored(StateOf(containers[id])) :: slot.Handle? ==> slot.id in containers
  }

  ghost predicate AllOk(owner: CowOwner, containers: map<nat, Container>)
    reads Instances(containers)
  {
    forall id <- containers :: HandleOk(owner, containers[id])
  }

  ghost predicate OwnerOk(owner: CowOwner, ids: set<nat>)
    reads owner, Instances(owner.containers)
  {
    && ViewOk(owner.raw, ViewOf(owner.containers, ids)) && owner.FlagsSound()
    && Separate(owner.containers) && HandlesKnown(owner.containers) && AllOk(owner, owner.containers)
  }

  ghost function WorldOf(owner: CowOwner, ids: set<nat>): World
    reads owner, Instances(owner.containers)
  {
    World(owner.raw, [ViewOf(owner.containers, ids)])
  }

  /** The cache beside what it was before: wrappers of these containers have been made, as new objects. */
  ghost predicate Opened(owner: CowOwner, before: map<nat, Container>, handed: set<nat>)
    reads owner, Instances(owner.containers)
  {
    Grown(before, owner.containers, handed) && forall id <- owner.containers | id !in before :: owner.Made(id)
  }

  /** The wrappers nobody called are as they were. */
  ghost predicate Kept(owner: CowOwner, others: map<nat, Container>, view: View)
    reads Instances(others)
  {
    forall id <- others :: id in view.wrappers && StateOf(others[id]) == view.wrappers[id] && HandleOk(owner, others[id])
  }

  lemma MadeIsFresh(owner: CowOwner, id: nat)
    requires owner.Made(id)
    ensures id in owner.raw && (owner.raw[id].DictNode? ==> |owner.raw[id].keys| == |owner.raw[id].items|)
    ensures StateOf(owner.containers[id]) == Fresh(owner.raw[id]) && HandleOk(owner, owner.containers[id])
    ensures Stored(StateOf(owner.containers[id])) == {}
  {
  }

  lemma OfferedHandleIsStored(w: Wrapper, n: nat)
    requires Offers(w, Handle(n))
    ensures Handle(n) in Stored(w)
  {
    match w {
      case DictWrapper(o) =>
        var k :| Has(o, k) && Lookup(o, k) == Handle(n);
        assert k in o.added ==> o.added[k] in o.added.Values;
        assert k in o.updated ==> o.updated[k] in o.updated.Values;
      case ListWrapper(l) =>
        var i :| 0 <= i < Size(l) && Slots(l)[i] == Handle(n);
        assert l.Lazy? ==> i in l.wrapped && l.wrapped[i] in l.wrapped.Values;
    }
  }

  lemma NewHandlesAreHanded(w: Wrapper, op: Operation, slot: Slot)
    requires WrapperOk(w) && Applicable(w, op) && slot in Stored(Operate(w, op).0) && slot.Handle?
    ensures slot in Stored(w) || slot.id in Handed(Operate(w, op).1)
  {
    hide Operate, Applicable, WrapperOk, Handed, Stored, Offers;
    OperationStores(w, op, slot);
    if Offers(w, slot) {
      OfferedHandleIsStored(w, slot.id);
    }
  }

  /** The objects after a step, beside the view and the raw containers there were before it. */
  ghost predicate Stepped(owner: CowOwner, raw: Store, view: View, h: nat, op: Operation, cloned: Store, answer: Answer<Slot>)
    reads owner, Instances(owner.containers)
  {
    && h in view.wrappers && Applicable(view.wrappers[h], op) && WrapperOk(view.wrappers[h])
    && owner.containers.Keys == view.wrappers.Keys + Handed(answer)
    && (StateOf(owner.containers[h]), answer) == Operate(view.wrappers[h], op)
    && owner.raw == raw + cloned
    && (forall id <- view.wrappers :: id != h ==> StateOf(owner.containers[id]) == view.wrappers[id])
    && forall id <- owner.containers | id !in view.wrappers ::
         id in owner.raw && (owner.raw[id].DictNode? ==> |owner.raw[id].keys| == |owner.raw[id].items|)
         && StateOf(owner.containers[id]) == Fresh(owner.raw[id]) && Stored(StateOf(owner.containers[id])) == {}
  }

  lemma CallIsStep(owner: CowOwner, before: map<nat, Container>, raw: Store, view: View, h: nat, op: Operation, cloned: Store, answer: Answer<Slot>)
    requires h in before && before.Keys == view.wrappers.Keys && Separate(before)
    requires Applicable(view.wrappers[h], op) && WrapperOk(view.wrappers[h]) && owner.raw == raw + cloned
    requires Opened(owner, before, Handed(answer)) && Kept(owner, before - {h}, view)
    requires (StateOf(owner.containers[h]), answer) == Operate(view.wrappers[h], op) && HandleOk(owner, owner.containers[h])
    ensures Stepped(owner, raw, view, h, op, cloned, answer)
    ensures AllOk(owner, owner.containers) && Separate(owner.containers)
  {
    hide Operate, Handed, Applicable, WrapperOk, CowOwner.Made, CowOwner.FlagsSound, Fresh, Stored, StateOf, HandleOk;
    forall id <- owner.containers | id !in before
      ensures id in owner.raw && (owner.raw[id].DictNode? ==> |owner.raw[id].keys| == |owner.raw[id].items|)
        && StateOf(owner.containers[id]) == Fresh(owner.raw[id]) && HandleOk(owner, owner.containers[id]) && Stored(StateOf(owner.containers[id])) == {}
    {
      MadeIsFresh(owner, id);
    }
  }

  lemma HandlesStayKnown(owner: CowOwner, raw: Store, view: View, h: nat, op: Operation, cloned: Store, answer: Answer<Slot>)
    requires Stepped(owner, raw, view, h, op, cloned, answer)
    requires forall id <- view.wrappers, slot <- Stored(view.wrappers[id]) :: slot.Handle? ==> slot.id in view.wrappers
    ensures HandlesKnown(owner.containers)
  {
    hide Operate, Handed, Applicable, WrapperOk, Fresh, Stored, StateOf;
    forall id <- owner.containers, slot <- Stored(StateOf(owner.containers[id])) | slot.Handle? ensures slot.id in owner.containers {
      if id == h {
        NewHandlesAreHanded(view.wrappers[h], op, slot);
      }
    }
  }

  /** The view after a step is the one its specification describes. */
  lemma ViewAfterStep(owner: CowOwner, raw: Store, view: View, h: nat, op: Operation, cloned: Store, answer: Answer<Slot>)
    requires Stepped(owner, raw, view, h, op, cloned, answer) && AllKnown(raw + cloned, Handed(answer))
    ensures forall id <- Handed(answer) :: id in raw + cloned && ((raw + cloned)[id].DictNode? ==> |(raw + cloned)[id].keys| == |(raw + cloned)[id].items|)
    ensures ViewOf(owner.containers, view.ids + cloned.Keys) == After(raw, view, h, StateOf(owner.containers[h]), Handed(answer), cloned)
  {
    hide Operate, Handed, Applicable, WrapperOk, Fresh, Stored, StateOf, AllKnown;
    KnownAreShaped(raw + cloned, Handed(answer));
    var after := After(raw, view, h, StateOf(owner.containers[h]), Handed(answer), cloned);
    assert ViewOf(owner.containers, view.ids + cloned.Keys).wrappers == after.wrappers;
  }

  /** A step of the objects is a step of the view's own specification, and keeps it well formed. */
  lemma StepActs(owner: CowOwner, raw: Store, view: View, h: nat, op: Operation, cloned: Store, answer: Answer<Slot>)
    requires ViewOk(raw, view) && Stepped(owner, raw, view, h, op, cloned, answer) && Allocated(raw, cloned, op)
    ensures Acts(World(raw, [view]), WorldOf(owner, view.ids + cloned.Keys), 0, h, op, cloned, answer)
    ensures ViewOk(owner.raw, ViewOf(owner.containers, view.ids + cloned.Keys))
  {
    hide Operate, Handed, Applicable, WrapperOk, Fresh, Stored, StateOf, AllKnown, ViewOk, Allocated, After, ViewOf, WellFormed, Acts;
    AllocatedParts(raw, cloned, op);
    HandedAreKnown(raw, view, h, op, cloned);
    HandedNodesKnown(raw, view, cloned, Handed(answer));
    ViewAfterStep(owner, raw, view, h, op, cloned, answer);
    var world := World(raw, [view]);
    assert world.views[0] == view && WorldOk(world);
    ActionFits(world, 0, h, op, cloned);
    assert [view][0 := ViewOf(owner.containers, view.ids + cloned.Keys)] == [ViewOf(owner.containers, view.ids + cloned.Keys)];
    ActingViewRefines(world, WorldOf(owner, view.ids + cloned.Keys), 0, h, op, cloned, answer);
  }

  /** All together: the owner is as it should be again, and the step is one of its view. */
  lemma StepFinishes(owner: CowOwner, raw: Store, view: View, h: nat, op: Operation, cloned: Store, answer: Answer<Slot>)
    requires ViewOk(raw, view) && Stepped(owner, raw, view, h, op, cloned, answer) && Allocated(raw, cloned, op)
    requires forall id <- view.wrappers, slot <- Stored(view.wrappers[id]) :: slot.Handle? ==> slot.id in view.wrappers
    requires owner.FlagsSound() && Separate(owner.containers) && AllOk(owner, owner.containers)
    ensures OwnerOk(owner, view.ids + cloned.Keys)
    ensures Acts(World(raw, [view]), WorldOf(owner, view.ids + cloned.Keys), 0, h, op, cloned, answer)
  {
    hide *;
    StepActs(owner, raw, view, h, op, cloned, answer);
    HandlesStayKnown(owner, raw, view, h, op, cloned, answer);
    Assembled(owner, view.ids + cloned.Keys);
  }

  lemma Assembled(owner: CowOwner, ids: set<nat>)
    requires ViewOk(owner.raw, ViewOf(owner.containers, ids)) && owner.FlagsSound()
    requires Separate(owner.containers) && HandlesKnown(owner.containers) && AllOk(owner, owner.containers)
    ensures OwnerOk(owner, ids)
  {
  }

  // ---- What a handle may rely on --------------------------------------------------------------

  lemma ValueIsKnown(owner: CowOwner, ids: set<nat>, v: Value)
    requires ViewOk(owner.raw, ViewOf(owner.containers, ids)) && (v.Ref? ==> v.id in ids)
    ensures Known(owner.raw, v)
  {
    if v.Ref? {
      assert ContainerOk(owner.raw, ViewOf(owner.containers, ids), v.id);
      if owner.raw[v.id].DictNode? {
        assert OrderedOk(OrderedOf(owner.raw[v.id]));
      }
    }
  }

  /** A dictionary wrapper of a sound owner can be called. */
  lemma DictIsReady(owner: CowOwner, ids: set<nat>, h: nat, dict: CowDict)
    requires OwnerOk(owner, ids) && h in owner.containers && owner.containers[h] == DictHandle(dict)
    ensures dict.Ready() && dict.owner == owner && Instance(owner.containers[h]) == dict
    ensures StateOf(owner.containers[h]) == DictWrapper(dict.State())
  {
    var view := ViewOf(owner.containers, ids);
    assert HandleOk(owner, owner.containers[h]) && view.wrappers[h] == DictWrapper(dict.State());
    assert ContainerOk(owner.raw, view, h);
    assert PlainWithin(Dict(Contents(dict.State())), ids);
    ContentsAgree(dict.State());
    hide ViewOk, OverlayOk, Contents, CowDict.Tight, CowDict.SourceSound, Known, ContainerOk;
    forall k | Has(dict.State(), k) ensures Known(owner.raw, Plainly(Lookup(dict.State(), k))) {
      ValueIsKnown(owner, ids, Plainly(Lookup(dict.State(), k)));
    }
  }

  lemma ListIsReady(owner: CowOwner, ids: set<nat>, h: nat, list: CowList)
    requires OwnerOk(owner, ids) && h in owner.containers && owner.containers[h] == ListHandle(list)
    ensures list.Ready() && list.owner == owner && Instance(owner.containers[h]) == list
    ensures StateOf(owner.containers[h]) == ListWrapper(list.State())
  {
    var view := ViewOf(owner.containers, ids);
    assert HandleOk(owner, owner.containers[h]) && view.wrappers[h] == ListWrapper(list.State());
    assert ContainerOk(owner.raw, view, h);
    assert PlainWithin(List(Elements(list.State())), ids);
    hide ViewOk, Elements, Known, ContainerOk;
    forall v <- Elements(list.State()) ensures Known(owner.raw, v) {
      ValueIsKnown(owner, ids, v);
    }
  }

  lemma OwnerParts(owner: CowOwner, ids: set<nat>)
    requires OwnerOk(owner, ids)
    ensures ViewOk(owner.raw, ViewOf(owner.containers, ids)) && owner.FlagsSound()
    ensures Separate(owner.containers) && HandlesKnown(owner.containers) && AllOk(owner, owner.containers)
    ensures forall id <- ViewOf(owner.containers, ids).wrappers, slot <- Stored(ViewOf(owner.containers, ids).wrappers[id]) ::
      slot.Handle? ==> slot.id in ViewOf(owner.containers, ids).wrappers
  {
    hide ViewOk, Stored, StateOf;
  }

  // ---- What a call hands out --------------------------------------------------------------------

  function Reads(w: Wrapper, op: Operation): seq<Slot>
    requires Applicable(w, op) && (w.DictWrapper? ==> OverlayOk(w.overlay))
  {
    match w
    case DictWrapper(o) => DictReads(o, op.dict)
    case ListWrapper(l) => ListReads(l, op.list)
  }

  lemma WrappedHandles(keys: seq<Key>, slots: seq<Slot>)
    ensures Handed(Told(keys, WrappedEach(slots))) == WrapsAll(slots) + HandedBy(slots)
  {
    forall n ensures n in Handed(Told(keys, WrappedEach(slots))) <==> n in WrapsAll(slots) || n in HandedBy(slots) {
      if slot :| slot in slots && (slot == Unwrapped(Ref(n)) || slot == Handle(n)) {
        var i :| 0 <= i < |slots| && slots[i] == slot;
        assert WrappedEach(slots)[i] in WrappedEach(slots);
      }
      if n in Handed(Told(keys, WrappedEach(slots))) {
        var i :| 0 <= i < |slots| && WrappedEach(slots)[i] == Handle(n);
        assert slots[i] in slots;
      }
    }
  }

  lemma OperationHandsReads(w: Wrapper, op: Operation)
    requires WrapperOk(w) && Applicable(w, op)
    ensures Handed(Operate(w, op).1) == WrapsAll(Reads(w, op)) + HandedBy(Reads(w, op))
  {
    hide OverlayOk, LazyOk, OnOverlay, OnLazy, DictReads, ListReads, WrappedEach, Handed, WrapsAll, HandedBy;
    var slots := Reads(w, op);
    match w {
      case DictWrapper(o) =>
        DictHandsWhatItReads(o, op.dict);
        var reply := OnOverlay(o, op.dict).1;
        WrappedHandles(if reply.Some? then reply.value.keys else [], slots);
      case ListWrapper(l) =>
        ListHandsWhatItReads(l, op.list);
        WrappedHandles([], slots);
    }
    NothingHanded();
  }

  lemma NothingHanded()
    ensures Handed(Raised) == {} && WrapsAll([]) == {} && HandedBy([]) == {}
  {
  }

  lemma ReadHandlesAreStored(w: Wrapper, op: Operation, n: nat)
    requires WrapperOk(w) && Applicable(w, op) && Handle(n) in Reads(w, op)
    ensures Handle(n) in Stored(w)
  {
    assert Offers(w, Handle(n)) by {
      hide OverlayOk, LazyOk, Lookup;
      match w {
        case DictWrapper(o) =>
          KeysAreHad(o);
          ReadIsOffered(o, op.dict, n);
        case ListWrapper(l) =>
          hide Slots;
          ElementIsOffered(l, op.list, n);
      }
    }
    OfferedHandleIsStored(w, n);
  }

  lemma ReadIsOffered(o: Overlay, op: DictOp, n: nat)
    requires OverlayOk(o) && op.Sane() && Handle(n) in DictReads(o, op)
    ensures Offers(DictWrapper(o), Handle(n))
  {
    KeysAreHad(o);
    hide OverlayOk, Lookup, Has, Keys;
    if op.Iterate? {
      var i :| 0 <= i < |Keys(o)| && SlotsOf(o, Keys(o))[i] == Handle(n);
      assert Keys(o)[i] in Keys(o);
    }
  }

  lemma ElementIsOffered(l: Lazy, op: ListOp, n: nat)
    requires Handle(n) in ListReads(l, op)
    ensures Offers(ListWrapper(l), Handle(n))
  {
    var i := if op.GetAt? || op.PopAt? then Normal(op.index, Size(l)) else None;
    if i.Some? {
      assert Slots(l)[i.value] == SlotAt(l, i.value);
    }
  }

  /** A call that wraps what it reads opens what it hands out: whatever it hands out besides has been wrapped before. */
  lemma CallOpens(before: map<nat, Container>, after: map<nat, Container>, w: Wrapper, op: Operation)
    requires WrapperOk(w) && Applicable(w, op) && forall slot <- Stored(w) :: slot.Handle? ==> slot.id in before
    requires Grown(before, after, WrapsAll(Reads(w, op)))
    ensures Grown(before, after, Handed(Operate(w, op).1))
  {
    hide WrapperOk, Applicable, Operate, Stored, Handed, WrapsAll, Reads;
    WrapperIsOk(w);
    OperationHandsReads(w, op);
    forall n <- HandedBy(Reads(w, op)) ensures n in before {
      assert Handle(n) in Reads(w, op);
      ReadHandlesAreStored(w, op, n);
    }
    assert before.Keys + WrapsAll(Reads(w, op)) == before.Keys + Handed(Operate(w, op).1);
  }

  /** What a call starts from. */
  lemma BeforeCall(owner: CowOwner, ids: set<nat>, h: nat)
    requires OwnerOk(owner, ids) && h in owner.containers
    ensures var view := ViewOf(owner.containers, ids);
      && view.ids == ids && WorldOf(owner, ids) == World(owner.raw, [view])
      && owner.containers.Keys == view.wrappers.Keys && view.wrappers[h] == StateOf(owner.containers[h]) && WrapperOk(view.wrappers[h])
      && Kept(owner, owner.containers - {h}, view) && Instance(owner.containers[h]) !in Instances(owner.containers - {h})
  {
    assert ContainerOk(owner.raw, ViewOf(owner.containers, ids), h);
    hide ViewOk, WrapperOk;
  }

  /** A call that has done to its wrapper what the specification says is a step of the view. */
  lemma CallFinishes(owner: CowOwner, before: map<nat, Container>, raw: Store, view: View, h: nat, op: Operation, cloned: Store, answer: Answer<Slot>)
    requires ViewOk(raw, view) && Allocated(raw, cloned, op) && owner.raw == raw + cloned && owner.FlagsSound()
    requires h in before && before.Keys == view.wrappers.Keys && Separate(before) && Kept(owner, before - {h}, view)
    requires forall id <- view.wrappers, slot <- Stored(view.wrappers[id]) :: slot.Handle? ==> slot.id in view.wrappers
    requires Applicable(view.wrappers[h], op) && WrapperOk(view.wrappers[h])
    requires (StateOf(before[h]), answer) == Operate(view.wrappers[h], op) && HandleOk(owner, before[h])
    requires Opened(owner, before, WrapsAll(Reads(view.wrappers[h], op)))
    ensures OwnerOk(owner, view.ids + cloned.Keys)
    ensures Acts(World(raw, [view]), WorldOf(owner, view.ids + cloned.Keys), 0, h, op, cloned, answer)
  {
    assert owner.containers[h] == before[h];
    assert Opened(owner, before, Handed(answer)) by { CallOpens(before, owner.containers, view.wrappers[h], op); }
    hide *;
    CallIsStep(owner, before, raw, view, h, op, cloned, answer);
    StepFinishes(owner, raw, view, h, op, cloned, answer);
  }

  lemma InsertedAreKnown(raw: Store, cloned: Store, op: Operation)
    requires Allocated(raw, cloned, op)
    ensures forall v <- Inserted(op) :: Known(cloned, v)
  {
    forall v <- Inserted(op) ensures Known(cloned, v) {
      if v.Ref? {
        assert NodeWellFormed(cloned, cloned[v.id]);
      }
    }
  }

  // ---- Dictionaries -------------------------------------------------------------------------------

  /** A default for a key that is there is neither cloned nor stored: the call is a read. */
  function CarriedOut(o: Overlay, op: DictOp): DictOp {
    if op.SetDefault? && Has(o, op.key) then GetItem(op.key) else op
  }

  /** The clones that join the owner. */
  function Adopted(o: Overlay, op: DictOp, cloned: Store): Store {
    match CarriedOut(o, op)
    case SetItem(_, _) => cloned
    case SetDefault(_, _) => cloned
    case UpdateAll(_, _) => cloned
    case _ => map[]
  }

  function DictAnswer(reply: Option<Reply<Slot>>): Answer<Slot> {
    match reply case None => Raised case Some(r) => Told(r.keys, r.values)
  }

  /** Every operation through any handle of the owner is the same step of its view. */
  method CallDict(owner: CowOwner, ghost ids: set<nat>, ghost h: nat, dict: CowDict, op: DictOp, cloned: Store)
    returns (reply: Option<Reply<Slot>>)
    requires OwnerOk(owner, ids) && h in owner.containers && owner.containers[h] == DictHandle(dict) && op.Sane()
    requires owner.Adoptable(cloned) && Allocated(owner.raw, cloned, OnDict(op))
    modifies dict, owner
    ensures var state := old(dict.State()); var joined := Adopted(state, op, cloned);
      && OwnerOk(owner, ids + joined.Keys)
      && Acts(old(WorldOf(owner, ids)), WorldOf(owner, ids + joined.Keys), 0, h, OnDict(CarriedOut(state, op)), joined, DictAnswer(reply))
  {
    ghost var before, raw, view, state := owner.containers, owner.raw, ViewOf(owner.containers, ids), dict.State();
    DictIsReady(owner, ids, h, dict);
    OwnerParts(owner, ids);
    BeforeCall(owner, ids, h);
    InsertedAreKnown(raw, cloned, OnDict(op));
    OperationCarriedOut(raw, state, op, cloned);
    hide *;
    reply := DictBeside(owner, dict, op, cloned, before, before - {h}, view);
    DictCalled(owner, dict, before, view, h, CarriedOut(state, op), reply);
    CallFinishes(owner, before, raw, view, h, OnDict(CarriedOut(state, op)), Adopted(state, op, cloned), DictAnswer(reply));
  }

  lemma OperationCarriedOut(raw: Store, o: Overlay, op: DictOp, cloned: Store)
    requires OverlayOk(o) && op.Sane() && Allocated(raw, cloned, OnDict(op))
    ensures var done := CarriedOut(o, op);
      && done.Sane() && OnOverlay(o, done) == OnOverlay(o, op) && DictReads(o, done) == DictReads(o, op)
      && Allocated(raw, Adopted(o, op, cloned), OnDict(done))
  {
    hide OverlayOk, Lookup, Touch, Has, SetSlot;
  }

  /** The call beside all the other wrappers. */
  method DictBeside(owner: CowOwner, dict: CowDict, op: DictOp, cloned: Store,
                    ghost before: map<nat, Container>, ghost others: map<nat, Container>, ghost view: View)
    returns (reply: Option<Reply<Slot>>)
    requires dict.Ready() && dict.owner == owner && before == owner.containers && dict !in Instances(others) && Kept(owner, others, view)
    requires op.Sane() && owner.Adoptable(cloned) && forall v <- op.Inserted() :: Known(cloned, v)
    modifies dict, owner
    ensures dict.Ready() && OverlayOk(old(dict.State())) && (dict.State(), reply) == OnOverlay(old(dict.State()), op)
    ensures owner.raw == old(owner.raw) + Adopted(old(dict.State()), op, cloned) && Kept(owner, others, view)
    ensures Opened(owner, before, WrapsAll(DictReads(old(dict.State()), op)))
  {
    hide CowOwner.Made, CowDict.Ready, CowDict.State, OnOverlay, DictReads, WrapsAll, Adopted, Known, OverlayOk, Grown;
    reply := PerformDict(owner, dict, op, cloned);
  }

  lemma DictCalled(owner: CowOwner, dict: CowDict, before: map<nat, Container>, view: View, h: nat, op: DictOp, reply: Option<Reply<Slot>>)
    requires h in before && before[h] == DictHandle(dict) && h in view.wrappers && view.wrappers[h].DictWrapper?
    requires WrapperOk(view.wrappers[h]) && op.Sane() && dict.Ready() && dict.owner == owner
    requires (dict.State(), reply) == OnOverlay(view.wrappers[h].overlay, op)
    requires Opened(owner, before, WrapsAll(DictReads(view.wrappers[h].overlay, op)))
    ensures Applicable(view.wrappers[h], OnDict(op)) && (StateOf(before[h]), DictAnswer(reply)) == Operate(view.wrappers[h], OnDict(op))
    ensures HandleOk(owner, before[h]) && owner.FlagsSound() && Opened(owner, before, WrapsAll(Reads(view.wrappers[h], OnDict(op))))
  {
    hide OverlayOk, CowDict.State, OnOverlay, DictReads, WrapsAll, Opened;
  }

  /** The operations of a dictionary, each by its method. */
  method PerformDict(owner: CowOwner, dict: CowDict, op: DictOp, cloned: Store) returns (reply: Option<Reply<Slot>>)
    requires dict.Ready() && dict.owner == owner && op.Sane() && owner.Adoptable(cloned) && forall v <- op.Inserted() :: Known(cloned, v)
    modifies dict, owner
    ensures dict.Ready() && OverlayOk(old(dict.State())) && (dict.State(), reply) == OnOverlay(old(dict.State()), op)
    ensures owner.raw == old(owner.raw) + Adopted(old(dict.State()), op, cloned)
    ensures owner.Opens(WrapsAll(DictReads(old(dict.State()), op)))
    ensures owner.AllMade(owner.containers.Keys - old(owner.containers).Keys)
  {
    hide OverlayOk, CowDict.State, CowDict.Ready, CowDict.Valid, CowOwner.AllMade, CowOwner.Adoptable, Known, Grown;
    hide OnOverlay, DictReads, WrapsAll, Adopted;
    dict.ReadyIsOk();
    if op.SetItem? || op.DelItem? || op.UpdateAll? || op.ClearDict? {
      reply := ChangeDict(owner, dict, op, cloned);
      dict.NothingOpened();
    } else if op.IterateBackwards? || op.Contains? {
      reply := ExamineDict(dict, op, cloned);
      dict.NothingOpened();
    } else {
      reply := ReadDict(owner, dict, op, cloned);
    }
  }

  /** The operations that hand nothing out. */
  method ChangeDict(owner: CowOwner, dict: CowDict, op: DictOp, cloned: Store) returns (reply: Option<Reply<Slot>>)
    requires dict.Ready() && dict.owner == owner && op.Sane() && owner.Adoptable(cloned) && forall v <- op.Inserted() :: Known(cloned, v)
    requires op.SetItem? || op.DelItem? || op.UpdateAll? || op.ClearDict?
    modifies dict, owner`raw, owner`changes
    ensures dict.Ready() && OverlayOk(old(dict.State())) && (dict.State(), reply) == OnOverlay(old(dict.State()), op)
    ensures owner.raw == old(owner.raw) + Adopted(old(dict.State()), op, cloned)
    ensures WrapsAll(DictReads(old(dict.State()), op)) == {}
  {
    hide OverlayOk, CowDict.State, CowDict.Valid, CowDict.Rooted, CowOwner.FlagsSound, CowOwner.Adoptable, Known;
    hide OnOverlay, DictReads, WrapsAll, Adopted, Has, Contents;
    dict.ReadyIsOk();
    ChangeReplies(dict.State(), op, cloned);
    reply := Some(Reply([], []));
    match op {
      case SetItem(k, v) => dict.SetItem(k, v, cloned);
      case DelItem(k) =>
        var ok := dict.DelItem(k);
        if !ok {
          reply := None;
        }
      case UpdateAll(keys, values) => dict.Update(keys, values, cloned);
      case ClearDict => dict.Clear();
    }
  }

  lemma ChangeReplies(o: Overlay, op: DictOp, cloned: Store)
    requires OverlayOk(o) && op.Sane() && (op.SetItem? || op.DelItem? || op.UpdateAll? || op.ClearDict?)
    ensures OnOverlay(o, op).1 == if op.DelItem? && !Has(o, op.key) then None else Some(Reply([], []))
    ensures WrapsAll(DictReads(o, op)) == {} && Adopted(o, op, cloned) == if op.SetItem? || op.UpdateAll? then cloned else map[]
  {
    hide OverlayOk, Has, SetSlot, Delete, SetAllSlots, Clear;
  }

  /** The operations that only look at the keys. */
  method ExamineDict(dict: CowDict, op: DictOp, ghost cloned: Store) returns (reply: Option<Reply<Slot>>)
    requires dict.Valid() && (op.IterateBackwards? || op.Contains?)
    ensures OverlayOk(dict.State()) && (dict.State(), reply) == OnOverlay(dict.State(), op)
    ensures Adopted(dict.State(), op, cloned) == map[] && WrapsAll(DictReads(dict.State(), op)) == {}
  {
    hide CowDict.State, CowDict.Tight, CowDict.SourceSound, OverlayOk, Contents, Has, Keys, Backwards;
    ContentsKeys(dict.State());
    ContentsAgree(dict.State());
    match op {
      case IterateBackwards =>
        var keys := dict.IterKeysReversed();
        reply := Some(Reply(keys, []));
      case Contains(k) =>
        var found := dict.ContainsKey(k);
        reply := if found then Some(Reply([k], [])) else None;
    }
  }

  /** The operations that hand out values. */
  method ReadDict(owner: CowOwner, dict: CowDict, op: DictOp, cloned: Store) returns (reply: Option<Reply<Slot>>)
    requires dict.Ready() && dict.owner == owner && owner.Adoptable(cloned) && forall v <- op.Inserted() :: Known(cloned, v)
    requires op.GetItem? || op.PopKey? || op.PopLast? || op.SetDefault? || op.Iterate?
    modifies dict, owner
    ensures dict.Ready() && OverlayOk(old(dict.State())) && (dict.State(), reply) == OnOverlay(old(dict.State()), op)
    ensures owner.raw == old(owner.raw) + Adopted(old(dict.State()), op, cloned)
    ensures owner.Opens(WrapsAll(DictReads(old(dict.State()), op)))
    ensures owner.AllMade(owner.containers.Keys - old(owner.containers).Keys)
  {
    hide OverlayOk, CowDict.State, CowDict.Valid, CowDict.Rooted, CowOwner.FlagsSound, CowOwner.AllMade, CowOwner.Adoptable, Known, Grown;
    hide OnOverlay, DictReads, WrapsAll, Adopted, Has, Lookup, Wraps, Wrapped, Keys;
    dict.ReadyIsOk();
    ReadReplies(dict.State(), op, cloned);
    match op {
      case GetItem(k) =>
        var value := dict.GetItem(k);
        reply := if value.Some? then Some(Reply([], [value.value])) else None;
      case PopKey(k) =>
        var value := dict.Pop(k);
        reply := if value.Some? then Some(Reply([k], [value.value])) else None;
      case PopLast =>
        var item := dict.PopItem();
        reply := if item.Some? then Some(Reply([item.value.0], [item.value.1])) else None;
      case SetDefault(k, v) =>
        var value := dict.GetOrSet(k, v, cloned);
        reply := Some(Reply([], [value]));
      case Iterate =>
        var keys, values := dict.IterItems();
        reply := Some(Reply(keys, values));
    }
  }

  lemma ReadReplies(o: Overlay, op: DictOp, cloned: Store)
    requires OverlayOk(o) && op.Sane()
    ensures op.GetItem? || op.PopKey? ==> WrapsAll(DictReads(o, op)) == if Has(o, op.key) then Wraps(Lookup(o, op.key)) else {}
    ensures op.GetItem? ==> OnOverlay(o, op).1 == if Has(o, op.key) then Some(Reply([], [Wrapped(Lookup(o, op.key))])) else None
    ensures op.PopKey? ==> OnOverlay(o, op).1 == if Has(o, op.key) then Some(Reply([op.key], [Wrapped(Lookup(o, op.key))])) else None
    ensures op.PopLast? && Keys(o) == [] ==> OnOverlay(o, op).1 == None
    ensures op.SetDefault? ==> WrapsAll(DictReads(o, op)) == Wraps(if Has(o, op.key) then Lookup(o, op.key) else Unwrapped(op.value))
    ensures op.SetDefault? ==> Adopted(o, op, cloned) == if Has(o, op.key) then map[] else cloned
    ensures op.GetItem? || op.PopKey? || op.PopLast? || op.Iterate? ==> Adopted(o, op, cloned) == map[]
  {
    hide OverlayOk, Lookup, Has, Touch, Delete, SetSlot, Keys;
    if op.GetItem? || op.PopKey? {
      if Has(o, op.key) { WrapsOneMore([], Lookup(o, op.key)); }
    } else if op.SetDefault? {
      WrapsOneMore([], if Has(o, op.key) then Lookup(o, op.key) else Unwrapped(op.value));
    }
  }

  // ---- Lists --------------------------------------------------------------------------------------

  function AdoptedByList(op: ListOp, cloned: Store): Store {
    if op.SetAt? || op.Append? || op.Insert? || op.Extend? then cloned else map[]
  }

  function ListAnswer(reply: Option<seq<Slot>>): Answer<Slot> {
    match reply case None => Raised case Some(values) => Told([], values)
  }

  method CallList(owner: CowOwner, ghost ids: set<nat>, ghost h: nat, list: CowList, op: ListOp, cloned: Store) returns (reply: Option<seq<Slot>>)
    requires OwnerOk(owner, ids) && h in owner.containers && owner.containers[h] == ListHandle(list)
    requires owner.Adoptable(cloned) && Allocated(owner.raw, cloned, OnList(op))
    modifies list, owner
    ensures var joined := AdoptedByList(op, cloned);
      && OwnerOk(owner, ids + joined.Keys)
      && Acts(old(WorldOf(owner, ids)), WorldOf(owner, ids + joined.Keys), 0, h, OnList(op), joined, ListAnswer(reply))
  {
    ghost var before, raw, view := owner.containers, owner.raw, ViewOf(owner.containers, ids);
    ListIsReady(owner, ids, h, list);
    OwnerParts(owner, ids);
    BeforeCall(owner, ids, h);
    InsertedAreKnown(raw, cloned, OnList(op));
    AdoptedIsAllocated(raw, op, cloned);
    hide *;
    reply := ListBeside(owner, list, op, cloned, before, before - {h}, view);
    ListCalled(owner, list, before, view, h, op, reply);
    CallFinishes(owner, before, raw, view, h, OnList(op), AdoptedByList(op, cloned), ListAnswer(reply));
  }

  lemma AdoptedIsAllocated(raw: Store, op: ListOp, cloned: Store)
    requires Allocated(raw, cloned, OnList(op))
    ensures Allocated(raw, AdoptedByList(op, cloned), OnList(op))
  {
  }

  method ListBeside(owner: CowOwner, list: CowList, op: ListOp, cloned: Store,
                    ghost before: map<nat, Container>, ghost others: map<nat, Container>, ghost view: View)
    returns (reply: Option<seq<Slot>>)
    requires list.Ready() && list.owner == owner && before == owner.containers && list !in Instances(others) && Kept(owner, others, view)
    requires owner.Adoptable(cloned) && forall v <- op.Inserted() :: Known(cloned, v)
    modifies list, owner
    ensures list.Ready() && (list.State(), reply) == OnLazy(old(list.State()), op)
    ensures owner.raw == old(owner.raw) + AdoptedByList(op, cloned) && Kept(owner, others, view)
    ensures Opened(owner, before, WrapsAll(ListReads(old(list.State()), op)))
  {
    hide CowOwner.Made, CowList.Ready, CowList.State, OnLazy, ListReads, WrapsAll, AdoptedByList, Known, LazyOk, Grown;
    reply := PerformList(owner, list, op, cloned);
  }

  lemma ListCalled(owner: CowOwner, list: CowList, before: map<nat, Container>, view: View, h: nat, op: ListOp, reply: Option<seq<Slot>>)
    requires h in before && before[h] == ListHandle(list) && h in view.wrappers && view.wrappers[h].ListWrapper?
    requires WrapperOk(view.wrappers[h]) && list.Ready() && list.owner == owner
    requires (list.State(), reply) == OnLazy(view.wrappers[h].lazy, op)
    requires Opened(owner, before, WrapsAll(ListReads(view.wrappers[h].lazy, op)))
    ensures Applicable(view.wrappers[h], OnList(op)) && (StateOf(before[h]), ListAnswer(reply)) == Operate(view.wrappers[h], OnList(op))
    ensures HandleOk(owner, before[h]) && owner.FlagsSound() && Opened(owner, before, WrapsAll(Reads(view.wrappers[h], OnList(op))))
  {
    hide LazyOk, CowList.State, OnLazy, ListReads, WrapsAll, Opened;
  }

  /** The operations of a list, each by its method. */
  method PerformList(owner: CowOwner, list: CowList, op: ListOp, cloned: Store) returns (reply: Option<seq<Slot>>)
    requires list.Ready() && list.owner == owner && owner.Adoptable(cloned) && forall v <- op.Inserted() :: Known(cloned, v)
    modifies list, owner
    ensures list.Ready() && (list.State(), reply) == OnLazy(old(list.State()), op)
    ensures owner.raw == old(owner.raw) + AdoptedByList(op, cloned)
    ensures owner.Opens(WrapsAll(ListReads(old(list.State()), op)))
    ensures owner.AllMade(owner.containers.Keys - old(owner.containers).Keys)
  {
    hide CowList.State, CowList.Ready, CowOwner.AllMade, CowOwner.Adoptable, Known, Grown, OnLazy, ListReads, WrapsAll;
    if op.GetAt? || op.PopAt? || op.IterateList? {
      reply := ReadList(owner, list, op);
    } else {
      reply := ChangeList(owner, list, op, cloned);
      list.NothingOpened();
    }
  }

  /** The operations that hand out elements. */
  method ReadList(owner: CowOwner, list: CowList, op: ListOp) returns (reply: Option<seq<Slot>>)
    requires list.Ready() && list.owner == owner && (op.GetAt? || op.PopAt? || op.IterateList?)
    modifies list, owner`containers, owner`changes
    ensures list.Ready() && (list.State(), reply) == OnLazy(old(list.State()), op)
    ensures owner.Opens(WrapsAll(ListReads(old(list.State()), op)))
    ensures owner.AllMade(owner.containers.Keys - old(owner.containers).Keys)
  {
    hide CowList.State, CowList.Valid, CowList.Rooted, CowOwner.FlagsSound, CowOwner.AllMade, Grown, LazyOk;
    hide OnLazy, ListReads, WrapsAll, SlotAt, Wraps, Wrapped, Elements;
    ElementReplies(list.State(), op);
    match op {
      case GetAt(index) =>
        var value := list.GetItem(index);
        reply := if value.Some? then Some([value.value]) else None;
      case PopAt(index) =>
        var value := list.Pop(index);
        reply := if value.Some? then Some([value.value]) else None;
      case IterateList =>
        var values := list.Iterate();
        reply := Some(values);
    }
  }

  lemma ElementReplies(l: Lazy, op: ListOp)
    ensures op.GetAt? || op.PopAt? ==>
      OnLazy(l, op).1 == match Normal(op.index, Size(l)) case None => None case Some(i) => Some([Wrapped(SlotAt(l, i))])
    ensures op.GetAt? ==> WrapsAll(ListReads(l, op)) == match Normal(op.index, Size(l)) case None => {} case Some(i) => Wraps(SlotAt(l, i))
  {
    hide SlotAt, Slots, TouchAt, DropAt;
    if op.GetAt? && Normal(op.index, Size(l)).Some? {
      WrapsOneMore([], SlotAt(l, Normal(op.index, Size(l)).value));
    }
  }

  /** The operations that hand nothing out. */
  method ChangeList(owner: CowOwner, list: CowList, op: ListOp, cloned: Store) returns (reply: Option<seq<Slot>>)
    requires list.Ready() && list.owner == owner && owner.Adoptable(cloned) && forall v <- op.Inserted() :: Known(cloned, v)
    requires !op.GetAt? && !op.PopAt? && !op.IterateList?
    modifies list, owner`raw, owner`changes
    ensures list.Ready() && (list.State(), reply) == OnLazy(old(list.State()), op)
    ensures owner.raw == old(owner.raw) + AdoptedByList(op, cloned) && WrapsAll(ListReads(old(list.State()), op)) == {}
  {
    hide CowList.State, CowList.Valid, CowList.Rooted, CowOwner.FlagsSound, CowOwner.Adoptable, Known, LazyOk;
    hide OnLazy, ListReads, WrapsAll, Elements;
    ChangeAnswers(list.State(), op);
    var ok := true;
    match op {
      case SetAt(index, v) => ok := list.SetItem(index, v, cloned);
      case DelAt(index) => ok := list.DelItem(index);
      case Append(v) => list.Append(v, cloned);
      case Insert(index, v) => list.Insert(index, v, cloned);
      case Extend(values) => list.Extend(values, cloned);
      case Reverse => list.Reverse();
      case ClearList => list.Clear();
    }
    reply := if ok then Some([]) else None;
  }

  lemma ChangeAnswers(l: Lazy, op: ListOp)
    requires !op.GetAt? && !op.PopAt? && !op.IterateList?
    ensures WrapsAll(ListReads(l, op)) == {} && OnLazy(l, op).1 == if OnLazy(l, op).1.Some? then Some([]) else None
    ensures !op.SetAt? && !op.DelAt? ==> OnLazy(l, op).1.Some?
  {
    hide SlotAt, Slots, PutAt, InsertAt, DropAt, Extended, Reversed, Emptied;
  }
}
