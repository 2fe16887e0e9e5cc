/** Many copy-on-write views over one snapshot: each behaves as its own deep copy. */
module CowViews {
  import opened Sequences
  import opened CloneJson
  import opened CowSpec
  import opened CowOperations

  datatype Plain = Dict(d: Ordered) | List(items: seq<Value>)

  function IndexOf(keys: seq<Key>, k: Key): (i: nat)
    requires k in keys
    ensures i < |keys| && keys[i] == k
  {
    if keys[0] == k then 0 else 1 + IndexOf(keys[1..], k)
  }

  function ItemOf(node: Node, k: Key): Value
    requires node.DictNode? && |node.keys| == |node.items| && k in node.keys
  {
    node.items[IndexOf(node.keys, k)]
  }

  function OrderedOf(node: Node): Ordered
    requires node.DictNode? && |node.keys| == |node.items|
  {
    Ordered(node.keys, map k | k in node.keys :: ItemOf(node, k))
  }

  /** An independent plain copy of one container. */
  function PlainOf(node: Node): Plain
    requires node.DictNode? ==> |node.keys| == |node.items|
  {
    if node.ListNode? then List(node.items) else Dict(OrderedOf(node))
  }

  datatype Wrapper = DictWrapper(overlay: Overlay) | ListWrapper(lazy: Lazy)

  /** One view: the containers it can reach, and the wrappers it has made, one for each. A wrapper is a handle
      a caller may keep; the same container always has the same wrapper, because names are never used again. */
  datatype View = View(ids: set<nat>, wrappers: map<nat, Wrapper>)

  /** All raw containers ever allocated, never changed, and the views over them. */
  datatype World = World(raw: Store, views: seq<View>)

  function Fresh(node: Node): Wrapper
    requires node.DictNode? ==> |node.keys| == |node.items|
  {
    if node.ListNode? then ListWrapper(Lazy(node.items, map[])) else DictWrapper(Untouched(OrderedOf(node)))
  }

  function Standing(w: Wrapper): Plain {
    match w
    case DictWrapper(o) => Dict(Contents(o))
    case ListWrapper(l) => List(Elements(l))
  }

  ghost predicate WrapperOk(w: Wrapper) {
    match w
    case DictWrapper(o) => OverlayOk(o)
    case ListWrapper(l) => LazyOk(l)
  }

  ghost predicate RefsWithin(items: seq<Value>, ids: set<nat>) {
    forall v <- items :: v.Ref? ==> v.id in ids
  }

  ghost predicate PlainWithin(p: Plain, ids: set<nat>) {
    match p
    case List(items) => RefsWithin(items, ids)
    case Dict(d) => forall k <- d.values :: d.values[k].Ref? ==> d.values[k].id in ids
  }

  ghost predicate ContainerOk(raw: Store, view: View, id: nat) {
    && id in raw && NodeWellFormed(raw, raw[id]) && PlainWithin(PlainOf(raw[id]), view.ids)
    && (id in view.wrappers ==> WrapperOk(view.wrappers[id]) && PlainWithin(Standing(view.wrappers[id]), view.ids))
  }

  ghost predicate ViewOk(raw: Store, view: View) {
    && WellFormed(raw) && (forall h <- view.wrappers :: h in view.ids)
    && (forall id <- view.ids :: ContainerOk(raw, view, id))
  }

  /** A wrapped container stands for what its overlay reads, any other for what the snapshot holds. */
  ghost function StandsFor(raw: Store, view: View, id: nat): Plain
    requires ContainerOk(raw, view, id)
  {
    if id in view.wrappers then Standing(view.wrappers[id]) else PlainOf(raw[id])
  }

  /** The plain containers a view stands for. */
  ghost function Abs(raw: Store, view: View): map<nat, Plain>
    requires ViewOk(raw, view)
  {
    map id | id in view.ids :: StandsFor(raw, view, id)
  }

  // ---- Steps -------------------------------------------------------------------------------

  datatype Operation = OnDict(dict: DictOp) | OnList(list: ListOp)

  function Inserted(op: Operation): seq<Value> {
    match op
    case OnDict(dict) => dict.Inserted()
    case OnList(list) => list.Inserted()
  }

  datatype Answer<T> = Nothing | Raised | Told(keys: seq<Key>, values: seq<T>)

  predicate Applicable(w: Wrapper, op: Operation) {
    (w.DictWrapper? && op.OnDict? && op.dict.Sane()) || (w.ListWrapper? && op.OnList?)
  }

  function Operate(w: Wrapper, op: Operation): (Wrapper, Answer<Slot>)
    requires Applicable(w, op) && (w.DictWrapper? ==> OverlayOk(w.overlay))
  {
    match w
    case DictWrapper(o) =>
      var (o', reply) := OnOverlay(o, op.dict);
      (DictWrapper(o'), match reply case None => Raised case Some(r) => Told(r.keys, r.values))
    case ListWrapper(l) =>
      var (l', reply) := OnLazy(l, op.list);
      (ListWrapper(l'), match reply case None => Raised case Some(values) => Told([], values))
  }

  predicate PlainApplicable(p: Plain, op: Operation) {
    (p.Dict? && op.OnDict? && op.dict.Sane()) || (p.List? && op.OnList?)
  }

  function OperatePlainly(p: Plain, op: Operation): (Plain, Answer<Value>)
    requires PlainApplicable(p, op) && (p.Dict? ==> OrderedOk(p.d))
  {
    match p
    case Dict(d) =>
      var (d', reply) := OnPlainDict(d, op.dict);
      (Dict(d'), match reply case None => Raised case Some(r) => Told(r.keys, r.values))
    case List(items) =>
      var (items', reply) := OnPlainList(items, op.list);
      (List(items'), match reply case None => Raised case Some(values) => Told([], values))
  }

  /** The containers a reply hands out as wrappers. */
  function Handed(answer: Answer<Slot>): set<nat> {
    if answer.Told? then set slot <- answer.values | slot.Handle? :: slot.id else {}
  }

  /** Wrap every container that is handed out and was not wrapped before. */
  function Opened(raw: Store, wrappers: map<nat, Wrapper>, handed: set<nat>): map<nat, Wrapper>
    requires forall id <- handed :: id in raw && (raw[id].DictNode? ==> |raw[id].keys| == |raw[id].items|)
  {
    map id | id in wrappers.Keys + handed :: if id in wrappers then wrappers[id] else Fresh(raw[id])
  }

  /** The view after one of its wrappers has become w' and the containers handed out have been wrapped. */
  function After(raw: Store, view: View, h: nat, w': Wrapper, handed: set<nat>, cloned: Store): View
    requires forall id <- handed :: id in raw + cloned && ((raw + cloned)[id].DictNode? ==> |(raw + cloned)[id].keys| == |(raw + cloned)[id].items|)
  {
    View(view.ids + cloned.Keys, Opened(raw + cloned, view.wrappers[h := w'], handed))
  }

  /** Newly cloned containers: unused identities, referring only to each other. */
  ghost predicate Allocated(raw: Store, cloned: Store, op: Operation) {
    && cloned.Keys !! raw.Keys
    && WellFormed(cloned)
    && RefsWithin(Inserted(op), cloned.Keys)
  }

  ghost predicate AllKnown(raw: Store, ids: set<nat>) {
    forall id <- ids :: id in raw && NodeWellFormed(raw, raw[id])
  }

  /** An operation on one handle of one view, with what cloning its arguments allocated. */
  ghost predicate Acts(world: World, world': World, v: nat, h: nat, op: Operation, cloned: Store, answer: Answer<Slot>) {
    && v < |world.views| && h in world.views[v].wrappers && Applicable(world.views[v].wrappers[h], op)
    && WrapperOk(world.views[v].wrappers[h]) && Allocated(world.raw, cloned, op)
    && var view := world.views[v];
    && var (w', reply) := Operate(view.wrappers[h], op);
    && answer == reply && AllKnown(world.raw + cloned, Handed(reply))
    && world' == World(world.raw + cloned, world.views[v := After(world.raw, view, h, w', Handed(reply), cloned)])
  }

  // ---- One view refines plain containers -----------------------------------------------------

  ghost predicate SameAnswer(cow: Answer<Slot>, plain: Answer<Value>) {
    && (cow.Raised? <==> plain.Raised?) && (cow.Told? <==> plain.Told?)
    && (cow.Told? ==>
          cow.keys == plain.keys && PlainlyAll(cow.values) == plain.values && forall slot <- cow.values :: !Escapes(slot))
  }

  lemma OperationRefines(w: Wrapper, op: Operation)
    requires WrapperOk(w) && Applicable(w, op)
    ensures WrapperOk(Operate(w, op).0)
    ensures PlainApplicable(Standing(w), op) && (Standing(w).Dict? ==> OrderedOk(Standing(w).d))
    ensures Standing(Operate(w, op).0) == OperatePlainly(Standing(w), op).0
    ensures SameAnswer(Operate(w, op).1, OperatePlainly(Standing(w), op).1)
  {
    hide OnOverlay, OnPlainDict, OverlayOk, OrderedOk, Contents, OnLazy, OnPlainList, LazyOk, Elements, DictRefined, ListRefined;
    match w {
      case DictWrapper(o) =>
        DictOperationRefines(o, op.dict);
        DictRefinement(o, op.dict);
      case ListWrapper(l) =>
        ListOperationRefines(l, op.list);
        ListRefinement(l, op.list);
    }
  }

  lemma DictRefinement(o: Overlay, op: DictOp)
    requires OverlayOk(o) && op.Sane() && DictRefined(o, op)
    ensures OrderedOk(Contents(o)) && OverlayOk(OnOverlay(o, op).0)
    ensures Contents(OnOverlay(o, op).0) == OnPlainDict(Contents(o), op).0
    ensures SameReply(OnOverlay(o, op).1, OnPlainDict(Contents(o), op).1)
  {
  }

  lemma ListRefinement(l: Lazy, op: ListOp)
    requires ListRefined(l, op)
    ensures LazyOk(OnLazy(l, op).0) && Elements(OnLazy(l, op).0) == OnPlainList(Elements(l), op).0
    ensures OnLazy(l, op).1.Some? <==> OnPlainList(Elements(l), op).1.Some?
    ensures OnLazy(l, op).1.Some? ==>
      PlainlyAll(OnLazy(l, op).1.value) == OnPlainList(Elements(l), op).1.value && forall slot <- OnLazy(l, op).1.value :: !Escapes(slot)
  {
  }

  lemma FreshStandsForNode(raw: Store, node: Node)
    requires NodeWellFormed(raw, node)
    ensures WrapperOk(Fresh(node)) && Standing(Fresh(node)) == PlainOf(node)
  {
    if node.DictNode? {
      UntouchedIsSource(OrderedOf(node));
    } else {
      assert Elements(Lazy(node.items, map[])) == node.items;
    }
  }

  // ---- References stay inside the view -------------------------------------------------------

  lemma {:induction false} SetAllWithin(d: Ordered, keys: seq<Key>, items: seq<Value>, ids: set<nat>)
    requires |keys| == |items| && PlainWithin(Dict(d), ids) && RefsWithin(items, ids)
    ensures PlainWithin(Dict(SetAll(d, keys, items)), ids)
  {
    if keys != [] {
      var n := |keys| - 1;
      assert RefsWithin(items[..n], ids) && items[n] in items;
      SetAllWithin(d, keys[..n], items[..n], ids);
    }
  }

  ghost predicate AnswerWithin(answer: Answer<Value>, ids: set<nat>) {
    answer.Told? ==> RefsWithin(answer.values, ids)
  }

  lemma DictStaysWithin(d: Ordered, op: DictOp, ids: set<nat>)
    requires OrderedOk(d) && op.Sane() && PlainWithin(Dict(d), ids) && RefsWithin(op.Inserted(), ids)
    ensures PlainWithin(Dict(OnPlainDict(d, op).0), ids)
    ensures OnPlainDict(d, op).1.Some? ==> RefsWithin(OnPlainDict(d, op).1.value.values, ids)
  {
    match op {
      case UpdateAll(keys, values) => SetAllWithin(d, keys, values, ids);
      case PopLast => assert d.keys != [] ==> d.keys[|d.keys| - 1] in d.keys;
      case SetItem(_, value) => assert value in op.Inserted();
      case SetDefault(_, value) => assert value in op.Inserted();
      case _ =>
    }
  }

  lemma ListStaysWithin(items: seq<Value>, op: ListOp, ids: set<nat>)
    requires RefsWithin(items, ids) && RefsWithin(op.Inserted(), ids)
    ensures RefsWithin(OnPlainList(items, op).0, ids)
    ensures OnPlainList(items, op).1.Some? ==> RefsWithin(OnPlainList(items, op).1.value, ids)
  {
    match op {
      case SetAt(_, value) => assert value in op.Inserted();
      case Append(value) => assert value in op.Inserted();
      case Insert(_, value) => assert value in op.Inserted();
      case _ =>
    }
  }

  lemma PlainStaysWithin(p: Plain, op: Operation, ids: set<nat>)
    requires PlainApplicable(p, op) && (p.Dict? ==> OrderedOk(p.d)) && PlainWithin(p, ids) && RefsWithin(Inserted(op), ids)
    ensures PlainWithin(OperatePlainly(p, op).0, ids) && AnswerWithin(OperatePlainly(p, op).1, ids)
  {
    match p {
      case Dict(d) => DictStaysWithin(d, op.dict, ids);
      case List(items) => ListStaysWithin(items, op.list, ids);
    }
  }

  lemma HandedWithin(cow: Answer<Slot>, plain: Answer<Value>, ids: set<nat>)
    requires SameAnswer(cow, plain) && AnswerWithin(plain, ids)
    ensures Handed(cow) <= ids
  {
    if cow.Told? {
      forall slot <- cow.values | slot.Handle? ensures slot.id in ids {
        var i :| 0 <= i < |cow.values| && cow.values[i] == slot;
        assert PlainlyAll(cow.values)[i] == Ref(slot.id);
        assert plain.values[i] in plain.values;
      }
    }
  }

  lemma WithinMore(p: Plain, ids: set<nat>, more: set<nat>)
    requires PlainWithin(p, ids) && ids <= more
    ensures PlainWithin(p, more)
  {
  }

  // ---- Worlds --------------------------------------------------------------------------------

  ghost predicate WorldOk(world: World) {
    forall v :: 0 <= v < |world.views| ==> ViewOk(world.raw, world.views[v])
  }

  /** What cloning allocates, as plain containers. */
  function PlainCopies(cloned: Store): map<nat, Plain>
    requires WellFormed(cloned)
  {
    map id | id in cloned :: (assert NodeWellFormed(cloned, cloned[id]); PlainOf(cloned[id]))
  }

  lemma NodeOutlives(raw: Store, cloned: Store, id: nat)
    requires id in raw && id !in cloned && NodeWellFormed(raw, raw[id])
    ensures (raw + cloned)[id] == raw[id] && NodeWellFormed(raw + cloned, (raw + cloned)[id])
  {
  }

  lemma CloneLives(raw: Store, cloned: Store, id: nat)
    requires id in cloned && WellFormed(cloned)
    ensures (raw + cloned)[id] == cloned[id] && NodeWellFormed(raw + cloned, (raw + cloned)[id])
    ensures PlainWithin(PlainOf(cloned[id]), cloned.Keys)
  {
    var node := cloned[id];
    assert NodeWellFormed(cloned, node);
    if node.DictNode? {
      forall k <- OrderedOf(node).values ensures ItemOf(node, k) in node.items {
      }
    }
  }

  lemma StoresJoin(raw: Store, cloned: Store)
    requires WellFormed(raw) && WellFormed(cloned) && cloned.Keys !! raw.Keys
    ensures WellFormed(raw + cloned)
  {
    forall id <- raw + cloned ensures NodeWellFormed(raw + cloned, (raw + cloned)[id]) {
      if id in cloned {
        CloneLives(raw, cloned, id);
      } else {
        NodeOutlives(raw, cloned, id);
      }
    }
  }

  lemma ContainerOutlives(raw: Store, view: View, cloned: Store, id: nat)
    requires ContainerOk(raw, view, id) && id !in cloned
    ensures ContainerOk(raw + cloned, view, id) && StandsFor(raw + cloned, view, id) == StandsFor(raw, view, id)
  {
    NodeOutlives(raw, cloned, id);
    hide PlainWithin, PlainOf, Standing, WrapperOk, NodeWellFormed;
  }

  /** A view that nobody touched still stands for the same containers, however many others were written to. */
  lemma OtherViewsUnchanged(raw: Store, view: View, cloned: Store)
    requires ViewOk(raw, view) && WellFormed(cloned) && cloned.Keys !! raw.Keys
    ensures ViewOk(raw + cloned, view) && Abs(raw + cloned, view) == Abs(raw, view)
  {
    StoresJoin(raw, cloned);
    forall id <- view.ids
      ensures ContainerOk(raw + cloned, view, id) && StandsFor(raw + cloned, view, id) == StandsFor(raw, view, id)
    {
      assert ContainerOk(raw, view, id);
      ContainerOutlives(raw, view, cloned, id);
    }
    hide ContainerOk, StandsFor, WellFormed;
  }

  lemma WrapperStands(raw: Store, view: View, h: nat)
    requires ViewOk(raw, view) && h in view.wrappers
    ensures h in view.ids && WrapperOk(view.wrappers[h]) && PlainWithin(Standing(view.wrappers[h]), view.ids)
    ensures Abs(raw, view)[h] == Standing(view.wrappers[h])
  {
    assert ContainerOk(raw, view, h);
  }

  /** What the operation hands out are containers of this view, so it can always be carried out. */
  lemma HandedAreKnown(raw: Store, view: View, h: nat, op: Operation, cloned: Store)
    requires ViewOk(raw, view) && h in view.wrappers && Applicable(view.wrappers[h], op) && Allocated(raw, cloned, op)
    ensures WrapperOk(view.wrappers[h]) && PlainWithin(Standing(Operate(view.wrappers[h], op).0), view.ids + cloned.Keys)
    ensures Handed(Operate(view.wrappers[h], op).1) <= view.ids + cloned.Keys
  {
    var w, ids := view.wrappers[h], view.ids + cloned.Keys;
    WrapperStands(raw, view, h);
    hide Operate, OperatePlainly, Standing, WrapperOk, PlainWithin, ViewOk, AnswerWithin, SameAnswer, Handed, PlainApplicable;
    OperationRefines(w, op);
    WithinMore(Standing(w), view.ids, ids);
    PlainStaysWithin(Standing(w), op, ids);
    HandedWithin(Operate(w, op).1, OperatePlainly(Standing(w), op).1, ids);
  }

  lemma KnownNodes(raw: Store, view: View, cloned: Store, id: nat)
    requires ViewOk(raw, view) && WellFormed(cloned) && cloned.Keys !! raw.Keys && id in view.ids + cloned.Keys
    ensures id in raw + cloned && NodeWellFormed(raw + cloned, (raw + cloned)[id])
    ensures PlainWithin(PlainOf((raw + cloned)[id]), view.ids + cloned.Keys)
    ensures id in view.ids ==> (raw + cloned)[id] == raw[id]
    ensures id in cloned ==> (raw + cloned)[id] == cloned[id]
  {
    if id in cloned {
      CloneLives(raw, cloned, id);
      hide PlainWithin, PlainOf;
      WithinMore(PlainOf(cloned[id]), cloned.Keys, view.ids + cloned.Keys);
    } else {
      assert ContainerOk(raw, view, id);
      NodeOutlives(raw, cloned, id);
      hide PlainWithin, PlainOf;
      WithinMore(PlainOf(raw[id]), view.ids, view.ids + cloned.Keys);
    }
  }

  lemma ActionsNeverStick(world: World, v: nat, h: nat, op: Operation, cloned: Store)
    requires WorldOk(world) && v < |world.views| && h in world.views[v].wrappers
    requires Applicable(world.views[v].wrappers[h], op) && Allocated(world.raw, cloned, op)
    ensures exists world', answer :: Acts(world, world', v, h, op, cloned, answer)
  {
    var view := world.views[v];
    assert ViewOk(world.raw, view);
    hide *;
    AllocatedParts(world.raw, cloned, op);
    HandedAreKnown(world.raw, view, h, op, cloned);
    WrapperIsOk(view.wrappers[h]);
    var (w', reply) := Operate(view.wrappers[h], op);
    HandedNodesKnown(world.raw, view, cloned, Handed(reply));
    KnownAreShaped(world.raw + cloned, Handed(reply));
    ActionFits(world, v, h, op, cloned);
    var world' := World(world.raw + cloned, world.views[v := After(world.raw, view, h, w', Handed(reply), cloned)]);
    assert Acts(world, world', v, h, op, cloned, reply);
  }

  lemma WrapperIsOk(w: Wrapper)
    requires WrapperOk(w)
    ensures w.DictWrapper? ==> OverlayOk(w.overlay)
  {
  }

  /** The parts of an action, put together. */
  lemma ActionFits(world: World, v: nat, h: nat, op: Operation, cloned: Store)
    requires v < |world.views| && h in world.views[v].wrappers && Applicable(world.views[v].wrappers[h], op)
    requires WrapperOk(world.views[v].wrappers[h]) && Allocated(world.raw, cloned, op)
    requires AllKnown(world.raw + cloned, Handed(Operate(world.views[v].wrappers[h], op).1))
    ensures var view := world.views[v]; var (w', reply) := Operate(view.wrappers[h], op);
      (forall id <- Handed(reply) :: id in world.raw + cloned &&
        ((world.raw + cloned)[id].DictNode? ==> |(world.raw + cloned)[id].keys| == |(world.raw + cloned)[id].items|)) &&
      Acts(world, World(world.raw + cloned, world.views[v := After(world.raw, view, h, w', Handed(reply), cloned)]), v, h, op, cloned, reply)
  {
    KnownAreShaped(world.raw + cloned, Handed(Operate(world.views[v].wrappers[h], op).1));
    hide After, AllKnown, Operate, Allocated, Applicable, Handed;
  }

  lemma AllocatedParts(raw: Store, cloned: Store, op: Operation)
    requires Allocated(raw, cloned, op)
    ensures WellFormed(cloned) && cloned.Keys !! raw.Keys
  {
  }

  lemma KnownAreShaped(raw: Store, ids: set<nat>)
    requires AllKnown(raw, ids)
    ensures forall id <- ids :: id in raw && (raw[id].DictNode? ==> |raw[id].keys| == |raw[id].items|)
  {
  }

  lemma HandedNodesKnown(raw: Store, view: View, cloned: Store, handed: set<nat>)
    requires ViewOk(raw, view) && WellFormed(cloned) && cloned.Keys !! raw.Keys && handed <= view.ids + cloned.Keys
    ensures AllKnown(raw + cloned, handed)
  {
    hide ViewOk, NodeWellFormed, WellFormed;
    forall id <- handed ensures id in raw + cloned && NodeWellFormed(raw + cloned, (raw + cloned)[id]) {
      KnownNodes(raw, view, cloned, id);
    }
  }

  /** The plain world in which every view is a deep copy of its own. */
  type PlainWorld = seq<map<nat, Plain>>

  function Deepened(plain: map<nat, Plain>, cloned: Store): map<nat, Plain>
    requires WellFormed(cloned)
  {
    plain + PlainCopies(cloned)
  }

  ghost predicate ActsPlainly(plain: PlainWorld, plain': PlainWorld, v: nat, h: nat, op: Operation, cloned: Store, answer: Answer<Value>) {
    && v < |plain| && h in plain[v] && WellFormed(cloned)
    && PlainApplicable(plain[v][h], op) && (plain[v][h].Dict? ==> OrderedOk(plain[v][h].d))
    && answer == OperatePlainly(plain[v][h], op).1
    && plain' == plain[v := Deepened(plain[v], cloned)[h := OperatePlainly(plain[v][h], op).0]]
  }

  ghost function AllAbs(world: World): PlainWorld
    requires WorldOk(world)
  {
    seq(|world.views|, v requires 0 <= v < |world.views| => Abs(world.raw, world.views[v]))
  }

  ghost predicate Replaceable(raw: Store, view: View, h: nat, w': Wrapper, handed: set<nat>, cloned: Store) {
    && ViewOk(raw, view) && h in view.wrappers && WellFormed(cloned) && cloned.Keys !! raw.Keys
    && WrapperOk(w') && PlainWithin(Standing(w'), view.ids + cloned.Keys)
    && handed <= view.ids + cloned.Keys
    && AllKnown(raw + cloned, handed)
  }

  lemma OneContainerAfter(raw: Store, view: View, h: nat, w': Wrapper, handed: set<nat>, cloned: Store, id: nat)
    requires Replaceable(raw, view, h, w', handed, cloned) && id in view.ids + cloned.Keys
    ensures ContainerOk(raw + cloned, After(raw, view, h, w', handed, cloned), id)
    ensures id in view.ids || id in cloned
    ensures StandsFor(raw + cloned, After(raw, view, h, w', handed, cloned), id)
      == if id == h then Standing(w') else Deepened(Abs(raw, view), cloned)[id]
  {
    hide NodeWellFormed, PlainOf, Standing, PlainWithin, WrapperOk, Fresh;
    assert id in view.ids ==> ContainerOk(raw, view, id);
    KnownNodes(raw, view, cloned, id);
    FreshStandsForNode(raw + cloned, (raw + cloned)[id]);
    if id in view.wrappers {
      WrapperStands(raw, view, id);
      WithinMore(Standing(view.wrappers[id]), view.ids, view.ids + cloned.Keys);
    }
  }

  lemma AfterShape(raw: Store, view: View, h: nat, w': Wrapper, handed: set<nat>, cloned: Store)
    requires Replaceable(raw, view, h, w', handed, cloned)
    ensures After(raw, view, h, w', handed, cloned).ids == view.ids + cloned.Keys
    ensures forall id <- After(raw, view, h, w', handed, cloned).wrappers :: id in view.ids + cloned.Keys
    ensures Deepened(Abs(raw, view), cloned)[h := Standing(w')].Keys == view.ids + cloned.Keys
  {
    WrapperStands(raw, view, h);
    hide ContainerOk, StandsFor, WellFormed, PlainWithin, WrapperOk, NodeWellFormed, PlainOf, Fresh, Standing;
    assert Abs(raw, view).Keys == view.ids;
  }

  lemma AbsIs(raw: Store, view: View, plain: map<nat, Plain>)
    requires WellFormed(raw) && (forall id <- view.wrappers :: id in view.ids) && plain.Keys == view.ids
    requires forall id <- view.ids :: ContainerOk(raw, view, id) && StandsFor(raw, view, id) == plain[id]
    ensures ViewOk(raw, view) && Abs(raw, view) == plain
  {
    hide ContainerOk, StandsFor, WellFormed;
  }

  lemma ViewAfter(raw: Store, view: View, h: nat, w': Wrapper, handed: set<nat>, cloned: Store)
    requires Replaceable(raw, view, h, w', handed, cloned)
    ensures ViewOk(raw + cloned, After(raw, view, h, w', handed, cloned))
    ensures Abs(raw + cloned, After(raw, view, h, w', handed, cloned)) == Deepened(Abs(raw, view), cloned)[h := Standing(w')]
  {
    ReplaceableParts(raw, view, h, w', handed, cloned);
    hide *;
    StoresJoin(raw, cloned);
    AfterShape(raw, view, h, w', handed, cloned);
    var view' := After(raw, view, h, w', handed, cloned);
    var plain := Deepened(Abs(raw, view), cloned)[h := Standing(w')];
    forall id <- view'.ids ensures ContainerOk(raw + cloned, view', id) && StandsFor(raw + cloned, view', id) == plain[id] {
      OneContainerAfter(raw, view, h, w', handed, cloned, id);
    }
    AbsIs(raw + cloned, view', plain);
  }

  lemma ReplaceableParts(raw: Store, view: View, h: nat, w': Wrapper, handed: set<nat>, cloned: Store)
    requires Replaceable(raw, view, h, w', handed, cloned)
    ensures ViewOk(raw, view) && WellFormed(raw) && WellFormed(cloned) && cloned.Keys !! raw.Keys
    ensures forall id <- handed :: id in raw + cloned && ((raw + cloned)[id].DictNode? ==> |(raw + cloned)[id].keys| == |(raw + cloned)[id].items|)
  {
  }

  /** The view acted on: its new state is well formed and stands for the plain result. */
  lemma ActingViewRefines(world: World, world': World, v: nat, h: nat, op: Operation, cloned: Store, answer: Answer<Slot>)
    requires WorldOk(world) && Acts(world, world', v, h, op, cloned, answer)
    ensures ViewOk(world'.raw, world'.views[v])
    ensures var plain := Abs(world.raw, world.views[v]);
      && h in plain && PlainApplicable(plain[h], op) && (plain[h].Dict? ==> OrderedOk(plain[h].d))
      && SameAnswer(answer, OperatePlainly(plain[h], op).1)
      && Abs(world'.raw, world'.views[v]) == Deepened(plain, cloned)[h := OperatePlainly(plain[h], op).0]
  {
    var raw, view := world.raw, world.views[v];
    assert ViewOk(raw, view);
    hide WorldOk, ViewOk, WrapperOk, PlainWithin, NodeWellFormed, WellFormed, Handed, Operate, OperatePlainly, PlainApplicable, SameAnswer, Standing, Opened;
    WrapperStands(raw, view, h);
    OperationRefines(view.wrappers[h], op);
    HandedAreKnown(raw, view, h, op, cloned);
    var (w', reply) := Operate(view.wrappers[h], op);
    assert Replaceable(raw, view, h, w', Handed(reply), cloned);
    ViewAfter(raw, view, h, w', Handed(reply), cloned);
  }

  /** One operation on one view: exactly that view changes, as its own deep copy would, the reply is the plain one
      with containers handed out only as wrappers, and no raw container that existed has changed. */
  lemma ActionRefines(world: World, world': World, v: nat, h: nat, op: Operation, cloned: Store, answer: Answer<Slot>)
    requires WorldOk(world) && Acts(world, world', v, h, op, cloned, answer)
    ensures WorldOk(world') && Extends(world.raw, world'.raw)
    ensures exists plain :: ActsPlainly(AllAbs(world), AllAbs(world'), v, h, op, cloned, plain) && SameAnswer(answer, plain)
  {
    ActingViewRefines(world, world', v, h, op, cloned, answer);
    hide ViewOk, Abs, SameAnswer, OperatePlainly, PlainApplicable, Deepened, Operate, Opened, Handed, NodeWellFormed, WellFormed, WrapperOk, Applicable;
    RestUnchanged(world, world', v, h, op, cloned, answer);
    var plain := OperatePlainly(AllAbs(world)[v][h], op).1;
    assert ActsPlainly(AllAbs(world), AllAbs(world'), v, h, op, cloned, plain);
  }

  lemma RestUnchanged(world: World, world': World, v: nat, h: nat, op: Operation, cloned: Store, answer: Answer<Slot>)
    requires WorldOk(world) && Acts(world, world', v, h, op, cloned, answer) && ViewOk(world'.raw, world'.views[v])
    ensures WorldOk(world') && Extends(world.raw, world'.raw) && WellFormed(cloned)
    ensures AllAbs(world') == AllAbs(world)[v := Abs(world'.raw, world'.views[v])]
  {
    hide ViewOk, Abs, Operate, Opened, Handed, NodeWellFormed, WrapperOk, Applicable, WellFormed;
    forall u | 0 <= u < |world'.views| && u != v
      ensures ViewOk(world'.raw, world'.views[u]) && Abs(world'.raw, world'.views[u]) == Abs(world.raw, world.views[u])
    {
      OtherViewsUnchanged(world.raw, world.views[u], cloned);
    }
  }

  // ---- Opening views -------------------------------------------------------------------------

  ghost function Snapshot(raw: Store, ids: set<nat>): map<nat, Plain>
    requires WellFormed(raw) && ids <= raw.Keys
  {
    map id | id in ids :: (assert NodeWellFormed(raw, raw[id]); PlainOf(raw[id]))
  }

  /** A snapshot: a closed set of containers with a root. */
  ghost predicate IsSnapshot(raw: Store, ids: set<nat>, root: nat) {
    && WellFormed(raw) && root in ids && ids <= raw.Keys
    && forall id <- ids :: PlainWithin(Snapshot(raw, ids)[id], ids)
  }

  function Opening(raw: Store, ids: set<nat>, root: nat): View
    requires root in raw && (raw[root].DictNode? ==> |raw[root].keys| == |raw[root].items|)
  {
    View(ids, map[root := Fresh(raw[root])])
  }

  lemma OpeningStands(raw: Store, ids: set<nat>, root: nat)
    requires IsSnapshot(raw, ids, root)
    ensures NodeWellFormed(raw, raw[root])
    ensures ViewOk(raw, Opening(raw, ids, root)) && Abs(raw, Opening(raw, ids, root)) == Snapshot(raw, ids)
  {
    assert NodeWellFormed(raw, raw[root]);
    FreshStandsForNode(raw, raw[root]);
    var view := Opening(raw, ids, root);
    forall id <- ids ensures ContainerOk(raw, view, id) && StandsFor(raw, view, id) == Snapshot(raw, ids)[id] {
      assert NodeWellFormed(raw, raw[id]) && PlainWithin(Snapshot(raw, ids)[id], ids);
    }
    hide ContainerOk, StandsFor, PlainWithin, PlainOf;
  }

  // ---- Runs ----------------------------------------------------------------------------------

  datatype Action =
    | OpenView(ids: set<nat>, root: nat)
    | OperateOn(view: nat, handle: nat, op: Operation, cloned: Store)

  ghost predicate Next(world: World, world': World, action: Action, answer: Answer<Slot>) {
    match action
    case OpenView(ids, root) =>
      && IsSnapshot(world.raw, ids, root) && NodeWellFormed(world.raw, world.raw[root]) && answer.Nothing?
      && world' == World(world.raw, world.views + [Opening(world.raw, ids, root)])
    case OperateOn(v, h, op, cloned) => Acts(world, world', v, h, op, cloned, answer)
  }

  /** The same action where every view has been given a deep copy of the snapshot it opens. */
  ghost predicate NextPlainly(snapshot: Store, plain: PlainWorld, plain': PlainWorld, action: Action, answer: Answer<Value>) {
    match action
    case OpenView(ids, root) =>
      WellFormed(snapshot) && ids <= snapshot.Keys && answer.Nothing? && plain' == plain + [Snapshot(snapshot, ids)]
    case OperateOn(v, h, op, cloned) => ActsPlainly(plain, plain', v, h, op, cloned, answer)
  }

  ghost predicate Run(snapshot: Store, worlds: seq<World>, actions: seq<Action>, answers: seq<Answer<Slot>>) {
    && |worlds| == |actions| + 1 && |answers| == |actions| && worlds[0] == World(snapshot, [])
    && forall i :: 0 <= i < |actions| ==>
         Next(worlds[i], worlds[i + 1], actions[i], answers[i]) && (actions[i].OpenView? ==> actions[i].ids <= snapshot.Keys)
  }

  lemma StepSimulates(snapshot: Store, world: World, world': World, action: Action, answer: Answer<Slot>)
    requires WorldOk(world) && Extends(snapshot, world.raw) && WellFormed(snapshot) && Next(world, world', action, answer)
    requires action.OpenView? ==> action.ids <= snapshot.Keys
    ensures WorldOk(world') && Extends(snapshot, world'.raw)
    ensures exists plain :: NextPlainly(snapshot, AllAbs(world), AllAbs(world'), action, plain) && SameAnswer(answer, plain)
  {
    match action {
      case OpenView(ids, root) =>
        OpeningStands(world.raw, ids, root);
        hide ViewOk, Abs, IsSnapshot;
        SameSnapshot(snapshot, world.raw, ids);
        assert AllAbs(world') == AllAbs(world) + [Snapshot(world.raw, ids)];
        var plain: Answer<Value> := Nothing;
        assert NextPlainly(snapshot, AllAbs(world), AllAbs(world'), action, plain);
      case OperateOn(v, h, op, cloned) =>
        hide WorldOk, Acts, ActsPlainly, SameAnswer, AllAbs;
        ActionRefines(world, world', v, h, op, cloned, answer);
        var plain :| ActsPlainly(AllAbs(world), AllAbs(world'), v, h, op, cloned, plain) && SameAnswer(answer, plain);
        assert NextPlainly(snapshot, AllAbs(world), AllAbs(world'), action, plain);
    }
  }

  lemma SameSnapshot(snapshot: Store, raw: Store, ids: set<nat>)
    requires WellFormed(snapshot) && WellFormed(raw) && Extends(snapshot, raw) && ids <= snapshot.Keys
    ensures ids <= raw.Keys && Snapshot(raw, ids) == Snapshot(snapshot, ids)
  {
  }

  lemma {:induction false} EveryWorldIsOk(snapshot: Store, worlds: seq<World>, actions: seq<Action>, answers: seq<Answer<Slot>>, i: nat)
    requires WellFormed(snapshot) && Run(snapshot, worlds, actions, answers) && i < |worlds|
    ensures WorldOk(worlds[i]) && Extends(snapshot, worlds[i].raw)
  {
    if i > 0 {
      EveryWorldIsOk(snapshot, worlds, actions, answers, i - 1);
      hide WorldOk, Next, Extends, NextPlainly, SameAnswer, AllAbs;
      StepSimulates(snapshot, worlds[i - 1], worlds[i], actions[i - 1], answers[i - 1]);
    }
  }

  /** Every view behaves as its own deep copy. Over any interleaving of operations on any number of views and
      handles, the plain containers the views stand for go through exactly the run that separate deep copies go
      through, with the same replies; no reply hands out a raw container, and the snapshot is never changed. */
  lemma ViewsAreDeepCopies(snapshot: Store, worlds: seq<World>, actions: seq<Action>, answers: seq<Answer<Slot>>, i: nat)
    requires WellFormed(snapshot) && Run(snapshot, worlds, actions, answers) && i < |actions|
    ensures WorldOk(worlds[i]) && WorldOk(worlds[i + 1]) && Extends(snapshot, worlds[i + 1].raw)
    ensures exists plain ::
      NextPlainly(snapshot, AllAbs(worlds[i]), AllAbs(worlds[i + 1]), actions[i], plain) && SameAnswer(answers[i], plain)
    ensures answers[i].Told? ==> forall slot <- answers[i].values :: !Escapes(slot)
  {
    hide WorldOk, Next, Extends, NextPlainly, AllAbs;
    EveryWorldIsOk(snapshot, worlds, actions, answers, i);
    StepSimulates(snapshot, worlds[i], worlds[i + 1], actions[i], answers[i]);
  }

  // ---- Clones are snapshots ------------------------------------------------------------------

  /** The containers of a clone. */
  function Block(lo: nat, hi: nat): set<nat>
    requires lo <= hi
  {
    set id <- Range(lo, hi)
  }

  lemma CloneRefersInside(before: Store, v: Value, after: Store, w: Value, depth: nat, lo: nat, hi: nat, id: nat)
    requires Copied(before, v, after, w, depth, lo, hi) && id in Block(lo, hi)
    ensures id in after && RefsWithin(after[id].items, Block(lo, hi))
  {
    VisitsClosed(after, w, depth, id);
  }

  /** A validated object is a snapshot that views can be opened on. */
  lemma CloneIsSnapshot(before: Store, v: Value, after: Store, w: Value, lo: nat, hi: nat)
    requires Copied(before, v, after, w, 0, lo, hi) && w.Ref? && WellFormed(after)
    ensures IsSnapshot(after, Block(lo, hi), w.id)
  {
    var ids := Block(lo, hi);
    forall id <- ids ensures id in after && RefsWithin(after[id].items, ids) {
      CloneRefersInside(before, v, after, w, 0, lo, hi, id);
    }
    assert w.id == Visits(after, w, 0)[0] == Range(lo, hi)[0];
    forall id <- ids ensures PlainWithin(Snapshot(after, ids)[id], ids) {
      ItemsWithin(after, id, ids);
    }
  }

  lemma ItemsWithin(raw: Store, id: nat, ids: set<nat>)
    requires WellFormed(raw) && id in ids && ids <= raw.Keys && RefsWithin(raw[id].items, ids)
    ensures PlainWithin(Snapshot(raw, ids)[id], ids)
  {
    var node := raw[id];
    assert NodeWellFormed(raw, node);
    if node.DictNode? {
      forall k <- OrderedOf(node).values ensures ItemOf(node, k) in node.items {
      }
    }
  }

  function Restricted(nodes: Store, ids: set<nat>): Store {
    map id | id in nodes && id in ids :: nodes[id]
  }

  /** The containers of several copies made one after the other refer only to each other. */
  lemma CopiesReferInside(after: Store, copies: seq<Value>, depth: nat, lo: nat, hi: nat, id: nat)
    requires lo <= hi && (forall j :: 0 <= j < |copies| ==> IsJsonAt(after, copies[j], depth))
    requires VisitsAll(after, copies, depth) == Range(lo, hi) && id in Block(lo, hi)
    ensures id in after && RefsWithin(after[id].items, Block(lo, hi))
  {
    VisitsAllJoin(after, copies, depth, id);
    var i :| 0 <= i < |copies| && id in Visits(after, copies[i], depth);
    VisitsClosed(after, copies[i], depth, id);
    forall c <- after[id].items | c.Ref? ensures c.id in Block(lo, hi) {
      VisitsAllJoin(after, copies, depth, c.id);
    }
  }

  lemma CopiesInside(after: Store, copies: seq<Value>, depth: nat, lo: nat, hi: nat)
    requires lo <= hi && (forall j :: 0 <= j < |copies| ==> IsJsonAt(after, copies[j], depth))
    requires VisitsAll(after, copies, depth) == Range(lo, hi)
    ensures RefsWithin(copies, Block(lo, hi))
  {
    forall c <- copies | c.Ref? ensures c.id in Block(lo, hi) {
      var i :| 0 <= i < |copies| && copies[i] == c;
      assert Visits(after, c, depth)[0] == c.id;
      VisitsAllJoin(after, copies, depth, c.id);
    }
  }

  /** What cloning the inserted values, however many, allocates is exactly what an operation may add to a view. */
  lemma CopiesAreAllocated(before: Store, after: Store, copies: seq<Value>, depth: nat, lo: nat, hi: nat, op: Operation)
    requires lo <= hi && Sane(before, lo) && WellFormed(after) && Inserted(op) == copies
    requires forall j :: 0 <= j < |copies| ==> IsJsonAt(after, copies[j], depth)
    requires VisitsAll(after, copies, depth) == Range(lo, hi)
    ensures Allocated(before, Restricted(after, Block(lo, hi)), op)
  {
    var ids := Block(lo, hi);
    var cloned := Restricted(after, ids);
    CopiesInside(after, copies, depth, lo, hi);
    forall id <- ids ensures id in after && RefsWithin(after[id].items, ids) {
      CopiesReferInside(after, copies, depth, lo, hi, id);
    }
    assert cloned.Keys == ids;
    forall id <- cloned ensures NodeWellFormed(cloned, cloned[id]) {
      assert NodeWellFormed(after, after[id]);
    }
  }

  /** One inserted value: assignment, insertion, appending, a default. */
  lemma CloneIsAllocated(before: Store, v: Value, after: Store, w: Value, lo: nat, hi: nat, op: Operation)
    requires Sane(before, lo) && Copied(before, v, after, w, 0, lo, hi) && WellFormed(after) && Inserted(op) == [w]
    ensures Allocated(before, Restricted(after, Block(lo, hi)), op)
  {
    assert [w][..0] == [];
    assert VisitsAll(after, [w], 0) == [] + Visits(after, w, 0);
    CopiesAreAllocated(before, after, [w], 0, lo, hi, op);
  }

  /** Several values, each cloned on its own, in adjacent blocks: extending a list. */
  lemma ExtensionIsAllocated(before: Store, values: seq<Value>, after: Store, copies: seq<Value>, lo: nat, hi: nat)
    requires Sane(before, lo) && WellFormed(after) && CopiedPrefix(before, values, after, copies, 0, lo, hi)
    ensures Allocated(before, Restricted(after, Block(lo, hi)), OnList(Extend(copies)))
  {
    ItemsAreJson(before, values, after, copies, 0, lo, hi);
    CopiesAreAllocated(before, after, copies, 0, lo, hi, OnList(Extend(copies)));
  }

  /** The values of a dictionary that was cloned as a whole and then dropped: updating a dictionary. */
  lemma UpdateIsAllocated(before: Store, id: nat, after: Store, copy: nat, lo: nat, hi: nat)
    requires Sane(before, lo) && WellFormed(after) && id in before && Copied(before, Ref(id), after, Ref(copy), 0, lo, hi)
    requires after[copy].DictNode?
    ensures copy == lo < hi
    ensures Allocated(before, Restricted(after, Block(lo + 1, hi)), OnDict(UpdateAll(after[copy].keys, after[copy].items)))
  {
    var items := after[copy].items;
    var all := VisitsAll(after, items, 1);
    assert ([copy] + all)[0] == copy && Visits(after, Ref(copy), 0) == [copy] + all;
    assert Range(lo, hi)[0] == lo;
    assert Range(lo + 1, hi) == Range(lo, hi)[1..] == all;
    assert Sane(before, lo + 1);
    CopiesAreAllocated(before, after, items, 1, lo + 1, hi, OnDict(UpdateAll(after[copy].keys, items)));
  }
}
