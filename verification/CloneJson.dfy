/** Validation and cloning of arbitrary object graphs, with sharing and cycles, as JSON. */
module CloneJson {
  const MAX_JSON_DEPTH: nat := 64

  datatype Scalar = Null | Bool(b: bool) | Int(n: int) | Str(s: string) | Float(value: real) | NonFinite

  /** What a variable can hold: a scalar, a list or dict by reference, or some other object. */
  datatype Value = Plain(scalar: Scalar) | Ref(id: nat) | Foreign(kind: string)

  datatype Key = Text(text: string) | OtherKey(code: nat)

  /** Containers by name. Dicts keep their insertion order; a name is never used again. */
  datatype Node = ListNode(items: seq<Value>) | DictNode(keys: seq<Key>, items: seq<Value>)

  type Store = map<nat, Node>

  ghost predicate WellFormed(nodes: Store) {
    forall id <- nodes :: NodeWellFormed(nodes, nodes[id])
  }

  ghost predicate Sane(nodes: Store, next: nat) {
    WellFormed(nodes) && forall id <- nodes :: id < next
  }

  ghost predicate NodeWellFormed(nodes: Store, node: Node) {
    && (node.DictNode? ==> |node.keys| == |node.items|)
    && (node.DictNode? ==> forall i, j :: 0 <= i < j < |node.keys| ==> node.keys[i] != node.keys[j])
    && (forall v <- node.items :: Held(nodes, v))
  }

  ghost predicate Held(nodes: Store, v: Value) {
    v.Ref? ==> v.id in nodes
  }

  // ---- The validator -----------------------------------------------------------------------

  predicate KeysAreText(node: Node) {
    node.DictNode? ==> forall k <- node.keys :: k.Text?
  }

  /** The separate validator: pure recursion on depth, no record of the containers on the way. */
  predicate IsJsonAt(nodes: Store, v: Value, depth: nat)
    decreases if depth < MAX_JSON_DEPTH then MAX_JSON_DEPTH - depth else 0
  {
    match v
    case Plain(scalar) => !scalar.NonFinite?
    case Foreign(_) => false
    case Ref(id) =>
      && id in nodes && depth < MAX_JSON_DEPTH && KeysAreText(nodes[id])
      && forall i :: 0 <= i < |nodes[id].items| ==> IsJsonAt(nodes, nodes[id].items[i], depth + 1)
  }

  /** JSON as a tree, with no identities left. */
  datatype Json = Leaf(scalar: Scalar) | Array(elements: seq<Json>) | Object(names: seq<Key>, members: seq<Json>)

  function Meaning(nodes: Store, v: Value, depth: nat): Json
    requires IsJsonAt(nodes, v, depth)
    decreases MAX_JSON_DEPTH - if depth < MAX_JSON_DEPTH then depth else MAX_JSON_DEPTH
  {
    match v
    case Plain(scalar) => Leaf(scalar)
    case Ref(id) =>
      var node := nodes[id];
      var members := seq(|node.items|, i requires 0 <= i < |node.items| => Meaning(nodes, node.items[i], depth + 1));
      if node.ListNode? then Array(members) else Object(node.keys, members)
  }

  /** The containers a walk of the value meets, in order, repeated as often as they are met. */
  function Visits(nodes: Store, v: Value, depth: nat): seq<nat>
    requires IsJsonAt(nodes, v, depth)
    decreases if depth < MAX_JSON_DEPTH then MAX_JSON_DEPTH - depth else 0, 1, 0
  {
    match v
    case Plain(_) => []
    case Ref(id) => [id] + VisitsAll(nodes, nodes[id].items, depth + 1)
  }

  function VisitsAll(nodes: Store, items: seq<Value>, depth: nat): seq<nat>
    requires forall i :: 0 <= i < |items| ==> IsJsonAt(nodes, items[i], depth)
    decreases if depth < MAX_JSON_DEPTH then MAX_JSON_DEPTH - depth else 0, 2, |items|
  {
    if items == [] then []
    else VisitsAll(nodes, items[..|items| - 1], depth) + Visits(nodes, items[|items| - 1], depth)
  }

  function Range(lo: nat, hi: nat): seq<nat>
    requires lo <= hi
  {
    seq(hi - lo, i requires 0 <= i < hi - lo => lo + i)
  }

  predicate OnlyScalars(items: seq<Value>) {
    forall i :: 0 <= i < |items| ==> !items[i].Ref?
  }

  // ---- Depth and cycles --------------------------------------------------------------------

  /** A value accepted at one depth is accepted at every smaller one, with the same meaning. */
  lemma {:induction false} ShallowerIsJson(nodes: Store, v: Value, shallow: nat, deep: nat)
    requires shallow <= deep && IsJsonAt(nodes, v, deep)
    ensures IsJsonAt(nodes, v, shallow) && Meaning(nodes, v, shallow) == Meaning(nodes, v, deep)
    decreases if deep < MAX_JSON_DEPTH then MAX_JSON_DEPTH - deep else 0
  {
    if v.Ref? {
      forall i | 0 <= i < |nodes[v.id].items|
        ensures IsJsonAt(nodes, nodes[v.id].items[i], shallow + 1)
        ensures Meaning(nodes, nodes[v.id].items[i], shallow + 1) == Meaning(nodes, nodes[v.id].items[i], deep + 1)
      {
        ShallowerIsJson(nodes, nodes[v.id].items[i], shallow + 1, deep + 1);
      }
    }
  }

  /** v is met after n steps down from u. */
  ghost predicate Reaches(nodes: Store, u: Value, v: Value, n: nat)
    decreases n
  {
    if n == 0 then u == v
    else u.Ref? && u.id in nodes && exists w :: w in nodes[u.id].items && Reaches(nodes, w, v, n - 1)
  }

  lemma {:induction false} ReachesOneMore(nodes: Store, u: Value, v: Value, w: Value, n: nat)
    requires Reaches(nodes, u, v, n) && v.Ref? && v.id in nodes && w in nodes[v.id].items
    ensures Reaches(nodes, u, w, n + 1)
    decreases n
  {
    if n == 0 {
      assert Reaches(nodes, w, w, 0);
    } else {
      var x :| x in nodes[u.id].items && Reaches(nodes, x, v, n - 1);
      ReachesOneMore(nodes, x, v, w, n - 1);
    }
  }

  lemma {:induction false} JsonAllTheWayDown(nodes: Store, u: Value, v: Value, n: nat, depth: nat)
    requires Reaches(nodes, u, v, n) && IsJsonAt(nodes, u, depth)
    ensures IsJsonAt(nodes, v, depth + n)
    decreases n
  {
    if n > 0 {
      var x :| x in nodes[u.id].items && Reaches(nodes, x, v, n - 1);
      var i :| 0 <= i < |nodes[u.id].items| && nodes[u.id].items[i] == x;
      JsonAllTheWayDown(nodes, x, v, n - 1, depth + 1);
    }
  }

  /** The depth limit alone rejects every cycle. */
  lemma {:induction false} CyclesAreNotJson(nodes: Store, v: Value, n: nat, depth: nat)
    requires v.Ref? && n > 0 && Reaches(nodes, v, v, n)
    ensures !IsJsonAt(nodes, v, depth)
    decreases if depth < MAX_JSON_DEPTH then MAX_JSON_DEPTH - depth else 0
  {
    if depth < MAX_JSON_DEPTH && IsJsonAt(nodes, v, depth) {
      JsonAllTheWayDown(nodes, v, v, n, depth);
      CyclesAreNotJson(nodes, v, n, depth + n);
    }
  }

  // ---- Allocation does not disturb what exists ----------------------------------------------

  ghost predicate Extends(nodes: Store, nodes': Store) {
    forall id <- nodes :: id in nodes' && nodes'[id] == nodes[id]
  }

  lemma {:induction false} ExtensionKeepsJson(nodes: Store, nodes': Store, v: Value, depth: nat)
    requires WellFormed(nodes) && Extends(nodes, nodes') && Held(nodes, v)
    ensures IsJsonAt(nodes', v, depth) == IsJsonAt(nodes, v, depth)
    decreases if depth < MAX_JSON_DEPTH then MAX_JSON_DEPTH - depth else 0
  {
    if v.Ref? && depth < MAX_JSON_DEPTH {
      assert NodeWellFormed(nodes, nodes[v.id]);
      forall i | 0 <= i < |nodes[v.id].items|
        ensures IsJsonAt(nodes', nodes[v.id].items[i], depth + 1) == IsJsonAt(nodes, nodes[v.id].items[i], depth + 1)
      {
        assert Held(nodes, nodes[v.id].items[i]);
        ExtensionKeepsJson(nodes, nodes', nodes[v.id].items[i], depth + 1);
      }
    }
  }

  lemma {:induction false} ExtensionKeepsMeaning(nodes: Store, nodes': Store, v: Value, depth: nat)
    requires Extends(nodes, nodes') && IsJsonAt(nodes, v, depth) && IsJsonAt(nodes', v, depth)
    ensures Meaning(nodes', v, depth) == Meaning(nodes, v, depth)
    decreases if depth < MAX_JSON_DEPTH then MAX_JSON_DEPTH - depth else 0
  {
    if v.Ref? {
      forall i | 0 <= i < |nodes[v.id].items|
        ensures Meaning(nodes', nodes[v.id].items[i], depth + 1) == Meaning(nodes, nodes[v.id].items[i], depth + 1)
      {
        ExtensionKeepsMeaning(nodes, nodes', nodes[v.id].items[i], depth + 1);
      }
    }
  }

  lemma {:induction false} ExtensionKeepsVisits(nodes: Store, nodes': Store, v: Value, depth: nat)
    requires Extends(nodes, nodes') && IsJsonAt(nodes, v, depth) && IsJsonAt(nodes', v, depth)
    ensures Visits(nodes', v, depth) == Visits(nodes, v, depth)
    decreases if depth < MAX_JSON_DEPTH then MAX_JSON_DEPTH - depth else 0, 1, 0
  {
    if v.Ref? {
      ExtensionKeepsAllVisits(nodes, nodes', nodes[v.id].items, depth + 1);
    }
  }

  lemma {:induction false} ExtensionKeepsAllVisits(nodes: Store, nodes': Store, items: seq<Value>, depth: nat)
    requires Extends(nodes, nodes')
    requires forall i :: 0 <= i < |items| ==> IsJsonAt(nodes, items[i], depth) && IsJsonAt(nodes', items[i], depth)
    ensures VisitsAll(nodes', items, depth) == VisitsAll(nodes, items, depth)
    decreases if depth < MAX_JSON_DEPTH then MAX_JSON_DEPTH - depth else 0, 2, |items|
  {
    if items != [] {
      ExtensionKeepsAllVisits(nodes, nodes', items[..|items| - 1], depth);
      ExtensionKeepsVisits(nodes, nodes', items[|items| - 1], depth);
    }
  }

  lemma {:induction false} ExtensionKeepsReach(nodes: Store, nodes': Store, u: Value, v: Value, n: nat)
    requires Extends(nodes, nodes') && Reaches(nodes, u, v, n)
    ensures Reaches(nodes', u, v, n)
    decreases n
  {
    if n > 0 {
      var x :| x in nodes[u.id].items && Reaches(nodes, x, v, n - 1);
      ExtensionKeepsReach(nodes, nodes', x, v, n - 1);
    }
  }

  /** New containers only got new identities. */
  ghost predicate NewFrom(nodes: Store, nodes': Store, lo: nat) {
    Extends(nodes, nodes') && forall id <- nodes' :: id in nodes || lo <= id
  }

  lemma NewFromLater(a: Store, b: Store, c: Store, lo: nat, hi: nat)
    requires NewFrom(a, b, lo) && NewFrom(b, c, hi) && lo <= hi
    ensures NewFrom(a, c, lo)
  {
  }

  // ---- Copies ------------------------------------------------------------------------------

  /** w is a JSON value equal to v whose containers are exactly the identities from lo to hi, each met once. */
  ghost predicate Copied(before: Store, v: Value, after: Store, w: Value, depth: nat, lo: nat, hi: nat) {
    && lo <= hi && (w.Ref? <==> v.Ref?) && Held(after, w)
    && IsJsonAt(before, v, depth) && IsJsonAt(after, w, depth)
    && Meaning(after, w, depth) == Meaning(before, v, depth)
    && Visits(after, w, depth) == Range(lo, hi)
  }

  ghost predicate CopiedItem(before: Store, v: Value, after: Store, w: Value, depth: nat) {
    && (w.Ref? <==> v.Ref?) && Held(after, w)
    && IsJsonAt(before, v, depth) && IsJsonAt(after, w, depth)
    && Meaning(after, w, depth) == Meaning(before, v, depth)
  }

  /** The first items of a container have been copied into the identities from lo to hi. */
  ghost predicate CopiedPrefix(before: Store, items: seq<Value>, after: Store, copies: seq<Value>, depth: nat, lo: nat, hi: nat) {
    && lo <= hi && |copies| <= |items|
    && (forall j :: 0 <= j < |copies| ==> CopiedItem(before, items[j], after, copies[j], depth))
    && VisitsAll(after, copies, depth) == Range(lo, hi)
  }

  lemma RangeSplits(lo: nat, mid: nat, hi: nat)
    requires lo <= mid <= hi
    ensures Range(lo, mid) + Range(mid, hi) == Range(lo, hi)
  {
  }

  lemma ExtensionKeepsPrefix(before: Store, items: seq<Value>, after: Store, after': Store, copies: seq<Value>, depth: nat, lo: nat, hi: nat)
    requires CopiedPrefix(before, items, after, copies, depth, lo, hi) && WellFormed(after) && Extends(after, after')
    ensures CopiedPrefix(before, items, after', copies, depth, lo, hi)
  {
    forall j | 0 <= j < |copies| ensures CopiedItem(before, items[j], after', copies[j], depth) {
      assert CopiedItem(before, items[j], after, copies[j], depth);
      ExtensionKeepsJson(after, after', copies[j], depth);
      ExtensionKeepsMeaning(after, after', copies[j], depth);
    }
    ExtensionKeepsAllVisits(after, after', copies, depth);
  }

  /** One more item copied: the call saw the store as the earlier copies had left it. */
  lemma PrefixGrows(
      before: Store, items: seq<Value>, during: Store, copies: seq<Value>, after: Store, w: Value, depth: nat, lo: nat, mid: nat, hi: nat)
    requires WellFormed(before) && WellFormed(during) && Extends(before, during) && Extends(during, after)
    requires |copies| < |items| && Held(before, items[|copies|])
    requires CopiedPrefix(before, items, during, copies, depth, lo, mid)
    requires Copied(during, items[|copies|], after, w, depth, mid, hi)
    ensures CopiedPrefix(before, items, after, copies + [w], depth, lo, hi)
  {
    var v := items[|copies|];
    ExtensionKeepsJson(before, during, v, depth);
    ExtensionKeepsMeaning(before, during, v, depth);
    ExtensionKeepsPrefix(before, items, during, after, copies, depth, lo, mid);
    RangeSplits(lo, mid, hi);
    hide CopiedItem, Meaning, IsJsonAt, Visits;
    assert CopiedItem(before, v, after, w, depth) by { LastItemCopied(before, v, during, after, w, depth, mid, hi); }
    assert (copies + [w])[..|copies|] == copies;
    ItemsAreJson(before, items, after, copies, depth, lo, mid);
    ItemIsJson(before, v, after, w, depth);
  }

  lemma LastItemCopied(before: Store, v: Value, during: Store, after: Store, w: Value, depth: nat, mid: nat, hi: nat)
    requires IsJsonAt(before, v, depth) && IsJsonAt(during, v, depth) && Meaning(during, v, depth) == Meaning(before, v, depth)
    requires Copied(during, v, after, w, depth, mid, hi)
    ensures CopiedItem(before, v, after, w, depth)
  {
  }

  lemma ItemIsJson(before: Store, v: Value, after: Store, w: Value, depth: nat)
    requires CopiedItem(before, v, after, w, depth)
    ensures IsJsonAt(after, w, depth)
  {
  }

  lemma ItemsAreJson(before: Store, items: seq<Value>, after: Store, copies: seq<Value>, depth: nat, lo: nat, hi: nat)
    requires CopiedPrefix(before, items, after, copies, depth, lo, hi)
    ensures forall j :: 0 <= j < |copies| ==> IsJsonAt(after, copies[j], depth)
  {
  }

  /** All items copied and the new container stored under the identity taken first. */
  lemma ContainerCopied(before: Store, id: nat, during: Store, after: Store, copies: seq<Value>, depth: nat, lo: nat, hi: nat)
    requires id in before && WellFormed(during) && Extends(during, after) && depth < MAX_JSON_DEPTH && KeysAreText(before[id])
    requires |copies| == |before[id].items| && CopiedPrefix(before, before[id].items, during, copies, depth + 1, lo + 1, hi)
    requires lo !in during && lo in after && after[lo] == (if before[id].ListNode? then ListNode(copies) else DictNode(before[id].keys, copies))
    ensures Copied(before, Ref(id), after, Ref(lo), depth, lo, hi)
    ensures OnlyScalars(copies) == OnlyScalars(before[id].items)
  {
    var items := before[id].items;
    ExtensionKeepsPrefix(before, items, during, after, copies, depth + 1, lo + 1, hi);
    forall i | 0 <= i < |items|
      ensures IsJsonAt(before, items[i], depth + 1) && IsJsonAt(after, copies[i], depth + 1)
      ensures Meaning(after, copies[i], depth + 1) == Meaning(before, items[i], depth + 1)
      ensures copies[i].Ref? <==> items[i].Ref?
    {
      assert CopiedItem(before, items[i], after, copies[i], depth + 1);
    }
    assert [lo] + Range(lo + 1, hi) == Range(lo, hi);
  }

  /** An item that is not JSON one level down keeps its container from being JSON. */
  lemma BadItem(nodes: Store, id: nat, i: nat, depth: nat)
    requires id in nodes && i < |nodes[id].items| && !IsJsonAt(nodes, nodes[id].items[i], depth + 1)
    ensures !IsJsonAt(nodes, Ref(id), depth)
  {
  }

  datatype CloneError = NotAnObject | TooDeep | Cyclic | KeyNotText | NotFinite | NotJson

  datatype Result<+T> = Ok(value: T) | Err(error: CloneError)

  /** Every container being cloned lies on the way to the value. */
  ghost predicate OnTheWay(nodes: Store, active: set<nat>, v: Value) {
    forall a <- active :: exists n :: n > 0 && Reaches(nodes, Ref(a), v, n)
  }

  lemma WayToItem(nodes: Store, active: set<nat>, id: nat, w: Value)
    requires OnTheWay(nodes, active, Ref(id)) && id in nodes && w in nodes[id].items
    ensures OnTheWay(nodes, active + {id}, w)
  {
    forall a <- active + {id} ensures exists n :: n > 0 && Reaches(nodes, Ref(a), w, n) {
      if a in active {
        var n :| n > 0 && Reaches(nodes, Ref(a), Ref(id), n);
        ReachesOneMore(nodes, Ref(a), Ref(id), w, n);
      } else {
        assert Reaches(nodes, Ref(id), Ref(id), 0);
        ReachesOneMore(nodes, Ref(id), Ref(id), w, 0);
      }
    }
  }

  lemma WayAfterAllocation(nodes: Store, nodes': Store, active: set<nat>, w: Value)
    requires OnTheWay(nodes, active, w) && Extends(nodes, nodes')
    ensures OnTheWay(nodes', active, w)
  {
    forall a <- active ensures exists n :: n > 0 && Reaches(nodes', Ref(a), w, n) {
      var n :| n > 0 && Reaches(nodes, Ref(a), w, n);
      ExtensionKeepsReach(nodes, nodes', Ref(a), w, n);
    }
  }

  lemma ActiveIsCyclic(nodes: Store, active: set<nat>, id: nat, depth: nat)
    requires OnTheWay(nodes, active, Ref(id)) && id in active
    ensures !IsJsonAt(nodes, Ref(id), depth)
  {
    var n :| n > 0 && Reaches(nodes, Ref(id), Ref(id), n);
    CyclesAreNotJson(nodes, Ref(id), n, depth);
  }

  /** The flags say of each container from lo to hi whether it holds scalars only. */
  ghost predicate Flagged(nodes: Store, flags: map<nat, bool>, lo: nat, hi: nat) {
    forall id :: lo <= id < hi ==> id in nodes && id in flags && flags[id] == OnlyScalars(nodes[id].items)
  }

  ghost predicate FlagsKept(before: map<nat, bool>, flags: map<nat, bool>, bound: nat) {
    forall id :: id < bound ==> (id in flags <==> id in before) && (id in flags ==> flags[id] == before[id])
  }

  lemma FlagsStayKept(a: map<nat, bool>, b: map<nat, bool>, c: map<nat, bool>, lo: nat, hi: nat)
    requires lo <= hi && FlagsKept(a, b, lo) && FlagsKept(b, c, hi)
    ensures FlagsKept(a, c, lo)
  {
  }

  lemma FlagsJoin(nodes: Store, flags: map<nat, bool>, nodes': Store, flags': map<nat, bool>, lo: nat, mid: nat, hi: nat)
    requires Flagged(nodes, flags, lo, mid) && Extends(nodes, nodes') && FlagsKept(flags, flags', mid) && Flagged(nodes', flags', mid, hi)
    ensures Flagged(nodes', flags', lo, hi)
  {
    forall id | lo <= id < hi ensures id in nodes' && id in flags' && flags'[id] == OnlyScalars(nodes'[id].items) {
      if id < mid {
        assert id in nodes && id in flags;
      }
    }
  }

  lemma FlagsClose(nodes: Store, flags: map<nat, bool>, node: Node, only: bool, lo: nat, hi: nat)
    requires Flagged(nodes, flags, lo + 1, hi) && only == OnlyScalars(node.items)
    ensures Flagged(nodes[lo := node], flags[lo := only], lo, hi)
    ensures FlagsKept(flags, flags[lo := only], lo)
  {
  }

  lemma NodeFits(before: Store, id: nat, nodes: Store, copies: seq<Value>, depth: nat, lo: nat, hi: nat, copy: nat)
    requires WellFormed(before) && WellFormed(nodes) && id in before && |copies| == |before[id].items|
    requires CopiedPrefix(before, before[id].items, nodes, copies, depth, lo, hi) && copy !in nodes
    ensures var node := if before[id].ListNode? then ListNode(copies) else DictNode(before[id].keys, copies);
      WellFormed(nodes[copy := node]) && Extends(nodes, nodes[copy := node])
  {
    var node := if before[id].ListNode? then ListNode(copies) else DictNode(before[id].keys, copies);
    var nodes' := nodes[copy := node];
    assert NodeWellFormed(before, before[id]);
    forall v <- copies ensures Held(nodes', v) {
      var j :| 0 <= j < |copies| && copies[j] == v;
      assert CopiedItem(before, before[id].items[j], nodes, copies[j], depth);
    }
    forall k <- nodes' ensures NodeWellFormed(nodes', nodes'[k]) {
      if k != copy {
        assert NodeWellFormed(nodes, nodes[k]);
      }
    }
  }

  /** One traversal that validates and clones: it remembers the containers on its way and allocates as it goes. */
  class Cloning {
    var nodes: Store
    var next: nat
    var flags: map<nat, bool>   // per new container: does it hold scalars only
    var active: set<nat>        // the containers being cloned

    ghost predicate Valid()
      reads `nodes, `next
    {
      Sane(nodes, next)
    }

    constructor (nodes: Store, next: nat)
      requires WellFormed(nodes) && forall id <- nodes :: id < next
      ensures Valid() && this.nodes == nodes && this.next == next && flags == map[] && active == {}
    {
      this.nodes, this.next, flags, active := nodes, next, map[], {};
    }

    /** What a call may leave behind, and exactly when it succeeds. */
    ghost predicate Outcome(before: Store, marks: map<nat, bool>, lo: nat, v: Value, depth: nat, r: Result<Value>)
      reads `nodes, `next, `flags
    {
      && Valid() && NewFrom(before, nodes, lo) && lo <= next && FlagsKept(marks, flags, lo)
      && (r.Ok? <==> IsJsonAt(before, v, depth))
      && (r.Ok? ==> Copied(before, v, nodes, r.value, depth, lo, next) && Flagged(nodes, flags, lo, next))
    }

    /** The first items of container id have been cloned, for a copy whose identity is already taken. */
    ghost predicate Underway(before: Store, marks: map<nat, bool>, id: nat, copies: seq<Value>, depth: nat, copy: nat)
      reads `nodes, `next, `flags
    {
      && Valid() && Sane(before, copy) && NewFrom(before, nodes, copy + 1) && id in before && copy < next
      && CopiedPrefix(before, before[id].items, nodes, copies, depth, copy + 1, next)
      && Flagged(nodes, flags, copy + 1, next) && FlagsKept(marks, flags, copy)
    }

    method CloneValue(v: Value, depth: nat) returns (r: Result<Value>)
      requires Valid() && Held(nodes, v) && depth <= MAX_JSON_DEPTH && OnTheWay(nodes, active, v)
      modifies this
      ensures active == old(active) && Outcome(old(nodes), old(flags), old(next), v, depth, r)
      decreases MAX_JSON_DEPTH - depth, 2
    {
      match v {
        case Plain(scalar) =>
          if scalar.NonFinite? {
            return Err(NotFinite);
          }
          return Ok(v);
        case Foreign(_) => return Err(NotJson);
        case Ref(id) =>
          hide *;
          var isList := IsList(id);
          if isList {
            r := CloneList(id, depth);
          } else {
            r := CloneDict(id, depth);
          }
      }
    }

    method IsList(id: nat) returns (isList: bool)
      requires Held(nodes, Ref(id))
      ensures id in nodes && isList == nodes[id].ListNode?
    {
      isList := nodes[id].ListNode?;
    }

    method CloneList(id: nat, depth: nat) returns (r: Result<Value>)
      requires Valid() && id in nodes && nodes[id].ListNode? && depth <= MAX_JSON_DEPTH && OnTheWay(nodes, active, Ref(id))
      modifies this
      ensures active == old(active) && Outcome(old(nodes), old(flags), old(next), Ref(id), depth, r)
      decreases MAX_JSON_DEPTH - depth, 1
    {
      hide *;
      if depth >= MAX_JSON_DEPTH {
        TooDeepFails(Ref(id), depth);
        return Err(TooDeep);
      }
      if id in active {
        CycleFails(id, depth);
        return Err(Cyclic);
      }
      ghost var before, marks, lo := nodes, flags, next;
      var items := nodes[id].items;
      var copy := Open(id, depth + 1);
      var cloned: seq<Value> := [];
      while |cloned| < |items|
        invariant |cloned| <= |items| && Underway(before, marks, id, cloned, depth + 1, copy) && active == old(active) + {id}
        decreases |items| - |cloned|
      {
        WayToItem(before, old(active), id, items[|cloned|]);
        var item := CloneItem(before, marks, id, items[|cloned|], cloned, depth + 1, copy);
        if item.Err? {
          active := active - {id};
          BadItemFails(before, marks, id, |cloned|, depth, copy, item);
          return item;
        }
        cloned := cloned + [item.value];
      }
      active := active - {id};
      NoKeys(before[id]);
      Close(before, marks, id, ListNode(cloned), depth, copy);
      return Ok(Ref(copy));
    }

    method CloneDict(id: nat, depth: nat) returns (r: Result<Value>)
      requires Valid() && id in nodes && nodes[id].DictNode? && depth <= MAX_JSON_DEPTH && OnTheWay(nodes, active, Ref(id))
      modifies this
      ensures active == old(active) && Outcome(old(nodes), old(flags), old(next), Ref(id), depth, r)
      decreases MAX_JSON_DEPTH - depth, 1
    {
      hide *;
      if depth >= MAX_JSON_DEPTH {
        TooDeepFails(Ref(id), depth);
        return Err(TooDeep);
      }
      if id in active {
        CycleFails(id, depth);
        return Err(Cyclic);
      }
      ghost var before, marks, lo := nodes, flags, next;
      PairedKeys(id);
      var keys, items := nodes[id].keys, nodes[id].items;
      var copy := Open(id, depth + 1);
      var names: seq<Key> := [];
      var cloned: seq<Value> := [];
      while |cloned| < |items|
        invariant |cloned| <= |items| && Underway(before, marks, id, cloned, depth + 1, copy) && active == old(active) + {id}
        invariant names == keys[..|cloned|] && forall k <- names :: k.Text?
        decreases |items| - |cloned|
      {
        var key := keys[|cloned|];
        if !key.Text? {
          active := active - {id};
          BadKeyFails(before, marks, id, cloned, |cloned|, depth, copy);
          return Err(KeyNotText);
        }
        WayToItem(before, old(active), id, items[|cloned|]);
        var item := CloneItem(before, marks, id, items[|cloned|], cloned, depth + 1, copy);
        if item.Err? {
          active := active - {id};
          BadItemFails(before, marks, id, |cloned|, depth, copy, item);
          return item;
        }
        names := names + [key];
        cloned := cloned + [item.value];
      }
      active := active - {id};
      TextKeys(before[id], names);
      Close(before, marks, id, DictNode(names, cloned), depth, copy);
      return Ok(Ref(copy));
    }

    lemma TooDeepFails(v: Value, depth: nat)
      requires Valid() && v.Ref? && depth >= MAX_JSON_DEPTH
      ensures Outcome(nodes, flags, next, v, depth, Err(TooDeep))
    {
    }

    lemma CycleFails(id: nat, depth: nat)
      requires Valid() && OnTheWay(nodes, active, Ref(id)) && id in active
      ensures Outcome(nodes, flags, next, Ref(id), depth, Err(Cyclic))
    {
      ActiveIsCyclic(nodes, active, id, depth);
    }

    lemma BadItemFails(before: Store, marks: map<nat, bool>, id: nat, i: nat, depth: nat, copy: nat, r: Result<Value>)
      requires Halted(before, marks, copy) && id in before && i < |before[id].items|
      requires !IsJsonAt(before, before[id].items[i], depth + 1) && r.Err?
      ensures Outcome(before, marks, copy, Ref(id), depth, r)
    {
      BadItem(before, id, i, depth);
    }

    lemma BadKeyFails(before: Store, marks: map<nat, bool>, id: nat, copies: seq<Value>, i: nat, depth: nat, copy: nat)
      requires Underway(before, marks, id, copies, depth + 1, copy)
      requires before[id].DictNode? && i < |before[id].keys| && !before[id].keys[i].Text?
      ensures Outcome(before, marks, copy, Ref(id), depth, Err(KeyNotText))
    {
      assert before[id].keys[i] in before[id].keys;
    }

    lemma PairedKeys(id: nat)
      requires Valid() && id in nodes && nodes[id].DictNode?
      ensures |nodes[id].keys| == |nodes[id].items|
    {
      assert NodeWellFormed(nodes, nodes[id]);
    }

    lemma NoKeys(node: Node)
      requires node.ListNode?
      ensures KeysAreText(node)
    {
    }

    lemma TextKeys(node: Node, names: seq<Key>)
      requires node.DictNode? && names == node.keys && forall k <- names :: k.Text?
      ensures KeysAreText(node)
    {
    }

    /** A failed call leaves a well-formed store in which nothing old has changed. */
    ghost predicate Halted(before: Store, marks: map<nat, bool>, copy: nat)
      reads `nodes, `next, `flags
    {
      Sane(nodes, next) && NewFrom(before, nodes, copy) && copy <= next && FlagsKept(marks, flags, copy)
    }

    /** Mark the container as being cloned and take an identity for its copy. */
    method Open(id: nat, depth: nat) returns (copy: nat)
      requires Valid() && id in nodes
      modifies `active, `next
      ensures copy == old(next) && next == copy + 1 && active == old(active) + {id}
      ensures Underway(nodes, flags, id, [], depth, copy)
    {
      active := active + {id};
      copy := next;
      next := next + 1;
    }

    /** Clone one more item of a container. */
    method CloneItem(ghost before: Store, ghost marks: map<nat, bool>, ghost id: nat, item: Value, ghost copies: seq<Value>, depth: nat, ghost copy: nat)
      returns (r: Result<Value>)
      requires Underway(before, marks, id, copies, depth, copy) && |copies| < |before[id].items| && item == before[id].items[|copies|]
      requires depth <= MAX_JSON_DEPTH && OnTheWay(before, active, item)
      modifies this
      ensures active == old(active) && r.Ok? == IsJsonAt(before, item, depth)
      ensures r.Ok? ==> Underway(before, marks, id, copies + [r.value], depth, copy)
      ensures r.Err? ==> Halted(before, marks, copy)
      decreases MAX_JSON_DEPTH - depth, 3
    {
      hide *;
      ghost var during, mid, seen := nodes, next, flags;
      BeforeItem(before, marks, id, copies, item, depth, copy);
      r := CloneValue(item, depth);
      AfterItem(before, marks, id, copies, item, depth, copy, during, seen, mid, r);
    }

    lemma BeforeItem(before: Store, marks: map<nat, bool>, id: nat, copies: seq<Value>, item: Value, depth: nat, copy: nat)
      requires Underway(before, marks, id, copies, depth, copy) && |copies| < |before[id].items| && item == before[id].items[|copies|]
      requires OnTheWay(before, active, item)
      ensures Valid() && Held(nodes, item) && Held(before, item) && OnTheWay(nodes, active, item)
      ensures id in before && Sane(before, copy) && Sane(nodes, next) && NewFrom(before, nodes, copy + 1) && copy < next
      ensures CopiedPrefix(before, before[id].items, nodes, copies, depth, copy + 1, next)
      ensures Flagged(nodes, flags, copy + 1, next) && FlagsKept(marks, flags, copy)
      ensures IsJsonAt(nodes, item, depth) == IsJsonAt(before, item, depth)
    {
      assert NodeWellFormed(before, before[id]);
      assert Held(before, item);
      WayAfterAllocation(before, nodes, active, item);
      ExtensionKeepsJson(before, nodes, item, depth);
    }

    lemma AfterItem(
        before: Store, marks: map<nat, bool>, id: nat, copies: seq<Value>, item: Value, depth: nat, copy: nat,
        during: Store, seen: map<nat, bool>, mid: nat, r: Result<Value>)
      requires Outcome(during, seen, mid, item, depth, r)
      requires id in before && |copies| < |before[id].items| && item == before[id].items[|copies|] && Held(before, item)
      requires Sane(before, copy) && Sane(during, mid) && NewFrom(before, during, copy + 1) && copy < mid
      requires CopiedPrefix(before, before[id].items, during, copies, depth, copy + 1, mid)
      requires Flagged(during, seen, copy + 1, mid) && FlagsKept(marks, seen, copy)
      ensures r.Ok? == IsJsonAt(during, item, depth)
      ensures r.Ok? ==> Underway(before, marks, id, copies + [r.value], depth, copy)
      ensures r.Err? ==> Halted(before, marks, copy)
    {
      hide CopiedPrefix, Copied, IsJsonAt, WellFormed, Flagged, FlagsKept;
      FlagsStayKept(marks, seen, flags, copy, mid);
      if r.Ok? {
        PrefixGrows(before, before[id].items, during, copies, nodes, r.value, depth, copy + 1, mid, next);
        FlagsJoin(during, seen, nodes, flags, copy + 1, mid, next);
      }
      NewFromLater(before, during, nodes, copy + 1, mid);
    }

    /** Store the finished copy and its flag. */
    method Close(ghost before: Store, ghost marks: map<nat, bool>, ghost id: nat, node: Node, ghost depth: nat, copy: nat)
      requires Underway(before, marks, id, node.items, depth + 1, copy) && |node.items| == |before[id].items|
      requires node == (if before[id].ListNode? then ListNode(node.items) else DictNode(before[id].keys, node.items))
      requires depth < MAX_JSON_DEPTH && KeysAreText(before[id])
      modifies `nodes, `flags
      ensures Outcome(before, marks, copy, Ref(id), depth, Ok(Ref(copy)))
    {
      ghost var during := nodes;
      NodeFits(before, id, nodes, node.items, depth + 1, copy + 1, next, copy);
      FlagsClose(nodes, flags, node, OnlyScalars(node.items), copy, next);
      FlagsStayKept(marks, flags, flags[copy := OnlyScalars(node.items)], copy, copy);
      ContainerCopied(before, id, during, nodes[copy := node], node.items, depth, copy, next);
      flags := flags[copy := OnlyScalars(node.items)];
      nodes := nodes[copy := node];
    }

    /** Clone a JSON object: anything but an accepted dict is refused. */
    method CloneObject(v: Value) returns (r: Result<Value>)
      requires Valid() && Held(nodes, v) && active == {}
      modifies this
      ensures Valid() && active == {} && NewFrom(old(nodes), nodes, old(next)) && old(next) <= next
      ensures r.Ok? <==> v.Ref? && old(nodes)[v.id].DictNode? && IsJsonAt(old(nodes), v, 0)
      ensures r.Ok? ==> Copied(old(nodes), v, nodes, r.value, 0, old(next), next) && Flagged(nodes, flags, old(next), next)
    {
      if !v.Ref? || !nodes[v.id].DictNode? {
        return Err(NotAnObject);
      }
      hide IsJsonAt, Copied, Flagged, WellFormed, NewFrom;
      r := CloneDict(v.id, 0);
    }

    /** Clone several values one after the other, each on its own; the first that fails fails them all. */
    method CloneEach(values: seq<Value>) returns (r: Result<seq<Value>>)
      requires Valid() && active == {} && forall v <- values :: Held(nodes, v)
      modifies this
      ensures Valid() && active == {} && NewFrom(old(nodes), nodes, old(next)) && old(next) <= next
      ensures r.Ok? <==> forall v <- values :: IsJsonAt(old(nodes), v, 0)
      ensures r.Ok? ==> |r.value| == |values| && CopiedPrefix(old(nodes), values, nodes, r.value, 0, old(next), next)
    {
      ghost var before, lo := nodes, next;
      var cloned: seq<Value> := [];
      hide IsJsonAt, Copied, CopiedPrefix, Flagged, FlagsKept, WellFormed, NewFrom, Sane, OnTheWay;
      NothingCloned(before, values);
      while |cloned| < |values|
        invariant |cloned| <= |values| && active == {} && Together(before, values, cloned, lo)
        invariant forall i :: 0 <= i < |cloned| ==> IsJsonAt(before, values[i], 0)
        decreases |values| - |cloned|
      {
        assert values[|cloned|] in values;
        var item := CloneNext(before, values, cloned, lo);
        if item.Err? {
          return Err(item.error);
        }
        cloned := cloned + [item.value];
      }
      return Ok(cloned);
    }

    /** The first of several values have been cloned. */
    ghost predicate Together(before: Store, values: seq<Value>, copies: seq<Value>, lo: nat)
      reads `nodes, `next
    {
      && Valid() && Sane(before, lo) && NewFrom(before, nodes, lo) && lo <= next
      && CopiedPrefix(before, values, nodes, copies, 0, lo, next)
    }

    lemma NothingCloned(before: Store, values: seq<Value>)
      requires Valid() && before == nodes
      ensures Together(before, values, [], next)
    {
    }

    method CloneNext(ghost before: Store, values: seq<Value>, copies: seq<Value>, ghost lo: nat) returns (r: Result<Value>)
      requires Together(before, values, copies, lo) && active == {} && |copies| < |values| && Held(before, values[|copies|])
      modifies this
      ensures active == {} && r.Ok? == IsJsonAt(before, values[|copies|], 0)
      ensures r.Ok? ==> Together(before, values, copies + [r.value], lo)
      ensures r.Err? ==> Valid() && NewFrom(before, nodes, lo) && lo <= next
    {
      hide *;
      ghost var during, mid, seen := nodes, next, flags;
      BeforeNext(before, values, copies, lo);
      r := CloneValue(values[|copies|], 0);
      AfterNext(before, values, copies, lo, during, mid, seen, r);
    }

    lemma BeforeNext(before: Store, values: seq<Value>, copies: seq<Value>, lo: nat)
      requires Together(before, values, copies, lo) && active == {} && |copies| < |values| && Held(before, values[|copies|])
      ensures Valid() && Held(nodes, values[|copies|]) && OnTheWay(nodes, active, values[|copies|])
      ensures IsJsonAt(nodes, values[|copies|], 0) == IsJsonAt(before, values[|copies|], 0)
      ensures Sane(before, lo) && Sane(nodes, next) && NewFrom(before, nodes, lo) && lo <= next
      ensures CopiedPrefix(before, values, nodes, copies, 0, lo, next)
    {
      ExtensionKeepsJson(before, nodes, values[|copies|], 0);
    }

    lemma AfterNext(
        before: Store, values: seq<Value>, copies: seq<Value>, lo: nat, during: Store, mid: nat, seen: map<nat, bool>, r: Result<Value>)
      requires |copies| < |values| && Held(before, values[|copies|]) && Outcome(during, seen, mid, values[|copies|], 0, r)
      requires Sane(before, lo) && Sane(during, mid) && NewFrom(before, during, lo) && lo <= mid
      requires CopiedPrefix(before, values, during, copies, 0, lo, mid)
      ensures r.Ok? == IsJsonAt(during, values[|copies|], 0)
      ensures r.Ok? ==> Together(before, values, copies + [r.value], lo)
      ensures Valid() && NewFrom(before, nodes, lo) && lo <= next
    {
      hide CopiedPrefix, Copied, IsJsonAt, WellFormed, Flagged, FlagsKept;
      if r.Ok? {
        PrefixGrows(before, values, during, copies, nodes, r.value, 0, lo, mid, next);
      }
      NewFromLater(before, during, nodes, lo, mid);
    }
  }

  /** A clone shares nothing with what existed and nothing with itself: walking it meets only identities that
      were free before, and none of them twice. */
  lemma CloneIsFreshTree(before: Store, v: Value, after: Store, w: Value, lo: nat, hi: nat)
    requires Sane(before, lo) && Copied(before, v, after, w, 0, lo, hi)
    ensures forall id <- Visits(after, w, 0) :: id !in before
    ensures forall i, j :: 0 <= i < j < |Visits(after, w, 0)| ==> Visits(after, w, 0)[i] != Visits(after, w, 0)[j]
    ensures Meaning(after, w, 0) == Meaning(before, v, 0)
  {
  }

  // ---- The flags of an owned snapshot ------------------------------------------------------

  ghost predicate AllJson(nodes: Store, pending: seq<nat>, depths: seq<nat>) {
    |pending| == |depths| && forall i :: 0 <= i < |pending| ==> IsJsonAt(nodes, Ref(pending[i]), depths[i])
  }

  /** Everything still to be met by a walk with this stack. */
  ghost function Met(nodes: Store, pending: seq<nat>, depths: seq<nat>): seq<nat>
    requires AllJson(nodes, pending, depths)
  {
    if pending == [] then []
    else
      var n := |pending| - 1;
      Met(nodes, pending[..n], depths[..n]) + Visits(nodes, Ref(pending[n]), depths[n])
  }

  lemma MetPop(nodes: Store, pending: seq<nat>, depths: seq<nat>)
    requires AllJson(nodes, pending, depths) && pending != []
    ensures |depths| == |pending|
    ensures var n := |pending| - 1; var id := pending[n];
      && AllJson(nodes, pending[..n], depths[..n]) && id in nodes && depths[n] < MAX_JSON_DEPTH
      && (forall i :: 0 <= i < |nodes[id].items| ==> IsJsonAt(nodes, nodes[id].items[i], depths[n] + 1))
      && Met(nodes, pending, depths) == Met(nodes, pending[..n], depths[..n]) + ([id] + VisitsAll(nodes, nodes[id].items, depths[n] + 1))
  {
    assert IsJsonAt(nodes, Ref(pending[|pending| - 1]), depths[|pending| - 1]);
  }

  lemma MetPush(nodes: Store, pending: seq<nat>, depths: seq<nat>, id: nat, depth: nat)
    requires AllJson(nodes, pending, depths) && IsJsonAt(nodes, Ref(id), depth)
    ensures AllJson(nodes, pending + [id], depths + [depth])
    ensures Met(nodes, pending + [id], depths + [depth]) == Met(nodes, pending, depths) + Visits(nodes, Ref(id), depth)
  {
    assert (pending + [id])[..|pending|] == pending && (depths + [depth])[..|depths|] == depths;
  }

  lemma VisitsNext(nodes: Store, items: seq<Value>, k: nat, depth: nat)
    requires k < |items| && forall i :: 0 <= i < |items| ==> IsJsonAt(nodes, items[i], depth)
    ensures VisitsAll(nodes, items[..k + 1], depth) == VisitsAll(nodes, items[..k], depth) + Visits(nodes, items[k], depth)
    ensures !items[k].Ref? ==> Visits(nodes, items[k], depth) == []
  {
    assert items[..k + 1][..k] == items[..k];
    assert IsJsonAt(nodes, items[k], depth);
  }

  /** Push the containers among the items of one container, and say whether there were none. */
  method PushContainers(nodes: Store, items: seq<Value>, pending: seq<nat>, ghost depths: seq<nat>, ghost depth: nat)
    returns (pushed: seq<nat>, ghost levels: seq<nat>, onlyScalars: bool)
    requires AllJson(nodes, pending, depths) && forall i :: 0 <= i < |items| ==> IsJsonAt(nodes, items[i], depth)
    ensures AllJson(nodes, pushed, levels)
    ensures Met(nodes, pushed, levels) == Met(nodes, pending, depths) + VisitsAll(nodes, items, depth)
    ensures onlyScalars == OnlyScalars(items)
  {
    hide Met, Visits, VisitsAll, AllJson, IsJsonAt;
    pushed, levels, onlyScalars := pending, depths, true;
    ghost var start := Met(nodes, pending, depths);
    NothingVisited(nodes, depth);
    assert items[..0] == [];
    for k := 0 to |items|
      invariant AllJson(nodes, pushed, levels)
      invariant Met(nodes, pushed, levels) == start + VisitsAll(nodes, items[..k], depth)
      invariant onlyScalars == OnlyScalars(items[..k])
    {
      VisitsNext(nodes, items, k, depth);
      if items[k].Ref? {
        onlyScalars := false;
        MetPush(nodes, pushed, levels, items[k].id, depth);
        pushed, levels := pushed + [items[k].id], levels + [depth];
      }
    }
    assert items[..|items|] == items;
  }

  lemma NothingVisited(nodes: Store, depth: nat)
    ensures VisitsAll(nodes, [], depth) == []
  {
  }

  /** Recompute the flags of an owned object: exactly one correct flag for every container it holds. */
  method InitializeFlags(nodes: Store, root: nat) returns (flags: map<nat, bool>)
    requires IsJsonAt(nodes, Ref(root), 0)
    ensures forall id :: id in flags <==> id in Visits(nodes, Ref(root), 0)
    ensures forall id <- flags :: id in nodes && flags[id] == OnlyScalars(nodes[id].items)
  {
    hide Visits, VisitsAll, AllJson, IsJsonAt;
    flags := map[];
    var pending := [root];
    ghost var depths: seq<nat> := [0];
    ghost var all := Visits(nodes, Ref(root), 0);
    RootMet(nodes, root);
    while pending != []
      invariant AllJson(nodes, pending, depths)
      invariant forall id :: id in all <==> id in flags || id in Met(nodes, pending, depths)
      invariant forall id <- flags :: id in nodes && flags[id] == OnlyScalars(nodes[id].items)
      decreases |Met(nodes, pending, depths)|
    {
      var n := |pending| - 1;
      var id := pending[n];
      MetPop(nodes, pending, depths);
      ghost var rest := Met(nodes, pending[..n], depths[..n]);
      ghost var below := VisitsAll(nodes, nodes[id].items, depths[n] + 1);
      hide Met;
      assert forall x :: x in Met(nodes, pending, depths) <==> x in rest || x == id || x in below;
      var onlyScalars;
      pending, depths, onlyScalars := PushContainers(nodes, nodes[id].items, pending[..n], depths[..n], depths[n] + 1);
      flags := flags[id := onlyScalars];
    }
  }

  lemma RootMet(nodes: Store, root: nat)
    requires IsJsonAt(nodes, Ref(root), 0)
    ensures AllJson(nodes, [root], [0]) && Met(nodes, [root], [0]) == Visits(nodes, Ref(root), 0)
  {
    assert [root][..0] == [] && [0][..0] == [];
  }

  /** The flags recorded while cloning and the flags recomputed from the clone are the same. */
  lemma FlagsAgree(before: Store, v: Value, after: Store, w: Value, lo: nat, hi: nat, recorded: map<nat, bool>, computed: map<nat, bool>)
    requires Copied(before, v, after, w, 0, lo, hi) && w.Ref? && Flagged(after, recorded, lo, hi)
    requires forall id :: id in computed <==> id in Visits(after, w, 0)
    requires forall id <- computed :: id in after && computed[id] == OnlyScalars(after[id].items)
    ensures forall id :: id in computed <==> lo <= id < hi
    ensures forall id <- computed :: id in recorded && recorded[id] == computed[id]
  {
    forall id ensures id in computed <==> lo <= id < hi {
      if lo <= id < hi {
        assert Range(lo, hi)[id - lo] == id;
      }
    }
  }

  // ---- A walk is closed under references ----------------------------------------------------

  lemma {:induction false} VisitsAllJoin(nodes: Store, items: seq<Value>, depth: nat, id: nat)
    requires forall i :: 0 <= i < |items| ==> IsJsonAt(nodes, items[i], depth)
    ensures id in VisitsAll(nodes, items, depth) <==> exists i :: 0 <= i < |items| && id in Visits(nodes, items[i], depth)
  {
    if items != [] {
      var n := |items| - 1;
      VisitsAllJoin(nodes, items[..n], depth, id);
      hide Visits, IsJsonAt;
      if i :| 0 <= i < |items| && id in Visits(nodes, items[i], depth) {
        assert i < n ==> items[..n][i] == items[i];
      }
      if i :| 0 <= i < n && id in Visits(nodes, items[..n][i], depth) {
        assert items[..n][i] == items[i];
      }
    }
  }

  lemma VisitsBelow(nodes: Store, v: Value, depth: nat, i: nat, x: nat)
    requires IsJsonAt(nodes, v, depth) && v.Ref? && i < |nodes[v.id].items|
    requires x in Visits(nodes, nodes[v.id].items[i], depth + 1)
    ensures x in Visits(nodes, v, depth)
  {
    VisitsAllJoin(nodes, nodes[v.id].items, depth + 1, x);
  }

  /** Whatever a met container refers to is met as well. */
  lemma {:induction false} VisitsClosed(nodes: Store, v: Value, depth: nat, id: nat)
    requires IsJsonAt(nodes, v, depth) && id in Visits(nodes, v, depth)
    ensures id in nodes && forall c <- nodes[id].items :: c.Ref? ==> c.id in Visits(nodes, v, depth)
    decreases if depth < MAX_JSON_DEPTH then MAX_JSON_DEPTH - depth else 0
  {
    var items := nodes[v.id].items;
    if id == v.id {
      forall c <- items | c.Ref? ensures c.id in Visits(nodes, v, depth) {
        var i :| 0 <= i < |items| && items[i] == c;
        assert c.id in Visits(nodes, items[i], depth + 1);
        VisitsBelow(nodes, v, depth, i, c.id);
      }
    } else {
      VisitsAllJoin(nodes, items, depth + 1, id);
      var i :| 0 <= i < |items| && id in Visits(nodes, items[i], depth + 1);
      VisitsClosed(nodes, items[i], depth + 1, id);
      hide Visits, VisitsAll;
      forall c <- nodes[id].items | c.Ref? ensures c.id in Visits(nodes, v, depth) {
        VisitsBelow(nodes, v, depth, i, c.id);
      }
    }
  }
}
