/** What the validator accepts and what a clone keeps, said of the values met on every path down. */
module JsonPaths {
  import opened CloneJson

  // ---- What is accepted ------------------------------------------------------------------------

  /** A value met below n containers: a finite scalar, or a container that is at most the 64th on its path and, if it
      is a dict, has text keys. */
  ghost predicate Fine(nodes: Store, u: Value, n: nat) {
    match u
    case Plain(scalar) => scalar.Null? || scalar.Bool? || scalar.Int? || scalar.Str? || scalar.Float?
    case Ref(id) => n < 64 && id in nodes && (nodes[id].ListNode? || forall k <- nodes[id].keys :: exists text :: k == Text(text))
    case Foreign(_) => false
  }

  lemma ReachesFromAbove(nodes: Store, v: Value, w: Value, u: Value, n: nat)
    requires v.Ref? && v.id in nodes && w in nodes[v.id].items && Reaches(nodes, w, u, n)
    ensures Reaches(nodes, v, u, n + 1)
  {
    var m := n + 1;
    assert w in nodes[v.id].items && Reaches(nodes, w, u, m - 1);
  }

  lemma {:induction false} FineBelowIsJson(nodes: Store, v: Value, depth: nat)
    requires forall u, n: nat :: Reaches(nodes, v, u, n) ==> Fine(nodes, u, depth + n)
    ensures IsJsonAt(nodes, v, depth)
    decreases if depth < 64 then 64 - depth else 0
  {
    assert Reaches(nodes, v, v, 0);
    assert Fine(nodes, v, depth);
    if v.Ref? {
      forall i | 0 <= i < |nodes[v.id].items| ensures IsJsonAt(nodes, nodes[v.id].items[i], depth + 1) {
        var w := nodes[v.id].items[i];
        forall u, n: nat | Reaches(nodes, w, u, n) ensures Fine(nodes, u, depth + 1 + n) {
          ReachesFromAbove(nodes, v, w, u, n);
          assert Fine(nodes, u, depth + (n + 1));
        }
        FineBelowIsJson(nodes, w, depth + 1);
      }
    }
  }

  /** A value is accepted exactly when no path down from it has more than 64 containers, every key met is text and every
      other value met is a scalar that is not an infinite or undefined number. */
  lemma AcceptedExactlyWhen(nodes: Store, v: Value)
    ensures IsJsonAt(nodes, v, 0) <==> forall u, n: nat :: Reaches(nodes, v, u, n) ==> Fine(nodes, u, n)
  {
    if IsJsonAt(nodes, v, 0) {
      forall u, n: nat | Reaches(nodes, v, u, n) ensures Fine(nodes, u, n) {
        JsonAllTheWayDown(nodes, v, u, n, 0);
        JsonIsFine(nodes, u, n);
      }
    } else if forall u, n: nat :: Reaches(nodes, v, u, n) ==> Fine(nodes, u, n) {
      FineBelowIsJson(nodes, v, 0);
    }
  }

  lemma JsonIsFine(nodes: Store, u: Value, n: nat)
    requires IsJsonAt(nodes, u, n)
    ensures Fine(nodes, u, n)
  {
    if u.Ref? && nodes[u.id].DictNode? {
      forall k <- nodes[u.id].keys ensures exists text :: k == Text(text) {
        assert k == Text(k.text);
      }
    }
  }

  // ---- What a clone keeps ----------------------------------------------------------------------

  /** The value at the end of a path of positions, if there is one. */
  ghost predicate At(nodes: Store, v: Value, path: seq<nat>, u: Value)
    decreases |path|
  {
    if path == [] then u == v
    else v.Ref? && v.id in nodes && path[0] < |nodes[v.id].items| && At(nodes, nodes[v.id].items[path[0]], path[1..], u)
  }

  /** Two values that look alike: the same scalar, or containers of one kind with as many items and the same keys. */
  ghost predicate Alike(before: Store, u: Value, after: Store, w: Value) {
    match u
    case Plain(scalar) => w == Plain(scalar)
    case Ref(id) =>
      && w.Ref? && id in before && w.id in after && |before[id].items| == |after[w.id].items|
      && (before[id].ListNode? <==> after[w.id].ListNode?)
      && (before[id].DictNode? ==> before[id].keys == after[w.id].keys)
    case Foreign(_) => false
  }

  lemma SameMeaningIsAlike(before: Store, v: Value, after: Store, w: Value, d: nat, e: nat)
    requires IsJsonAt(before, v, d) && IsJsonAt(after, w, e) && Meaning(before, v, d) == Meaning(after, w, e)
    ensures Alike(before, v, after, w)
    ensures v.Ref? ==> forall i :: 0 <= i < |before[v.id].items| ==>
      Meaning(before, before[v.id].items[i], d + 1) == Meaning(after, after[w.id].items[i], e + 1)
  {
    var a, b := Meaning(before, v, d), Meaning(after, w, e);
    if v.Ref? && w.Ref? {
      var items, items' := before[v.id].items, after[w.id].items;
      var xs, ys := if a.Array? then a.elements else a.members, if b.Array? then b.elements else b.members;
      assert |xs| == |items| && |ys| == |items'|;
      forall i | 0 <= i < |items| ensures Meaning(before, items[i], d + 1) == Meaning(after, items'[i], e + 1) {
        assert xs[i] == Meaning(before, items[i], d + 1) && ys[i] == Meaning(after, items'[i], e + 1);
      }
    }
  }

  /** Values of the same meaning have the same paths, and look alike at the end of each. */
  lemma {:induction false} SameMeaningSamePaths(before: Store, v: Value, after: Store, w: Value, d: nat, e: nat, path: seq<nat>, u: Value)
    requires IsJsonAt(before, v, d) && IsJsonAt(after, w, e) && Meaning(before, v, d) == Meaning(after, w, e) && At(before, v, path, u)
    ensures exists x :: At(after, w, path, x) && Alike(before, u, after, x)
    decreases |path|
  {
    SameMeaningIsAlike(before, v, after, w, d, e);
    if path == [] {
      assert At(after, w, path, w);
    } else {
      var i := path[0];
      SameMeaningSamePaths(before, before[v.id].items[i], after, after[w.id].items[i], d + 1, e + 1, path[1..], u);
      var x :| At(after, after[w.id].items[i], path[1..], x) && Alike(before, u, after, x);
      assert At(after, w, path, x);
    }
  }
}
