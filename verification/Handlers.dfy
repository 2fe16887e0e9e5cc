/** Handlers over per-context state, and when reordering their runs changes nothing. */
module Handlers {
  import opened Sequences
  import opened Events

  type Store<V> = map<string, V>

  function Cell<V>(s: Store<V>, c: string): Option<V> {
    if c in s then Some(s[c]) else None
  }

  function Put<V>(s: Store<V>, c: string, v: Option<V>): Store<V> {
    if v.Some? then s[c := v.value] else s - {c}
  }

  /** A callback is a sequence of small accesses. One for a single context sees only that context's
      cell; one behind a barrier may read and write everything. */
  datatype Handlers<!V> = Handlers(
    length: Event -> nat,
    local: (Event, nat, Option<V>) -> Option<V>,
    global: (Event, nat, Store<V>) -> Store<V>)
  {
    /** The cell after the first n accesses of a context callback. */
    function LocalRun(e: Event, n: nat, v: Option<V>): Option<V> {
      if n == 0 then v else local(e, n - 1, LocalRun(e, n - 1, v))
    }

    function GlobalRun(e: Event, n: nat, s: Store<V>): Store<V> {
      if n == 0 then s else global(e, n - 1, GlobalRun(e, n - 1, s))
    }

    /** One access of a running callback, on the shared store. */
    function Access(e: Event, n: nat, s: Store<V>): Store<V> {
      if e.IsBarrier() then global(e, n, s)
      else Put(s, e.context, local(e, n, Cell(s, e.context)))
    }

    /** The whole callback, run without interruption. */
    function Apply(e: Event, s: Store<V>): Store<V> {
      if e.IsBarrier() then GlobalRun(e, length(e), s)
      else Put(s, e.context, LocalRun(e, length(e), Cell(s, e.context)))
    }

    /** Every callback in turn, one after the other. */
    function Fold(es: seq<SizedEvent>, s: Store<V>): Store<V> {
      if es == [] then s else Apply(es[|es| - 1].event, Fold(es[..|es| - 1], s))
    }
  }

  lemma CellsDetermineStore<V>(a: Store<V>, b: Store<V>)
    requires forall c :: Cell(a, c) == Cell(b, c)
    ensures a == b
  {
    assert forall c :: c in a <==> Cell(a, c).Some?;
    assert forall c :: c in b <==> Cell(b, c).Some?;
    forall c <- a ensures c in b && a[c] == b[c] {
      assert Cell(a, c) == Cell(b, c);
    }
  }

  lemma IndependentCommute<V>(h: Handlers<V>, a: Event, b: Event, s: Store<V>)
    requires !Conflict(a, b)
    ensures h.Apply(a, h.Apply(b, s)) == h.Apply(b, h.Apply(a, s))
  {
    CellsDetermineStore(h.Apply(a, h.Apply(b, s)), h.Apply(b, h.Apply(a, s)));
  }

  /** Conflicting events keep their source order along the sequence. */
  ghost predicate Ordered(line: seq<SizedEvent>) {
    forall i, j :: 0 <= i < j < |line| && Conflict(line[i].event, line[j].event) ==> line[i].stamp < line[j].stamp
  }

  ghost predicate Distinct(line: seq<SizedEvent>) {
    forall i, j :: 0 <= i < j < |line| ==> line[i].stamp != line[j].stamp
  }

  ghost predicate Sorted(line: seq<SizedEvent>) {
    forall i, j :: 0 <= i < j < |line| ==> line[i].stamp < line[j].stamp
  }

  /** An event may overtake a block of events it does not conflict with. */
  lemma MoveEarlier(a: seq<SizedEvent>, b: seq<SizedEvent>, x: SizedEvent, c: seq<SizedEvent>)
    requires Ordered(a + b + [x] + c)
    requires forall y <- b :: !Conflict(y.event, x.event)
    ensures Ordered(a + [x] + b + c)
  {
    var l, m, n := a + b + [x] + c, a + [x] + b + c, |a|;
    forall k | n < k <= n + |b| ensures !Conflict(x.event, m[k].event) {
      assert m[k] == b[k - n - 1];
      assert m[k] in b;
    }
    forall i, j | 0 <= i < j < |m| && Conflict(m[i].event, m[j].event) ensures m[i].stamp < m[j].stamp {
      var p := if i < n then i else if i == n then n + |b| else if i <= n + |b| then i - 1 else i;
      var q := if j < n then j else if j == n then n + |b| else if j <= n + |b| then j - 1 else j;
      assert m[i] == l[p] && m[j] == l[q];
    }
  }

  lemma DropKeepsOrder(a: seq<SizedEvent>, b: seq<SizedEvent>, c: seq<SizedEvent>)
    requires Ordered(a + b + c)
    ensures Ordered(a + c)
  {
    var l, m := a + b + c, a + c;
    forall i, j | 0 <= i < j < |m| && Conflict(m[i].event, m[j].event) ensures m[i].stamp < m[j].stamp {
      assert m[i] == l[if i < |a| then i else i + |b|];
      assert m[j] == l[if j < |a| then j else j + |b|];
    }
  }

  /** Insert an event at its source position. */
  function Insert(line: seq<SizedEvent>, x: SizedEvent): (r: seq<SizedEvent>)
    ensures multiset(r) == multiset(line) + multiset{x}
  {
    if line == [] || line[|line| - 1].stamp < x.stamp then line + [x]
    else
      var init, last := line[..|line| - 1], line[|line| - 1];
      assert line == init + [last];
      Insert(init, x) + [last]
  }

  /** The events in source order, whatever order they are listed in. */
  function InSourceOrder(line: seq<SizedEvent>): (r: seq<SizedEvent>)
    ensures multiset(r) == multiset(line)
  {
    if line == [] then []
    else
      assert line == line[..|line| - 1] + [line[|line| - 1]];
      Insert(InSourceOrder(line[..|line| - 1]), line[|line| - 1])
  }

  lemma AppendKeepsSorted(line: seq<SizedEvent>, x: SizedEvent)
    requires Sorted(line) && forall y <- line :: y.stamp < x.stamp
    ensures Sorted(line + [x])
  {
    forall i, j | 0 <= i < j < |line| + 1 ensures (line + [x])[i].stamp < (line + [x])[j].stamp {
      assert line[i] in line;
    }
  }

  lemma SortedSplit(line: seq<SizedEvent>)
    requires Sorted(line) && line != []
    ensures Sorted(line[..|line| - 1]) && forall y <- line[..|line| - 1] :: y in line && y.stamp < line[|line| - 1].stamp
  {
  }

  lemma {:induction false} InsertKeepsSorted(line: seq<SizedEvent>, x: SizedEvent)
    requires Sorted(line) && forall y <- line :: y.stamp != x.stamp
    ensures Sorted(Insert(line, x))
  {
    if line == [] {
      AppendKeepsSorted(line, x);
    } else {
      var init, last := line[..|line| - 1], line[|line| - 1];
      SortedSplit(line);
      assert last in line && line == init + [last];
      hide Sorted;
      if last.stamp < x.stamp {
        AppendKeepsSorted(line, x);
      } else {
        InsertKeepsSorted(init, x);
        forall y <- Insert(init, x) ensures y.stamp < last.stamp {
          assert y in multiset(Insert(init, x));
          assert y in multiset(init) || y == x;
        }
        AppendKeepsSorted(Insert(init, x), last);
      }
    }
  }

  lemma {:induction false} InSourceOrderIsSorted(line: seq<SizedEvent>)
    requires Distinct(line)
    ensures Sorted(InSourceOrder(line))
  {
    if line != [] {
      var init, last := line[..|line| - 1], line[|line| - 1];
      InSourceOrderIsSorted(init);
      forall y <- InSourceOrder(init) ensures y.stamp != last.stamp {
        assert y in multiset(InSourceOrder(init));
        assert y in multiset(init);
      }
      InsertKeepsSorted(InSourceOrder(init), last);
    }
  }

  lemma {:induction false} InsertIsAppend<V>(h: Handlers<V>, line: seq<SizedEvent>, x: SizedEvent, s: Store<V>)
    requires forall y <- line :: y.stamp >= x.stamp ==> !Conflict(y.event, x.event)
    ensures h.Fold(Insert(line, x), s) == h.Apply(x.event, h.Fold(line, s))
  {
    if line == [] || line[|line| - 1].stamp < x.stamp {
      assert (line + [x])[..|line|] == line;
    } else {
      var init, last := line[..|line| - 1], line[|line| - 1];
      InsertIsAppend(h, init, x, s);
      assert (Insert(init, x) + [last])[..|Insert(init, x)|] == Insert(init, x);
      IndependentCommute(h, last.event, x.event, h.Fold(init, s));
    }
  }

  /** Running the callbacks in any order that keeps conflicting events in source order is the same
      as running them in source order. */
  lemma {:induction false} OrderedRunEqualsSourceOrder<V>(h: Handlers<V>, line: seq<SizedEvent>, s: Store<V>)
    requires Ordered(line)
    ensures h.Fold(line, s) == h.Fold(InSourceOrder(line), s)
  {
    if line != [] {
      var init, last := line[..|line| - 1], line[|line| - 1];
      OrderedRunEqualsSourceOrder(h, init, s);
      forall y <- InSourceOrder(init) ensures y.stamp >= last.stamp ==> !Conflict(y.event, last.event) {
        assert y in multiset(InSourceOrder(init));
        assert y in multiset(init);
        var i :| 0 <= i < |init| && init[i] == y;
        assert line[i] == y;
      }
      InsertIsAppend(h, InSourceOrder(init), last, s);
    }
  }

  lemma LastIsGreatest(line: seq<SizedEvent>, e: SizedEvent)
    requires Sorted(line) && line != [] && e in line
    ensures e.stamp <= line[|line| - 1].stamp
  {
  }

  lemma WithoutLast(a: seq<SizedEvent>)
    requires a != []
    ensures multiset(a[..|a| - 1]) == multiset(a) - multiset{a[|a| - 1]}
    ensures Sorted(a) ==> Sorted(a[..|a| - 1])
  {
    assert a == a[..|a| - 1] + [a[|a| - 1]];
  }

  lemma SameLast(a: seq<SizedEvent>, b: seq<SizedEvent>)
    requires Sorted(a) && Sorted(b) && multiset(a) == multiset(b) && a != [] && b != []
    ensures a[|a| - 1] == b[|b| - 1]
  {
    var x, y := a[|a| - 1], b[|b| - 1];
    assert x in multiset(b) && y in multiset(a);
    LastIsGreatest(a, y);
    LastIsGreatest(b, x);
    var i :| 0 <= i < |b| && b[i] == x;
  }

  /** Source order depends only on which events are listed. */
  lemma {:induction false} SortedIsUnique(a: seq<SizedEvent>, b: seq<SizedEvent>)
    requires Sorted(a) && Sorted(b) && multiset(a) == multiset(b)
    ensures a == b
    decreases |a|
  {
    hide Sorted;
    if a == [] || b == [] {
      assert |multiset(a)| == |a| && |multiset(b)| == |b|;
    } else {
      var a', b' := a[..|a| - 1], b[..|b| - 1];
      WithoutLast(a);
      WithoutLast(b);
      SameLast(a, b);
      SortedIsUnique(a', b');
      assert a == a' + [a[|a| - 1]];
      assert b == b' + [b[|b| - 1]];
    }
  }

  lemma SourceOrderIgnoresListing(a: seq<SizedEvent>, b: seq<SizedEvent>)
    requires Distinct(a) && Distinct(b) && multiset(a) == multiset(b)
    ensures InSourceOrder(a) == InSourceOrder(b)
  {
    InSourceOrderIsSorted(a);
    InSourceOrderIsSorted(b);
    SortedIsUnique(InSourceOrder(a), InSourceOrder(b));
  }
}
