/** Specification of the keyed-serial scheduler: its state, its atomic steps and what every step keeps. */
module SchedulerSpec {
  import opened Sequences
  import opened Events

  type Thread = nat

  datatype Config = Config(workers: pos, pendingLimit: pos, byteLimit: pos) {
    function ContextLimit(): pos {
      if pendingLimit / workers > 1 then pendingLimit / workers else 1
    }
  }

  datatype Scheduler = Scheduler(
    pending: seq<SizedEvent>,
    pendingBytes: int,
    pendingByContext: map<string, int>,
    activeContexts: set<string>,
    active: map<Thread, SizedEvent>,
    barrierActive: bool,
    terminalizing: int,
    started: bool,
    accepting: bool,
    accepted: int,
    completed: int,
    discarded: int,
    oversized: int)

  const Initial := Scheduler([], 0, map[], {}, map[], false, 0, false, true, 0, 0, 0, 0)

  function SizeOf(e: SizedEvent): int { e.size }

  function InContext(c: string): SizedEvent -> int {
    (e: SizedEvent) => if e.event.Key() == Some(c) then 1 else 0
  }

  /** The exact number of pending works of one context. */
  function PendingIn(works: seq<SizedEvent>, c: string): int {
    Sum(InContext(c), works)
  }

  /** The per-context index holds exactly the contexts with pending work, each with its count. */
  ghost predicate CountsExact(counts: map<string, int>, works: seq<SizedEvent>) {
    && (forall c :: c in counts <==> PendingIn(works, c) > 0)
    && (forall c <- counts :: counts[c] == PendingIn(works, c))
  }

  ghost predicate Accounting(cfg: Config, s: Scheduler) {
    && |s.pending| <= cfg.pendingLimit
    && s.pendingBytes == Sum(SizeOf, s.pending) <= cfg.byteLimit
    && CountsExact(s.pendingByContext, s.pending)
    && 0 <= s.terminalizing
    && s.accepted == s.completed + |s.pending| + |s.active| + s.terminalizing
    && (s.discarded > 0 || s.terminalizing > 0 ==> !s.accepting)
    && 0 <= s.discarded
  }

  ghost predicate ContextsExact(contexts: set<string>, active: map<Thread, SizedEvent>) {
    forall c :: c in contexts <==> exists t <- active :: active[t].event.Key() == Some(c)
  }

  ghost predicate Independent(active: map<Thread, SizedEvent>) {
    forall t, u :: t in active && u in active && t != u ==> !Conflict(active[t].event, active[u].event)
  }

  /** Callbacks run alone behind a barrier and otherwise in pairwise different contexts. */
  ghost predicate Exclusion(cfg: Config, s: Scheduler) {
    && (forall t <- s.active :: t < cfg.workers)
    && ContextsExact(s.activeContexts, s.active)
    && Independent(s.active)
    && (s.barrierActive <==> exists t <- s.active :: s.active[t].event.IsBarrier())
    && (s.active != map[] ==> s.started)
  }

  ghost predicate Inv(cfg: Config, s: Scheduler) {
    Accounting(cfg, s) && Exclusion(cfg, s)
  }

  // ---- Admission -------------------------------------------------------------------------

  function ContextWork(s: Scheduler, c: string): int {
    (if c in s.pendingByContext then s.pendingByContext[c] else 0) + (if c in s.activeContexts then 1 else 0)
  }

  predicate CanAdmitBytes(cfg: Config, s: Scheduler, size: pos) {
    size > cfg.byteLimit || s.pendingBytes + size <= cfg.byteLimit
  }

  /** Source position k may be handed over now: nothing it conflicts with stays behind in front of it. */
  ghost predicate Selectable(cfg: Config, s: Scheduler, source: seq<SizedEvent>, k: nat) {
    && k < |source|
    && |s.pending| < cfg.pendingLimit
    && CanAdmitBytes(cfg, s, source[k].size)
    && (forall j: nat :: j < k ==> !Conflict(source[j].event, source[k].event))
    && (!source[k].event.IsBarrier() ==> ContextWork(s, source[k].event.context) < cfg.ContextLimit())
  }

  datatype Selection = Index(k: nat) | NothingEligible | NotStarted

  /** The selection rule: the earliest selectable position, if there is one. */
  ghost predicate IsSelection(cfg: Config, s: Scheduler, source: seq<SizedEvent>, r: Selection) {
    if !s.accepting then r == Index(0)
    else if !s.started then r == NotStarted
    else match r
      case Index(k) => Selectable(cfg, s, source, k) && forall j: nat :: j < k ==> !Selectable(cfg, s, source, j)
      case NothingEligible => forall j: nat :: !Selectable(cfg, s, source, j)
      case NotStarted => false
  }

  /** Nothing behind a barrier is selectable, and the barrier itself only at the head. */
  lemma BarrierEndsSelection(cfg: Config, s: Scheduler, source: seq<SizedEvent>, b: nat)
    requires b < |source| && source[b].event.IsBarrier()
    ensures forall k: nat :: Selectable(cfg, s, source, k) ==> k < b || k == b == 0
  {
    forall k: nat | Selectable(cfg, s, source, k) ensures k < b || k == b == 0 {
      if k > b {
        assert Conflict(source[b].event, source[k].event);
      } else if k == b != 0 {
        assert Conflict(source[0].event, source[b].event);
      }
    }
  }

  /** Why the scan passes over an event: its context has its share of work, its bytes do not fit,
      or an earlier event of the same context was passed over. */
  ghost predicate PassedOver(cfg: Config, s: Scheduler, source: seq<SizedEvent>, k: nat) {
    && k < |source|
    && !source[k].event.IsBarrier()
    && (ContextWork(s, source[k].event.context) >= cfg.ContextLimit()
        || !CanAdmitBytes(cfg, s, source[k].size)
        || exists j: nat :: j < k && source[j].event.Key() == source[k].event.Key())
  }

  lemma PassedOverIsNotSelectable(cfg: Config, s: Scheduler, source: seq<SizedEvent>, n: nat)
    requires n <= |source|
    requires forall j: nat :: j < n ==> PassedOver(cfg, s, source, j)
    ensures forall j: nat :: j < n ==> !Selectable(cfg, s, source, j)
  {
    forall j: nat | j < n ensures !Selectable(cfg, s, source, j) {
      assert PassedOver(cfg, s, source, j);
      if i: nat :| i < j && source[i].event.Key() == source[j].event.Key() {
        assert Conflict(source[i].event, source[j].event);
      }
    }
  }

  lemma FirstFitIsSelected(cfg: Config, s: Scheduler, source: seq<SizedEvent>, k: nat)
    requires s.accepting && s.started && |s.pending| < cfg.pendingLimit
    requires k < |source| && CanAdmitBytes(cfg, s, source[k].size)
    requires forall j: nat :: j < k ==> PassedOver(cfg, s, source, j)
    requires source[k].event.IsBarrier() ==> k == 0
    requires !source[k].event.IsBarrier() ==> ContextWork(s, source[k].event.context) < cfg.ContextLimit()
    requires forall j: nat :: j < k ==> source[j].event.Key() != source[k].event.Key()
    ensures IsSelection(cfg, s, source, Index(k))
  {
    PassedOverIsNotSelectable(cfg, s, source, k);
    forall j: nat | j < k ensures !Conflict(source[j].event, source[k].event) {
      assert PassedOver(cfg, s, source, j);
    }
  }

  datatype Admission = Discarded | LifecycleError | Oversized | MustWait | Admitted

  function AdmissionOf(cfg: Config, s: Scheduler, w: SizedEvent): Admission {
    if !s.accepting then Discarded
    else if !s.started then LifecycleError
    else if w.size > cfg.byteLimit then Oversized
    else if |s.pending| >= cfg.pendingLimit || s.pendingBytes + w.size > cfg.byteLimit then MustWait
    else Admitted
  }

  function Submit(cfg: Config, s: Scheduler, w: SizedEvent): Scheduler {
    match AdmissionOf(cfg, s, w)
    case Discarded => s.(discarded := s.discarded + 1)
    case Oversized => s.(oversized := s.oversized + 1)
    case Admitted => s.(
      pending := s.pending + [w],
      pendingBytes := s.pendingBytes + w.size,
      pendingByContext := Added(s.pendingByContext, w.event.Key()),
      accepted := s.accepted + 1)
    case _ => s
  }

  function Added(counts: map<string, int>, key: Option<string>): map<string, int> {
    match key
    case None => counts
    case Some(c) => counts[c := (if c in counts then counts[c] else 0) + 1]
  }

  function Dropped(counts: map<string, int>, key: Option<string>): map<string, int>
    requires key.Some? ==> key.value in counts
  {
    match key
    case None => counts
    case Some(c) => if counts[c] - 1 != 0 then counts[c := counts[c] - 1] else counts - {c}
  }

  // ---- Taking and finishing work ---------------------------------------------------------

  /** Pending position i may start now: alone if a barrier, otherwise in an idle context with no barrier ahead. */
  ghost predicate Takeable(s: Scheduler, i: nat) {
    && i < |s.pending|
    && !s.barrierActive
    && (if s.pending[i].event.IsBarrier() then i == 0 && s.active == map[]
        else s.pending[i].event.context !in s.activeContexts
             && forall j: nat :: j < i ==> !s.pending[j].event.IsBarrier())
  }

  /** The taking rule: the earliest takeable position, if there is one. */
  ghost predicate IsTake(s: Scheduler, r: Option<nat>) {
    match r
    case Some(i) => Takeable(s, i) && forall j: nat :: j < i ==> !Takeable(s, j)
    case None => forall j: nat :: !Takeable(s, j)
  }

  function Take(s: Scheduler, t: Thread, i: nat): Scheduler
    requires i < |s.pending|
    requires s.pending[i].event.Key().Some? ==> s.pending[i].event.Key().value in s.pendingByContext
  {
    var w := s.pending[i];
    s.(pending := RemoveAt(s.pending, i),
       pendingBytes := s.pendingBytes - w.size,
       pendingByContext := Dropped(s.pendingByContext, w.event.Key()),
       activeContexts := s.activeContexts + (if w.event.IsBarrier() then {} else {w.event.context}),
       barrierActive := s.barrierActive || w.event.IsBarrier(),
       active := s.active[t := w])
  }

  function Finish(s: Scheduler, t: Thread): Scheduler
    requires t in s.active
  {
    var w := s.active[t];
    s.(completed := s.completed + 1,
       barrierActive := if w.event.IsBarrier() then false else s.barrierActive,
       activeContexts := s.activeContexts - (if w.event.IsBarrier() then {} else {w.event.context}),
       active := s.active - {t})
  }

  function StopAccepting(s: Scheduler): Scheduler { s.(accepting := false) }

  /** Empty the pending deque; every removed work still owes its completion. */
  function DiscardPending(s: Scheduler): Scheduler {
    s.(pending := [], pendingBytes := 0, pendingByContext := map[],
       terminalizing := s.terminalizing + |s.pending|, discarded := s.discarded + |s.pending|)
  }

  function Terminalize(s: Scheduler): Scheduler {
    s.(terminalizing := s.terminalizing - 1, completed := s.completed + 1)
  }

  // ---- Every step keeps the invariant ----------------------------------------------------

  lemma PendingInBounds(works: seq<SizedEvent>, c: string)
    ensures 0 <= PendingIn(works, c) <= |works|
    ensures (exists w <- works :: w.event.Key() == Some(c)) ==> 0 < PendingIn(works, c)
  {
    if works != [] {
      PendingInBounds(works[1..], c);
      if w :| w in works && w.event.Key() == Some(c) {
        assert w == works[0] || w in works[1..];
      }
    }
  }

  lemma CountsAdded(counts: map<string, int>, works: seq<SizedEvent>, w: SizedEvent)
    requires CountsExact(counts, works)
    ensures CountsExact(Added(counts, w.event.Key()), works + [w])
  {
    forall c ensures PendingIn(works + [w], c) == PendingIn(works, c) + InContext(c)(w) && 0 <= PendingIn(works, c) {
      SumAppend(InContext(c), works, w);
      PendingInBounds(works, c);
    }
  }

  lemma CountsDropped(counts: map<string, int>, works: seq<SizedEvent>, i: nat)
    requires CountsExact(counts, works) && i < |works|
    ensures works[i].event.Key().Some? ==> works[i].event.Key().value in counts
    ensures CountsExact(Dropped(counts, works[i].event.Key()), RemoveAt(works, i))
  {
    var k := works[i].event.Key();
    if k.Some? {
      PendingInBounds(works, k.value);
      assert works[i] in works;
    }
    forall c ensures PendingIn(RemoveAt(works, i), c) == PendingIn(works, c) - InContext(c)(works[i]) {
      SumRemoveAt(InContext(c), works, i);
    }
  }

  lemma SubmitKeepsInv(cfg: Config, s: Scheduler, w: SizedEvent)
    requires Inv(cfg, s)
    ensures Inv(cfg, Submit(cfg, s, w))
  {
    SubmitKeepsAccounting(cfg, s, w);
    hide Accounting, ContextsExact, Independent, AdmissionOf;
  }

  lemma SubmitKeepsAccounting(cfg: Config, s: Scheduler, w: SizedEvent)
    requires Accounting(cfg, s)
    ensures Accounting(cfg, Submit(cfg, s, w))
  {
    hide CountsExact, Sum, Added;
    SumAppend(SizeOf, s.pending, w);
    CountsAdded(s.pendingByContext, s.pending, w);
  }

  lemma TakeKeepsAccounting(cfg: Config, s: Scheduler, t: Thread, i: nat)
    requires Accounting(cfg, s) && t !in s.active && i < |s.pending|
    ensures s.pending[i].event.Key().Some? ==> s.pending[i].event.Key().value in s.pendingByContext
    ensures Accounting(cfg, Take(s, t, i))
  {
    hide CountsExact, PendingIn, Sum, RemoveAt, Dropped;
    CountsDropped(s.pendingByContext, s.pending, i);
    SumRemoveAt(SizeOf, s.pending, i);
    RemovedLength(s.pending, i);
    OneMoreActive(s.active, t, s.pending[i]);
  }

  lemma OneMoreActive(active: map<Thread, SizedEvent>, t: Thread, w: SizedEvent)
    requires t !in active
    ensures |active[t := w]| == |active| + 1
  {
    assert active[t := w].Keys == active.Keys + {t};
  }

  lemma RemovedLength(works: seq<SizedEvent>, i: nat)
    requires i < |works|
    ensures |RemoveAt(works, i)| == |works| - 1
  {
  }

  lemma ContextsStarted(contexts: set<string>, active: map<Thread, SizedEvent>, t: Thread, w: SizedEvent)
    requires ContextsExact(contexts, active) && t !in active
    ensures ContextsExact(contexts + (if w.event.IsBarrier() then {} else {w.event.context}), active[t := w])
  {
    var active' := active[t := w];
    forall c ensures c in contexts || w.event.Key() == Some(c) <==> exists u <- active' :: active'[u].event.Key() == Some(c) {
      if c in contexts {
        var u :| u in active && active[u].event.Key() == Some(c);
        assert active'[u] == active[u];
      }
      if w.event.Key() == Some(c) {
        assert active'[t] == w;
      }
    }
  }

  lemma IndependentStarted(contexts: set<string>, active: map<Thread, SizedEvent>, t: Thread, w: SizedEvent)
    requires ContextsExact(contexts, active) && Independent(active) && t !in active
    requires forall u <- active :: !active[u].event.IsBarrier()
    requires if w.event.IsBarrier() then active == map[] else w.event.context !in contexts
    ensures Independent(active[t := w])
  {
    forall u <- active ensures !Conflict(active[u].event, w.event) {
      assert active[u].event.Key() == Some(active[u].event.context);
      assert active[u].event.context in contexts;
    }
  }

  lemma TakeKeepsInv(cfg: Config, s: Scheduler, t: Thread, i: nat)
    requires Inv(cfg, s) && s.started
    requires t < cfg.workers && t !in s.active
    requires Takeable(s, i)
    ensures s.pending[i].event.Key().Some? ==> s.pending[i].event.Key().value in s.pendingByContext
    ensures Inv(cfg, Take(s, t, i))
  {
    TakeKeepsAccounting(cfg, s, t, i);
    ContextsStarted(s.activeContexts, s.active, t, s.pending[i]);
    IndependentStarted(s.activeContexts, s.active, t, s.pending[i]);
    assert Take(s, t, i).active[t] == s.pending[i];
  }

  lemma FinishKeepsInv(cfg: Config, s: Scheduler, t: Thread)
    requires Inv(cfg, s) && t in s.active
    ensures Inv(cfg, Finish(s, t))
  {
    FinishKeepsAccounting(cfg, s, t);
    hide Accounting;
    ContextsFinished(s.activeContexts, s.active, t);
    IndependentFinished(s.active, t);
    hide ContextsExact, Independent;
    FinishKeepsExclusion(cfg, s, t);
  }

  lemma FinishKeepsAccounting(cfg: Config, s: Scheduler, t: Thread)
    requires Accounting(cfg, s) && t in s.active
    ensures Accounting(cfg, Finish(s, t))
  {
    hide CountsExact, Sum;
    assert Finish(s, t).active.Keys == s.active.Keys - {t};
  }

  lemma ContextsFinished(contexts: set<string>, active: map<Thread, SizedEvent>, t: Thread)
    requires ContextsExact(contexts, active) && Independent(active) && t in active
    ensures ContextsExact(contexts - (if active[t].event.IsBarrier() then {} else {active[t].event.context}), active - {t})
  {
    var active' := active - {t};
    forall c
      ensures c in contexts && active[t].event.Key() != Some(c) <==> exists u <- active' :: active'[u].event.Key() == Some(c)
    {
      if c in contexts && active[t].event.Key() != Some(c) {
        var u :| u in active && active[u].event.Key() == Some(c);
        assert u in active';
      }
      if u :| u in active' && active'[u].event.Key() == Some(c) {
        var conflict := Conflict(active[u].event, active[t].event);
      }
    }
  }

  lemma IndependentFinished(active: map<Thread, SizedEvent>, t: Thread)
    requires Independent(active)
    ensures Independent(active - {t})
  {
  }

  lemma FinishKeepsExclusion(cfg: Config, s: Scheduler, t: Thread)
    requires Exclusion(cfg, s) && t in s.active
    requires ContextsExact(Finish(s, t).activeContexts, Finish(s, t).active) && Independent(Finish(s, t).active)
    ensures Exclusion(cfg, Finish(s, t))
  {
    OneKindAtATime(s.active, t);
    hide ContextsExact, Independent;
    assert forall u <- s.active - {t} :: u in s.active && u != t;
  }

  /** A barrier runs alone, and beside any other callback there is no barrier. */
  lemma OneKindAtATime(active: map<Thread, SizedEvent>, t: Thread)
    requires Independent(active) && t in active
    ensures forall u <- active :: u == t || (!active[t].event.IsBarrier() && !active[u].event.IsBarrier())
  {
    forall u <- active ensures u == t || (!active[t].event.IsBarrier() && !active[u].event.IsBarrier()) {
      var conflict := Conflict(active[u].event, active[t].event);
    }
  }

  lemma DiscardKeepsInv(cfg: Config, s: Scheduler)
    requires Inv(cfg, s) && !s.accepting
    ensures Inv(cfg, DiscardPending(s))
  {
  }

  lemma StopKeepsInv(cfg: Config, s: Scheduler)
    requires Inv(cfg, s)
    ensures Inv(cfg, StopAccepting(s))
  {
  }

  lemma TerminalizeKeepsInv(cfg: Config, s: Scheduler)
    requires Inv(cfg, s) && s.terminalizing > 0
    ensures Inv(cfg, Terminalize(s))
  {
  }

  // ---- No stall --------------------------------------------------------------------------

  /** A selection that finds nothing leaves work in the scheduler, so a later step will retry it. */
  lemma SelectionNeverStalls(cfg: Config, s: Scheduler, source: seq<SizedEvent>)
    requires Inv(cfg, s) && source != []
    requires IsSelection(cfg, s, source, NothingEligible)
    ensures s.pending != [] || s.active != map[]
  {
    if s.pending == [] && s.active == map[] {
      assert Selectable(cfg, s, source, 0);
    }
  }

  /** Taking finds nothing among pending work only while some callback runs. */
  lemma TakingNeverStalls(cfg: Config, s: Scheduler)
    requires Inv(cfg, s) && s.pending != []
    requires IsTake(s, None)
    ensures s.active != map[]
  {
    assert !Takeable(s, 0);
  }

  /** The choice is a function of the state, so a method proved against the rule has no freedom left. */
  lemma SelectionIsUnique(cfg: Config, s: Scheduler, source: seq<SizedEvent>, a: Selection, b: Selection)
    requires IsSelection(cfg, s, source, a) && IsSelection(cfg, s, source, b)
    ensures a == b
  {
  }

  lemma TakeIsUnique(s: Scheduler, a: Option<nat>, b: Option<nat>)
    requires IsTake(s, a) && IsTake(s, b)
    ensures a == b
  {
  }

  /** A selected event is admitted, rejected as oversized or discarded at once, whatever finished in between. */
  lemma SelectedNeverWaits(cfg: Config, s: Scheduler, later: Scheduler, source: seq<SizedEvent>, k: nat)
    requires Inv(cfg, s) && Inv(cfg, later) && k < |source|
    requires IsSelection(cfg, s, source, Index(k))
    requires |later.pending| <= |s.pending| && later.pendingBytes <= s.pendingBytes
    requires later.accepting ==> s.accepting
    ensures AdmissionOf(cfg, later, source[k]) != MustWait
  {
  }

  // ---- Context budgets -------------------------------------------------------------------

  lemma ContextWorkIs(cfg: Config, s: Scheduler, c: string)
    requires Inv(cfg, s)
    ensures ContextWork(s, c) == PendingIn(s.pending, c) + if c in s.activeContexts then 1 else 0
  {
    PendingInBounds(s.pending, c);
  }

  lemma TakeKeepsContextWork(cfg: Config, s: Scheduler, t: Thread, i: nat, c: string)
    requires Inv(cfg, s) && s.started && t < cfg.workers && t !in s.active && Takeable(s, i)
    requires s.pending[i].event.Key().Some? ==> s.pending[i].event.Key().value in s.pendingByContext
    ensures ContextWork(Take(s, t, i), c) == ContextWork(s, c)
  {
    TakeKeepsInv(cfg, s, t, i);
    ContextWorkIs(cfg, s, c);
    ContextWorkIs(cfg, Take(s, t, i), c);
    SumRemoveAt(InContext(c), s.pending, i);
  }

  lemma SubmitRaisesContextWork(cfg: Config, s: Scheduler, w: SizedEvent, c: string)
    requires Inv(cfg, s)
    ensures ContextWork(Submit(cfg, s, w), c) ==
      ContextWork(s, c) + if AdmissionOf(cfg, s, w) == Admitted && w.event.Key() == Some(c) then 1 else 0
  {
  }

  lemma FinishLowersContextWork(cfg: Config, s: Scheduler, t: Thread, c: string)
    requires Inv(cfg, s) && t in s.active
    ensures ContextWork(Finish(s, t), c) <= ContextWork(s, c)
  {
  }

  lemma DiscardLowersContextWork(cfg: Config, s: Scheduler, c: string)
    requires Inv(cfg, s)
    ensures ContextWork(DiscardPending(s), c) <= ContextWork(s, c)
  {
    ContextWorkIs(cfg, s, c);
    PendingInBounds(s.pending, c);
  }

  /** The pool bounds the callbacks that run at once. */
  lemma ActiveWithinPool(cfg: Config, s: Scheduler)
    requires Inv(cfg, s)
    ensures |s.active| <= cfg.workers
  {
    RangeCardinality(s.active.Keys, cfg.workers);
  }
}
