/** What admission, selection and taking mean to their callers, in terms of events, sizes and numbers of works. */
module SchedulerLaws {
  import opened Sequences
  import opened Events
  import opened SchedulerSpec

  // ---- The share of a context ------------------------------------------------------------

  /** The positions of the pending works of one context, and the threads running it. */
  function PendingOf(works: seq<SizedEvent>, c: string): set<nat> {
    set i: nat | i < |works| && works[i].event.Key() == Some(c)
  }

  function RunningOf(active: map<Thread, SizedEvent>, c: string): set<Thread> {
    set t <- active | active[t].event.Key() == Some(c)
  }

  function Works(s: Scheduler, c: string): nat {
    |PendingOf(s.pending, c)| + |RunningOf(s.active, c)|
  }

  /** A context may always have one work, and several as long as every worker could have as many. */
  predicate WithinShare(cfg: Config, works: nat) {
    works <= 1 || works * cfg.workers <= cfg.pendingLimit
  }

  lemma ShareIs(cfg: Config, works: nat)
    ensures works <= cfg.ContextLimit() <==> WithinShare(cfg, works)
  {
    var share := cfg.pendingLimit / cfg.workers;
    Quotient(cfg.pendingLimit, cfg.workers);
    if works <= share {
      Multiples(works, share, cfg.workers);
    } else {
      Multiples(share + 1, works, cfg.workers);
    }
  }

  lemma Quotient(p: nat, w: pos)
    ensures p / w * w <= p < (p / w + 1) * w
  {
  }

  lemma Multiples(a: nat, b: nat, w: pos)
    requires a <= b
    ensures a * w <= b * w
  {
  }

  lemma {:induction false} PendingAreCounted(works: seq<SizedEvent>, c: string)
    ensures PendingIn(works, c) == |PendingOf(works, c)|
  {
    if works == [] {
      assert PendingOf(works, c) == {};
    } else {
      var n := |works| - 1;
      PendingAreCounted(works[..n], c);
      assert works == works[..n] + [works[n]];
      SumAppend(InContext(c), works[..n], works[n]);
      var one: set<nat> := if works[n].event.Key() == Some(c) then {n} else {};
      assert PendingOf(works, c) == PendingOf(works[..n], c) + one;
    }
  }

  lemma RunningAreCounted(cfg: Config, s: Scheduler, c: string)
    requires Exclusion(cfg, s)
    ensures |RunningOf(s.active, c)| == if c in s.activeContexts then 1 else 0
  {
    var running := RunningOf(s.active, c);
    if c in s.activeContexts {
      var t :| t in s.active && s.active[t].event.Key() == Some(c);
      forall u <- running ensures u == t {
        OnlyContextsSeparate(s.active[u].event, s.active[t].event);
      }
      assert running == {t};
    } else {
      assert running == {};
    }
  }

  /** The scheduler's own figures are the numbers of works. */
  lemma WorksAreCounted(cfg: Config, s: Scheduler, c: string)
    requires Inv(cfg, s)
    ensures ContextWork(s, c) == Works(s, c)
  {
    ContextWorkIs(cfg, s, c);
    PendingAreCounted(s.pending, c);
    RunningAreCounted(cfg, s, c);
    hide Inv, ContextWork, PendingIn;
  }

  // ---- Selection -------------------------------------------------------------------------

  /** An event may be handed over if it fits, conflicts with nothing left in front of it, and its context keeps
      within its share. One too large for the scheduler goes to it for the error. */
  ghost predicate MayFollow(cfg: Config, s: Scheduler, source: seq<SizedEvent>, k: nat) {
    && k < |source| && |s.pending| < cfg.pendingLimit
    && (source[k].size > cfg.byteLimit || Sum(SizeOf, s.pending) + source[k].size <= cfg.byteLimit)
    && (forall j: nat :: j < k ==> !Conflict(source[j].event, source[k].event))
    && forall c :: source[k].event.Key() == Some(c) ==> WithinShare(cfg, Works(s, c) + 1)
  }

  lemma SelectableMayFollow(cfg: Config, s: Scheduler, source: seq<SizedEvent>, k: nat)
    requires Inv(cfg, s)
    ensures Selectable(cfg, s, source, k) <==> MayFollow(cfg, s, source, k)
  {
    if k < |source| && source[k].event.Key().Some? {
      var c := source[k].event.context;
      WorksAreCounted(cfg, s, c);
      ShareIs(cfg, Works(s, c) + 1);
    }
    hide CountsExact, ContextsExact, Independent, Works, Conflict, ContextWork, Config.ContextLimit;
  }

  /** While the scheduler accepts, selection hands over the first event that may follow, if there is one; afterwards
      the head, to be discarded. */
  lemma SelectsTheFirst(cfg: Config, s: Scheduler, source: seq<SizedEvent>, r: Selection)
    requires Inv(cfg, s)
    ensures IsSelection(cfg, s, source, r) <==> match r
      case Index(k) =>
        if s.accepting then s.started && MayFollow(cfg, s, source, k) && forall j: nat :: j < k ==> !MayFollow(cfg, s, source, j)
        else k == 0
      case NothingEligible => s.accepting && s.started && forall j: nat :: !MayFollow(cfg, s, source, j)
      case NotStarted => s.accepting && !s.started
  {
    forall k: nat ensures Selectable(cfg, s, source, k) <==> MayFollow(cfg, s, source, k) {
      SelectableMayFollow(cfg, s, source, k);
    }
    hide Selectable, MayFollow, Inv;
  }

  /** No event that may follow is passed over, whatever share its context already has. */
  lemma NobodyIsPassedOver(cfg: Config, s: Scheduler, source: seq<SizedEvent>, r: Selection, k: nat)
    requires Inv(cfg, s) && s.accepting && s.started && IsSelection(cfg, s, source, r) && MayFollow(cfg, s, source, k)
    ensures r.Index? && r.k <= k && MayFollow(cfg, s, source, r.k)
  {
    SelectsTheFirst(cfg, s, source, r);
    hide Inv, IsSelection, MayFollow;
  }

  // ---- Admission -------------------------------------------------------------------------

  /** What a submission finds: an event waits only where one of the two limits leaves no room for it. */
  lemma AdmitsWhatFits(cfg: Config, s: Scheduler, w: SizedEvent)
    requires Inv(cfg, s)
    ensures var outcome := AdmissionOf(cfg, s, w);
      && (outcome.Discarded? <==> !s.accepting)
      && (outcome.LifecycleError? <==> s.accepting && !s.started)
      && (outcome.Oversized? <==> s.accepting && s.started && w.size > cfg.byteLimit)
      && (outcome.Admitted? <==>
            s.accepting && s.started && |s.pending + [w]| <= cfg.pendingLimit && Sum(SizeOf, s.pending + [w]) <= cfg.byteLimit)
    ensures var s' := Submit(cfg, s, w);
      && s'.pending == s.pending + (if AdmissionOf(cfg, s, w).Admitted? then [w] else [])
      && s'.active == s.active && s'.accepting == s.accepting && s'.started == s.started && s'.completed == s.completed
      && s'.accepted == s.accepted + (if AdmissionOf(cfg, s, w).Admitted? then 1 else 0)
      && s'.oversized == s.oversized + (if AdmissionOf(cfg, s, w).Oversized? then 1 else 0)
      && s'.discarded == s.discarded + (if s.accepting then 0 else 1)
  {
    SumAppend(SizeOf, s.pending, w);
    SizesArePositive(s.pending);
    hide Sum, CountsExact;
  }

  lemma {:induction false} SizesArePositive(works: seq<SizedEvent>)
    ensures 0 <= Sum(SizeOf, works)
  {
    if works != [] {
      SizesArePositive(works[1..]);
    }
  }

  // ---- Taking work -----------------------------------------------------------------------

  /** Nothing active and nothing pending in front of it conflicts with the work. */
  ghost predicate IsFree(s: Scheduler, i: nat) {
    && i < |s.pending|
    && (forall t <- s.active :: !Conflict(s.active[t].event, s.pending[i].event))
    && forall j: nat :: j < i ==> !Conflict(s.pending[j].event, s.pending[i].event)
  }

  lemma FreeIsTakeable(cfg: Config, s: Scheduler, i: nat)
    requires Inv(cfg, s) && IsFree(s, i)
    ensures Takeable(s, i)
  {
    var e := s.pending[i].event;
    if t :| t in s.active {
      OnlyContextsSeparate(s.active[t].event, e);
    }
    if i > 0 {
      OnlyContextsSeparate(s.pending[0].event, e);
    }
    hide Accounting;
  }

  /** A work that could start but is not free stands behind one of its context that could start as well. */
  lemma TakeableHasFree(cfg: Config, s: Scheduler, i: nat)
    requires Inv(cfg, s) && Takeable(s, i)
    ensures IsFree(s, i) || exists j: nat :: j < i && Takeable(s, j)
  {
    var e := s.pending[i].event;
    hide Accounting;
    forall t <- s.active ensures !Conflict(s.active[t].event, e) {
      if !e.IsBarrier() {
        assert !s.active[t].event.IsBarrier() && s.active[t].event.Key() != Some(e.context);
      }
    }
    if j: nat :| j < i && Conflict(s.pending[j].event, e) {
      assert !s.pending[j].event.IsBarrier() && s.pending[j].event.context == e.context;
      assert Takeable(s, j);
    }
  }

  /** A worker takes the first free work, if there is one. */
  lemma TakesTheFirstFree(cfg: Config, s: Scheduler, r: Option<nat>)
    requires Inv(cfg, s)
    ensures IsTake(s, r) <==> match r
      case Some(i) => IsFree(s, i) && forall j: nat :: j < i ==> !IsFree(s, j)
      case None => forall j: nat :: !IsFree(s, j)
  {
    hide Inv, Takeable, IsFree;
    forall j: nat | IsFree(s, j) ensures Takeable(s, j) {
      FreeIsTakeable(cfg, s, j);
    }
    if r.Some? && Takeable(s, r.value) {
      var i := FreeBefore(cfg, s, r.value);
    }
    forall j: nat | r.None? && Takeable(s, j) ensures exists i: nat :: IsFree(s, i) {
      var i := FreeBefore(cfg, s, j);
    }
    if r.Some? && exists j: nat :: j < r.value && Takeable(s, j) {
      var j: nat :| j < r.value && Takeable(s, j);
      var i := FreeBefore(cfg, s, j);
    }
  }

  lemma {:induction false} FreeBefore(cfg: Config, s: Scheduler, j: nat) returns (i: nat)
    requires Inv(cfg, s) && Takeable(s, j)
    ensures i <= j && IsFree(s, i)
  {
    hide Inv, Takeable, IsFree;
    TakeableHasFree(cfg, s, j);
    if IsFree(s, j) {
      i := j;
    } else {
      var k: nat :| k < j && Takeable(s, k);
      i := FreeBefore(cfg, s, k);
    }
  }

  // ---- Where a work goes ---------------------------------------------------------------------

  /** A work goes from the pending ones to a thread and from there to the completed ones; every other stays where it is. */
  lemma WorkMoves(cfg: Config, s: Scheduler, t: Thread, i: nat)
    requires Inv(cfg, s) && i < |s.pending|
    requires s.pending[i].event.Key().Some? ==> s.pending[i].event.Key().value in s.pendingByContext
    ensures t !in s.active ==> var taken := Take(s, t, i);
      && taken.pending == s.pending[..i] + s.pending[i + 1..] && taken.active == s.active[t := s.pending[i]]
      && taken.accepted == s.accepted && taken.completed == s.completed && taken.accepting == s.accepting
    ensures t in s.active ==> var finished := Finish(s, t);
      && finished.pending == s.pending && finished.active == s.active - {t}
      && finished.accepted == s.accepted && finished.completed == s.completed + 1 && finished.accepting == s.accepting
  {
  }

  /** A discard takes every pending work and counts it; each is completed on its own afterwards. */
  lemma DiscardedAreCounted(s: Scheduler)
    ensures var s' := DiscardPending(s);
      && s'.pending == [] && s'.active == s.active && s'.completed == s.completed && s'.accepted == s.accepted
      && s'.discarded - s.discarded == s'.terminalizing - s.terminalizing == |s.pending|
    ensures var s' := Terminalize(s);
      s'.terminalizing == s.terminalizing - 1 && s'.completed == s.completed + 1 && s'.pending == s.pending && s'.active == s.active
  {
  }
}
