/** Specification of the bounded source queue: overflow, dial coalescing, selection and acknowledgement. */
module InboundSpec {
  import opened Sequences
  import opened Events
  import opened Handlers

  datatype Config = Config(
    queueLimit: pos,
    byteLimit: pos,
    dropOldest: bool,
    coalesceDials: bool,
    sizeOf: Event -> pos)

  /** The queue, followed by what happened to every event ever submitted. */
  datatype Inbound = Inbound(
    entries: seq<SizedEvent>,
    bytes: int,
    last: map<string, nat>,      // context -> stamp of the entry a rotation may merge into
    accepting: bool,
    inFlight: int,
    acknowledged: int,
    nextStamp: nat,
    submitted: seq<Event>,
    coalesced: int,
    delivered: seq<SizedEvent>,
    evicted: seq<Event>,         // queued rotations dropped to make room
    refused: seq<Event>,         // events that never entered the queue
    discarded: seq<Event>,       // queued events cleared by a shutdown timeout
    waiting: seq<Event>,         // blocked submissions
    decided: seq<Event>,         // accepted and refused events, in decision order
    newest: map<nat, nat>)       // stamp -> decision index of the newest event in the entry

  const Initial := Inbound([], 0, map[], true, 0, 0, 0, [], 0, [], [], [], [], [], [], map[])

  function SizeOf(e: SizedEvent): int { e.size }

  predicate Touches(e: Event, c: string) {
    e.Key().None? || e.Key() == Some(c)
  }

  // ---- Steps -----------------------------------------------------------------------------

  predicate Full(cfg: Config, s: Inbound, size: pos) {
    |s.entries| >= cfg.queueLimit || s.bytes + size > cfg.byteLimit
  }

  /** Take entry i out, forgetting it as a merge target. */
  function Remove(s: Inbound, i: nat): Inbound
    requires i < |s.entries|
  {
    var e := s.entries[i];
    s.(entries := RemoveAt(s.entries, i),
       bytes := s.bytes - e.size,
       last := Forget(s.last, e))
  }

  function Forget(last: map<string, nat>, e: SizedEvent): map<string, nat> {
    match e.event.Key()
    case Some(c) => if c in last && last[c] == e.stamp then last - {c} else last
    case None => last
  }

  /** The rotation the overflow policy gives up: the first or the last queued one. */
  ghost predicate IsVictim(cfg: Config, entries: seq<SizedEvent>, v: Option<nat>) {
    match v
    case None => forall e <- entries :: !e.event.DialRotate?
    case Some(i) =>
      && i < |entries| && entries[i].event.DialRotate?
      && (cfg.dropOldest ==> forall j :: 0 <= j < i ==> !entries[j].event.DialRotate?)
      && (!cfg.dropOldest ==> forall j :: i < j < |entries| ==> !entries[j].event.DialRotate?)
  }

  function Victim(cfg: Config, entries: seq<SizedEvent>): (v: Option<nat>)
    ensures IsVictim(cfg, entries, v)
  {
    if entries == [] then None
    else if cfg.dropOldest then
      if entries[0].event.DialRotate? then Some(0)
      else
        match Victim(cfg, entries[1..])
        case None => None
        case Some(i) => Some(i + 1)
    else
      var n := |entries| - 1;
      if entries[n].event.DialRotate? then Some(n)
      else
        match Victim(cfg, entries[..n])
        case None => assert entries == entries[..n] + [entries[n]]; None
        case Some(i) => Some(i)
  }

  function Evict(s: Inbound, i: nat): Inbound
    requires i < |s.entries|
  {
    Remove(s, i).(evicted := s.evicted + [s.entries[i].event])
  }

  /** Give up rotations until the new event fits or none is left. */
  function MakeRoom(cfg: Config, s: Inbound, size: pos): Inbound
    decreases |s.entries|
  {
    if !Full(cfg, s, size) then s
    else
      match Victim(cfg, s.entries)
      case None => s
      case Some(i) => MakeRoom(cfg, Evict(s, i), size)
  }

  function Broken(last: map<string, nat>, e: Event): map<string, nat> {
    match e.Key()
    case None => map[]
    case Some(c) => last - {c}
  }

  /** Refuse an event; its context, or every context behind a barrier, stops merging. */
  function Refuse(s: Inbound, e: Event): Inbound {
    s.(refused := s.refused + [e], decided := s.decided + [e], last := Broken(s.last, e))
  }

  function Append(cfg: Config, s: Inbound, e: Event): Inbound {
    s.(entries := s.entries + [SizedEvent(s.nextStamp, e, cfg.sizeOf(e))],
       bytes := s.bytes + cfg.sizeOf(e),
       last := (match e.Key() case None => map[] case Some(c) => s.last[c := s.nextStamp]),
       nextStamp := s.nextStamp + 1,
       decided := s.decided + [e],
       newest := s.newest[s.nextStamp := |s.decided|])
  }

  function Merged(previous: Event, e: Event): Event
    requires previous.DialRotate? && e.DialRotate?
  {
    e.(ticks := previous.ticks + e.ticks)
  }

  /** Entry i is the queued rotation that e may merge into. */
  predicate Mergeable(cfg: Config, s: Inbound, e: Event, i: nat) {
    && cfg.coalesceDials && e.DialRotate?
    && i < |s.entries|
    && e.context in s.last && s.last[e.context] == s.entries[i].stamp
    && s.entries[i].event.DialRotate?
    && s.entries[i].event.context == e.context
    && s.entries[i].event.dial == e.dial
    && s.bytes - s.entries[i].size + cfg.sizeOf(Merged(s.entries[i].event, e)) <= cfg.byteLimit
  }

  function Merge(cfg: Config, s: Inbound, e: Event, i: nat): Inbound
    requires Mergeable(cfg, s, e, i)
  {
    var previous := s.entries[i];
    var event := Merged(previous.event, e);
    s.(entries := s.entries[i := SizedEvent(previous.stamp, event, cfg.sizeOf(event))],
       bytes := s.bytes - previous.size + cfg.sizeOf(event),
       coalesced := s.coalesced + 1,
       decided := s.decided + [e],
       newest := s.newest[previous.stamp := |s.decided|])
  }

  /** The capacity loop of a submission. Only a lossless event can be left waiting. */
  function Place(cfg: Config, s: Inbound, e: Event, expired: bool): Inbound {
    var size := cfg.sizeOf(e);
    if e.DialRotate? && !cfg.dropOldest then
      if Full(cfg, s, size) then Refuse(s, e) else Append(cfg, s, e)
    else
      var r := MakeRoom(cfg, s, size);
      if !Full(cfg, r, size) then Append(cfg, r, e)
      else if e.DialRotate? || expired then Refuse(r, e)
      else r.(waiting := r.waiting + [e])
  }

  ghost predicate Submits(cfg: Config, s: Inbound, s': Inbound, e: Event, expired: bool) {
    var s0 := s.(submitted := s.submitted + [e]);
    if !s.accepting then s' == s0.(refused := s.refused + [e], decided := s.decided + [e])
    else if cfg.sizeOf(e) > cfg.byteLimit then s' == Refuse(s0, e)
    else if exists i: nat :: Mergeable(cfg, s0, e, i) then
      exists i: nat :: Mergeable(cfg, s0, e, i) && s' == Merge(cfg, s0, e, i)
    else s' == Place(cfg, s0, e, expired)
  }

  /** What a producer is told: its event was refused, it must wait, or it is queued or merged. */
  datatype Verdict = Accepted | Rejected | MustWait

  /** The verdict is read off what became of the event. */
  function VerdictOf(s: Inbound, s': Inbound): Verdict {
    if |s'.refused| > |s.refused| then Rejected
    else if |s'.waiting| > |s.waiting| then MustWait
    else Accepted
  }

  /** The state of a blocked submission once it no longer counts as waiting. */
  function Woken(s: Inbound, w: nat): Inbound
    requires w < |s.waiting|
  {
    s.(waiting := RemoveAt(s.waiting, w))
  }

  /** A blocked submission is woken, or its timeout has passed. */
  function Resume(cfg: Config, s: Inbound, w: nat, expired: bool): Inbound
    requires w < |s.waiting|
  {
    var e, s0 := s.waiting[w], Woken(s, w);
    if !s.accepting then Refuse(s0, e) else Place(cfg, s0, e, expired)
  }

  function Receive(s: Inbound, k: nat): Inbound
    requires k < |s.entries|
  {
    Remove(s, k).(delivered := s.delivered + [s.entries[k]], inFlight := s.inFlight + 1)
  }

  function TaskDone(s: Inbound): Inbound {
    s.(inFlight := s.inFlight - 1, acknowledged := s.acknowledged + 1)
  }

  function Stop(s: Inbound): Inbound { s.(accepting := false) }

  function EventsOf(entries: seq<SizedEvent>): seq<Event> {
    seq(|entries|, (i: int) requires 0 <= i < |entries| => entries[i].event)
  }

  function DiscardQueue(s: Inbound): Inbound {
    s.(discarded := s.discarded + EventsOf(s.entries),
       entries := [], bytes := 0, last := map[])
  }

  datatype Step =
    | SubmitStep(e: Event, expired: bool)
    | ResumeStep(w: nat, expired: bool)
    | ReceiveStep(k: nat)
    | TaskDoneStep
    | StopStep
    | DiscardStep

  ghost predicate Next(cfg: Config, s: Inbound, s': Inbound, step: Step) {
    match step
    case SubmitStep(e, expired) => Submits(cfg, s, s', e, expired)
    case ResumeStep(w, expired) => w < |s.waiting| && s' == Resume(cfg, s, w, expired)
    case ReceiveStep(k) => k < |s.entries| && s' == Receive(s, k)
    case TaskDoneStep => s.inFlight > 0 && s' == TaskDone(s)
    case StopStep => s' == Stop(s)
    case DiscardStep => !s.accepting && s' == DiscardQueue(s)
  }

  // ---- Invariant -------------------------------------------------------------------------

  ghost predicate IsMergeTarget(entries: seq<SizedEvent>, i: nat, c: string, stamp: nat) {
    && i < |entries| && entries[i].stamp == stamp && entries[i].event.Key() == Some(c)
    && forall j :: i < j < |entries| ==> !Touches(entries[j].event, c)
  }

  /** The merge index names queued entries with nothing of their context and no barrier behind them. */
  ghost predicate IndexSound(entries: seq<SizedEvent>, last: map<string, nat>) {
    forall c <- last :: exists i :: IsMergeTarget(entries, i, c, last[c])
  }

  /** The newest event of an entry is the context's most recent decision, barriers included. */
  ghost predicate IsNewest(decided: seq<Event>, newest: map<nat, nat>, stamp: nat, c: string) {
    && stamp in newest && newest[stamp] < |decided|
    && decided[newest[stamp]].Key() == Some(c)
    && forall j :: newest[stamp] < j < |decided| ==> !Touches(decided[j], c)
  }

  ghost predicate NewestSound(s: Inbound) {
    forall c <- s.last :: IsNewest(s.decided, s.newest, s.last[c], c)
  }

  ghost predicate Bounded(cfg: Config, s: Inbound) {
    && |s.entries| <= cfg.queueLimit
    && s.bytes == Sum(SizeOf, s.entries) <= cfg.byteLimit
  }

  ghost predicate StampsSound(s: Inbound) {
    && Sorted(s.entries)
    && forall e <- s.entries :: e.stamp < s.nextStamp
  }

  ghost predicate Inv(cfg: Config, s: Inbound) {
    && StampsSound(s)
    && Bounded(cfg, s)
    && IndexSound(s.entries, s.last)
    && (s.accepting ==> NewestSound(s))
    && (forall e <- s.evicted :: e.DialRotate?)
    && (forall e <- s.waiting :: !e.DialRotate?)
    && 0 <= s.inFlight && |s.delivered| == s.inFlight + s.acknowledged
  }

  // ---- Conservation ----------------------------------------------------------------------

  function OfEntry(m: Event -> int): SizedEvent -> int {
    (e: SizedEvent) => m(e.event)
  }

  /** Any quantity that merging two rotations adds up. */
  ghost predicate Additive(m: Event -> int) {
    forall a: Event, b: Event ::
      a.DialRotate? && b.DialRotate? && a.context == b.context && a.dial == b.dial ==>
        m(Merged(a, b)) == m(a) + m(b)
  }

  /** Every additive quantity submitted is delivered, queued, waiting or accounted as lost. */
  ghost predicate Conserves(s: Inbound, m: Event -> int) {
    Sum(m, s.submitted) ==
      Sum(OfEntry(m), s.delivered) + Sum(OfEntry(m), s.entries) + Sum(m, s.waiting)
      + Sum(m, s.evicted) + Sum(m, s.refused) + Sum(m, s.discarded)
  }

  ghost predicate CountsBalance(s: Inbound) {
    |s.submitted| == s.coalesced + |s.delivered| + |s.entries| + |s.waiting| + |s.evicted| + |s.refused| + |s.discarded|
  }

  // ---- How the source evolves, as the scheduler sees it ----------------------------------

  /** Entries keep their place and their key; only fresh stamps appear. */
  ghost predicate Evolves(s: Inbound, s': Inbound) {
    && s.nextStamp <= s'.nextStamp
    && forall e <- s'.entries ::
         e.stamp >= s.nextStamp || exists o <- s.entries :: o.stamp == e.stamp && o.event.Key() == e.event.Key()
  }

  // ---- Removing, appending and merging ---------------------------------------------------

  lemma RemoveKeepsStamps(s: Inbound, i: nat)
    requires StampsSound(s) && i < |s.entries|
    ensures StampsSound(Remove(s, i)) && Evolves(s, Remove(s, i))
  {
    var s' := Remove(s, i);
    assert forall j :: 0 <= j < |s'.entries| ==> s'.entries[j] == s.entries[if j < i then j else j + 1];
  }

  lemma TargetAfterRemoval(entries: seq<SizedEvent>, i: nat, j: nat, c: string, stamp: nat)
    requires i < |entries| && j != i && IsMergeTarget(entries, j, c, stamp)
    ensures IsMergeTarget(RemoveAt(entries, i), if j < i then j else j - 1, c, stamp)
  {
    var r := RemoveAt(entries, i);
    assert forall k :: 0 <= k < |r| ==> r[k] == entries[if k < i then k else k + 1];
  }

  lemma RemoveKeepsIndex(s: Inbound, i: nat)
    requires StampsSound(s) && IndexSound(s.entries, s.last) && i < |s.entries|
    ensures IndexSound(Remove(s, i).entries, Remove(s, i).last)
  {
    var s' := Remove(s, i);
    forall c <- s'.last ensures exists j: nat :: IsMergeTarget(s'.entries, j, c, s'.last[c]) {
      var j: nat :| IsMergeTarget(s.entries, j, c, s.last[c]);
      TargetAfterRemoval(s.entries, i, j, c, s.last[c]);
    }
  }

  /** What removing an entry keeps, apart from the accounts of where the entry went. */
  ghost predicate Core(cfg: Config, s: Inbound) {
    StampsSound(s) && Bounded(cfg, s) && IndexSound(s.entries, s.last) && (s.accepting ==> NewestSound(s))
  }

  lemma RemoveKeepsCore(cfg: Config, s: Inbound, i: nat)
    requires Core(cfg, s) && i < |s.entries|
    ensures Core(cfg, Remove(s, i)) && Evolves(s, Remove(s, i))
  {
    RemoveKeepsStamps(s, i);
    RemoveKeepsIndex(s, i);
    SumRemoveAt(SizeOf, s.entries, i);
    assert forall c <- Remove(s, i).last :: c in s.last && s.last[c] == Remove(s, i).last[c];
  }

  lemma RefuseKeepsCore(cfg: Config, s: Inbound, e: Event)
    requires Core(cfg, s)
    ensures Core(cfg, Refuse(s, e)) && Evolves(s, Refuse(s, e))
  {
    var s' := Refuse(s, e);
    RefuseForgets(s, e);
    IndexShrinks(s.entries, s.last, s'.last);
    if s.accepting {
      RefuseKeepsNewest(s, e);
    }
    hide IndexSound, NewestSound, Sum;
  }

  lemma RefuseForgets(s: Inbound, e: Event)
    ensures forall c <- Refuse(s, e).last :: c in s.last && s.last[c] == Refuse(s, e).last[c] && !Touches(e, c)
  {
  }

  lemma IndexShrinks(entries: seq<SizedEvent>, last: map<string, nat>, last': map<string, nat>)
    requires IndexSound(entries, last) && forall c <- last' :: c in last && last[c] == last'[c]
    ensures IndexSound(entries, last')
  {
  }

  lemma RefuseKeepsNewest(s: Inbound, e: Event)
    requires NewestSound(s)
    ensures NewestSound(Refuse(s, e))
  {
    var s' := Refuse(s, e);
    RefuseForgets(s, e);
    forall c <- s'.last ensures IsNewest(s'.decided, s'.newest, s'.last[c], c) {
      assert IsNewest(s.decided, s.newest, s.last[c], c);
    }
  }

  lemma AppendKeepsCore(cfg: Config, s: Inbound, e: Event)
    requires Core(cfg, s) && !Full(cfg, s, cfg.sizeOf(e))
    ensures Core(cfg, Append(cfg, s, e)) && Evolves(s, Append(cfg, s, e))
  {
    AppendKeepsBounds(cfg, s, e);
    AppendKeepsIndex(cfg, s, e);
    AppendKeepsStamps(cfg, s, e);
    if s.accepting {
      AppendKeepsNewest(cfg, s, e);
    }
    hide Bounded, IndexSound, NewestSound, StampsSound, Evolves;
  }

  lemma AppendKeepsBounds(cfg: Config, s: Inbound, e: Event)
    requires Bounded(cfg, s) && !Full(cfg, s, cfg.sizeOf(e))
    ensures Bounded(cfg, Append(cfg, s, e))
  {
    hide Sum;
    SumAppend(SizeOf, s.entries, SizedEvent(s.nextStamp, e, cfg.sizeOf(e)));
  }

  lemma AppendKeepsStamps(cfg: Config, s: Inbound, e: Event)
    requires StampsSound(s)
    ensures StampsSound(Append(cfg, s, e)) && Evolves(s, Append(cfg, s, e))
  {
  }

  lemma AppendKeepsIndex(cfg: Config, s: Inbound, e: Event)
    requires IndexSound(s.entries, s.last)
    ensures IndexSound(Append(cfg, s, e).entries, Append(cfg, s, e).last)
  {
    var s' := Append(cfg, s, e);
    forall c <- s'.last ensures exists j :: IsMergeTarget(s'.entries, j, c, s'.last[c]) {
      if e.Key() == Some(c) {
        assert IsMergeTarget(s'.entries, |s.entries|, c, s'.last[c]);
      } else {
        var j: nat :| IsMergeTarget(s.entries, j, c, s.last[c]);
        assert IsMergeTarget(s'.entries, j, c, s'.last[c]);
      }
    }
  }

  lemma AppendKeepsNewest(cfg: Config, s: Inbound, e: Event)
    requires StampsSound(s) && IndexSound(s.entries, s.last) && NewestSound(s)
    ensures NewestSound(Append(cfg, s, e))
  {
    var s' := Append(cfg, s, e);
    hide IsNewest;
    forall c <- s'.last ensures IsNewest(s'.decided, s'.newest, s'.last[c], c) {
      if e.Key() == Some(c) {
        JustDecided(s.decided, s.newest, s.nextStamp, c, e);
      } else {
        var j: nat :| IsMergeTarget(s.entries, j, c, s.last[c]);
        assert s.entries[j] in s.entries;
        assert IsNewest(s.decided, s.newest, s.last[c], c);
        StillNewest(s.decided, s.newest, s.last[c], c, e, s.nextStamp);
      }
    }
  }

  lemma MergeKeepsCore(cfg: Config, s: Inbound, e: Event, i: nat)
    requires Core(cfg, s) && Mergeable(cfg, s, e, i)
    ensures Core(cfg, Merge(cfg, s, e, i)) && Evolves(s, Merge(cfg, s, e, i))
  {
    MergeKeepsBounds(cfg, s, e, i);
    MergeChangesOneEntry(cfg, s, e, i);
    MergeKeepsStamps(s.entries, Merge(cfg, s, e, i).entries, s.nextStamp);
    MergeKeepsIndex(s.entries, Merge(cfg, s, e, i).entries, s.last);
    if s.accepting {
      MergeKeepsNewest(cfg, s, e, i);
    }
    hide IndexSound, NewestSound, Bounded, Sorted;
  }

  lemma MergeKeepsBounds(cfg: Config, s: Inbound, e: Event, i: nat)
    requires Bounded(cfg, s) && Mergeable(cfg, s, e, i)
    ensures Bounded(cfg, Merge(cfg, s, e, i))
  {
    hide Sum;
    SumUpdate(SizeOf, s.entries, i, Merge(cfg, s, e, i).entries[i]);
  }

  /** The merged queue has the same stamps and keys, place by place. */
  ghost predicate SamePlaces(a: seq<SizedEvent>, b: seq<SizedEvent>) {
    |a| == |b| && forall j :: 0 <= j < |b| ==> b[j].stamp == a[j].stamp && b[j].event.Key() == a[j].event.Key()
  }

  lemma MergeChangesOneEntry(cfg: Config, s: Inbound, e: Event, i: nat)
    requires Mergeable(cfg, s, e, i)
    ensures SamePlaces(s.entries, Merge(cfg, s, e, i).entries)
  {
  }

  lemma MergeKeepsStamps(a: seq<SizedEvent>, b: seq<SizedEvent>, bound: nat)
    requires SamePlaces(a, b) && Sorted(a) && forall x <- a :: x.stamp < bound
    ensures Sorted(b) && forall x <- b :: x.stamp < bound && exists o <- a :: o.stamp == x.stamp && o.event.Key() == x.event.Key()
  {
    forall x <- b ensures x.stamp < bound && exists o <- a :: o.stamp == x.stamp && o.event.Key() == x.event.Key() {
      var j :| 0 <= j < |b| && b[j] == x;
      assert a[j] in a;
    }
  }

  lemma MergeKeepsIndex(a: seq<SizedEvent>, b: seq<SizedEvent>, last: map<string, nat>)
    requires SamePlaces(a, b) && IndexSound(a, last)
    ensures IndexSound(b, last)
  {
    forall c <- last ensures exists j :: IsMergeTarget(b, j, c, last[c]) {
      var j: nat :| IsMergeTarget(a, j, c, last[c]);
      assert IsMergeTarget(b, j, c, last[c]);
    }
  }

  lemma MergeKeepsNewest(cfg: Config, s: Inbound, e: Event, i: nat)
    requires StampsSound(s) && IndexSound(s.entries, s.last) && NewestSound(s) && Mergeable(cfg, s, e, i)
    ensures NewestSound(Merge(cfg, s, e, i))
  {
    var s' := Merge(cfg, s, e, i);
    var x := s.entries[i].stamp;
    hide IsNewest;
    forall c <- s'.last ensures IsNewest(s'.decided, s'.newest, s'.last[c], c) {
      if c == e.context {
        JustDecided(s.decided, s.newest, x, c, e);
      } else {
        var j: nat :| IsMergeTarget(s.entries, j, c, s.last[c]);
        assert j != i;
        assert IsNewest(s.decided, s.newest, s.last[c], c);
        StillNewest(s.decided, s.newest, s.last[c], c, e, x);
      }
    }
  }

  lemma JustDecided(decided: seq<Event>, newest: map<nat, nat>, x: nat, c: string, e: Event)
    requires e.Key() == Some(c)
    ensures IsNewest(decided + [e], newest[x := |decided|], x, c)
  {
  }

  /** A decision about something else leaves the newest decision about a context as it is. */
  lemma StillNewest(decided: seq<Event>, newest: map<nat, nat>, stamp: nat, c: string, e: Event, x: nat)
    requires IsNewest(decided, newest, stamp, c) && !Touches(e, c) && x != stamp
    ensures IsNewest(decided + [e], newest[x := |decided|], stamp, c)
  {
  }

  lemma EvolvesTransitive(a: Inbound, b: Inbound, c: Inbound)
    requires Evolves(a, b) && Evolves(b, c)
    ensures Evolves(a, c)
  {
    forall e <- c.entries ensures e.stamp >= a.nextStamp || exists o <- a.entries :: o.stamp == e.stamp && o.event.Key() == e.event.Key() {
      if e.stamp < a.nextStamp {
        var o :| o in b.entries && o.stamp == e.stamp && o.event.Key() == e.event.Key();
        var p :| p in a.entries && p.stamp == o.stamp && p.event.Key() == o.event.Key();
      }
    }
  }

  /** Making room drops rotations only and otherwise leaves everything as it was. */
  lemma {:induction false} MakeRoomKeeps(cfg: Config, s: Inbound, size: pos, m: Event -> int)
    requires Core(cfg, s) && forall e <- s.evicted :: e.DialRotate?
    ensures var r := MakeRoom(cfg, s, size);
      && Core(cfg, r) && Evolves(s, r)
      && r == s.(entries := r.entries, bytes := r.bytes, last := r.last, evicted := r.evicted)
      && (forall e <- r.evicted :: e.DialRotate?)
      && |r.entries| + |r.evicted| == |s.entries| + |s.evicted|
      && Sum(OfEntry(m), r.entries) + Sum(m, r.evicted) == Sum(OfEntry(m), s.entries) + Sum(m, s.evicted)
      && (Full(cfg, r, size) ==> forall e <- r.entries :: !e.event.DialRotate?)
    decreases |s.entries|
  {
    var v := Victim(cfg, s.entries);
    if Full(cfg, s, size) && v.Some? {
      var next := Evict(s, v.value);
      RemoveKeepsCore(cfg, s, v.value);
      SumRemoveAt(OfEntry(m), s.entries, v.value);
      SumAppend(m, s.evicted, s.entries[v.value].event);
      MakeRoomKeeps(cfg, next, size, m);
      EvolvesTransitive(s, next, MakeRoom(cfg, next, size));
    }
  }

  // ---- Every step keeps the invariant and every additive quantity ------------------------

  ghost predicate Account(s: Inbound, m: Event -> int) {
    CountsBalance(s) && Conserves(s, m)
  }

  /** A submission in hand, not yet placed: its quantity is missing from the right-hand side. */
  ghost predicate InHand(s: Inbound, e: Event, m: Event -> int) {
    && |s.submitted| == s.coalesced + |s.delivered| + |s.entries| + |s.waiting| + |s.evicted| + |s.refused| + |s.discarded| + 1
    && Sum(m, s.submitted) ==
         Sum(OfEntry(m), s.delivered) + Sum(OfEntry(m), s.entries) + Sum(m, s.waiting)
         + Sum(m, s.evicted) + Sum(m, s.refused) + Sum(m, s.discarded) + m(e)
  }

  lemma WaitKeeps(cfg: Config, r: Inbound, e: Event, m: Event -> int)
    requires Inv(cfg, r) && InHand(r, e, m) && !e.DialRotate?
    ensures var q := r.(waiting := r.waiting + [e]); Inv(cfg, q) && Account(q, m) && Evolves(r, q)
  {
    SumAppend(m, r.waiting, e);
  }

  lemma RefuseKeeps(cfg: Config, r: Inbound, e: Event, m: Event -> int)
    requires Inv(cfg, r) && InHand(r, e, m)
    ensures var q := Refuse(r, e); Inv(cfg, q) && Account(q, m) && Evolves(r, q)
  {
    RefuseKeepsCore(cfg, r, e);
    SumAppend(m, r.refused, e);
  }

  lemma AppendKeeps(cfg: Config, r: Inbound, e: Event, m: Event -> int)
    requires Inv(cfg, r) && InHand(r, e, m) && !Full(cfg, r, cfg.sizeOf(e))
    ensures var q := Append(cfg, r, e); Inv(cfg, q) && Account(q, m) && Evolves(r, q)
  {
    AppendKeepsCore(cfg, r, e);
    SumAppend(OfEntry(m), r.entries, SizedEvent(r.nextStamp, e, cfg.sizeOf(e)));
  }

  lemma RoomKeeps(cfg: Config, s: Inbound, e: Event, size: pos, m: Event -> int)
    requires Inv(cfg, s) && InHand(s, e, m)
    ensures var r := MakeRoom(cfg, s, size); Inv(cfg, r) && InHand(r, e, m) && Evolves(s, r)
  {
    MakeRoomKeeps(cfg, s, size, m);
  }

  lemma PlaceKeeps(cfg: Config, s: Inbound, e: Event, expired: bool, m: Event -> int)
    requires Inv(cfg, s) && InHand(s, e, m)
    ensures var q := Place(cfg, s, e, expired); Inv(cfg, q) && Account(q, m) && Evolves(s, q)
  {
    var size := cfg.sizeOf(e);
    var r := if e.DialRotate? && !cfg.dropOldest then s else MakeRoom(cfg, s, size);
    RoomKeeps(cfg, s, e, size, m);
    assert Evolves(s, r);
    hide Inv, InHand, Account, Evolves, MakeRoom;
    if !Full(cfg, r, size) {
      AppendKeeps(cfg, r, e, m);
    } else if e.DialRotate? || expired {
      RefuseKeeps(cfg, r, e, m);
    } else {
      WaitKeeps(cfg, r, e, m);
    }
    EvolvesTransitive(s, r, Place(cfg, s, e, expired));
  }

  lemma SubmitsKeeps(cfg: Config, s: Inbound, s': Inbound, e: Event, expired: bool, m: Event -> int)
    requires Inv(cfg, s) && Account(s, m) && Additive(m)
    requires Submits(cfg, s, s', e, expired)
    ensures Inv(cfg, s') && Account(s', m) && Evolves(s, s')
  {
    var s0 := s.(submitted := s.submitted + [e]);
    SubmittedKeeps(cfg, s, e, m);
    hide Inv, InHand, Account, Additive, Refuse, Place, Merge, Mergeable;
    if !s.accepting {
      RejectKeeps(cfg, s0, e, m);
    } else if cfg.sizeOf(e) > cfg.byteLimit {
      RefuseKeeps(cfg, s0, e, m);
    } else if exists i: nat :: Mergeable(cfg, s0, e, i) {
      var i: nat :| Mergeable(cfg, s0, e, i) && s' == Merge(cfg, s0, e, i);
      MergeKeeps(cfg, s0, e, i, m);
    } else {
      PlaceKeeps(cfg, s0, e, expired, m);
    }
    hide Evolves;
    EvolvesTransitive(s, s0, s');
  }

  lemma SubmittedKeeps(cfg: Config, s: Inbound, e: Event, m: Event -> int)
    requires Inv(cfg, s) && Account(s, m)
    ensures var s0 := s.(submitted := s.submitted + [e]); Inv(cfg, s0) && InHand(s0, e, m) && Evolves(s, s0)
  {
    hide Sum;
    SumAppend(m, s.submitted, e);
  }

  lemma RejectKeeps(cfg: Config, r: Inbound, e: Event, m: Event -> int)
    requires Inv(cfg, r) && InHand(r, e, m) && !r.accepting
    ensures var q := r.(refused := r.refused + [e], decided := r.decided + [e]); Inv(cfg, q) && Account(q, m) && Evolves(r, q)
  {
    hide Sum;
    SumAppend(m, r.refused, e);
  }

  lemma MergeKeeps(cfg: Config, r: Inbound, e: Event, i: nat, m: Event -> int)
    requires Inv(cfg, r) && InHand(r, e, m) && Additive(m) && Mergeable(cfg, r, e, i)
    ensures var q := Merge(cfg, r, e, i); Inv(cfg, q) && Account(q, m) && Evolves(r, q)
  {
    hide InHand, Account, Additive, StampsSound, Bounded, IndexSound, NewestSound, Evolves, Mergeable;
    MergeKeepsCore(cfg, r, e, i);
    MergeAccounts(cfg, r, e, i, m);
  }

  lemma MergeAccounts(cfg: Config, r: Inbound, e: Event, i: nat, m: Event -> int)
    requires InHand(r, e, m) && Additive(m) && Mergeable(cfg, r, e, i)
    ensures Account(Merge(cfg, r, e, i), m)
  {
    hide Sum;
    SumUpdate(OfEntry(m), r.entries, i, Merge(cfg, r, e, i).entries[i]);
  }

  lemma ReceiveKeeps(cfg: Config, s: Inbound, k: nat, m: Event -> int)
    requires Inv(cfg, s) && Account(s, m) && k < |s.entries|
    ensures var q := Receive(s, k); Inv(cfg, q) && Account(q, m) && Evolves(s, q)
  {
    RemoveKeepsCore(cfg, s, k);
    SumRemoveAt(OfEntry(m), s.entries, k);
    SumAppend(OfEntry(m), s.delivered, s.entries[k]);
  }

  lemma {:induction false} DiscardedSum(m: Event -> int, entries: seq<SizedEvent>)
    ensures Sum(m, EventsOf(entries)) == Sum(OfEntry(m), entries)
  {
    if entries != [] {
      DiscardedSum(m, entries[1..]);
      assert EventsOf(entries)[1..] == EventsOf(entries[1..]);
    }
  }

  lemma DiscardKeeps(cfg: Config, s: Inbound, m: Event -> int)
    requires Inv(cfg, s) && Account(s, m) && !s.accepting
    ensures var q := DiscardQueue(s); Inv(cfg, q) && Account(q, m) && Evolves(s, q)
  {
    DiscardedSum(m, s.entries);
    SumConcat(m, s.discarded, EventsOf(s.entries));
  }

  lemma ResumeKeeps(cfg: Config, s: Inbound, w: nat, expired: bool, m: Event -> int)
    requires Inv(cfg, s) && Account(s, m) && w < |s.waiting|
    ensures var q := Resume(cfg, s, w, expired); Inv(cfg, q) && Account(q, m) && Evolves(s, q)
  {
    var s0 := s.(waiting := RemoveAt(s.waiting, w));
    SumRemoveAt(m, s.waiting, w);
    assert Inv(cfg, s0) && InHand(s0, s.waiting[w], m) && Evolves(s, s0);
    if s.accepting {
      PlaceKeeps(cfg, s0, s.waiting[w], expired, m);
    } else {
      RefuseKeeps(cfg, s0, s.waiting[w], m);
    }
  }

  /** One step of the queue, whichever it is, keeps the invariant, the accounts and the source order. */
  lemma StepKeeps(cfg: Config, s: Inbound, s': Inbound, step: Step, m: Event -> int)
    requires Inv(cfg, s) && Account(s, m) && Additive(m)
    requires Next(cfg, s, s', step)
    ensures Inv(cfg, s') && Account(s', m) && Evolves(s, s')
  {
    match step
    case SubmitStep(e, expired) => SubmitsKeeps(cfg, s, s', e, expired, m);
    case ResumeStep(w, expired) => ResumeKeeps(cfg, s, w, expired, m);
    case ReceiveStep(k) => ReceiveKeeps(cfg, s, k, m);
    case TaskDoneStep =>
    case StopStep =>
    case DiscardStep => DiscardKeeps(cfg, s, m);
  }

  ghost predicate AllAccounts(s: Inbound) {
    CountsBalance(s) && forall m: Event -> int :: Additive(m) ==> Conserves(s, m)
  }

  lemma StepKeepsAll(cfg: Config, s: Inbound, s': Inbound, step: Step)
    requires Inv(cfg, s) && AllAccounts(s) && Next(cfg, s, s', step)
    ensures Inv(cfg, s') && AllAccounts(s')
  {
    hide Inv, CountsBalance, Next, Conserves;
    forall m: Event -> int | Additive(m) ensures Account(s', m) && Inv(cfg, s') {
      StepKeeps(cfg, s, s', step, m);
    }
    TicksAreAdditive("");
  }

  lemma TicksAreAdditive(c: string)
    ensures Additive(TicksOf(c))
  {
  }

  lemma {:induction false} MakeRoomOnlyEvicts(cfg: Config, s: Inbound, size: pos)
    ensures var r := MakeRoom(cfg, s, size);
      && r.delivered == s.delivered && r.inFlight == s.inFlight
      && r.refused == s.refused && r.waiting == s.waiting && r.decided == s.decided
      && r.accepting == s.accepting && r.nextStamp == s.nextStamp
    decreases |s.entries|
  {
    var v := Victim(cfg, s.entries);
    if Full(cfg, s, size) && v.Some? {
      MakeRoomOnlyEvicts(cfg, Evict(s, v.value), size);
    }
  }

  lemma ProducersDeliverNothing(cfg: Config, s: Inbound, s': Inbound, step: Step)
    requires Next(cfg, s, s', step) && !step.ReceiveStep? && !step.TaskDoneStep?
    ensures s'.delivered == s.delivered && s'.inFlight == s.inFlight
  {
    match step
    case SubmitStep(e, expired) => SubmitDeliversNothing(cfg, s, s', e, expired);
    case ResumeStep(w, expired) => PlaceDeliversNothing(cfg, Woken(s, w), s.waiting[w], expired);
    case _ =>
    hide Place, Submits;
  }

  lemma PlaceDeliversNothing(cfg: Config, s: Inbound, e: Event, expired: bool)
    ensures var s' := Place(cfg, s, e, expired); s'.delivered == s.delivered && s'.inFlight == s.inFlight
  {
    hide MakeRoom, Full;
    MakeRoomOnlyEvicts(cfg, s, cfg.sizeOf(e));
  }

  lemma SubmitDeliversNothing(cfg: Config, s: Inbound, s': Inbound, e: Event, expired: bool)
    requires Submits(cfg, s, s', e, expired)
    ensures s'.delivered == s.delivered && s'.inFlight == s.inFlight
  {
    hide Place;
    PlaceDeliversNothing(cfg, s.(submitted := s.submitted + [e]), e, expired);
  }

  // ---- What the verdict of a submission tells its producer --------------------------------

  /** Exactly one thing has become of an event in hand, and the verdict says which. */
  ghost predicate Tells(verdict: Verdict, s: Inbound, s': Inbound, e: Event, expired: bool) {
    match verdict
    case Rejected => s'.refused == s.refused + [e] && s'.waiting == s.waiting && s'.decided == s.decided + [e]
    case MustWait =>
      && s'.waiting == s.waiting + [e] && s'.refused == s.refused && s'.decided == s.decided
      && !e.DialRotate? && !expired && s'.accepting
    case Accepted =>
      && s'.refused == s.refused && s'.waiting == s.waiting && s'.decided == s.decided + [e]
      && s'.accepting
      && exists i :: 0 <= i < |s'.entries| && Holds(s, s'.entries[i], e)
  }

  /** A queued rotation of the same dial, with the ticks of e added to it. */
  predicate Absorbed(before: SizedEvent, entry: SizedEvent, e: Event) {
    && before.event.DialRotate? && e.DialRotate? && before.event.context == e.context && before.event.dial == e.dial
    && entry.stamp == before.stamp && entry.event == Merged(before.event, e)
  }

  /** The entry is the event's own, or a rotation that was already queued and has absorbed it. */
  ghost predicate Holds(s: Inbound, entry: SizedEvent, e: Event) {
    (entry.event == e && entry.stamp == s.nextStamp) || exists before <- s.entries :: Absorbed(before, entry, e)
  }

  lemma PlacedVerdictTells(cfg: Config, s: Inbound, e: Event, expired: bool)
    requires s.accepting
    ensures Tells(VerdictOf(s, Place(cfg, s, e, expired)), s, Place(cfg, s, e, expired), e, expired)
  {
    MakeRoomOnlyEvicts(cfg, s, cfg.sizeOf(e));
    var s' := Place(cfg, s, e, expired);
    if VerdictOf(s, s').Accepted? {
      assert Holds(s, s'.entries[|s'.entries| - 1], e);
    }
  }

  lemma SubmitVerdictTells(cfg: Config, s: Inbound, s': Inbound, e: Event, expired: bool)
    requires Submits(cfg, s, s', e, expired)
    ensures Tells(VerdictOf(s, s'), s, s', e, expired)
  {
    var s0 := s.(submitted := s.submitted + [e]);
    if s.accepting && cfg.sizeOf(e) <= cfg.byteLimit {
      if i: nat :| Mergeable(cfg, s0, e, i) && s' == Merge(cfg, s0, e, i) {
        assert Absorbed(s.entries[i], s'.entries[i], e);
        assert Holds(s, s'.entries[i], e);
      } else {
        PlacedVerdictTells(cfg, s0, e, expired);
      }
    }
  }

  lemma ResumeVerdictTells(cfg: Config, s: Inbound, w: nat, expired: bool)
    requires w < |s.waiting|
    ensures var s' := Resume(cfg, s, w, expired); Tells(VerdictOf(Woken(s, w), s'), Woken(s, w), s', s.waiting[w], expired)
  {
    if s.accepting {
      PlacedVerdictTells(cfg, Woken(s, w), s.waiting[w], expired);
    }
  }

  // ---- Every run -------------------------------------------------------------------------

  ghost predicate Run(cfg: Config, states: seq<Inbound>, steps: seq<Step>) {
    && |states| == |steps| + 1 && states[0] == Initial
    && forall i :: 0 <= i < |steps| ==> Next(cfg, states[i], states[i + 1], steps[i])
  }

  lemma {:induction false} RunKeeps(cfg: Config, states: seq<Inbound>, steps: seq<Step>, m: Event -> int, n: nat)
    requires Run(cfg, states, steps) && Additive(m) && n < |states|
    ensures Inv(cfg, states[n]) && Account(states[n], m)
  {
    if n != 0 {
      RunKeeps(cfg, states, steps, m, n - 1);
      StepKeeps(cfg, states[n - 1], states[n], steps[n - 1], m);
    }
  }

  /** The rotation steps of one context. */
  function TicksOf(c: string): Event -> int {
    (e: Event) => if e.DialRotate? && e.context == c then e.ticks else 0
  }

  /** Occurrences of one lossless event. */
  function CountOf(x: Event): Event -> int {
    (e: Event) => if e == x then 1 else 0
  }

  /** Coalescing loses no rotation: every tick submitted is delivered, queued or in a dropped event. */
  lemma TicksAreConserved(cfg: Config, states: seq<Inbound>, steps: seq<Step>, n: nat, c: string)
    requires Run(cfg, states, steps) && n < |states|
    ensures var s, m := states[n], TicksOf(c);
      Sum(m, s.submitted) == Sum(OfEntry(m), s.delivered) + Sum(OfEntry(m), s.entries)
                             + Sum(m, s.evicted) + Sum(m, s.refused) + Sum(m, s.discarded)
  {
    var m := TicksOf(c);
    RunKeeps(cfg, states, steps, m, n);
    ZeroSum(m, states[n].waiting);
  }

  lemma {:induction false} ZeroSum<T>(m: T -> int, s: seq<T>)
    requires forall e <- s :: m(e) == 0
    ensures Sum(m, s) == 0
  {
    if s != [] {
      ZeroSum(m, s[1..]);
    }
  }

  /** A lossless event is delivered, queued, waiting, refused at submission or cleared by shutdown; never evicted. */
  lemma LosslessEventsAreNeverDropped(cfg: Config, states: seq<Inbound>, steps: seq<Step>, n: nat, x: Event)
    requires Run(cfg, states, steps) && n < |states| && !x.DialRotate?
    ensures var s, m := states[n], CountOf(x);
      Sum(m, s.submitted) == Sum(OfEntry(m), s.delivered) + Sum(OfEntry(m), s.entries) + Sum(m, s.waiting)
                             + Sum(m, s.refused) + Sum(m, s.discarded)
  {
    var m := CountOf(x);
    RunKeeps(cfg, states, steps, m, n);
    ZeroSum(m, states[n].evicted);
  }

  /** A rotation merges only into the most recent decision of its context: since that decision nothing of
      the context and no barrier was accepted or refused. */
  lemma MergesAreAdjacent(cfg: Config, states: seq<Inbound>, steps: seq<Step>, n: nat, e: Event, i: nat)
    requires Run(cfg, states, steps) && n < |states| && states[n].accepting
    requires Mergeable(cfg, states[n], e, i)
    ensures var s := states[n];
      && IsNewest(s.decided, s.newest, s.entries[i].stamp, e.context)
      && forall j :: i < j < |s.entries| ==> !Touches(s.entries[j].event, e.context)
  {
    RunKeeps(cfg, states, steps, TicksOf(""), n);
    var s := states[n];
    var j: nat :| IsMergeTarget(s.entries, j, e.context, s.last[e.context]);
    assert i == j;
  }
}
