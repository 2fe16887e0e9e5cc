/** The global settings transactions: a reentrant write lock, one asynchronous write in flight, and a state
    lock under which settings are read and replaced. Each step is one block under the state lock. */
module GlobalSettingsSpec {
  import opened Sequences

  /** What a writer asks for. A mutator or codec that raises yields None. */
  datatype Request<!V> =
    | Update(mutate: V -> Option<V>)   // update, update_async
    | Set(value: V)                    // set, set_async
    | Typed(encoded: Option<V>)        // set_typed, set_typed_async: the codec runs inside the transaction
    | Incoming(value: V)               // receive
  {
    function Result(base: V): Option<V> {
      match this
      case Update(mutate) => mutate(base)
      case Set(value) => Some(value)
      case Typed(encoded) => encoded
      case Incoming(value) => Some(value)
    }
  }

  datatype Phase<V> =
    | Waiting                          // holds the write lock, waits for the asynchronous write in flight
    | Entered                          // inside the transaction; counted by the write depth
    | Drafted(base: V, at: nat)        // read the settings after `at` commits; the mutator or codec runs
    | Sending(value: V, at: nat)       // a synchronous send is under way
    | Submitting                       // the pending completion is installed, the command not yet accepted
    | Submitted                        // accepted: the transaction may leave, the write stays in flight

  datatype Frame<!V> = Frame(id: nat, request: Request<V>, isAsync: bool, phase: Phase<V>)

  datatype Flight<!V> = Flight(id: nat, request: Request<V>, value: V, at: nat, accepted: bool)

  /** A commit: the transaction, how many commits its draft had seen, the value, and the transactions of the
      same thread it was nested in. */
  datatype Commit<!V> = Commit(id: nat, request: Request<V>, drafted: nat, value: V, within: seq<nat>)

  datatype State<!V> = State(
    initial: V,
    committed: V,
    loaded: bool,
    owner: Option<nat>,          // the thread holding the write lock
    frames: seq<Frame<V>>,       // its transactions, outermost first
    pending: Option<Flight<V>>,
    nextId: nat,
    log: seq<Commit<V>>,         // history
    failed: set<nat>,            // history: transactions that ended without a commit
    observed: seq<(V, nat)>)     // history: every value a reader got, with the number of commits before it

  function Fresh<V>(initial: V): State<V> {
    State(initial, initial, false, None, [], None, 0, [], {}, [])
  }

  /** The committed value after the first n commits. */
  function ValueAfter<V>(initial: V, log: seq<Commit<V>>, n: nat): V
    requires n <= |log|
  {
    if n == 0 then initial else log[n - 1].value
  }

  function Depth<V>(s: State<V>): nat {
    |s.frames| - if s.frames != [] && s.frames[|s.frames| - 1].phase.Waiting? then 1 else 0
  }

  function Top<V>(s: State<V>): Frame<V>
    requires s.frames != []
  {
    s.frames[|s.frames| - 1]
  }

  function WithTop<V>(s: State<V>, frame: Frame<V>): State<V>
    requires s.frames != []
  {
    s.(frames := s.frames[..|s.frames| - 1] + [frame])
  }

  /** Leave the innermost transaction; leaving the outermost releases the write lock. */
  function Left<V>(s: State<V>): State<V>
    requires s.frames != []
  {
    s.(frames := s.frames[..|s.frames| - 1], owner := if |s.frames| == 1 then None else s.owner)
  }

  function Enclosing<V>(frames: seq<Frame<V>>): seq<nat> {
    seq(|frames|, i requires 0 <= i < |frames| => frames[i].id)
  }

  function Replaced<V>(s: State<V>, commit: Commit<V>): State<V> {
    s.(committed := commit.value, loaded := true, log := s.log + [commit])
  }

  /** Foreign code that could start a nested write runs in these phases only. */
  predicate RunsForeignCode<V>(frame: Frame<V>) {
    frame.phase.Drafted? || frame.phase.Sending? || frame.phase.Submitting?
  }

  predicate MayAcquire<V>(s: State<V>, thread: nat) {
    s.owner.None? || (s.owner == Some(thread) && s.frames != [] && RunsForeignCode(Top(s)))
  }

  // ---- Steps -----------------------------------------------------------------------------

  /** Take the write lock for a synchronous transaction. A nested one is refused while a write is in flight. */
  ghost predicate DoBegin<V>(s: State<V>, s': State<V>, thread: nat, request: Request<V>) {
    && MayAcquire(s, thread)
    && s' == if s.pending.Some? && Depth(s) > 0 then s.(nextId := s.nextId + 1, failed := s.failed + {s.nextId})
             else s.(owner := Some(thread), nextId := s.nextId + 1,
                     frames := s.frames + [Frame(s.nextId, request, false, if s.pending.Some? then Waiting else Entered)])
  }

  /** Try the write lock for an asynchronous transaction: refused unless nothing is going on. */
  ghost predicate DoBeginAsync<V>(s: State<V>, s': State<V>, thread: nat, request: Request<V>) {
    && !request.Incoming?
    && s' == if !MayAcquire(s, thread) || s.pending.Some? || Depth(s) > 0
             then s.(nextId := s.nextId + 1, failed := s.failed + {s.nextId})
             else s.(owner := Some(thread), nextId := s.nextId + 1, frames := s.frames + [Frame(s.nextId, request, true, Entered)])
  }

  ghost predicate DoResume<V>(s: State<V>, s': State<V>) {
    && s.frames != [] && Top(s).phase.Waiting? && s.pending.None?
    && s' == WithTop(s, Top(s).(phase := Entered))
  }

  /** Read the settings and let the mutator or codec run. */
  ghost predicate DoDraft<V>(s: State<V>, s': State<V>) {
    && s.frames != [] && Top(s).phase.Entered? && !Top(s).request.Incoming?
    && s' == WithTop(s, Top(s).(phase := Drafted(s.committed, |s.log|)))
  }

  /** The mutator or codec returned: submit the draft. */
  ghost predicate DoSend<V>(s: State<V>, s': State<V>) {
    && s.frames != [] && Top(s).phase.Drafted?
    && var top := Top(s);
    && var result := top.request.Result(top.phase.base);
    && result.Some?
    && s' == if top.isAsync
             then WithTop(s, top.(phase := Submitting)).(pending := Some(Flight(top.id, top.request, result.value, top.phase.at, false)))
             else WithTop(s, top.(phase := Sending(result.value, top.phase.at)))
  }

  /** The send succeeded, or an incoming replacement needs none: replace and leave. */
  ghost predicate DoCommit<V>(s: State<V>, s': State<V>) {
    && s.frames != []
    && var top := Top(s); var within := Enclosing(s.frames[..|s.frames| - 1]);
    && ((top.phase.Sending? && s' == Left(Replaced(s, Commit(top.id, top.request, top.phase.at, top.phase.value, within)))) ||
        (top.phase.Entered? && top.request.Incoming? &&
         s' == Left(Replaced(s, Commit(top.id, top.request, |s.log|, top.request.value, within)))))
  }

  /** A deadline passed while waiting, the mutator raised, or the send failed: leave without replacing. A
      rejected asynchronous submission also withdraws its pending completion. */
  ghost predicate DoFail<V>(s: State<V>, s': State<V>) {
    && s.frames != [] && !Top(s).phase.Submitted?
    && s' == Left(s).(failed := s.failed + {Top(s).id}, pending := if Top(s).phase.Submitting? then None else s.pending)
  }

  ghost predicate DoAccept<V>(s: State<V>, s': State<V>) {
    && s.frames != [] && Top(s).phase.Submitting? && s.pending.Some?
    && s' == WithTop(s, Top(s).(phase := Submitted)).(pending := Some(s.pending.value.(accepted := true)))
  }

  ghost predicate DoLeave<V>(s: State<V>, s': State<V>) {
    && s.frames != [] && Top(s).phase.Submitted?
    && s' == Left(s)
  }

  /** The persistence command ended: written, or failed, cancelled or expired. */
  ghost predicate DoComplete<V>(s: State<V>, s': State<V>, succeeded: bool) {
    && s.pending.Some? && s.pending.value.accepted
    && var flight := s.pending.value;
    && s' == if succeeded then Replaced(s, Commit(flight.id, flight.request, flight.at, flight.value, [])).(pending := None)
             else s.(pending := None, failed := s.failed + {flight.id})
  }

  ghost predicate DoRead<V>(s: State<V>, s': State<V>) {
    s' == s.(observed := s.observed + [(s.committed, |s.log|)])
  }

  datatype Step<!V> =
    | BeginStep(thread: nat, request: Request<V>)
    | BeginAsyncStep(thread: nat, request: Request<V>)
    | ResumeStep
    | DraftStep
    | SendStep
    | CommitStep
    | FailStep
    | AcceptStep
    | LeaveStep
    | CompleteStep(succeeded: bool)
    | ReadStep

  ghost predicate Next<V>(s: State<V>, s': State<V>, step: Step<V>) {
    match step
    case BeginStep(thread, request) => DoBegin(s, s', thread, request)
    case BeginAsyncStep(thread, request) => DoBeginAsync(s, s', thread, request)
    case ResumeStep => DoResume(s, s')
    case DraftStep => DoDraft(s, s')
    case SendStep => DoSend(s, s')
    case CommitStep => DoCommit(s, s')
    case FailStep => DoFail(s, s')
    case AcceptStep => DoAccept(s, s')
    case LeaveStep => DoLeave(s, s')
    case CompleteStep(succeeded) => DoComplete(s, s', succeeded)
    case ReadStep => DoRead(s, s')
  }

  // ---- Invariant -------------------------------------------------------------------------

  /** While a write is in flight at most one transaction exists, and it is waiting or is the writer's own. */
  ghost predicate Exclusive<V>(s: State<V>) {
    && (s.owner.None? <==> s.frames == [])
    && (forall i :: 0 <= i < |s.frames| - 1 ==> RunsForeignCode(s.frames[i]) && !s.frames[i].phase.Submitting?)
    && (forall i :: 0 <= i < |s.frames| && s.frames[i].phase.Waiting? ==> i == 0 && |s.frames| == 1)
    && (forall i :: 0 <= i < |s.frames| && s.frames[i].isAsync ==> i == 0)
    && (s.pending.Some? ==>
          |s.frames| <= 1 && (s.frames == [] || s.frames[0].phase.Waiting? || s.frames[0].phase.Submitting? || s.frames[0].phase.Submitted?))
    && (forall i :: 0 <= i < |s.frames| && s.frames[i].phase.Submitting? ==>
          i == 0 && s.pending.Some? && s.pending.value.id == s.frames[i].id && !s.pending.value.accepted)
    && (s.pending.Some? && !s.pending.value.accepted ==> s.frames != [] && s.frames[0].phase.Submitting?)
  }

  /** Transaction numbers tell apart what is under way, in flight, committed and failed. */
  ghost predicate Numbered<V>(s: State<V>) {
    && (forall i, j :: 0 <= i < j < |s.frames| ==> s.frames[i].id < s.frames[j].id)
    && (forall f <- s.frames :: Distinguished(s.nextId, s.failed, s.log, f))
    && (s.pending.Some? ==> s.pending.value.id < s.nextId && s.pending.value.id !in s.failed && Absent(s.log, s.pending.value.id))
    && (s.pending.Some? ==> forall f <- s.frames :: f.phase.Waiting? ==> f.id != s.pending.value.id)
    && (forall id <- s.failed :: id < s.nextId && Absent(s.log, id))
    && (forall c <- s.log :: c.id < s.nextId && forall id <- c.within :: id < s.nextId)
    && (forall i, j :: 0 <= i < j < |s.log| ==> s.log[i].id != s.log[j].id)
  }

  ghost predicate Absent<V>(log: seq<Commit<V>>, id: nat) {
    forall c <- log :: c.id != id
  }

  ghost predicate Distinguished<V>(nextId: nat, failed: set<nat>, log: seq<Commit<V>>, f: Frame<V>) {
    f.id < nextId && (f.phase.Submitted? || (f.id !in failed && Absent(log, f.id)))
  }

  /** The value is what the request makes of the settings its draft was taken from. */
  ghost predicate Derived<V>(initial: V, log: seq<Commit<V>>, request: Request<V>, value: V, at: nat) {
    at <= |log| && request.Result(ValueAfter(initial, log, at)) == Some(value)
  }

  /** The commits of the log in this range that were nested inside the transaction are exactly those after its draft. */
  ghost predicate Isolated<V>(log: seq<Commit<V>>, id: nat, at: nat, to: nat) {
    && at <= to <= |log|
    && (forall j :: 0 <= j < at ==> id !in log[j].within)
    && (forall j :: at <= j < to ==> id in log[j].within)
  }

  ghost predicate FrameSettled<V>(initial: V, log: seq<Commit<V>>, f: Frame<V>) {
    match f.phase
    case Waiting => Isolated(log, f.id, |log|, |log|)
    case Entered => Isolated(log, f.id, |log|, |log|)
    case Drafted(base, at) => Isolated(log, f.id, at, |log|) && base == ValueAfter(initial, log, at)
    case Sending(value, at) => Isolated(log, f.id, at, |log|) && Derived(initial, log, f.request, value, at)
    case _ => true
  }

  ghost predicate FlightSettled<V>(initial: V, log: seq<Commit<V>>, flight: Flight<V>) {
    Isolated(log, flight.id, flight.at, |log|) && Derived(initial, log, flight.request, flight.value, flight.at)
  }

  ghost predicate CommitSettled<V>(initial: V, log: seq<Commit<V>>, k: nat)
    requires k < |log|
  {
    var c := log[k];
    Isolated(log, c.id, c.drafted, k) && Derived(initial, log, c.request, c.value, c.drafted)
  }

  /** Everything drafted, in flight or committed comes from a committed value, with nothing but its own nested
      writes in between. */
  ghost predicate Settled<V>(s: State<V>) {
    && s.committed == ValueAfter(s.initial, s.log, |s.log|)
    && (forall f <- s.frames :: FrameSettled(s.initial, s.log, f))
    && (s.pending.Some? ==> FlightSettled(s.initial, s.log, s.pending.value))
    && (forall k :: 0 <= k < |s.log| ==> CommitSettled(s.initial, s.log, k))
  }

  ghost predicate ReadsCommitted<V>(s: State<V>) {
    forall r <- s.observed :: r.1 <= |s.log| && r.0 == ValueAfter(s.initial, s.log, r.1)
  }

  ghost predicate Inv<V>(s: State<V>) {
    Exclusive(s) && Numbered(s) && Settled(s) && ReadsCommitted(s)
  }

  lemma FreshIsSound<V>(initial: V)
    ensures Inv(Fresh(initial))
  {
  }

  lemma EntryKeepsExclusive<V>(s: State<V>, s': State<V>, thread: nat, request: Request<V>)
    requires Exclusive(s) && (DoBegin(s, s', thread, request) || DoBeginAsync(s, s', thread, request))
    ensures Exclusive(s')
  {
  }

  lemma WorkKeepsExclusive<V>(s: State<V>, s': State<V>)
    requires Exclusive(s) && (DoResume(s, s') || DoDraft(s, s') || DoSend(s, s') || DoAccept(s, s'))
    ensures Exclusive(s')
  {
  }

  lemma ExitKeepsExclusive<V>(s: State<V>, s': State<V>)
    requires Exclusive(s) && (DoCommit(s, s') || DoFail(s, s') || DoLeave(s, s'))
    ensures Exclusive(s')
  {
  }

  lemma CompletionKeepsExclusive<V>(s: State<V>, s': State<V>, succeeded: bool)
    requires Exclusive(s) && (DoComplete(s, s', succeeded) || DoRead(s, s'))
    ensures Exclusive(s')
  {
  }

  lemma StepKeepsExclusive<V>(s: State<V>, s': State<V>, step: Step<V>)
    requires Exclusive(s) && Next(s, s', step)
    ensures Exclusive(s')
  {
    hide Exclusive, DoBegin, DoBeginAsync, DoResume, DoDraft, DoSend, DoAccept, DoCommit, DoFail, DoLeave, DoComplete, DoRead;
    match step {
      case BeginStep(thread, request) => EntryKeepsExclusive(s, s', thread, request);
      case BeginAsyncStep(thread, request) => EntryKeepsExclusive(s, s', thread, request);
      case CommitStep => ExitKeepsExclusive(s, s');
      case FailStep => ExitKeepsExclusive(s, s');
      case LeaveStep => ExitKeepsExclusive(s, s');
      case CompleteStep(succeeded) => CompletionKeepsExclusive(s, s', succeeded);
      case ReadStep => CompletionKeepsExclusive(s, s', true);
      case _ => WorkKeepsExclusive(s, s');
    }
  }

  lemma StepKeepsReads<V>(s: State<V>, s': State<V>, step: Step<V>)
    requires Settled(s) && ReadsCommitted(s) && Next(s, s', step)
    ensures ReadsCommitted(s')
  {
  }

  // ---- Numbering -------------------------------------------------------------------------

  lemma PushKeepsNumbered<V>(s: State<V>, f: Frame<V>, owner: Option<nat>)
    requires Numbered(s) && f.id == s.nextId
    ensures Numbered(s.(owner := owner, nextId := s.nextId + 1, frames := s.frames + [f]))
    ensures Numbered(s.(nextId := s.nextId + 1, failed := s.failed + {s.nextId}))
  {
    assert Absent(s.log, s.nextId);
    assert forall i :: 0 <= i < |s.frames| ==> Distinguished(s.nextId, s.failed, s.log, s.frames[i]);
    assert forall g <- s.frames :: Distinguished(s.nextId, s.failed, s.log, g);
  }

  lemma TopKeepsNumbered<V>(s: State<V>, f: Frame<V>)
    requires Numbered(s) && s.frames != [] && f.id == Top(s).id && !Top(s).phase.Submitted? && !f.phase.Waiting?
    ensures Numbered(WithTop(s, f))
  {
    assert Distinguished(s.nextId, s.failed, s.log, Top(s));
  }

  lemma PopKeepsNumbered<V>(s: State<V>)
    requires Numbered(s) && s.frames != []
    ensures Numbered(Left(s))
    ensures forall f <- Left(s).frames :: f.id != Top(s).id
  {
  }

  lemma CommitKeepsNumbered<V>(s: State<V>, c: Commit<V>)
    requires Numbered(s) && c.id < s.nextId && c.id !in s.failed && Absent(s.log, c.id)
    requires forall f <- s.frames :: f.phase.Submitted? || f.id != c.id
    requires s.pending.None? || s.pending.value.id != c.id
    requires forall id <- c.within :: id < s.nextId
    ensures Numbered(Replaced(s, c))
  {
  }

  lemma FailKeepsNumbered<V>(s: State<V>, id: nat)
    requires Numbered(s) && id < s.nextId && Absent(s.log, id)
    requires forall f <- s.frames :: f.phase.Submitted? || f.id != id
    requires s.pending.Some? ==> s.pending.value.id != id
    ensures Numbered(s.(failed := s.failed + {id}))
  {
    assert forall f <- s.frames :: Distinguished(s.nextId, s.failed, s.log, f);
  }

  lemma PendingKeepsNumbered<V>(s: State<V>, pending: Option<Flight<V>>)
    requires Numbered(s)
    requires pending.Some? ==> pending.value.id < s.nextId && pending.value.id !in s.failed && Absent(s.log, pending.value.id)
    requires pending.Some? ==> forall f <- s.frames :: f.phase.Waiting? ==> f.id != pending.value.id
    ensures Numbered(s.(pending := pending))
  {
  }

  lemma StepKeepsNumbered<V>(s: State<V>, s': State<V>, step: Step<V>)
    requires Exclusive(s) && Numbered(s) && Next(s, s', step)
    ensures Numbered(s')
  {
    hide Exclusive, Numbered, DoSend, DoCommit, DoFail, DoAccept, DoComplete, DoRead;
    match step {
      case BeginStep(thread, request) => PushKeepsNumbered(s, Frame(s.nextId, request, false, if s.pending.Some? then Waiting else Entered), Some(thread));
      case BeginAsyncStep(thread, request) => PushKeepsNumbered(s, Frame(s.nextId, request, true, Entered), Some(thread));
      case ResumeStep => TopKeepsNumbered(s, Top(s).(phase := Entered));
      case DraftStep => TopKeepsNumbered(s, Top(s).(phase := Drafted(s.committed, |s.log|)));
      case SendStep => SendKeepsNumbered(s, s');
      case CommitStep => CommitStepKeepsNumbered(s, s');
      case FailStep => FailStepKeepsNumbered(s, s');
      case AcceptStep => AcceptKeepsNumbered(s, s');
      case LeaveStep => PopKeepsNumbered(s);
      case CompleteStep(succeeded) => CompleteKeepsNumbered(s, s', succeeded);
      case ReadStep => ReadKeepsNumbered(s, s');
    }
  }

  lemma AcceptKeepsNumbered<V>(s: State<V>, s': State<V>)
    requires Numbered(s) && DoAccept(s, s')
    ensures Numbered(s')
  {
    TopKeepsNumbered(s, Top(s).(phase := Submitted));
    PendingKeepsNumbered(WithTop(s, Top(s).(phase := Submitted)), s'.pending);
  }

  lemma ReadKeepsNumbered<V>(s: State<V>, s': State<V>)
    requires Numbered(s) && DoRead(s, s')
    ensures Numbered(s')
  {
  }

  lemma SendKeepsNumbered<V>(s: State<V>, s': State<V>)
    requires Exclusive(s) && Numbered(s) && DoSend(s, s')
    ensures Numbered(s')
  {
    var top := Top(s);
    assert Distinguished(s.nextId, s.failed, s.log, top);
    var top' := Top(s');
    TopKeepsNumbered(s, top');
    hide Numbered;
    assert s'.pending != s.pending ==> |s.frames| == 1;
    PendingKeepsNumbered(WithTop(s, top'), s'.pending);
  }

  lemma LeftCommits<V>(s: State<V>, c: Commit<V>)
    requires s.frames != []
    ensures Left(Replaced(s, c)) == Replaced(Left(s), c)
  {
  }

  lemma CommitStepKeepsNumbered<V>(s: State<V>, s': State<V>)
    requires Exclusive(s) && Numbered(s) && DoCommit(s, s')
    ensures Numbered(s')
  {
    var top := Top(s);
    assert Distinguished(s.nextId, s.failed, s.log, top);
    var c := s'.log[|s.log|];
    LeftCommits(s, c);
    PopKeepsNumbered(s);
    forall id <- c.within ensures id < s.nextId {
      assert forall f <- s.frames :: Distinguished(s.nextId, s.failed, s.log, f);
    }
    CommitKeepsNumbered(Left(s), c);
  }

  lemma FailStepKeepsNumbered<V>(s: State<V>, s': State<V>)
    requires Exclusive(s) && Numbered(s) && DoFail(s, s')
    ensures Numbered(s')
  {
    var top := Top(s);
    assert Distinguished(s.nextId, s.failed, s.log, top);
    PopKeepsNumbered(s);
    var left := Left(s);
    PendingKeepsNumbered(left, s'.pending);
    FailKeepsNumbered(left.(pending := s'.pending), top.id);
  }

  lemma CompleteKeepsNumbered<V>(s: State<V>, s': State<V>, succeeded: bool)
    requires Exclusive(s) && Numbered(s) && DoComplete(s, s', succeeded)
    ensures Numbered(s')
  {
    var flight := s.pending.value;
    var done := s.(pending := None);
    PendingKeepsNumbered(s, None);
    if succeeded {
      CommitKeepsNumbered(done, Commit(flight.id, flight.request, flight.at, flight.value, []));
    } else {
      FailKeepsNumbered(done, flight.id);
    }
  }

  // ---- Settled drafts and commits ---------------------------------------------------------

  lemma ValueStable<V>(initial: V, log: seq<Commit<V>>, c: Commit<V>, n: nat)
    requires n <= |log|
    ensures ValueAfter(initial, log + [c], n) == ValueAfter(initial, log, n)
  {
  }

  /** A commit from inside a transaction keeps its draft settled; one from outside may not meet a draft. */
  lemma FrameOutlives<V>(initial: V, log: seq<Commit<V>>, c: Commit<V>, f: Frame<V>)
    requires FrameSettled(initial, log, f)
    requires f.phase.Waiting? || f.phase.Entered? ==> f.id !in c.within
    requires f.phase.Drafted? || f.phase.Sending? ==> f.id in c.within
    ensures FrameSettled(initial, log + [c], f)
  {
    if f.phase.Drafted? || f.phase.Sending? {
      ValueStable(initial, log, c, f.phase.at);
    }
  }

  lemma CommitOutlives<V>(initial: V, log: seq<Commit<V>>, c: Commit<V>, k: nat)
    requires k < |log| && CommitSettled(initial, log, k)
    ensures CommitSettled(initial, log + [c], k)
  {
    ValueStable(initial, log, c, log[k].drafted);
  }

  lemma CommitKeepsSettled<V>(s: State<V>, c: Commit<V>)
    requires Settled(s) && s.pending.None?
    requires Isolated(s.log, c.id, c.drafted, |s.log|) && Derived(s.initial, s.log, c.request, c.value, c.drafted)
    requires forall f <- s.frames :: f.phase.Waiting? || f.phase.Entered? ==> f.id !in c.within
    requires forall f <- s.frames :: f.phase.Drafted? || f.phase.Sending? ==> f.id in c.within
    ensures Settled(Replaced(s, c))
  {
    var log := s.log + [c];
    forall f <- s.frames ensures FrameSettled(s.initial, log, f) {
      FrameOutlives(s.initial, s.log, c, f);
    }
    forall k: nat | k < |log| ensures CommitSettled(s.initial, log, k) {
      if k < |s.log| {
        CommitOutlives(s.initial, s.log, c, k);
      } else {
        ValueStable(s.initial, s.log, c, c.drafted);
      }
    }
  }

  lemma EnclosingNames<V>(frames: seq<Frame<V>>, f: Frame<V>)
    requires f in frames
    ensures f.id in Enclosing(frames)
  {
    var i :| 0 <= i < |frames| && frames[i] == f;
    assert Enclosing(frames)[i] == f.id;
  }

  lemma CommitStepKeepsSettled<V>(s: State<V>, s': State<V>)
    requires Exclusive(s) && Settled(s) && DoCommit(s, s')
    ensures Settled(s')
  {
    var top := Top(s);
    var left := Left(s);
    var c := s'.log[|s.log|];
    LeftCommits(s, c);
    assert FrameSettled(s.initial, s.log, top);
    forall f <- left.frames ensures RunsForeignCode(f) && f.id in c.within {
      EnclosingNames(left.frames, f);
    }
    CommitKeepsSettled(left, c);
  }

  lemma CompleteKeepsSettled<V>(s: State<V>, s': State<V>, succeeded: bool)
    requires Exclusive(s) && Settled(s) && DoComplete(s, s', succeeded)
    ensures Settled(s')
  {
    var flight := s.pending.value;
    if succeeded {
      CommitKeepsSettled(s.(pending := None), Commit(flight.id, flight.request, flight.at, flight.value, []));
    }
  }

  lemma PushKeepsSettled<V>(s: State<V>, s': State<V>, f: Frame<V>)
    requires Numbered(s) && Settled(s) && f.id == s.nextId && (f.phase.Waiting? || f.phase.Entered?)
    requires s'.frames == s.frames + [f] && s'.log == s.log && s'.initial == s.initial && s'.committed == s.committed && s'.pending == s.pending
    ensures Settled(s')
  {
    assert forall c <- s.log :: f.id !in c.within;
    assert FrameSettled(s.initial, s.log, f);
  }

  lemma TopKeepsSettled<V>(s: State<V>, s': State<V>, f: Frame<V>)
    requires Settled(s) && s.frames != [] && FrameSettled(s.initial, s.log, f)
    requires s'.pending.Some? ==> FlightSettled(s.initial, s.log, s'.pending.value)
    requires s' == WithTop(s, f).(pending := s'.pending)
    ensures Settled(s')
  {
  }

  lemma StepKeepsSettled<V>(s: State<V>, s': State<V>, step: Step<V>)
    requires Exclusive(s) && Numbered(s) && Settled(s) && Next(s, s', step)
    ensures Settled(s')
  {
    hide Exclusive, Numbered, Settled, DoResume, DoDraft, DoSend, DoAccept, DoCommit, DoComplete;
    match step {
      case BeginStep(thread, request) => BeginKeepsSettled(s, s');
      case BeginAsyncStep(thread, request) => BeginKeepsSettled(s, s');
      case CommitStep => CommitStepKeepsSettled(s, s');
      case FailStep => PopKeepsSettled(s, s');
      case LeaveStep => PopKeepsSettled(s, s');
      case CompleteStep(succeeded) => CompleteKeepsSettled(s, s', succeeded);
      case ReadStep => ReadKeepsSettled(s, s');
      case _ => WorkKeepsSettled(s, s');
    }
  }

  lemma SettledParts<V>(s: State<V>)
    requires Settled(s)
    ensures s.committed == ValueAfter(s.initial, s.log, |s.log|)
    ensures s.frames != [] ==> FrameSettled(s.initial, s.log, Top(s))
    ensures s.pending.Some? ==> FlightSettled(s.initial, s.log, s.pending.value)
  {
  }

  lemma WorkKeepsSettled<V>(s: State<V>, s': State<V>)
    requires Settled(s) && (DoResume(s, s') || DoDraft(s, s') || DoSend(s, s') || DoAccept(s, s'))
    ensures Settled(s')
  {
    hide Settled, ValueAfter;
    SettledParts(s);
    TopKeepsSettled(s, s', Top(s'));
  }

  lemma ReadKeepsSettled<V>(s: State<V>, s': State<V>)
    requires Settled(s) && DoRead(s, s')
    ensures Settled(s')
  {
  }

  lemma BeginKeepsSettled<V>(s: State<V>, s': State<V>)
    requires Numbered(s) && Settled(s)
    requires s'.log == s.log && s'.initial == s.initial && s'.committed == s.committed && s'.pending == s.pending
    requires s'.frames == s.frames ||
      (s'.frames != [] && s'.frames == s.frames + [Top(s')] && Top(s').id == s.nextId && (Top(s').phase.Waiting? || Top(s').phase.Entered?))
    ensures Settled(s')
  {
    if s'.frames != s.frames {
      PushKeepsSettled(s, s', Top(s'));
    }
  }

  lemma PopKeepsSettled<V>(s: State<V>, s': State<V>)
    requires Settled(s) && s.frames != [] && s'.frames == Left(s).frames
    requires s'.log == s.log && s'.initial == s.initial && s'.committed == s.committed && (s'.pending == s.pending || s'.pending.None?)
    ensures Settled(s')
  {
  }

  lemma StepKeepsInv<V>(s: State<V>, s': State<V>, step: Step<V>)
    requires Inv(s) && Next(s, s', step)
    ensures Inv(s')
  {
    hide Exclusive, Numbered, Settled, ReadsCommitted, Next;
    StepKeepsExclusive(s, s', step);
    StepKeepsNumbered(s, s', step);
    StepKeepsSettled(s, s', step);
    StepKeepsReads(s, s', step);
  }

  lemma StepKeepsInitial<V>(s: State<V>, s': State<V>, step: Step<V>)
    requires Next(s, s', step)
    ensures s'.initial == s.initial
  {
  }

  lemma InvIsExclusive<V>(s: State<V>)
    requires Inv(s)
    ensures Exclusive(s)
  {
  }

  // ---- Runs ------------------------------------------------------------------------------

  ghost predicate Run<V>(initial: V, states: seq<State<V>>, steps: seq<Step<V>>) {
    && |states| == |steps| + 1 && states[0] == Fresh(initial)
    && forall i :: 0 <= i < |steps| ==> Next(states[i], states[i + 1], steps[i])
  }

  lemma {:induction false} EveryStateIsSound<V>(initial: V, states: seq<State<V>>, steps: seq<Step<V>>, i: nat)
    requires Run(initial, states, steps) && i < |states|
    ensures Inv(states[i]) && states[i].initial == initial
  {
    hide Inv, Next;
    if i == 0 {
      FreshIsSound(initial);
    } else {
      EveryStateIsSound(initial, states, steps, i - 1);
      StepKeepsInitial(states[i - 1], states[i], steps[i - 1]);
      StepKeepsInv(states[i - 1], states[i], steps[i - 1]);
    }
  }

  ghost predicate NestedIn<V>(log: seq<Commit<V>>, k: nat)
    requires k < |log|
  {
    exists j :: 0 <= j < k && log[k].id in log[j].within
  }

  /** The k-th commit is what its request makes of the settings committed just before it. */
  ghost predicate AppliedToPredecessor<V>(initial: V, log: seq<Commit<V>>, k: nat)
    requires k < |log|
  {
    log[k].request.Result(ValueAfter(initial, log, k)) == Some(log[k].value)
  }

  /** No lost update. Over every run of synchronous and asynchronous writes, cancellations, failures and incoming
      replacements, a commit applies its request to the value committed after `drafted` commits. That is the value
      immediately preceding it exactly when no write was nested inside the transaction; a commit that does come
      in between is always one of the transaction's own nested writes. */
  lemma NoLostUpdate<V>(initial: V, states: seq<State<V>>, steps: seq<Step<V>>, i: nat, k: nat)
    requires Run(initial, states, steps) && i < |states| && k < |states[i].log|
    ensures var log := states[i].log; log[k].drafted <= k && log[k].request.Result(ValueAfter(initial, log, log[k].drafted)) == Some(log[k].value)
    ensures states[i].log[k].drafted == k <==> !NestedIn(states[i].log, k)
    ensures !NestedIn(states[i].log, k) ==> AppliedToPredecessor(initial, states[i].log, k)
    ensures forall j :: states[i].log[k].drafted <= j < k ==> states[i].log[k].id in states[i].log[j].within
  {
    EveryStateIsSound(initial, states, steps, i);
    var log := states[i].log;
    assert CommitSettled(initial, log, k);
    if log[k].drafted < k {
      assert log[k].id in log[log[k].drafted].within;
    }
  }

  function Replay<V>(initial: V, log: seq<Commit<V>>): Option<V> {
    if log == [] then Some(initial)
    else
      match Replay(initial, log[..|log| - 1])
      case None => None
      case Some(before) => log[|log| - 1].request.Result(before)
  }

  lemma {:induction false} LogReplays<V>(initial: V, log: seq<Commit<V>>)
    requires forall k :: 0 <= k < |log| ==> AppliedToPredecessor(initial, log, k)
    ensures Replay(initial, log) == Some(ValueAfter(initial, log, |log|))
  {
    if log != [] {
      var n := |log| - 1;
      forall k | 0 <= k < n ensures AppliedToPredecessor(initial, log[..n], k) {
        assert AppliedToPredecessor(initial, log, k);
      }
      LogReplays(initial, log[..n]);
      assert AppliedToPredecessor(initial, log, n);
    }
  }

  /** Serialisability: without reentrant writes, the settings are what the committed requests alone produce, one
      after another in commit order. Failed and cancelled transactions leave no trace, and every read saw the
      settings some prefix of that order produces. */
  lemma Serialisable<V>(initial: V, states: seq<State<V>>, steps: seq<Step<V>>, i: nat)
    requires Run(initial, states, steps) && i < |states|
    requires forall c <- states[i].log :: c.within == []
    ensures Replay(initial, states[i].log) == Some(states[i].committed)
    ensures forall c <- states[i].log :: c.id !in states[i].failed
    ensures forall r <- states[i].observed :: r.1 <= |states[i].log| && Replay(initial, states[i].log[..r.1]) == Some(r.0)
  {
    EveryStateIsSound(initial, states, steps, i);
    var s := states[i];
    forall k: nat | k < |s.log| ensures AppliedToPredecessor(initial, s.log, k) {
      NoLostUpdate(initial, states, steps, i, k);
    }
    LogReplays(initial, s.log);
    forall c <- s.log ensures c.id !in s.failed {
      assert !Absent(s.log, c.id);
    }
    forall r <- s.observed ensures r.1 <= |s.log| && Replay(initial, s.log[..r.1]) == Some(r.0) {
      forall k: nat | k < r.1 ensures AppliedToPredecessor(initial, s.log[..r.1], k) {
        assert AppliedToPredecessor(initial, s.log, k);
      }
      LogReplays(initial, s.log[..r.1]);
    }
  }

  /** Whether a step starts a transaction from inside another one. */
  predicate Reenters<V>(s: State<V>, step: Step<V>) {
    (step.BeginStep? || step.BeginAsyncStep?) && s.frames != []
  }

  /** Mutators, codecs and send hooks that do not write keep every commit free of nesting. */
  lemma {:induction false} WithoutReentryNothingNests<V>(initial: V, states: seq<State<V>>, steps: seq<Step<V>>, i: nat)
    requires Run(initial, states, steps) && i < |states|
    requires forall j :: 0 <= j < i ==> !Reenters(states[j], steps[j])
    ensures |states[i].frames| <= 1 && forall c <- states[i].log :: c.within == []
  {
    if i > 0 {
      WithoutReentryNothingNests(initial, states, steps, i - 1);
      assert !Reenters(states[i - 1], steps[i - 1]);
      assert Next(states[i - 1], states[i], steps[i - 1]);
    }
  }

  /** A failed or cancelled transaction changes nothing that anybody can read. */
  lemma FailuresChangeNothing<V>(s: State<V>, s': State<V>, step: Step<V>)
    requires Next(s, s', step) && s'.failed != s.failed
    ensures s'.committed == s.committed && s'.loaded == s.loaded && s'.log == s.log && s'.observed == s.observed
  {
  }

  lemma StepIsSeenByItsCommit<V>(s: State<V>, s': State<V>, step: Step<V>)
    requires Next(s, s', step)
    ensures s.log <= s'.log && s.failed <= s'.failed
    ensures s'.log == s.log ==> s'.committed == s.committed && s'.loaded == s.loaded
    ensures s'.failed != s.failed ==> s'.log == s.log
  {
    if s'.failed != s.failed {
      FailuresChangeNothing(s, s', step);
    }
  }

  /** Over any stretch of a run: commits are never undone and failures never forgotten, and however many transactions
      began, waited, failed or were cancelled, readers see another value only if something was committed meanwhile. */
  lemma {:induction false} OnlyCommitsAreSeen<V>(initial: V, states: seq<State<V>>, steps: seq<Step<V>>, i: nat, j: nat)
    requires Run(initial, states, steps) && i <= j < |states|
    ensures states[i].log <= states[j].log && states[i].failed <= states[j].failed
    ensures states[i].log == states[j].log ==> states[i].committed == states[j].committed && states[i].loaded == states[j].loaded
    decreases j
  {
    if i < j {
      OnlyCommitsAreSeen(initial, states, steps, i, j - 1);
      StepIsSeenByItsCommit(states[j - 1], states[j], steps[j - 1]);
    }
  }

  lemma Extended<V>(initial: V, states: seq<State<V>>, steps: seq<Step<V>>, s: State<V>, step: Step<V>)
    returns (states': seq<State<V>>, steps': seq<Step<V>>)
    requires |states| > 0 && Run(initial, states, steps) && Next(states[|states| - 1], s, step)
    ensures |states'| > 0 && Run(initial, states', steps') && states'[|states'| - 1] == s
  {
    states', steps' := states + [s], steps + [step];
  }

  function Increment(): Request<int> { Update((n: int) => Some(n + 1)) }

  function Holding(frames: seq<Frame<int>>, nextId: nat, committed: int, log: seq<Commit<int>>): State<int> {
    State(0, committed, log != [], if frames == [] then None else Some(7), frames, None, nextId, log, {}, [])
  }

  /** An update whose mutator has started a nested write of 10 and not yet sent it. */
  lemma NestedWriteStarts() returns (states: seq<State<int>>, steps: seq<Step<int>>)
    ensures |states| > 0 && Run(0, states, steps)
    ensures states[|states| - 1] == Holding([Frame(0, Increment(), false, Drafted(0, 0)), Frame(1, Set(10), false, Drafted(0, 0))], 2, 0, [])
  {
    var outer, inner := Frame(0, Increment(), false, Entered), Frame(1, Set(10), false, Entered);
    states, steps := [Fresh(0)], [];
    assert Run(0, states, steps);
    hide Run;
    states, steps := Extended(0, states, steps, Holding([outer], 1, 0, []), BeginStep(7, Increment()));
    states, steps := Extended(0, states, steps, Holding([outer.(phase := Drafted(0, 0))], 1, 0, []), DraftStep);
    states, steps := Extended(0, states, steps, Holding([outer.(phase := Drafted(0, 0)), inner], 2, 0, []), BeginStep(7, Set(10)));
    states, steps := Extended(0, states, steps,
      Holding([outer.(phase := Drafted(0, 0)), inner.(phase := Drafted(0, 0))], 2, 0, []), DraftStep);
  }

  /** A mutator that writes reentrantly does lose an update: the nested write is committed and then overwritten
      by a value drafted before it. */
  lemma ReentrantWriteIsLost() returns (states: seq<State<int>>, steps: seq<Step<int>>)
    ensures |states| > 0 && Run(0, states, steps)
    ensures var s := states[|states| - 1]; |s.log| == 2 && s.log[0].value == 10 && s.log[1].value == 1 && s.log[1].drafted == 0
    ensures !AppliedToPredecessor(0, states[|states| - 1].log, 1)
  {
    hide Run;
    var outer, inner := Frame(0, Increment(), false, Drafted(0, 0)), Frame(1, Set(10), false, Drafted(0, 0));
    var nested, lost := Commit(1, Set(10), 0, 10, [0]), Commit(0, Increment(), 0, 1, []);
    assert Enclosing([outer]) == [0] && Enclosing<int>([]) == [];
    states, steps := NestedWriteStarts();
    var both := [outer, inner.(phase := Sending(10, 0))];
    assert both[..1] == [outer];
    assert [nested] + [lost] == [nested, lost] && [] + [nested] == [nested];
    states, steps := Extended(0, states, steps, Holding(both, 2, 0, []), SendStep);
    states, steps := Extended(0, states, steps, Holding([outer], 2, 10, [nested]), CommitStep);
    states, steps := Extended(0, states, steps, Holding([outer.(phase := Sending(1, 0))], 2, 10, [nested]), SendStep);
    states, steps := Extended(0, states, steps, Holding([], 2, 1, [nested, lost]), CommitStep);
  }
}
