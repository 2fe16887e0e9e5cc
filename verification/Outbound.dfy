/** The outbound command queue: admission, coalescing with the tail, and what the writer receives. */
module OutboundSpec {
  import opened Sequences
  import opened Completion

  datatype Command =
    | SetState(context: string, index: int)
    | SetTitle(context: string, title: string, target: int, state: Option<int>)
    | SetImage(context: string, image: string, target: int, state: Option<int>)
    | SetSettings(context: string, settings: string)
    | SetGlobalSettings(context: string, settings: string)
    | Other(name: string, payload: string)  // every command that is not one of the five above, subclasses included
  {
    /** The coalescing key: the piece of device state the command overwrites. */
    function Cell(): Option<Cell> {
      match this
      case SetState(context, _) => Some(StateOf(context))
      case SetTitle(context, _, target, state) => Some(TitleOf(context, target, state))
      case SetImage(context, _, target, state) => Some(ImageOf(context, target, state))
      case SetSettings(context, _) => Some(SettingsOf(context))
      case SetGlobalSettings(context, _) => Some(GlobalSettingsOf(context))
      case Other(_, _) => None
    }
  }

  datatype Cell =
    | StateOf(context: string)
    | TitleOf(context: string, target: int, state: Option<int>)
    | ImageOf(context: string, target: int, state: Option<int>)
    | SettingsOf(context: string)
    | GlobalSettingsOf(context: string)

  datatype Config = Config(queueLimit: pos, byteLimit: pos, coalesce: bool, sizeOf: Command -> pos)

  /** One physical command and every submission it stands for, in submission order. */
  datatype Entry = Entry(id: nat, command: Command, size: pos, deadline: Option<Time>, absorbed: seq<Command>)

  datatype Submission = Submission(id: nat, command: Command)

  datatype Outbound = Outbound(
    queue: seq<Entry>,
    deadlines: map<nat, Time>,
    accepting: bool,
    bytes: int,
    submitted: nat,
    enqueued: nat,
    coalesced: nat,
    rejected: nat,
    received: seq<Entry>,       // history: what the writer took
    withdrawn: set<nat>,        // history: finished or discarded while queued
    accepted: seq<Submission>)  // history: every accepted submission with the entry that carries it

  datatype Verdict = Joined(id: nat) | Enqueued(id: nat) | Closed | Oversized | Full {
    predicate Accepted() { Joined? || Enqueued? }
  }

  function Empty(): Outbound {
    Outbound([], map[], true, 0, 0, 0, 0, 0, [], {}, [])
  }

  // ---- Operations ------------------------------------------------------------------------

  /** Only the tail may absorb a command, and only while its completion is not terminal. */
  predicate Absorbs(cfg: Config, q: Outbound, command: Command, deadline: Option<Time>, tailOpen: bool) {
    && deadline.None? && cfg.coalesce && q.queue != []
    && var tail := q.queue[|q.queue| - 1];
    && tail.deadline.None?
    && command.Cell().Some? && command.Cell() == tail.command.Cell()
    && q.bytes - tail.size + cfg.sizeOf(command) <= cfg.byteLimit
    && tailOpen
  }

  function Decide(cfg: Config, q: Outbound, command: Command, deadline: Option<Time>, tailOpen: bool): Verdict {
    var size := cfg.sizeOf(command);
    if !q.accepting then Closed
    else if size > cfg.byteLimit then Oversized
    else if Absorbs(cfg, q, command, deadline, tailOpen) then Joined(q.queue[|q.queue| - 1].id)
    else if |q.queue| >= cfg.queueLimit || q.bytes + size > cfg.byteLimit then Full
    else Enqueued(q.enqueued)
  }

  function Join(cfg: Config, q: Outbound, command: Command): Outbound
    requires q.queue != []
  {
    var n := |q.queue| - 1;
    var tail := q.queue[n];
    var size := cfg.sizeOf(command);
    q.(queue := q.queue[n := tail.(command := command, size := size, absorbed := tail.absorbed + [command])],
       bytes := q.bytes - tail.size + size,
       coalesced := q.coalesced + 1,
       accepted := q.accepted + [Submission(tail.id, command)])
  }

  function Append(cfg: Config, q: Outbound, command: Command, deadline: Option<Time>): Outbound {
    var size := cfg.sizeOf(command);
    q.(queue := q.queue + [Entry(q.enqueued, command, size, deadline, [command])],
       deadlines := if deadline.Some? then q.deadlines[q.enqueued := deadline.value] else q.deadlines,
       bytes := q.bytes + size,
       enqueued := q.enqueued + 1,
       accepted := q.accepted + [Submission(q.enqueued, command)])
  }

  function Send(cfg: Config, q: Outbound, command: Command, deadline: Option<Time>, tailOpen: bool): Outbound {
    var counted := q.(submitted := q.submitted + 1);
    match Decide(cfg, q, command, deadline, tailOpen)
    case Joined(_) => Join(cfg, counted, command)
    case Enqueued(_) => Append(cfg, counted, command, deadline)
    case _ => counted.(rejected := q.rejected + 1)
  }

  function Receive(q: Outbound): Outbound
    requires q.queue != []
  {
    q.(queue := q.queue[1..], bytes := q.bytes - q.queue[0].size, received := q.received + [q.queue[0]])
  }

  ghost predicate IsQueuedAt(q: Outbound, id: nat, i: nat) {
    i < |q.queue| && q.queue[i].id == id
  }

  ghost predicate Queued(q: Outbound, id: nat) {
    exists i: nat :: IsQueuedAt(q, id, i)
  }

  function Withdraw(q: Outbound, i: nat): Outbound
    requires i < |q.queue|
  {
    q.(queue := RemoveAt(q.queue, i), bytes := q.bytes - q.queue[i].size, withdrawn := q.withdrawn + {q.queue[i].id})
  }

  function ForgetDeadline(q: Outbound, id: nat): Outbound {
    q.(deadlines := q.deadlines - {id})
  }

  /** The completion callback: a finished command leaves the queue and the deadline watch. */
  ghost predicate IsFinish(q: Outbound, id: nat, q': Outbound) {
    if Queued(q, id) then
      exists i: nat :: IsQueuedAt(q, id, i) && q' == ForgetDeadline(Withdraw(q, i), id)
    else q' == ForgetDeadline(q, id)
  }

  function Stop(q: Outbound): Outbound {
    q.(accepting := false)
  }

  function Ids(entries: seq<Entry>): set<nat> {
    set e <- entries :: e.id
  }

  /** The second half of a shutdown whose drain timed out. */
  function Discard(q: Outbound): Outbound {
    q.(queue := [], bytes := 0, withdrawn := q.withdrawn + Ids(q.queue))
  }

  datatype Step =
    | SendStep(command: Command, deadline: Option<Time>, tailOpen: bool)
    | ReceiveStep
    | FinishedStep(id: nat)
    | DueStep(id: nat)
    | StopStep
    | DiscardStep

  ghost predicate Next(cfg: Config, q: Outbound, q': Outbound, step: Step) {
    match step
    case SendStep(command, deadline, tailOpen) => q' == Send(cfg, q, command, deadline, tailOpen)
    case ReceiveStep => q.queue != [] && q' == Receive(q)
    case FinishedStep(id) => IsFinish(q, id, q')
    case DueStep(id) => id in q.deadlines && q' == ForgetDeadline(q, id)
    case StopStep => q' == Stop(q)
    case DiscardStep => !q.accepting && q' == Discard(q)
  }

  // ---- Histories -------------------------------------------------------------------------

  function Carried(e: Entry): seq<Submission> {
    seq(|e.absorbed|, i requires 0 <= i < |e.absorbed| => Submission(e.id, e.absorbed[i]))
  }

  function Flatten(entries: seq<Entry>): seq<Submission> {
    if entries == [] then []
    else Flatten(entries[..|entries| - 1]) + Carried(entries[|entries| - 1])
  }

  /** The submissions whose entry was not withdrawn, in submission order. */
  function Live(accepted: seq<Submission>, withdrawn: set<nat>): seq<Submission> {
    if accepted == [] then []
    else
      var n := |accepted| - 1;
      Live(accepted[..n], withdrawn) + if accepted[n].id in withdrawn then [] else [accepted[n]]
  }

  lemma {:induction false} LiveConcat(a: seq<Submission>, b: seq<Submission>, w: set<nat>)
    ensures Live(a + b, w) == Live(a, w) + Live(b, w)
  {
    if b == [] {
      assert a + b == a;
    } else {
      var n := |b| - 1;
      LiveConcat(a, b[..n], w);
      assert (a + b)[..|a + b| - 1] == a + b[..n];
    }
  }

  lemma {:induction false} LiveTwice(a: seq<Submission>, w: set<nat>, v: set<nat>)
    ensures Live(Live(a, w), v) == Live(a, w + v)
  {
    if a != [] {
      var n := |a| - 1;
      LiveTwice(a[..n], w, v);
      var kept := if a[n].id in w then [] else [a[n]];
      LiveConcat(Live(a[..n], w), kept, v);
      assert kept != [] ==> kept[..0] == [];
    }
  }

  /** Withdrawing identifiers that carry nothing changes nothing. */
  lemma {:induction false} LiveUntouched(a: seq<Submission>, w: set<nat>)
    requires forall s <- a :: s.id !in w
    ensures Live(a, w) == a
  {
    if a != [] {
      var n := |a| - 1;
      assert a == a[..n] + [a[n]] && a[n] in a;
      LiveUntouched(a[..n], w);
    }
  }

  lemma {:induction false} LiveEmptied(a: seq<Submission>, w: set<nat>)
    requires forall s <- a :: s.id in w
    ensures Live(a, w) == []
  {
    if a != [] {
      assert a[|a| - 1] in a;
      LiveEmptied(a[..|a| - 1], w);
    }
  }

  lemma {:induction false} FlattenConcat(a: seq<Entry>, b: seq<Entry>)
    ensures Flatten(a + b) == Flatten(a) + Flatten(b)
  {
    if b == [] {
      assert a + b == a;
    } else {
      var n := |b| - 1;
      FlattenConcat(a, b[..n]);
      InitOfConcat(a, b);
      hide Carried;
      ConcatAssociates(Flatten(a), Flatten(b[..n]), Carried(b[n]));
    }
  }

  lemma {:induction false} FlattenIds(entries: seq<Entry>)
    ensures forall s <- Flatten(entries) :: s.id in Ids(entries)
  {
    if entries != [] {
      var n := |entries| - 1;
      FlattenIds(entries[..n]);
      assert entries == entries[..n] + [entries[n]];
    }
  }

  /** Dropping a set of identifiers from the carried submissions is dropping the entries that bear them. */
  lemma LiveFlattenRemove(before: seq<Entry>, gone: seq<Entry>, after: seq<Entry>)
    requires Ids(gone) !! Ids(before) && Ids(gone) !! Ids(after)
    ensures Live(Flatten(before + gone + after), Ids(gone)) == Flatten(before + after)
  {
    hide Flatten, Live, Ids;
    FlattenConcat(before + gone, after);
    FlattenConcat(before, gone);
    FlattenConcat(before, after);
    FlattenIds(before);
    FlattenIds(gone);
    FlattenIds(after);
    LiveConcat(Flatten(before) + Flatten(gone), Flatten(after), Ids(gone));
    LiveConcat(Flatten(before), Flatten(gone), Ids(gone));
    LiveUntouched(Flatten(before), Ids(gone));
    LiveEmptied(Flatten(gone), Ids(gone));
    LiveUntouched(Flatten(after), Ids(gone));
    calc {
      Live(Flatten(before + gone + after), Ids(gone));
      Flatten(before) + [] + Flatten(after);
      Flatten(before) + Flatten(after);
    }
  }

  // ---- Invariant -------------------------------------------------------------------------

  ghost predicate Bounded(cfg: Config, q: Outbound) {
    && q.bytes == Sum((e: Entry) => e.size, q.queue)
    && q.bytes <= cfg.byteLimit
    && |q.queue| <= cfg.queueLimit
  }

  ghost predicate Counted(q: Outbound) {
    && q.submitted == q.enqueued + q.coalesced + q.rejected
    && q.enqueued == |q.received| + |q.queue| + |q.withdrawn|
    && |q.accepted| == q.enqueued + q.coalesced
  }

  function Line(q: Outbound): seq<Entry> {
    q.received + q.queue
  }

  ghost predicate Identified(q: Outbound) {
    && Ordered(Line(q), q.withdrawn, q.enqueued)
    && (forall id <- q.withdrawn :: id < q.enqueued)
    && (forall id <- q.deadlines :: id < q.enqueued)
  }

  /** An entry executes its last submission, and only overwriting submissions share one entry. */
  ghost predicate Merged(e: Entry) {
    && e.absorbed != [] && e.absorbed[|e.absorbed| - 1] == e.command
    && (|e.absorbed| > 1 ==>
          e.deadline.None? && e.command.Cell().Some? && forall c <- e.absorbed :: c.Cell() == e.command.Cell())
  }

  ghost predicate Faithful(q: Outbound) {
    && (forall e <- Line(q) :: Merged(e))
    && Live(q.accepted, q.withdrawn) == Flatten(Line(q))
  }

  ghost predicate Inv(cfg: Config, q: Outbound) {
    Bounded(cfg, q) && Counted(q) && Identified(q) && Faithful(q)
  }

  lemma EmptyIsSound(cfg: Config)
    ensures Inv(cfg, Empty())
  {
    assert Line(Empty()) == [];
    hide Line;
  }

  lemma LiveAppend(a: seq<Submission>, s: Submission, w: set<nat>)
    requires s.id !in w
    ensures Live(a + [s], w) == Live(a, w) + [s]
  {
    assert (a + [s])[..|a|] == a;
  }

  lemma FlattenAppend(line: seq<Entry>, e: Entry)
    ensures Flatten(line + [e]) == Flatten(line) + Carried(e)
  {
    assert (line + [e])[..|line|] == line;
  }

  lemma JoinMerges(tail: Entry, command: Command, joined: Entry)
    requires Merged(tail) && tail.deadline.None? && command.Cell().Some? && command.Cell() == tail.command.Cell()
    requires joined == tail.(command := command, size := joined.size, absorbed := tail.absorbed + [command])
    ensures Merged(joined) && Carried(joined) == Carried(tail) + [Submission(tail.id, command)]
  {
    assert |tail.absorbed| == 1 ==> tail.absorbed == [tail.command];
  }

  lemma JoinedLine(cfg: Config, q: Outbound, command: Command)
    requires q.queue != []
    ensures var n := |q.queue| - 1; var line := q.received + q.queue[..n];
      Line(q) == line + [q.queue[n]] && Line(Join(cfg, q, command)) == line + [Join(cfg, q, command).queue[n]]
  {
  }

  lemma JoinKeepsFaithful(cfg: Config, q: Outbound, command: Command)
    requires Identified(q) && Faithful(q) && q.queue != []
    requires var tail := q.queue[|q.queue| - 1];
             tail.deadline.None? && command.Cell().Some? && command.Cell() == tail.command.Cell()
    ensures Faithful(Join(cfg, q, command))
  {
    var q' := Join(cfg, q, command);
    var n := |q.queue| - 1;
    var tail, joined := q.queue[n], q'.queue[n];
    var line := q.received + q.queue[..n];
    JoinedLine(cfg, q, command);
    assert tail in Line(q);
    hide Line;
    assert tail.id !in q.withdrawn;
    JoinMerges(tail, command, joined);
    hide Identified, Merged, Carried, Flatten, Live;
    FlattenAppend(line, tail);
    FlattenAppend(line, joined);
    LiveAppend(q.accepted, Submission(tail.id, command), q.withdrawn);
    forall e <- Line(q') ensures Merged(e) {
      assert e in Line(q) || e == joined;
    }
  }

  lemma AppendKeepsFaithful(cfg: Config, q: Outbound, command: Command, deadline: Option<Time>)
    requires Identified(q) && Faithful(q)
    ensures Faithful(Append(cfg, q, command, deadline))
  {
    var q' := Append(cfg, q, command, deadline);
    var e := Entry(q.enqueued, command, cfg.sizeOf(command), deadline, [command]);
    assert Line(q') == Line(q) + [e];
    assert Carried(e) == [Submission(e.id, command)];
    assert e.id !in q.withdrawn;
    assert Merged(e);
    hide Identified, Merged, Carried, Flatten, Live;
    FlattenAppend(Line(q), e);
    LiveAppend(q.accepted, Submission(e.id, command), q.withdrawn);
    forall x <- Line(q') ensures Merged(x) {
      assert x in Line(q) || x == e;
    }
  }

  lemma WithdrawKeepsFaithful(q: Outbound, i: nat)
    requires Identified(q) && Faithful(q) && i < |q.queue|
    ensures Faithful(Withdraw(q, i))
  {
    var before, e, after := q.received + q.queue[..i], q.queue[i], q.queue[i + 1..];
    assert Line(q) == before + [e] + after;
    assert Line(Withdraw(q, i)) == before + after;
    assert Ids([e]) == {e.id};
    RemovalKeepsFaithful(q, Withdraw(q, i), before, [e], after);
  }

  lemma DiscardKeepsFaithful(q: Outbound)
    requires Identified(q) && Faithful(q)
    ensures Faithful(Discard(q))
  {
    assert Line(q) == q.received + q.queue + [];
    assert Line(Discard(q)) == q.received + [];
    RemovalKeepsFaithful(q, Discard(q), q.received, q.queue, []);
  }

  lemma RemovalKeepsFaithful(q: Outbound, q': Outbound, before: seq<Entry>, gone: seq<Entry>, after: seq<Entry>)
    requires Identified(q) && Faithful(q)
    requires Line(q) == before + gone + after && Line(q') == before + after
    requires q'.accepted == q.accepted && q'.withdrawn == q.withdrawn + Ids(gone)
    ensures Faithful(q')
  {
    DistinctAround(before, gone, after);
    LiveTwice(q.accepted, q.withdrawn, Ids(gone));
    hide Flatten, Live, Merged, Identified, Ids;
    LiveFlattenRemove(before, gone, after);
    forall x <- Line(q') ensures Merged(x) {
      assert x in Line(q);
    }
  }

  lemma DistinctAround(before: seq<Entry>, gone: seq<Entry>, after: seq<Entry>)
    requires var all := before + gone + after; forall i, j :: 0 <= i < j < |all| ==> all[i].id < all[j].id
    ensures Ids(gone) !! Ids(before) && Ids(gone) !! Ids(after)
  {
    var all := before + gone + after;
    forall g: nat | g < |gone| ensures gone[g].id !in Ids(before) && gone[g].id !in Ids(after) {
      assert all[|before| + g] == gone[g];
      assert forall j :: 0 <= j < |before| ==> before[j] == all[j];
      assert forall j :: 0 <= j < |after| ==> after[j] == all[|before| + |gone| + j];
    }
  }

  lemma ReceiveKeepsLine(q: Outbound)
    requires q.queue != []
    ensures Line(Receive(q)) == Line(q)
  {
  }

  /** Identity on a line of entries, apart from the queue that holds it. */
  ghost predicate Ordered(line: seq<Entry>, withdrawn: set<nat>, bound: nat) {
    && (forall i, j :: 0 <= i < j < |line| ==> line[i].id < line[j].id)
    && (forall e <- line :: e.id < bound && e.id !in withdrawn)
  }

  lemma OrderedWithout(before: seq<Entry>, gone: seq<Entry>, after: seq<Entry>, withdrawn: set<nat>, bound: nat)
    requires Ordered(before + gone + after, withdrawn, bound)
    ensures Ordered(before + after, withdrawn + Ids(gone), bound)
    ensures forall id <- Ids(gone) :: id < bound
  {
    DistinctAround(before, gone, after);
    var all, k, n := before + gone + after, |before|, |gone|;
    var left := before + after;
    assert forall e <- gone :: e in all;
    assert forall e <- left :: e in all && e.id !in Ids(gone);
    forall i, j | 0 <= i < j < |left| ensures left[i].id < left[j].id {
      assert left[i] == all[if i < k then i else i + n] && left[j] == all[if j < k then j else j + n];
    }
  }

  lemma RemovalKeepsIdentified(q: Outbound, i: nat)
    requires Identified(q) && i < |q.queue|
    ensures Identified(Withdraw(q, i))
  {
    var before, e, after := q.received + q.queue[..i], q.queue[i], q.queue[i + 1..];
    assert Line(q) == before + [e] + after;
    assert Line(Withdraw(q, i)) == before + after;
    OrderedWithout(before, [e], after, q.withdrawn, q.enqueued);
    assert Ids([e]) == {e.id};
  }

  lemma DiscardKeepsIdentified(q: Outbound)
    requires Identified(q)
    ensures Identified(Discard(q))
  {
    assert Line(q) == q.received + q.queue + [];
    assert Line(Discard(q)) == q.received + [];
    OrderedWithout(q.received, q.queue, [], q.withdrawn, q.enqueued);
  }

  lemma {:induction false} DistinctIds(entries: seq<Entry>)
    requires forall i, j :: 0 <= i < j < |entries| ==> entries[i].id < entries[j].id
    ensures |Ids(entries)| == |entries|
  {
    if entries == [] {
      assert Ids(entries) == {};
    } else {
      var n := |entries| - 1;
      DistinctIds(entries[..n]);
      assert entries == entries[..n] + [entries[n]];
      assert Ids(entries) == Ids(entries[..n]) + {entries[n].id};
      assert entries[n].id !in Ids(entries[..n]);
    }
  }

  lemma DiscardCounts(q: Outbound)
    requires Identified(q) && Counted(q)
    ensures Counted(Discard(q))
  {
    QueueIsApart(q);
    hide Ordered;
    DistinctIds(q.queue);
    hide Identified, Ids;
  }

  /** Queued entries have different numbers, none of them a withdrawn one. */
  lemma QueueIsApart(q: Outbound)
    requires Identified(q)
    ensures q.withdrawn !! Ids(q.queue)
    ensures forall i, j :: 0 <= i < j < |q.queue| ==> q.queue[i].id < q.queue[j].id
  {
    forall j | 0 <= j < |q.queue| ensures q.queue[j] == Line(q)[|q.received| + j] && q.queue[j] in Line(q) {
    }
  }

  lemma JoinKeepsInv(cfg: Config, q: Outbound, command: Command, tailOpen: bool)
    requires Inv(cfg, q) && Absorbs(cfg, q, command, None, tailOpen)
    ensures Inv(cfg, Join(cfg, q.(submitted := q.submitted + 1), command))
  {
    var counted := q.(submitted := q.submitted + 1);
    CountKeepsRest(cfg, q, counted);
    hide Identified, Faithful, Bounded;
    JoinKeepsFaithful(cfg, counted, command);
    JoinKeepsRest(cfg, counted, command);
  }

  lemma AppendKeepsInv(cfg: Config, q: Outbound, command: Command, deadline: Option<Time>)
    requires Inv(cfg, q) && |q.queue| < cfg.queueLimit && q.bytes + cfg.sizeOf(command) <= cfg.byteLimit
    ensures Inv(cfg, Append(cfg, q.(submitted := q.submitted + 1), command, deadline))
  {
    var counted := q.(submitted := q.submitted + 1);
    CountKeepsRest(cfg, q, counted);
    hide Identified, Faithful, Bounded;
    AppendKeepsFaithful(cfg, counted, command, deadline);
    AppendKeepsRest(cfg, counted, command, deadline);
  }

  lemma RefusalKeepsInv(cfg: Config, q: Outbound)
    requires Inv(cfg, q)
    ensures Inv(cfg, q.(submitted := q.submitted + 1, rejected := q.rejected + 1))
  {
    CountKeepsRest(cfg, q, q.(submitted := q.submitted + 1, rejected := q.rejected + 1));
    hide Identified, Faithful, Bounded;
  }

  lemma SendKeepsInv(cfg: Config, q: Outbound, command: Command, deadline: Option<Time>, tailOpen: bool)
    requires Inv(cfg, q)
    ensures Inv(cfg, Send(cfg, q, command, deadline, tailOpen))
  {
    hide Inv, Join, Append;
    match Decide(cfg, q, command, deadline, tailOpen) {
      case Joined(_) => JoinKeepsInv(cfg, q, command, tailOpen);
      case Enqueued(_) => AppendKeepsInv(cfg, q, command, deadline);
      case _ => RefusalKeepsInv(cfg, q);
    }
  }

  lemma CountKeepsRest(cfg: Config, q: Outbound, q': Outbound)
    requires Identified(q) && Bounded(cfg, q) && Faithful(q)
    requires q' == q.(submitted := q'.submitted, rejected := q'.rejected)
    ensures Identified(q') && Bounded(cfg, q') && Faithful(q')
  {
    assert Line(q') == Line(q);
  }

  lemma JoinKeepsRest(cfg: Config, q: Outbound, command: Command)
    requires Identified(q) && Bounded(cfg, q) && q.queue != []
    requires q.bytes - q.queue[|q.queue| - 1].size + cfg.sizeOf(command) <= cfg.byteLimit
    ensures Identified(Join(cfg, q, command)) && Bounded(cfg, Join(cfg, q, command))
  {
    JoinKeepsIdentified(cfg, q, command);
    hide Identified;
    var n := |q.queue| - 1;
    SumUpdate((e: Entry) => e.size, q.queue, n, Join(cfg, q, command).queue[n]);
  }

  lemma JoinKeepsIdentified(cfg: Config, q: Outbound, command: Command)
    requires Identified(q) && q.queue != []
    ensures Identified(Join(cfg, q, command))
  {
    var q' := Join(cfg, q, command);
    assert forall j :: 0 <= j < |Line(q)| ==> Line(q')[j].id == Line(q)[j].id;
    forall e <- Line(q') ensures e.id < q.enqueued && e.id !in q.withdrawn {
      var j: nat :| j < |Line(q')| && Line(q')[j] == e;
      assert Line(q)[j] in Line(q);
    }
  }

  lemma AppendKeepsRest(cfg: Config, q: Outbound, command: Command, deadline: Option<Time>)
    requires Identified(q) && Bounded(cfg, q)
    requires |q.queue| < cfg.queueLimit && q.bytes + cfg.sizeOf(command) <= cfg.byteLimit
    ensures Identified(Append(cfg, q, command, deadline)) && Bounded(cfg, Append(cfg, q, command, deadline))
  {
    var q' := Append(cfg, q, command, deadline);
    var e := q'.queue[|q.queue|];
    SumAppend((e: Entry) => e.size, q.queue, e);
    assert Line(q') == Line(q) + [e];
    forall x <- Line(q') ensures x.id < q'.enqueued && x.id !in q'.withdrawn {
      assert x in Line(q) || x == e;
    }
    assert forall x <- Line(q) :: x.id < q.enqueued;
    assert forall j :: 0 <= j < |Line(q)| ==> Line(q')[j] == Line(q)[j] && Line(q)[j] in Line(q);
  }

  lemma ReceiveKeepsInv(cfg: Config, q: Outbound)
    requires Inv(cfg, q) && q.queue != []
    ensures Inv(cfg, Receive(q))
  {
    ReceiveKeepsLine(q);
  }

  lemma WithdrawKeepsInv(cfg: Config, q: Outbound, i: nat)
    requires Inv(cfg, q) && i < |q.queue|
    ensures Inv(cfg, Withdraw(q, i))
  {
    WithdrawKeepsFaithful(q, i);
    RemovalKeepsIdentified(q, i);
    SumRemoveAt((e: Entry) => e.size, q.queue, i);
    assert q.queue[i] in Line(q);
    SumBounds((e: Entry) => e.size, q.queue);
  }

  lemma ForgetKeepsInv(cfg: Config, q: Outbound, id: nat)
    requires Inv(cfg, q)
    ensures Inv(cfg, ForgetDeadline(q, id))
  {
    assert Line(ForgetDeadline(q, id)) == Line(q);
  }

  lemma DiscardKeepsInv(cfg: Config, q: Outbound)
    requires Inv(cfg, q)
    ensures Inv(cfg, Discard(q))
  {
    DiscardKeepsFaithful(q);
    DiscardKeepsIdentified(q);
    DiscardCounts(q);
  }

  /** Bounds, counters, identity and the link to the submission history survive every step. */
  lemma StepKeepsInv(cfg: Config, q: Outbound, q': Outbound, step: Step)
    requires Inv(cfg, q) && Next(cfg, q, q', step)
    ensures Inv(cfg, q')
  {
    hide Inv;
    match step {
      case SendStep(command, deadline, tailOpen) => SendKeepsInv(cfg, q, command, deadline, tailOpen);
      case ReceiveStep => ReceiveKeepsInv(cfg, q);
      case FinishedStep(id) =>
        if Queued(q, id) {
          var i: nat :| IsQueuedAt(q, id, i) && q' == ForgetDeadline(Withdraw(q, i), id);
          WithdrawKeepsInv(cfg, q, i);
          ForgetKeepsInv(cfg, Withdraw(q, i), id);
        } else {
          ForgetKeepsInv(cfg, q, id);
        }
      case DueStep(id) => ForgetKeepsInv(cfg, q, id);
      case StopStep => StopKeepsInv(cfg, q);
      case DiscardStep => DiscardKeepsInv(cfg, q);
    }
  }

  lemma StopKeepsInv(cfg: Config, q: Outbound)
    requires Inv(cfg, q)
    ensures Inv(cfg, Stop(q))
  {
    assert Line(Stop(q)) == Line(q);
  }

  // ---- What coalescing means for the device ----------------------------------------------

  function Execute<S>(exec: (S, Command) -> S, start: S, commands: seq<Command>): S {
    if commands == [] then start
    else exec(Execute(exec, start, commands[..|commands| - 1]), commands[|commands| - 1])
  }

  /** Each unkeyed command with the state it is executed in. */
  function Observed<S>(exec: (S, Command) -> S, start: S, commands: seq<Command>): seq<(S, Command)> {
    if commands == [] then []
    else
      var n := |commands| - 1;
      Observed(exec, start, commands[..n])
      + if commands[n].Cell().Some? then [] else [(Execute(exec, start, commands[..n]), commands[n])]
  }

  /** A keyed command determines its cell whatever the cell held. */
  ghost predicate Overwrites<S(!new)>(exec: (S, Command) -> S) {
    forall s: S, a: Command, b: Command ::
      a.Cell().Some? && a.Cell() == b.Cell() ==> exec(exec(s, a), b) == exec(s, b)
  }

  lemma {:induction false} ExecuteConcat<S>(exec: (S, Command) -> S, start: S, a: seq<Command>, b: seq<Command>)
    ensures Execute(exec, start, a + b) == Execute(exec, Execute(exec, start, a), b)
    ensures Observed(exec, start, a + b) == Observed(exec, start, a) + Observed(exec, Execute(exec, start, a), b)
  {
    if b == [] {
      assert a + b == a;
    } else {
      var n := |b| - 1;
      ExecuteConcat(exec, start, a, b[..n]);
      assert (a + b)[..|a + b| - 1] == a + b[..n];
    }
  }

  /** Submissions that share a cell amount to the last of them. */
  lemma {:induction false} LastOverwrites<S(!new)>(exec: (S, Command) -> S, start: S, absorbed: seq<Command>, cell: Cell)
    requires Overwrites(exec) && absorbed != [] && forall c <- absorbed :: c.Cell() == Some(cell)
    ensures Execute(exec, start, absorbed) == exec(start, absorbed[|absorbed| - 1])
    ensures Observed(exec, start, absorbed) == []
  {
    var n := |absorbed| - 1;
    if n == 0 {
      assert absorbed[..n] == [];
    } else {
      LastOverwrites(exec, start, absorbed[..n], cell);
      assert absorbed[n - 1] in absorbed && absorbed[n] in absorbed;
    }
  }

  lemma EntryAmountsToCommand<S(!new)>(exec: (S, Command) -> S, start: S, e: Entry)
    requires Overwrites(exec) && Merged(e)
    ensures Execute(exec, start, e.absorbed) == Execute(exec, start, [e.command])
    ensures Observed(exec, start, e.absorbed) == Observed(exec, start, [e.command])
  {
    assert [e.command][..0] == [];
    if |e.absorbed| == 1 {
      assert e.absorbed == [e.command];
    } else {
      LastOverwrites(exec, start, e.absorbed, e.command.Cell().value);
    }
  }

  function Physical(entries: seq<Entry>): seq<Command> {
    seq(|entries|, i requires 0 <= i < |entries| => entries[i].command)
  }

  function Commands(submissions: seq<Submission>): seq<Command> {
    seq(|submissions|, i requires 0 <= i < |submissions| => submissions[i].command)
  }

  lemma CommandsConcat(a: seq<Submission>, e: Entry)
    ensures Commands(a + Carried(e)) == Commands(a) + e.absorbed
  {
  }

  lemma PhysicalAppend(line: seq<Entry>, e: Entry)
    ensures Physical(line + [e]) == Physical(line) + [e.command]
  {
  }

  lemma {:induction false} LineAmountsToSubmissions<S(!new)>(exec: (S, Command) -> S, start: S, entries: seq<Entry>)
    requires Overwrites(exec) && forall e <- entries :: Merged(e)
    ensures Execute(exec, start, Physical(entries)) == Execute(exec, start, Commands(Flatten(entries)))
    ensures Observed(exec, start, Physical(entries)) == Observed(exec, start, Commands(Flatten(entries)))
  {
    if entries != [] {
      var n := |entries| - 1;
      var e := entries[n];
      LineAmountsToSubmissions(exec, start, entries[..n]);
      assert Merged(e);
      EntryAmountsToCommand(exec, Execute(exec, start, Physical(entries[..n])), e);
      hide Merged, Overwrites, Execute, Observed;
      hide Physical, Commands, Flatten, Carried;
      assert entries == entries[..n] + [e];
      PhysicalAppend(entries[..n], e);
      FlattenAppend(entries[..n], e);
      CommandsConcat(Flatten(entries[..n]), e);
      ExecuteConcat(exec, start, Physical(entries[..n]), [e.command]);
      ExecuteConcat(exec, start, Commands(Flatten(entries[..n])), e.absorbed);
    }
  }

  ghost predicate Run(cfg: Config, states: seq<Outbound>, steps: seq<Step>) {
    && |states| == |steps| + 1 && states[0] == Empty()
    && forall i :: 0 <= i < |steps| ==> Next(cfg, states[i], states[i + 1], steps[i])
  }

  lemma {:induction false} RunKeepsInv(cfg: Config, states: seq<Outbound>, steps: seq<Step>, i: nat)
    requires Run(cfg, states, steps) && i < |states|
    ensures Inv(cfg, states[i])
  {
    hide Inv, Next;
    if i == 0 {
      EmptyIsSound(cfg);
    } else {
      RunKeepsInv(cfg, states, steps, i - 1);
      StepKeepsInv(cfg, states[i - 1], states[i], steps[i - 1]);
    }
  }

  /** Coalescing preserves meaning. In every run, executing what the writer received and then what is still
      queued leaves the device as executing every accepted submission whose entry was not withdrawn, and each
      unkeyed command is executed in the same state. */
  lemma CoalescingPreservesMeaning<S(!new)>(
      cfg: Config, states: seq<Outbound>, steps: seq<Step>, i: nat, exec: (S, Command) -> S, start: S)
    requires Run(cfg, states, steps) && i < |states| && Overwrites(exec)
    ensures var q := states[i]; var sent := Physical(q.received + q.queue); var asked := Commands(Live(q.accepted, q.withdrawn));
      Execute(exec, start, sent) == Execute(exec, start, asked) && Observed(exec, start, sent) == Observed(exec, start, asked)
  {
    RunKeepsInv(cfg, states, steps, i);
    LineAmountsToSubmissions(exec, start, Line(states[i]));
  }

  /** With nothing withdrawn and the queue drained, the writer's stream stands for every accepted submission. */
  lemma DrainedStreamMeansEverySubmission<S(!new)>(
      cfg: Config, states: seq<Outbound>, steps: seq<Step>, i: nat, exec: (S, Command) -> S, start: S)
    requires Run(cfg, states, steps) && i < |states| && Overwrites(exec)
    requires states[i].queue == [] && states[i].withdrawn == {}
    ensures var q := states[i];
      Execute(exec, start, Physical(q.received)) == Execute(exec, start, Commands(q.accepted)) &&
      Observed(exec, start, Physical(q.received)) == Observed(exec, start, Commands(q.accepted))
  {
    var q := states[i];
    CoalescingPreservesMeaning(cfg, states, steps, i, exec, start);
    LiveUntouched(q.accepted, q.withdrawn);
    assert q.received + q.queue == q.received;
  }

  /** The simplest device: one remembered command per cell, and the unkeyed commands in order. */
  function Remember(device: (map<Cell, Command>, seq<Command>), command: Command): (map<Cell, Command>, seq<Command>) {
    match command.Cell()
    case Some(cell) => (device.0[cell := command], device.1)
    case None => (device.0, device.1 + [command])
  }

  lemma RememberOverwrites()
    ensures Overwrites(Remember)
  {
    forall s: (map<Cell, Command>, seq<Command>), a: Command, b: Command
      | a.Cell().Some? && a.Cell() == b.Cell() ensures Remember(Remember(s, a), b) == Remember(s, b) {
      var cell := a.Cell().value;
      assert s.0[cell := a][cell := b] == s.0[cell := b];
    }
  }
}
