/** A device with the fields the commands write: which commands may stand for one another on it, and what coalescing
    does to it. */
module OutboundDevice {
  import opened Sequences
  import opened Completion
  import opened OutboundSpec

  /** Where a title or an image is shown: the key, the target (hardware, software or both) and the state, if one is
      meant. */
  type Place = (string, int, Option<int>)

  datatype Panel = Panel(
    states: map<string, int>,
    titles: map<Place, string>,
    images: map<Place, string>,
    settings: map<string, string>,
    globals: map<string, string>,
    log: seq<(string, string)>)   // every other command, in order

  const Blank: Panel := Panel(map[], map[], map[], map[], map[], [])

  function Show(p: Panel, command: Command): Panel {
    match command
    case SetState(context, index) => p.(states := p.states[context := index])
    case SetTitle(context, title, target, state) => p.(titles := p.titles[(context, target, state) := title])
    case SetImage(context, image, target, state) => p.(images := p.images[(context, target, state) := image])
    case SetSettings(context, settings) => p.(settings := p.settings[context := settings])
    case SetGlobalSettings(context, settings) => p.(globals := p.globals[context := settings])
    case Other(name, payload) => p.(log := p.log + [(name, payload)])
  }

  /** The later command makes the earlier one unseen, whatever the device showed. */
  ghost predicate Hides(later: Command, earlier: Command) {
    forall p: Panel :: Show(Show(p, earlier), later) == Show(p, later)
  }

  lemma SameCellHides(earlier: Command, later: Command)
    requires earlier.Cell().Some? && earlier.Cell() == later.Cell()
    ensures Hides(later, earlier)
  {
    forall p: Panel ensures Show(Show(p, earlier), later) == Show(p, later) {
      match later {
        case SetState(context, index) => Overwritten(p.states, context, earlier.index, index);
        case SetTitle(context, title, target, state) => Overwritten(p.titles, (context, target, state), earlier.title, title);
        case SetImage(context, image, target, state) => Overwritten(p.images, (context, target, state), earlier.image, image);
        case SetSettings(context, settings) => Overwritten(p.settings, context, earlier.settings, settings);
        case SetGlobalSettings(context, settings) => Overwritten(p.globals, context, earlier.settings, settings);
      }
    }
  }

  lemma Overwritten<K, V>(m: map<K, V>, k: K, before: V, after: V)
    ensures m[k := before][k := after] == m[k := after]
  {
  }

  lemma OthersAreSeen(earlier: Command, later: Command)
    requires earlier.Other?
    ensures Show(Show(Blank, earlier), later) != Show(Blank, later)
  {
    assert |Show(Show(Blank, earlier), later).log| == |Show(Blank, later).log| + 1;
  }

  /** On a blank device an earlier command that the later one does not hide can still be seen. */
  lemma HiddenHasSameCell(earlier: Command, later: Command)
    requires Hides(later, earlier)
    ensures earlier.Cell().Some? && earlier.Cell() == later.Cell()
  {
    var both, last := Show(Show(Blank, earlier), later), Show(Blank, later);
    assert both == last;
    match earlier {
      case SetState(context, _) => assert context in both.states;
      case SetTitle(context, _, target, state) => assert (context, target, state) in both.titles;
      case SetImage(context, _, target, state) => assert (context, target, state) in both.images;
      case SetSettings(context, _) => assert context in both.settings;
      case SetGlobalSettings(context, _) => assert context in both.globals;
      case Other(_, _) => OthersAreSeen(earlier, later);
    }
  }

  /** Two commands share a coalescing key exactly when the later one hides the earlier one from this device: they write
      the same field. */
  lemma SharedCellIsSharedField(earlier: Command, later: Command)
    ensures earlier.Cell().Some? && earlier.Cell() == later.Cell() <==> Hides(later, earlier)
  {
    if earlier.Cell().Some? && earlier.Cell() == later.Cell() {
      SameCellHides(earlier, later);
    } else if Hides(later, earlier) {
      HiddenHasSameCell(earlier, later);
    }
  }

  lemma PanelOverwrites()
    ensures Overwrites(Show)
  {
    forall p: Panel, a: Command, b: Command | a.Cell().Some? && a.Cell() == b.Cell() ensures Show(Show(p, a), b) == Show(p, b) {
      SameCellHides(a, b);
      assert Hides(b, a);
    }
  }

  function LogOf(command: Command): seq<(string, string)> {
    if command.Other? then [(command.name, command.payload)] else []
  }

  lemma ShowLogs(p: Panel, command: Command)
    ensures Show(p, command).log == p.log + LogOf(command)
  {
    assert p.log + [] == p.log;
  }

  lemma {:induction false} LogIsUnkeyed(start: Panel, commands: seq<Command>)
    ensures Execute(Show, start, commands).log == start.log + OthersOf(commands)
  {
    if commands != [] {
      var n := |commands| - 1;
      LogIsUnkeyed(start, commands[..n]);
      ShowLogs(Execute(Show, start, commands[..n]), commands[n]);
      hide Show, Execute;
      ConcatAssociates(start.log, OthersOf(commands[..n]), LogOf(commands[n]));
    } else {
      assert start.log + [] == start.log;
    }
  }

  function OthersOf(commands: seq<Command>): seq<(string, string)> {
    if commands == [] then []
    else
      var n := |commands| - 1;
      OthersOf(commands[..n]) + LogOf(commands[n])
  }

  /** Over every run the device ends up showing what it would show had every submission that was not withdrawn been sent
      to it, one by one, and it gets every command that is not one of the five, in order and once. */
  lemma DeviceShowsEverySubmission(cfg: Config, states: seq<Outbound>, steps: seq<OutboundSpec.Step>, i: nat)
    requires Run(cfg, states, steps) && i < |states|
    ensures var q := states[i]; var sent := Physical(q.received + q.queue); var asked := Commands(Live(q.accepted, q.withdrawn));
      && Execute(Show, Blank, sent) == Execute(Show, Blank, asked)
      && OthersOf(sent) == OthersOf(asked)
  {
    PanelOverwrites();
    hide Overwrites, Show, Live, Commands, Physical;
    CoalescingPreservesMeaning(cfg, states, steps, i, Show, Blank);
    var q := states[i];
    var sent, asked := Physical(q.received + q.queue), Commands(Live(q.accepted, q.withdrawn));
    LogIsUnkeyed(Blank, sent);
    LogIsUnkeyed(Blank, asked);
    assert [] + OthersOf(sent) == OthersOf(sent) && [] + OthersOf(asked) == OthersOf(asked);
  }

  // ---- Admission -----------------------------------------------------------------------------

  /** The bytes of the queued commands. */
  function Load(entries: seq<Entry>): int {
    Sum((e: Entry) => e.size, entries)
  }

  /** A command takes the place of the one at the tail exactly when it hides that one, neither has a deadline, the tail
      can still be replaced and the bytes are there. */
  ghost predicate TakesOver(cfg: Config, q: Outbound, command: Command, deadline: Option<Time>, tailOpen: bool) {
    && cfg.coalesce && q.queue != [] && tailOpen && deadline.None?
    && var n := |q.queue| - 1;
    && q.queue[n].deadline.None? && Hides(command, q.queue[n].command)
    && Load(q.queue[..n]) + cfg.sizeOf(command) <= cfg.byteLimit
  }

  lemma TailLoad(q: Outbound)
    requires q.queue != []
    ensures Load(q.queue) == Load(q.queue[..|q.queue| - 1]) + q.queue[|q.queue| - 1].size
  {
    var n := |q.queue| - 1;
    assert q.queue == q.queue[..n] + [q.queue[n]];
    SumAppend((e: Entry) => e.size, q.queue[..n], q.queue[n]);
  }

  lemma AbsorbsIs(cfg: Config, q: Outbound, command: Command, deadline: Option<Time>, tailOpen: bool)
    requires Bounded(cfg, q)
    ensures Absorbs(cfg, q, command, deadline, tailOpen) <==> TakesOver(cfg, q, command, deadline, tailOpen)
  {
    if q.queue != [] {
      TailLoad(q);
      SharedCellIsSharedField(q.queue[|q.queue| - 1].command, command);
    }
    hide Hides, Command.Cell, Sum;
  }

  /** What a submission finds, in the order in which the queue looks. */
  lemma AdmissionIs(cfg: Config, q: Outbound, command: Command, deadline: Option<Time>, tailOpen: bool)
    requires Bounded(cfg, q)
    ensures var verdict, size := Decide(cfg, q, command, deadline, tailOpen), cfg.sizeOf(command);
      var takesOver := TakesOver(cfg, q, command, deadline, tailOpen);
      && (verdict.Closed? <==> !q.accepting)
      && (verdict.Oversized? <==> q.accepting && size > cfg.byteLimit)
      && (verdict.Joined? <==> q.accepting && size <= cfg.byteLimit && takesOver)
      && (verdict.Enqueued? <==>
            q.accepting && size <= cfg.byteLimit && !takesOver && |q.queue| < cfg.queueLimit && Load(q.queue) + size <= cfg.byteLimit)
  {
    AbsorbsIs(cfg, q, command, deadline, tailOpen);
    hide Absorbs, TakesOver, Sum;
  }

  /** What a submission leaves of the queued commands: the tail replaced, the new one behind it, or all as it was. */
  lemma SubmissionLeaves(cfg: Config, q: Outbound, command: Command, deadline: Option<Time>, tailOpen: bool)
    ensures var verdict, sent := Decide(cfg, q, command, deadline, tailOpen), Physical(q.queue);
      Physical(Send(cfg, q, command, deadline, tailOpen).queue) ==
        (if verdict.Joined? then sent[..|q.queue| - 1] + [command] else if verdict.Enqueued? then sent + [command] else sent)
  {
    var verdict, q' := Decide(cfg, q, command, deadline, tailOpen), Send(cfg, q, command, deadline, tailOpen);
    if verdict.Joined? {
      assert Physical(q'.queue) == Physical(q.queue)[..|q.queue| - 1] + [command];
    }
  }
}
