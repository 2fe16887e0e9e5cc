/** What becomes of a submitted event, in terms of the queued entries, their sizes and the overflow policy, and when a
    rotation merges. */
module InboundLaws {
  import opened Sequences
  import opened Events
  import opened Handlers
  import opened InboundSpec

  // ---- Making room -----------------------------------------------------------------------

  predicate Fits(cfg: Config, entries: seq<SizedEvent>, size: pos) {
    |entries| < cfg.queueLimit && Sum(SizeOf, entries) + size <= cfg.byteLimit
  }

  ghost predicate HoldsRotation(entries: seq<SizedEvent>) {
    exists e <- entries :: e.event.DialRotate?
  }

  /** The rotation to give up first: the oldest queued one or the youngest, as the policy says. */
  predicate GivenUp(cfg: Config, entries: seq<SizedEvent>, i: nat) {
    && i < |entries| && entries[i].event.DialRotate?
    && forall j :: 0 <= j < |entries| && (if cfg.dropOldest then j < i else i < j) ==> !entries[j].event.DialRotate?
  }

  /** One rotation after the other is given up, each only because the new event does not fit beside what is left. */
  ghost predicate Evicts(cfg: Config, entries: seq<SizedEvent>, rest: seq<SizedEvent>, gone: seq<Event>, size: pos)
    decreases |gone|
  {
    if gone == [] then rest == entries
    else
      && !Fits(cfg, entries, size)
      && exists i: nat :: GivenUp(cfg, entries, i) && gone[0] == entries[i].event
                          && Evicts(cfg, entries[..i] + entries[i + 1..], rest, gone[1..], size)
  }

  /** Counted bytes are the bytes there are. */
  ghost predicate Weighed(s: Inbound) {
    s.bytes == Sum(SizeOf, s.entries)
  }

  lemma FullIs(cfg: Config, s: Inbound, size: pos)
    requires Weighed(s)
    ensures Full(cfg, s, size) <==> !Fits(cfg, s.entries, size)
  {
  }

  lemma EvictionIs(cfg: Config, s: Inbound, i: nat)
    requires Weighed(s) && Victim(cfg, s.entries) == Some(i)
    ensures GivenUp(cfg, s.entries, i) && Weighed(Evict(s, i))
    ensures Evict(s, i).entries == s.entries[..i] + s.entries[i + 1..] && Evict(s, i).evicted == s.evicted + [s.entries[i].event]
  {
    hide Sum;
    assert IsVictim(cfg, s.entries, Some(i));
    SumRemoveAt(SizeOf, s.entries, i);
  }

  lemma {:induction false} MakesRoom(cfg: Config, s: Inbound, size: pos) returns (gone: seq<Event>)
    requires Weighed(s)
    ensures var r := MakeRoom(cfg, s, size);
      && Weighed(r) && r.evicted == s.evicted + gone && Evicts(cfg, s.entries, r.entries, gone, size)
      && (Fits(cfg, r.entries, size) || !HoldsRotation(r.entries))
    decreases |s.entries|
  {
    hide Weighed, Fits, Victim, Evict, Evicts, Full, GivenUp;
    FullIs(cfg, s, size);
    var v := Victim(cfg, s.entries);
    if !Full(cfg, s, size) || v.None? {
      gone := [];
      EvictsNothing(cfg, s.entries, size);
      assert IsVictim(cfg, s.entries, v);
    } else {
      var i := v.value;
      EvictionIs(cfg, s, i);
      var more := MakesRoom(cfg, Evict(s, i), size);
      gone := [s.entries[i].event] + more;
      EvictsOneMore(cfg, s.entries, i, MakeRoom(cfg, s, size).entries, more, size);
      ConcatAssociates(s.evicted, [s.entries[i].event], more);
    }
  }

  lemma EvictsNothing(cfg: Config, entries: seq<SizedEvent>, size: pos)
    ensures Evicts(cfg, entries, entries, [], size)
  {
  }

  lemma EvictsOneMore(cfg: Config, entries: seq<SizedEvent>, i: nat, rest: seq<SizedEvent>, more: seq<Event>, size: pos)
    requires !Fits(cfg, entries, size) && GivenUp(cfg, entries, i) && Evicts(cfg, entries[..i] + entries[i + 1..], rest, more, size)
    ensures Evicts(cfg, entries, rest, [entries[i].event] + more, size)
  {
    assert ([entries[i].event] + more)[1..] == more;
    hide Fits, GivenUp;
  }

  // ---- What becomes of an event ------------------------------------------------------------

  /** An event that does not merge is queued behind what has been left if it fits there. A rotation that does not is
      refused, as is any other event whose time is up; the rest waits. Where the newest is dropped, a rotation
      displaces nobody. */
  ghost predicate PlacedBehind(cfg: Config, s: Inbound, s': Inbound, e: Event, expired: bool, rest: seq<SizedEvent>, gone: seq<Event>) {
    var size := cfg.sizeOf(e);
    && s'.evicted == s.evicted + gone && Evicts(cfg, s.entries, rest, gone, size)
    && (if e.DialRotate? && !cfg.dropOldest then gone == [] else Fits(cfg, rest, size) || !HoldsRotation(rest))
    && if Fits(cfg, rest, size) then
         s'.entries == rest + [SizedEvent(s.nextStamp, e, size)] && s'.refused == s.refused && s'.waiting == s.waiting
       else if e.DialRotate? || expired then
         s'.entries == rest && s'.refused == s.refused + [e] && s'.waiting == s.waiting
       else
         s'.entries == rest && s'.refused == s.refused && s'.waiting == s.waiting + [e]
  }

  /** A queued rotation of the same dial takes over the newer settings and the sum of the ticks, where it stands. */
  ghost predicate MergedInto(cfg: Config, s: Inbound, s': Inbound, e: Event, i: nat) {
    && cfg.coalesceDials && i < |s.entries| && e.DialRotate? && s.entries[i].event.DialRotate?
    && s.entries[i].event.context == e.context && s.entries[i].event.dial == e.dial
    && var event := DialRotate(e.context, e.dial, e.settings, s.entries[i].event.ticks + e.ticks);
    && s'.entries == s.entries[i := SizedEvent(s.entries[i].stamp, event, cfg.sizeOf(event))]
    && Sum(SizeOf, s'.entries) <= cfg.byteLimit
    && s'.evicted == s.evicted && s'.refused == s.refused && s'.waiting == s.waiting
  }

  lemma PlacementIs(cfg: Config, s: Inbound, e: Event, expired: bool)
    requires Weighed(s)
    ensures exists rest, gone :: PlacedBehind(cfg, s, Place(cfg, s, e, expired), e, expired, rest, gone)
    ensures Place(cfg, s, e, expired).coalesced == s.coalesced
  {
    var size := cfg.sizeOf(e);
    if e.DialRotate? && !cfg.dropOldest {
      FullIs(cfg, s, size);
      hide Fits, MakeRoom, Full;
      assert PlacedBehind(cfg, s, Place(cfg, s, e, expired), e, expired, s.entries, []);
    } else {
      var r := MakeRoom(cfg, s, size);
      var gone := MakesRoom(cfg, s, size);
      FullIs(cfg, r, size);
      MakeRoomOnlyEvicts(cfg, s, size);
      RoomCoalescesNothing(cfg, s, size);
      hide Fits, MakeRoom, Full, Evicts, HoldsRotation;
      assert PlacedBehind(cfg, s, Place(cfg, s, e, expired), e, expired, r.entries, gone);
    }
  }

  lemma {:induction false} RoomCoalescesNothing(cfg: Config, s: Inbound, size: pos)
    ensures MakeRoom(cfg, s, size).coalesced == s.coalesced
    decreases |s.entries|
  {
    var v := Victim(cfg, s.entries);
    if Full(cfg, s, size) && v.Some? {
      RoomCoalescesNothing(cfg, Evict(s, v.value), size);
    }
  }

  lemma MergeIs(cfg: Config, s: Inbound, e: Event, i: nat)
    requires Weighed(s) && Mergeable(cfg, s, e, i)
    ensures MergedInto(cfg, s, Merge(cfg, s, e, i), e, i) && Merge(cfg, s, e, i).coalesced == s.coalesced + 1
  {
    hide Sum;
    SumUpdate(SizeOf, s.entries, i, Merge(cfg, s, e, i).entries[i]);
  }

  /** What becomes of an event when it is submitted: refused by a closed queue or for its size, merged, or placed. */
  lemma SubmissionOutcome(cfg: Config, s: Inbound, s': Inbound, e: Event, expired: bool)
    requires Weighed(s) && Submits(cfg, s, s', e, expired)
    ensures
      if !s.accepting || cfg.sizeOf(e) > cfg.byteLimit then
        s'.refused == s.refused + [e] && s'.entries == s.entries && s'.evicted == s.evicted && s'.waiting == s.waiting
      else if s'.coalesced == s.coalesced then exists rest, gone :: PlacedBehind(cfg, s, s', e, expired, rest, gone)
      else exists i: nat :: MergedInto(cfg, s, s', e, i)
  {
    hide Weighed, Mergeable, Merge, Place, Evicts, Fits, HoldsRotation;
    var s0 := s.(submitted := s.submitted + [e]);
    if s.accepting && cfg.sizeOf(e) <= cfg.byteLimit {
      SameWeight(s, s0);
      if i: nat :| Mergeable(cfg, s0, e, i) && s' == Merge(cfg, s0, e, i) {
        MergeIs(cfg, s0, e, i);
        assert MergedInto(cfg, s, s', e, i);
      } else {
        PlacementIs(cfg, s0, e, expired);
        var rest, gone :| PlacedBehind(cfg, s0, s', e, expired, rest, gone);
        assert PlacedBehind(cfg, s, s', e, expired, rest, gone);
      }
    }
  }

  lemma SameWeight(s: Inbound, s0: Inbound)
    requires Weighed(s) && s0.bytes == s.bytes && s0.entries == s.entries
    ensures Weighed(s0)
  {
  }

  /** The same for an event that has waited and tries again. */
  lemma ResumptionOutcome(cfg: Config, s: Inbound, w: nat, expired: bool)
    requires Weighed(s) && w < |s.waiting|
    ensures var s', e, s0 := Resume(cfg, s, w, expired), s.waiting[w], s.(waiting := s.waiting[..w] + s.waiting[w + 1..]);
      if s.accepting then exists rest, gone :: PlacedBehind(cfg, s0, s', e, expired, rest, gone)
      else s'.refused == s.refused + [e] && s'.entries == s.entries && s'.evicted == s.evicted && s'.waiting == s0.waiting
  {
    hide Weighed, Place, PlacedBehind;
    assert RemoveAt(s.waiting, w) == s.waiting[..w] + s.waiting[w + 1..];
    SameWeight(s, Woken(s, w));
    if s.accepting {
      PlacementIs(cfg, Woken(s, w), s.waiting[w], expired);
      var rest, gone :| PlacedBehind(cfg, Woken(s, w), Resume(cfg, s, w, expired), s.waiting[w], expired, rest, gone);
      assert PlacedBehind(cfg, s.(waiting := s.waiting[..w] + s.waiting[w + 1..]), Resume(cfg, s, w, expired), s.waiting[w], expired, rest, gone);
    }
  }

  /** In every state the queue can reach the counted bytes are the bytes there are. */
  lemma SoundIsWeighed(cfg: Config, s: Inbound)
    requires Inv(cfg, s)
    ensures Weighed(s)
  {
  }

  // ---- What that means for a producer --------------------------------------------------------

  /** An event that fits when it arrives displaces nobody: nothing is evicted and every entry stays where it is. */
  lemma FittingEvictsNothing(cfg: Config, s: Inbound, s': Inbound, e: Event, expired: bool)
    requires Weighed(s) && Submits(cfg, s, s', e, expired)
    requires s.accepting && Fits(cfg, s.entries, cfg.sizeOf(e))
    ensures s'.evicted == s.evicted && s'.refused == s.refused && s'.waiting == s.waiting && |s.entries| <= |s'.entries|
    ensures forall i :: 0 <= i < |s.entries| ==> s'.entries[i].stamp == s.entries[i].stamp
    ensures s'.coalesced == s.coalesced ==> s'.entries == s.entries + [SizedEvent(s.nextStamp, e, cfg.sizeOf(e))]
  {
    SizesArePositive(s.entries);
    SubmissionOutcome(cfg, s, s', e, expired);
    hide Submits, Weighed, Sum;
    if s'.coalesced == s.coalesced {
      var rest, gone :| PlacedBehind(cfg, s, s', e, expired, rest, gone);
    }
  }

  lemma {:induction false} SizesArePositive(entries: seq<SizedEvent>)
    ensures 0 <= Sum(SizeOf, entries)
  {
    if entries != [] {
      SizesArePositive(entries[1..]);
    }
  }

  /** As long as the queue accepts, a lossless event of a possible size is refused only when its time is up. */
  lemma LosslessIsNotRefused(cfg: Config, s: Inbound, s': Inbound, e: Event)
    requires Weighed(s) && Submits(cfg, s, s', e, false)
    requires s.accepting && !e.DialRotate? && cfg.sizeOf(e) <= cfg.byteLimit
    ensures s'.refused == s.refused
    ensures s'.waiting == s.waiting || (s'.waiting == s.waiting + [e] && !Fits(cfg, s'.entries, cfg.sizeOf(e)) && !HoldsRotation(s'.entries))
  {
    SubmissionOutcome(cfg, s, s', e, false);
    hide Submits, Weighed, Evicts, Fits, HoldsRotation;
    if s'.coalesced == s.coalesced {
      var rest, gone :| PlacedBehind(cfg, s, s', e, false, rest, gone);
    }
  }

  // ---- When a rotation merges ----------------------------------------------------------------

  /** Every queued entry that carries the newest decision about its context is on file as its merge target. */
  ghost predicate OnFile(s: Inbound) {
    && (forall x <- s.newest :: s.newest[x] < |s.decided|)
    && (s.accepting ==> forall e <- s.entries, c: string :: IsNewest(s.decided, s.newest, e.stamp, c) ==> c in s.last && s.last[c] == e.stamp)
  }

  lemma Filed(s: Inbound, e: SizedEvent, c: string)
    requires OnFile(s) && s.accepting && e in s.entries && IsNewest(s.decided, s.newest, e.stamp, c)
    ensures c in s.last && s.last[c] == e.stamp
  {
  }

  /** A new decision leaves an older entry the newest one of a context only if it is about something else. */
  lemma NewestBefore(decided: seq<Event>, newest: map<nat, nat>, e: Event, x: nat, stamp: nat, c: string)
    requires IsNewest(decided + [e], newest[x := |decided|], stamp, c) && stamp != x
    requires stamp in newest ==> newest[stamp] < |decided|
    ensures !Touches(e, c) && IsNewest(decided, newest, stamp, c)
  {
    var k := newest[stamp];
    assert (decided + [e])[|decided|] == e;
    assert forall j :: k <= j < |decided| ==> decided[j] == (decided + [e])[j];
  }

  lemma NewestBeforeRefusal(decided: seq<Event>, newest: map<nat, nat>, e: Event, stamp: nat, c: string)
    requires IsNewest(decided + [e], newest, stamp, c)
    requires stamp in newest ==> newest[stamp] < |decided|
    ensures !Touches(e, c) && IsNewest(decided, newest, stamp, c)
  {
    var k := newest[stamp];
    assert (decided + [e])[|decided|] == e;
    assert forall j :: k <= j < |decided| ==> decided[j] == (decided + [e])[j];
  }

  lemma RemoveStaysOnFile(s: Inbound, i: nat)
    requires OnFile(s) && StampsSound(s) && i < |s.entries|
    ensures OnFile(Remove(s, i))
  {
    var s' := Remove(s, i);
    hide IsNewest;
    forall e <- s'.entries ensures e in s.entries && e.stamp != s.entries[i].stamp {
      StaysBeside(s.entries, i, e);
    }
    hide RemoveAt, StampsSound;
    forall e <- s'.entries, c: string | s.accepting && IsNewest(s.decided, s.newest, e.stamp, c) ensures c in s'.last && s'.last[c] == e.stamp {
      Filed(s, e, c);
    }
  }

  lemma StaysBeside(entries: seq<SizedEvent>, i: nat, e: SizedEvent)
    requires Sorted(entries) && i < |entries| && e in RemoveAt(entries, i)
    ensures e in entries && e.stamp != entries[i].stamp
  {
    var j :| 0 <= j < |RemoveAt(entries, i)| && RemoveAt(entries, i)[j] == e;
    assert e == entries[if j < i then j else j + 1];
  }

  lemma RefuseStaysOnFile(s: Inbound, e: Event)
    requires OnFile(s)
    ensures OnFile(Refuse(s, e))
  {
    var s' := Refuse(s, e);
    hide IsNewest;
    forall x <- s'.entries, c: string | s.accepting && IsNewest(s'.decided, s'.newest, x.stamp, c) ensures c in s'.last && s'.last[c] == x.stamp {
      NewestBeforeRefusal(s.decided, s.newest, e, x.stamp, c);
      Filed(s, x, c);
    }
  }

  lemma AppendStaysOnFile(cfg: Config, s: Inbound, e: Event)
    requires OnFile(s) && StampsSound(s)
    ensures OnFile(Append(cfg, s, e))
  {
    var s' := Append(cfg, s, e);
    forall x <- s'.entries, c: string | s.accepting && IsNewest(s'.decided, s'.newest, x.stamp, c) ensures c in s'.last && s'.last[c] == x.stamp {
      if x in s.entries {
        NewestBefore(s.decided, s.newest, e, s.nextStamp, x.stamp, c);
        Filed(s, x, c);
      }
    }
  }

  lemma MergeStaysOnFile(cfg: Config, s: Inbound, e: Event, i: nat)
    requires OnFile(s) && StampsSound(s) && Mergeable(cfg, s, e, i)
    ensures OnFile(Merge(cfg, s, e, i))
  {
    var s' := Merge(cfg, s, e, i);
    hide IsNewest;
    forall x <- s'.entries, c: string | s.accepting && IsNewest(s'.decided, s'.newest, x.stamp, c) ensures c in s'.last && s'.last[c] == x.stamp {
      var j :| 0 <= j < |s'.entries| && s'.entries[j] == x;
      if j != i {
        assert x == s.entries[j] && x.stamp != s.entries[i].stamp;
        NewestBefore(s.decided, s.newest, e, s.entries[i].stamp, x.stamp, c);
        Filed(s, x, c);
      }
    }
  }

  lemma {:induction false} RoomStaysOnFile(cfg: Config, s: Inbound, size: pos)
    requires OnFile(s) && StampsSound(s)
    ensures OnFile(MakeRoom(cfg, s, size)) && StampsSound(MakeRoom(cfg, s, size))
    decreases |s.entries|
  {
    var v := Victim(cfg, s.entries);
    if Full(cfg, s, size) && v.Some? {
      RemoveStaysOnFile(s, v.value);
      RemoveKeepsStamps(s, v.value);
      hide StampsSound, OnFile;
      EvictionIsRemoval(s, v.value);
      RoomStaysOnFile(cfg, Evict(s, v.value), size);
    }
  }

  lemma EvictionIsRemoval(s: Inbound, i: nat)
    requires i < |s.entries|
    ensures OnFile(Evict(s, i)) == OnFile(Remove(s, i)) && StampsSound(Evict(s, i)) == StampsSound(Remove(s, i))
  {
  }

  lemma PlaceStaysOnFile(cfg: Config, s: Inbound, e: Event, expired: bool)
    requires OnFile(s) && StampsSound(s)
    ensures OnFile(Place(cfg, s, e, expired))
  {
    var size := cfg.sizeOf(e);
    RoomStaysOnFile(cfg, s, size);
    var r := if e.DialRotate? && !cfg.dropOldest then s else MakeRoom(cfg, s, size);
    RefuseStaysOnFile(r, e);
    AppendStaysOnFile(cfg, r, e);
    WaitStaysOnFile(r, r.waiting + [e]);
    hide OnFile, StampsSound, MakeRoom, Refuse, Append;
  }

  lemma WaitStaysOnFile(s: Inbound, waiting: seq<Event>)
    requires OnFile(s)
    ensures OnFile(s.(waiting := waiting))
  {
  }

  lemma SubmitStaysOnFile(cfg: Config, s: Inbound, s': Inbound, e: Event, expired: bool)
    requires OnFile(s) && StampsSound(s) && Submits(cfg, s, s', e, expired)
    ensures OnFile(s')
  {
    var s0 := s.(submitted := s.submitted + [e]);
    assert OnFile(s0) && StampsSound(s0);
    if s.accepting {
      hide OnFile, StampsSound, Refuse, Place, Merge, Mergeable;
      RefuseStaysOnFile(s0, e);
      if i: nat :| Mergeable(cfg, s0, e, i) && s' == Merge(cfg, s0, e, i) {
        MergeStaysOnFile(cfg, s0, e, i);
      } else {
        PlaceStaysOnFile(cfg, s0, e, expired);
      }
    }
  }

  lemma StepStaysOnFile(cfg: Config, s: Inbound, s': Inbound, step: Step)
    requires OnFile(s) && StampsSound(s) && Next(cfg, s, s', step)
    ensures OnFile(s')
  {
    hide OnFile, StampsSound, Submits, Resume, Receive;
    match step
    case SubmitStep(e, expired) => SubmitStaysOnFile(cfg, s, s', e, expired);
    case ResumeStep(w, expired) => ResumeStaysOnFile(cfg, s, w, expired);
    case ReceiveStep(k) => ReceiveStaysOnFile(s, k);
    case _ => OthersStayOnFile(cfg, s, s', step);
  }

  lemma ResumeStaysOnFile(cfg: Config, s: Inbound, w: nat, expired: bool)
    requires OnFile(s) && StampsSound(s) && w < |s.waiting|
    ensures OnFile(Resume(cfg, s, w, expired))
  {
    assert OnFile(Woken(s, w)) && StampsSound(Woken(s, w));
    hide OnFile, StampsSound, Refuse, Place;
    RefuseStaysOnFile(Woken(s, w), s.waiting[w]);
    PlaceStaysOnFile(cfg, Woken(s, w), s.waiting[w], expired);
  }

  lemma ReceiveStaysOnFile(s: Inbound, k: nat)
    requires OnFile(s) && StampsSound(s) && k < |s.entries|
    ensures OnFile(Receive(s, k))
  {
    RemoveStaysOnFile(s, k);
    hide IsNewest, Forget;
  }

  lemma OthersStayOnFile(cfg: Config, s: Inbound, s': Inbound, step: Step)
    requires OnFile(s) && Next(cfg, s, s', step) && (step.TaskDoneStep? || step.StopStep? || step.DiscardStep?)
    ensures OnFile(s')
  {
    hide IsNewest;
  }

  lemma NothingOnFile()
    ensures OnFile(Initial)
  {
  }

  lemma {:induction false} RunStaysOnFile(cfg: Config, states: seq<Inbound>, steps: seq<Step>, n: nat)
    requires Run(cfg, states, steps) && n < |states|
    ensures OnFile(states[n]) && Inv(cfg, states[n])
  {
    hide OnFile, Next, IndexSound, NewestSound, Bounded, StampsSound, Account;
    TicksAreAdditive("");
    RunKeeps(cfg, states, steps, TicksOf(""), n);
    if n == 0 {
      NothingOnFile();
    } else {
      RunStaysOnFile(cfg, states, steps, n - 1);
      StepStaysOnFile(cfg, states[n - 1], states[n], steps[n - 1]);
    }
  }

  /** In every reachable state of an accepting queue a rotation can merge into an entry exactly when coalescing is on,
      the entry is a rotation of the same dial that carries the newest decision about its context, and the sum fits. */
  lemma MergesExactlyWhen(cfg: Config, states: seq<Inbound>, steps: seq<Step>, n: nat, e: Event, i: nat)
    requires Run(cfg, states, steps) && n < |states| && states[n].accepting && i < |states[n].entries|
    ensures var s := states[n]; var x := s.entries[i];
      Mergeable(cfg, s, e, i) <==>
        && cfg.coalesceDials && e.DialRotate? && x.event.DialRotate? && x.event.context == e.context && x.event.dial == e.dial
        && IsNewest(s.decided, s.newest, x.stamp, e.context)
        && Sum(SizeOf, s.entries) - x.size + cfg.sizeOf(DialRotate(e.context, e.dial, e.settings, x.event.ticks + e.ticks)) <= cfg.byteLimit
  {
    RunStaysOnFile(cfg, states, steps, n);
    var s := states[n];
    if Mergeable(cfg, s, e, i) {
      MergesAreAdjacent(cfg, states, steps, n, e, i);
    } else if e.DialRotate? && IsNewest(s.decided, s.newest, s.entries[i].stamp, e.context) {
      Filed(s, s.entries[i], e.context);
    }
    hide OnFile, IsNewest, IndexSound, NewestSound, StampsSound, Sum;
  }
}
