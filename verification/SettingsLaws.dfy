/** The settings transactions in terms of the frames, the lock and the requests alone. */
module SettingsLaws {
  import opened Sequences
  import opened GlobalSettingsSpec

  /** Over every run, a committed set, typed or incoming request leaves the very value it carries, and a committed
      update what its mutator made of the settings after the commits it had seen; readers get the last one. */
  lemma CommitsWhatWasAsked<V>(initial: V, states: seq<State<V>>, steps: seq<Step<V>>, i: nat, k: nat)
    requires Run(initial, states, steps) && i < |states| && k < |states[i].log|
    ensures var c := states[i].log[k]; c.drafted <= k && match c.request
      case Set(value) => c.value == value
      case Incoming(value) => c.value == value
      case Typed(encoded) => encoded == Some(c.value)
      case Update(mutate) => mutate(if c.drafted == 0 then initial else states[i].log[c.drafted - 1].value) == Some(c.value)
    ensures states[i].committed == states[i].log[|states[i].log| - 1].value
  {
    NoLostUpdate(initial, states, steps, i, k);
    EveryStateIsSound(initial, states, steps, i);
  }

  /** The innermost transaction, which holds a draft, can go on to send this value. */
  ghost predicate CanSend<V(!new)>(s: State<V>, value: V) {
    exists s' :: Next(s, s', SendStep) && s'.frames != [] &&
      var top := s'.frames[|s'.frames| - 1];
      if top.isAsync then s'.pending.Some? && s'.pending.value.value == value && s'.pending.value.id == top.id
      else top.phase.Sending? && top.phase.value == value
  }

  lemma SendingTakesTheResult<V(!new)>(s: State<V>, value: V)
    requires s.frames != [] && s.frames[|s.frames| - 1].phase.Drafted?
    ensures CanSend(s, value) <==> Top(s).request.Result(Top(s).phase.base) == Some(value)
  {
    var top := Top(s);
    if top.request.Result(top.phase.base) == Some(value) {
      var s' := if top.isAsync
                then WithTop(s, top.(phase := Submitting)).(pending := Some(Flight(top.id, top.request, value, top.phase.at, false)))
                else WithTop(s, top.(phase := Sending(value, top.phase.at)));
      assert Next(s, s', SendStep);
    }
  }

  /** What is sent: the value of a set, the encoding of a typed set, or what the mutator makes of the draft. A codec
      or a mutator that raises sends nothing. */
  lemma SendsWhatWasAsked<V(!new)>(s: State<V>, value: V)
    requires s.frames != [] && s.frames[|s.frames| - 1].phase.Drafted? && !s.frames[|s.frames| - 1].request.Incoming?
    ensures CanSend(s, value) <==> match s.frames[|s.frames| - 1].request
      case Set(given) => value == given
      case Typed(encoded) => encoded == Some(value)
      case Update(mutate) => mutate(s.frames[|s.frames| - 1].phase.base) == Some(value)
  {
    SendingTakesTheResult(s, value);
  }

  /** Whether some transaction is past its waiting. */
  ghost predicate SomebodyInside<V(!new)>(s: State<V>) {
    exists f <- s.frames :: !f.phase.Waiting?
  }

  /** The write depth is positive exactly while some transaction is past its waiting; without waiting it is their number. */
  lemma DepthCountsInside<V(!new)>(s: State<V>)
    requires Inv(s)
    ensures Depth(s) > 0 <==> SomebodyInside(s)
    ensures SomebodyInside(s) ==> Depth(s) == |s.frames|
  {
    if s.frames != [] {
      assert s.frames[0] in s.frames;
    }
  }

  /** A thread may start a transaction exactly when nobody holds the write lock, or it holds it itself and its innermost
      transaction runs a mutator, a codec or a send. */
  lemma EntersExactlyWhen<V(!new)>(s: State<V>, thread: nat, request: Request<V>)
    requires Inv(s)
    ensures (exists s' :: Next(s, s', BeginStep(thread, request))) <==>
      s.owner.None? || (s.owner == Some(thread) && s.frames != [] &&
        var phase := s.frames[|s.frames| - 1].phase; phase.Drafted? || phase.Sending? || phase.Submitting?)
  {
    if MayAcquire(s, thread) {
      var s' := if s.pending.Some? && Depth(s) > 0 then s.(nextId := s.nextId + 1, failed := s.failed + {s.nextId})
                else s.(owner := Some(thread), nextId := s.nextId + 1,
                        frames := s.frames + [Frame(s.nextId, request, false, if s.pending.Some? then Waiting else Entered)]);
      assert Next(s, s', BeginStep(thread, request));
    }
  }

  /** It is inside at once while no write is in flight. While one is, it waits as the only transaction, or is refused
      because some transaction is already inside. */
  lemma EntryIs<V(!new)>(s: State<V>, s': State<V>, thread: nat, request: Request<V>)
    requires Inv(s) && Next(s, s', BeginStep(thread, request))
    ensures s.pending.None? ==> s'.owner == Some(thread) && s'.frames == s.frames + [Frame(s.nextId, request, false, Entered)]
    ensures s.pending.Some? && !SomebodyInside(s) ==> s'.owner == Some(thread) && s'.frames == [Frame(s.nextId, request, false, Waiting)]
    ensures s.pending.Some? && SomebodyInside(s) ==> s'.owner == s.owner && s'.frames == s.frames && s'.failed == s.failed + {s.nextId}
    ensures s'.committed == s.committed && s'.pending == s.pending && s'.log == s.log
  {
    DepthCountsInside(s);
  }

  /** An asynchronous transaction never waits: it is inside at once when nobody holds the lock and no write is in flight,
      and refused otherwise. */
  lemma TryingIs<V(!new)>(s: State<V>, s': State<V>, thread: nat, request: Request<V>)
    requires Inv(s) && Next(s, s', BeginAsyncStep(thread, request))
    ensures if s.owner.None? && s.pending.None?
            then s'.owner == Some(thread) && s'.frames == [Frame(s.nextId, request, true, Entered)] && s'.failed == s.failed
            else s'.owner == s.owner && s'.frames == s.frames && s'.failed == s.failed + {s.nextId}
    ensures s'.committed == s.committed && s'.pending == s.pending && s'.log == s.log
  {
  }

  /** Ending the innermost transaction uncovers the one around it; the outermost frees the write lock. Only a commit
      changes what readers get, and it changes it to the value that was sent or came in. */
  lemma EndingIs<V(!new)>(s: State<V>, s': State<V>, step: Step<V>)
    requires Inv(s) && Next(s, s', step) && (step.CommitStep? || step.FailStep? || step.LeaveStep?)
    ensures s.frames != [] && s'.frames == s.frames[..|s.frames| - 1] && s'.owner == if s'.frames == [] then None else s.owner
    ensures var top := s.frames[|s.frames| - 1]; step.CommitStep? ==>
      && s'.loaded && s'.failed == s.failed && |s'.log| == |s.log| + 1
      && ((top.phase.Sending? && s'.committed == top.phase.value) || (top.request.Incoming? && s'.committed == top.request.value))
    ensures !step.CommitStep? ==> s'.committed == s.committed && s'.loaded == s.loaded && s'.log == s.log
    ensures s'.failed == s.failed + if step.FailStep? then {s.frames[|s.frames| - 1].id} else {}
  {
  }

  /** A write in flight ends by itself: the value that was submitted is committed exactly when it was written. */
  lemma FlightEndIs<V(!new)>(s: State<V>, s': State<V>, succeeded: bool)
    requires Inv(s) && Next(s, s', CompleteStep(succeeded))
    ensures s.pending.Some? && s'.pending.None? && s'.frames == s.frames && s'.owner == s.owner
    ensures s'.committed == if succeeded then s.pending.value.value else s.committed
    ensures s'.failed == s.failed + if succeeded then {} else {s.pending.value.id}
  {
  }
}
