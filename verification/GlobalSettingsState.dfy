/** The global settings object. Each method is one block under the state lock; the write lock is a field. */
module GlobalSettingsState {
  import opened Sequences
  import opened GlobalSettingsSpec

  datatype Entry = Inside | MustWait | Busy

  class DefaultGlobalSettingsState<V(==)> {
    var settings: V
    var loaded: bool
    var pending: Option<nat>       // the transaction whose completion is in flight
    var writeDepth: nat
    var writeLock: Option<nat>     // the thread holding the reentrant write lock
    var holds: nat                 // how often it holds it
    ghost var model: State<V>

    ghost predicate Valid()
      reads this
    {
      && Inv(model)
      && settings == model.committed && loaded == model.loaded
      && pending == (if model.pending.Some? then Some(model.pending.value.id) else None)
      && writeDepth == Depth(model) && writeLock == model.owner && holds == |model.frames|
    }

    constructor (initial: V)
      ensures Valid() && model == Fresh(initial)
    {
      FreshIsSound(initial);
      settings, loaded, pending, writeDepth, writeLock, holds := initial, false, None, 0, None, 0;
      model := Fresh(initial);
    }

    /** Acquire the write lock and look for a write in flight. */
    method Enter(thread: nat, ghost request: Request<V>) returns (entry: Entry)
      requires Valid() && MayAcquire(model, thread)
      modifies this
      ensures Valid() && DoBegin(old(model), model, thread, request)
      ensures entry.Busy? <==> old(model).pending.Some? && Depth(old(model)) > 0
      ensures entry.Inside? <==> old(model).pending.None?
      ensures settings == old(settings) && loaded == old(loaded)
    {
      hide Inv, Exclusive;
      ghost var was := model;
      ghost var frame := Frame(was.nextId, request, false, if was.pending.Some? then Waiting else Entered);
      if writeDepth > 0 && pending.Some? {
        model := was.(nextId := was.nextId + 1, failed := was.failed + {was.nextId});
        entry := Busy;
      } else {
        BeginDepth(was, frame, thread);
        writeLock, holds := Some(thread), holds + 1;
        entry := if pending.Some? then MustWait else Inside;
        if entry.Inside? {
          writeDepth := writeDepth + 1;
        }
        model := was.(owner := Some(thread), nextId := was.nextId + 1, frames := was.frames + [frame]);
      }
      StepKeepsInv(was, model, BeginStep(thread, request));
    }

    lemma BeginDepth(was: State<V>, frame: Frame<V>, thread: nat)
      requires Inv(was) && MayAcquire(was, thread) && (frame.phase.Waiting? <==> was.pending.Some?) && (was.pending.None? || Depth(was) == 0)
      ensures Depth(was.(owner := Some(thread), nextId := was.nextId + 1, frames := was.frames + [frame]))
        == Depth(was) + if frame.phase.Waiting? then 0 else 1
    {
    }

    /** Try the write lock for an asynchronous write; busy unless nothing is going on. */
    method TryEnter(thread: nat, ghost request: Request<V>) returns (entered: bool)
      requires Valid() && !request.Incoming? && (writeLock == Some(thread) ==> MayAcquire(model, thread))
      modifies this
      ensures Valid() && DoBeginAsync(old(model), model, thread, request)
      ensures entered <==> old(model).owner.None? && old(model).pending.None?
      ensures settings == old(settings) && loaded == old(loaded)
    {
      hide Inv;
      ghost var was := model;
      InvIsExclusive(was);
      ghost var frame := Frame(was.nextId, request, true, Entered);
      entered := (writeLock.None? || writeLock == Some(thread)) && pending.None? && writeDepth == 0;
      if entered {
        BeginDepth(was, frame, thread);
        writeLock, holds, writeDepth := Some(thread), holds + 1, writeDepth + 1;
        model := was.(owner := Some(thread), nextId := was.nextId + 1, frames := was.frames + [frame]);
      } else {
        model := was.(nextId := was.nextId + 1, failed := was.failed + {was.nextId});
      }
      StepKeepsInv(was, model, BeginAsyncStep(thread, request));
    }

    /** The wait for the write in flight: true once the transaction is inside. */
    method Resume() returns (inside: bool)
      requires Valid() && model.frames != [] && Top(model).phase.Waiting?
      modifies this
      ensures Valid() && inside == old(model).pending.None?
      ensures if inside then DoResume(old(model), model) else model == old(model)
    {
      hide Inv, Exclusive;
      if pending.Some? {
        return false;
      }
      ghost var was := model;
      writeDepth := writeDepth + 1;
      model := WithTop(was, Top(was).(phase := Entered));
      StepKeepsInv(was, model, ResumeStep);
      return true;
    }

    /** The settings property. */
    method Read() returns (value: V)
      requires Valid()
      modifies this`model
      ensures Valid() && DoRead(old(model), model) && value == model.committed
    {
      hide Inv, Exclusive;
      ghost var was := model;
      value := settings;
      model := was.(observed := was.observed + [(was.committed, |was.log|)]);
      StepKeepsInv(was, model, ReadStep);
    }

    /** Take the draft the mutator or codec works on. */
    method Draft() returns (draft: V)
      requires Valid() && model.frames != [] && Top(model).phase.Entered? && !Top(model).request.Incoming?
      modifies this`model
      ensures Valid() && DoDraft(old(model), model) && draft == old(model).committed
    {
      hide Inv, Exclusive;
      ghost var was := model;
      draft := settings;
      model := WithTop(was, Top(was).(phase := Drafted(was.committed, |was.log|)));
      StepKeepsInv(was, model, DraftStep);
    }

    /** The mutator or codec returned this value. An asynchronous write installs its pending completion. */
    method Submit(value: V, completion: nat, isAsync: bool)
      requires Valid() && model.frames != [] && Top(model).phase.Drafted?
      requires isAsync == Top(model).isAsync && completion == Top(model).id
      requires Top(model).request.Result(Top(model).phase.base) == Some(value)
      modifies this`pending, this`model
      ensures Valid() && DoSend(old(model), model)
      ensures isAsync ==> pending == Some(completion)
    {
      hide Inv, Exclusive;
      ghost var was := model;
      ghost var top := Top(was);
      if isAsync {
        pending := Some(completion);
        model := WithTop(was, top.(phase := Submitting)).(pending := Some(Flight(top.id, top.request, value, top.phase.at, false)));
      } else {
        model := WithTop(was, top.(phase := Sending(value, top.phase.at)));
      }
      StepKeepsInv(was, model, SendStep);
    }

    /** The send succeeded, or an incoming replacement arrived: replace the settings and leave the transaction. */
    method ReplaceAndLeave(value: V)
      requires Valid() && model.frames != []
      requires var top := Top(model); (top.phase.Sending? && value == top.phase.value) || (top.phase.Entered? && top.request == Incoming(value))
      modifies this
      ensures Valid() && DoCommit(old(model), model) && settings == value && loaded
    {
      hide Inv, Exclusive;
      ghost var was := model;
      ghost var top := Top(was);
      ghost var within := Enclosing(was.frames[..|was.frames| - 1]);
      settings, loaded := value, true;
      InvIsExclusive(was);
      LeaveLock(was);
      writeDepth := writeDepth - 1;
      model := Left(Replaced(was, Commit(top.id, top.request, if top.phase.Sending? then top.phase.at else |was.log|, value, within)));
      StepKeepsInv(was, model, CommitStep);
    }

    /** Release the write lock once; the outermost release frees it. */
    method LeaveLock(ghost was: State<V>)
      requires Exclusive(was) && was.frames != [] && holds == |was.frames| && writeLock == was.owner
      modifies `holds, `writeLock
      ensures holds == |Left(was).frames| && writeLock == Left(was).owner
      ensures Depth(Left(was)) == Depth(was) - if Top(was).phase.Waiting? then 0 else 1
    {
      holds := holds - 1;
      if holds == 0 {
        writeLock := None;
      }
    }

    /** Leave without replacing: the wait timed out, the mutator raised, or the command was refused or failed. */
    method Abandon(inside: bool, submitting: bool)
      requires Valid() && model.frames != [] && !Top(model).phase.Submitted?
      requires inside == !Top(model).phase.Waiting? && submitting == Top(model).phase.Submitting?
      modifies this
      ensures Valid() && DoFail(old(model), model) && settings == old(settings) && loaded == old(loaded)
    {
      hide Inv, Exclusive;
      ghost var was := model;
      if submitting {
        pending := None;
      }
      InvIsExclusive(was);
      LeaveLock(was);
      if inside {
        writeDepth := writeDepth - 1;
      }
      model := Left(was).(failed := was.failed + {Top(was).id}, pending := if Top(was).phase.Submitting? then None else was.pending);
      StepKeepsInv(was, model, FailStep);
    }

    /** The command queue accepted the asynchronous write. */
    ghost method Accepted()
      requires Valid() && model.frames != [] && Top(model).phase.Submitting?
      modifies this`model
      ensures Valid() && DoAccept(old(model), model)
    {
      hide Inv;
      var was := model;
      InvIsExclusive(was);
      model := WithTop(was, Top(was).(phase := Submitted)).(pending := Some(was.pending.value.(accepted := true)));
      StepKeepsInv(was, model, AcceptStep);
    }

    /** Leave the transaction while its write stays in flight. */
    method Leave()
      requires Valid() && model.frames != [] && Top(model).phase.Submitted?
      modifies this
      ensures Valid() && DoLeave(old(model), model) && settings == old(settings) && loaded == old(loaded)
    {
      hide Inv, Exclusive;
      ghost var was := model;
      InvIsExclusive(was);
      LeaveLock(was);
      writeDepth := writeDepth - 1;
      model := Left(was);
      StepKeepsInv(was, model, LeaveStep);
    }

    /** The persistence command ended; a success replaces the settings with the value that was sent. */
    method CompleteAsync(source: V, succeeded: bool)
      requires Valid() && model.pending.Some? && model.pending.value.accepted && source == model.pending.value.value
      modifies this
      ensures Valid() && DoComplete(old(model), model, succeeded)
      ensures settings == (if succeeded then source else old(settings)) && pending == None
    {
      hide Inv, Exclusive;
      ghost var was := model;
      ghost var flight := was.pending.value;
      if succeeded {
        settings, loaded := source, true;
        model := Replaced(was, Commit(flight.id, flight.request, flight.at, flight.value, [])).(pending := None);
      } else {
        model := was.(pending := None, failed := was.failed + {flight.id});
      }
      pending := None;
      StepKeepsInv(was, model, CompleteStep(succeeded));
    }
  }
}
