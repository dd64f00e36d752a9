/** The supervision protocol as values: what the manager and the units can
    observe of each control handle, the manager's state, and the transitions
    of registration, subscription, the units' reports and the two event
    handlers of the manager's loop. Channels are represented by counters: a
    buffered value that has been sent and not yet received is a pending
    count. The classes in module Gum are proved to follow these transitions. */
module Protocol {

  /** An OS signal, identified by its number. */
  type Signal = int

  /** The cause a unit reports when it fails. */
  type Error = string

  /** One control handle: the failure flag, whether the stop channel has been
      closed, stop values sent and not yet received, stop values sent in all,
      and completion acknowledgments sent and not yet received. */
  datatype Unit = Unit(isPaniced: bool, stopClosed: bool, stopPending: nat, stopsSent: nat, acks: nat)

  /** A freshly registered handle: not failed, stop channel open, both
      channels empty. */
  const Idle: Unit := Unit(false, false, 0, 0, 0)

  /** A handle's stop channel is closed exactly when its unit has failed:
      reporting failure is the only operation that closes it. */
  predicate Consistent(u: Unit)
  {
    u.stopClosed == u.isPaniced
  }

  /** The manager sends one value on the stop channel. Sending on a closed
      channel is a run-time panic, so the channel must be open. */
  function SendStop(u: Unit): Unit
    requires !u.stopClosed
  {
    u.(stopPending := u.stopPending + 1, stopsSent := u.stopsSent + 1)
  }

  /** Receiving from the stop channel would not block: a value is buffered
      or the channel is closed. */
  predicate StopReady(u: Unit)
  {
    u.stopPending > 0 || u.stopClosed
  }

  /** The unit receives from its stop channel: a buffered value first, and
      the zero value `false` once a closed channel is empty. */
  function ReceiveStop(u: Unit): (Unit, bool)
    requires StopReady(u)
  {
    if u.stopPending > 0 then (u.(stopPending := u.stopPending - 1), true) else (u, false)
  }

  /** The unit reports normal completion: one acknowledgment. */
  function Done(u: Unit): Unit
  {
    u.(acks := u.acks + 1)
  }

  /** The unit reports failure: it is marked as failed, an acknowledgment is
      sent on its behalf and its stop channel is closed. Closing a channel
      twice is a run-time panic, so the channel must still be open. The error
      itself goes to the manager's shared channel (see UnitPanic). */
  function Panic(u: Unit): Unit
    requires !u.stopClosed
  {
    u.(isPaniced := true, acks := u.acks + 1, stopClosed := true)
  }

  /** The manager receives one acknowledgment. */
  function TakeAck(u: Unit): Unit
    requires u.acks > 0
  {
    u.(acks := u.acks - 1)
  }

  /** Completion adds exactly one acknowledgment and touches nothing else;
      failure sets the flag, adds exactly one acknowledgment and closes the
      stop channel, and touches nothing else. Both keep a handle
      consistent. */
  lemma UnitReports(u: Unit)
    ensures Done(u).acks == u.acks + 1 && Done(u).(acks := u.acks) == u
    ensures !u.stopClosed ==>
              Panic(u).isPaniced && Panic(u).stopClosed && Panic(u).acks == u.acks + 1 &&
              Panic(u).(isPaniced := u.isPaniced, stopClosed := u.stopClosed, acks := u.acks) == u
    ensures Consistent(u) ==> Consistent(Done(u)) && (!u.stopClosed ==> Consistent(Panic(u)))
  {
  }

  /** Whether a stop broadcast reaches `u`: the signal branch sends to every
      unit, the panic branch skips units that failed. */
  predicate Reaches(u: Unit, skipPanicked: bool)
  {
    !(skipPanicked && u.isPaniced)
  }

  /** Every unit a broadcast reaches has an open stop channel. */
  predicate CanBroadcast(ws: map<string, Unit>, skipPanicked: bool)
  {
    forall k :: k in ws && Reaches(ws[k], skipPanicked) ==> !ws[k].stopClosed
  }

  /** One stop value if the broadcast reaches `u`, none otherwise. */
  function StopIfReached(u: Unit, skipPanicked: bool): Unit
    requires Reaches(u, skipPanicked) ==> !u.stopClosed
  {
    if Reaches(u, skipPanicked) then SendStop(u) else u
  }

  /** One stop value to every unit the broadcast reaches. */
  function Broadcast(ws: map<string, Unit>, skipPanicked: bool): map<string, Unit>
    requires CanBroadcast(ws, skipPanicked)
  {
    map k | k in ws :: StopIfReached(ws[k], skipPanicked)
  }

  /** A broadcast part way through: the units in `todo` have not been
      visited yet, the others have. */
  function BroadcastExcept(ws: map<string, Unit>, skipPanicked: bool, todo: set<string>): (r: map<string, Unit>)
    requires CanBroadcast(ws, skipPanicked)
    ensures r.Keys == ws.Keys
  {
    map k | k in ws :: if k in todo then ws[k] else StopIfReached(ws[k], skipPanicked)
  }

  /** Visiting one more unit advances a broadcast by that unit. */
  lemma BroadcastStep(ws: map<string, Unit>, skipPanicked: bool, todo: set<string>, k: string)
    requires CanBroadcast(ws, skipPanicked) && k in todo && k in ws
    ensures BroadcastExcept(ws, skipPanicked, todo)[k := StopIfReached(ws[k], skipPanicked)]
         == BroadcastExcept(ws, skipPanicked, todo - {k})
  {
  }

  /** A broadcast not begun changes nothing; one with nothing left to do is
      the whole broadcast. */
  lemma BroadcastEnds(ws: map<string, Unit>, skipPanicked: bool)
    requires CanBroadcast(ws, skipPanicked)
    ensures BroadcastExcept(ws, skipPanicked, ws.Keys) == ws
    ensures BroadcastExcept(ws, skipPanicked, {}) == Broadcast(ws, skipPanicked)
  {
  }

  /** Every unit has an acknowledgment waiting: receiving one from each will
      not block. */
  predicate AllAcked(ws: map<string, Unit>)
  {
    forall k :: k in ws ==> ws[k].acks > 0
  }

  /** One acknowledgment received from every unit. */
  function Drain(ws: map<string, Unit>): map<string, Unit>
    requires AllAcked(ws)
  {
    map k | k in ws :: TakeAck(ws[k])
  }

  /** A drain part way through: the units in `todo` have not been received
      from yet, the others have. */
  function DrainExcept(ws: map<string, Unit>, todo: set<string>): (r: map<string, Unit>)
    requires AllAcked(ws)
    ensures r.Keys == ws.Keys
  {
    map k | k in ws :: if k in todo then ws[k] else TakeAck(ws[k])
  }

  /** Receiving from one more unit advances a drain by that unit. */
  lemma DrainStep(ws: map<string, Unit>, todo: set<string>, k: string)
    requires AllAcked(ws) && k in todo && k in ws
    ensures DrainExcept(ws, todo)[k := TakeAck(ws[k])] == DrainExcept(ws, todo - {k})
  {
  }

  /** A drain with nothing left to do is the whole drain; one not begun
      changes nothing. */
  lemma DrainEnds(ws: map<string, Unit>)
    requires AllAcked(ws)
    ensures DrainExcept(ws, ws.Keys) == ws
    ensures DrainExcept(ws, {}) == Drain(ws)
  {
  }

  /** The manager: the termination triggers in subscription order, the
      registry of handles by unit name, the errors waiting on the shared
      failure channel, the number of values sent on Quit, and where the
      event loop is: waiting for an event, or inside a branch that has begun
      a shutdown and has yet to wait for the units and send on Quit. */
  datatype Supervisor = Supervisor(
    shutdownSigs: seq<Signal>,
    workers: map<string, Unit>,
    errors: seq<Error>,
    quits: nat,
    shuttingDown: bool)

  /** A new manager: no triggers, no units, nothing sent, no shutdown under
      way. */
  const Initial: Supervisor := Supervisor([], map[], [], 0, false)

  /** Subscribing to a termination trigger appends it. */
  function ShutdownOn(s: Supervisor, sig: Signal): Supervisor
  {
    s.(shutdownSigs := s.shutdownSigs + [sig])
  }

  /** Registering a unit under `name` stores a fresh handle there, replacing
      whatever handle the name held. */
  function AddUnit(s: Supervisor, name: string): Supervisor
  {
    s.(workers := s.workers[name := Idle])
  }

  /** The unit registered as `name` reports completion. */
  function UnitDone(s: Supervisor, name: string): Supervisor
    requires name in s.workers
  {
    s.(workers := s.workers[name := Done(s.workers[name])])
  }

  /** A completion report adds one acknowledgment to the reporting unit's
      handle and changes nothing else. */
  lemma UnitDoneReports(s: Supervisor, name: string)
    requires name in s.workers
    ensures UnitDone(s, name).workers.Keys == s.workers.Keys
    ensures UnitDone(s, name).workers[name].acks == s.workers[name].acks + 1
    ensures UnitDone(s, name).workers[name].(acks := s.workers[name].acks) == s.workers[name]
    ensures forall k :: k in s.workers && k != name ==> UnitDone(s, name).workers[k] == s.workers[k]
    ensures UnitDone(s, name).(workers := s.workers) == s
  {
  }

  /** The unit registered as `name` reports failure with cause `err`: the
      error is queued on the shared failure channel and its handle panics. */
  function UnitPanic(s: Supervisor, name: string, err: Error): Supervisor
    requires name in s.workers && !s.workers[name].stopClosed
  {
    s.(errors := s.errors + [err], workers := s.workers[name := Panic(s.workers[name])])
  }

  /** A failure report queues exactly its own error behind the earlier ones
      and changes only the reporting unit's handle. */
  lemma UnitPanicReports(s: Supervisor, name: string, err: Error)
    requires name in s.workers && !s.workers[name].stopClosed
    ensures UnitPanic(s, name, err).errors == s.errors + [err]
    ensures UnitPanic(s, name, err).workers.Keys == s.workers.Keys
    ensures UnitPanic(s, name, err).workers[name] == Panic(s.workers[name])
    ensures forall k :: k in s.workers && k != name ==> UnitPanic(s, name, err).workers[k] == s.workers[k]
    ensures |UnitPanic(s, name, err).errors| == |s.errors| + 1
    ensures UnitPanic(s, name, err).(errors := s.errors, workers := s.workers) == s
  {
  }

  /** The signal branch of the event loop, up to the wait, entered only
      while the loop waits at its `select`: a signal that is
      not a termination trigger is ignored and the loop goes back to
      waiting; a trigger sends stop to every unit, whether or not it failed,
      so every stop channel must be open, and begins a shutdown. */
  function OnSignal(s: Supervisor, sig: Signal): Supervisor
    requires !s.shuttingDown
    requires sig in s.shutdownSigs ==> CanBroadcast(s.workers, false)
  {
    if sig in s.shutdownSigs then s.(workers := Broadcast(s.workers, false), shuttingDown := true) else s
  }

  /** The panic branch of the event loop, up to the wait, entered only
      while the loop waits at its `select`: one error is
      received from the failure channel, stop goes to every unit that has
      not failed, and a shutdown begins. The error received is Cause(s). */
  function OnPanic(s: Supervisor): Supervisor
    requires !s.shuttingDown
    requires |s.errors| > 0 && CanBroadcast(s.workers, true)
  {
    s.(errors := s.errors[1..], workers := Broadcast(s.workers, true), shuttingDown := true)
  }

  /** The error the panic branch receives. */
  function Cause(s: Supervisor): Error
    requires |s.errors| > 0
  {
    s.errors[0]
  }

  /** The end of either branch, reached only once a shutdown has begun: one
      acknowledgment is received from every unit, then one value is sent on
      Quit and the loop goes back to waiting. */
  function FinishShutdown(s: Supervisor): Supervisor
    requires s.shuttingDown && AllAcked(s.workers)
  {
    s.(workers := Drain(s.workers), quits := s.quits + 1, shuttingDown := false)
  }

  /** The units' answer to a stop: a unit with a stop value buffered takes it
      and reports completion; every other unit, including one that failed
      and whose closed stop channel is empty, sends nothing further. */
  function Respond(ws: map<string, Unit>): (r: map<string, Unit>)
    ensures r.Keys == ws.Keys
    ensures forall k :: k in ws && ws[k].stopPending > 0 ==>
              r[k] == ws[k].(stopPending := ws[k].stopPending - 1, acks := ws[k].acks + 1)
    ensures forall k :: k in ws && ws[k].stopPending == 0 ==> r[k] == ws[k]
  {
    map k | k in ws :: if ws[k].stopPending > 0 then Done(ReceiveStop(ws[k]).0) else ws[k]
  }

  /** The state between registration and the first shutdown: no shutdown
      is under way, every handle is consistent, no stop has been sent, and a
      unit has an acknowledgment waiting exactly when it has failed (its
      failure report sent it). */
  predicate Running(s: Supervisor)
  {
    !s.shuttingDown &&
    forall k :: k in s.workers ==>
      var u := s.workers[k];
      Consistent(u) && u.stopPending == 0 && u.stopsSent == 0 && u.acks == (if u.isPaniced then 1 else 0)
  }

  /** A new manager is running, and subscribing, registering and a unit's
      failure report keep it running. */
  lemma RunningPreserved(s: Supervisor, sig: Signal, name: string, err: Error)
    ensures Running(Initial)
    ensures Running(s) ==> Running(ShutdownOn(s, sig)) && Running(AddUnit(s, name))
    ensures Running(s) && name in s.workers && !s.workers[name].isPaniced ==>
              Running(UnitPanic(s, name, err))
  {
  }

  /** Subscribing makes `sig` a trigger, keeps every earlier trigger, and
      changes nothing but the trigger list. */
  lemma ShutdownOnSubscribes(s: Supervisor, sig: Signal)
    ensures sig in ShutdownOn(s, sig).shutdownSigs
    ensures forall x :: x in s.shutdownSigs ==> x in ShutdownOn(s, sig).shutdownSigs
    ensures ShutdownOn(s, sig).(shutdownSigs := s.shutdownSigs) == s
  {
  }

  /** Registration adds exactly the new name, with a fresh handle; every
      other unit keeps its handle; and nothing else changes. When the name
      was already taken, the old handle is lost. */
  lemma AddUnitRegisters(s: Supervisor, name: string)
    ensures AddUnit(s, name).workers.Keys == s.workers.Keys + {name}
    ensures AddUnit(s, name).workers[name] == Idle
    ensures forall k :: k in s.workers && k != name ==> AddUnit(s, name).workers[k] == s.workers[k]
    ensures AddUnit(s, name).(workers := s.workers) == s
    ensures name !in s.workers ==> |AddUnit(s, name).workers| == |s.workers| + 1
  {
  }

  /** A signal that is not a trigger changes nothing: no stop, no wait, no
      Quit. */
  lemma IgnoredSignal(s: Supervisor, sig: Signal)
    requires !s.shuttingDown
    requires sig !in s.shutdownSigs
    ensures OnSignal(s, sig) == s
  {
  }

  /** Once a unit has failed, the signal branch as written cannot run: it
      would send on that unit's closed stop channel. While running, the
      branch can run exactly when no unit has failed. */
  lemma SignalBranchNeedsNoFailure(s: Supervisor)
    requires Running(s)
    ensures CanBroadcast(s.workers, false) <==> forall k :: k in s.workers ==> !s.workers[k].isPaniced
  {
  }

  /** A shutdown pass started by a trigger while no unit has failed: every
      unit gets exactly one stop; once each has answered it, every pending
      acknowledgment is received, after which Quit is sent once and no
      stop or acknowledgment is left pending. */
  lemma SignalShutdownPass(s: Supervisor, sig: Signal)
    requires Running(s)
    requires sig in s.shutdownSigs
    requires forall k :: k in s.workers ==> !s.workers[k].isPaniced
    ensures CanBroadcast(s.workers, false)
    ensures var s1 := OnSignal(s, sig);
            var s2 := s1.(workers := Respond(s1.workers));
            AllAcked(s2.workers) &&
            var s3 := FinishShutdown(s2);
            s1.shuttingDown && !s3.shuttingDown && s3.quits == s.quits + 1 &&
            s3.errors == s.errors && s3.shutdownSigs == s.shutdownSigs &&
            s3.workers.Keys == s.workers.Keys &&
            forall k :: k in s.workers ==> s3.workers[k] == Idle.(stopsSent := 1)
  {
    var s1 := OnSignal(s, sig);
    var s2 := s1.(workers := Respond(s1.workers));
    forall k | k in s.workers
      ensures s1.workers[k] == Idle.(stopPending := 1, stopsSent := 1)
      ensures s2.workers[k] == Idle.(stopsSent := 1, acks := 1)
    {
    }
  }

  /** After the panic branch's broadcast and the units' answers, every unit
      that has not failed got one stop and answered it, and every unit has
      exactly one acknowledgment waiting (a failed unit's came with its
      report). */
  lemma PanicBranchAnswered(s: Supervisor)
    requires Running(s)
    requires |s.errors| > 0
    ensures CanBroadcast(s.workers, true)
    ensures var s1 := OnPanic(s);
            s1.shuttingDown && Respond(s1.workers).Keys == s.workers.Keys &&
            forall k :: k in s.workers ==>
              Respond(s1.workers)[k] == s.workers[k].(stopsSent := if s.workers[k].isPaniced then 0 else 1, acks := 1)
  {
    var s1 := OnPanic(s);
    forall k | k in s.workers
      ensures Respond(s1.workers)[k] == s.workers[k].(stopsSent := if s.workers[k].isPaniced then 0 else 1, acks := 1)
    {
    }
  }

  /** A shutdown pass started by a failure report: the first queued error is
      received; stop goes to exactly the units that have not failed and to
      none that have; once those have answered, every unit has an
      acknowledgment waiting (a failed unit's came with its report), all are
      received, and only then Quit is sent once. No unit gets more than one
      stop, and afterwards nothing is pending. */
  lemma PanicShutdownPass(s: Supervisor)
    requires Running(s)
    requires |s.errors| > 0
    ensures CanBroadcast(s.workers, true)
    ensures var s1 := OnPanic(s);
            var s2 := s1.(workers := Respond(s1.workers));
            AllAcked(s2.workers) &&
            var s3 := FinishShutdown(s2);
            Cause(s) == s.errors[0] && s3.errors == s.errors[1..] &&
            s1.shuttingDown && !s3.shuttingDown && s3.quits == s.quits + 1 && s3.shutdownSigs == s.shutdownSigs &&
            s3.workers.Keys == s.workers.Keys &&
            forall k :: k in s.workers ==>
              s3.workers[k].isPaniced == s.workers[k].isPaniced &&
              s3.workers[k].stopsSent == (if s.workers[k].isPaniced then 0 else 1) &&
              s3.workers[k].stopPending == 0 && s3.workers[k].acks == 0
  {
    PanicBranchAnswered(s);
    var s1 := OnPanic(s);
    var s2 := s1.(workers := Respond(s1.workers));
    assert AllAcked(s2.workers);
    var s3 := FinishShutdown(s2);
    forall k | k in s.workers
      ensures s3.workers[k] == s2.workers[k].(acks := 0)
    {
    }
  }

  /** The units' answers part way through: the units in `answered` have
      answered as in Respond, the others have not answered yet. */
  function RespondOnly(ws: map<string, Unit>, answered: set<string>): (r: map<string, Unit>)
    ensures r.Keys == ws.Keys
    ensures forall k :: k in ws && k !in answered ==> r[k] == ws[k]
    ensures forall k :: k in ws && k in answered ==> r[k] == Respond(ws)[k]
  {
    map k | k in ws :: if k in answered && ws[k].stopPending > 0 then Done(ReceiveStop(ws[k]).0) else ws[k]
  }

  /** Once every unit has answered, the partial answers are the units'
      whole answer. */
  lemma RespondOnlyAll(ws: map<string, Unit>)
    ensures RespondOnly(ws, ws.Keys) == Respond(ws)
  {
  }

  /** Without its acknowledgment there is no Quit: after the signal
      branch's broadcast, a unit that has not answered its stop (and has
      not failed) leaves the wait unable to finish, whichever other units
      have answered. */
  lemma UnansweredStopBlocksQuit(s: Supervisor, sig: Signal, name: string, answered: set<string>)
    requires Running(s)
    requires sig in s.shutdownSigs
    requires forall k :: k in s.workers ==> !s.workers[k].isPaniced
    requires name in s.workers && name !in answered
    ensures CanBroadcast(s.workers, false)
    ensures !AllAcked(RespondOnly(OnSignal(s, sig).workers, answered))
  {
    var ws := OnSignal(s, sig).workers;
    assert ws[name].acks == 0;
    assert RespondOnly(ws, answered)[name] == ws[name];
  }

  /** The same for the panic branch: after its broadcast, a unit that has
      not failed and has not answered its stop leaves the wait unable to
      finish, whichever other units have answered. */
  lemma UnansweredStopBlocksQuitAfterPanic(s: Supervisor, name: string, answered: set<string>)
    requires Running(s)
    requires |s.errors| > 0
    requires name in s.workers && !s.workers[name].isPaniced && name !in answered
    ensures CanBroadcast(s.workers, true)
    ensures !AllAcked(RespondOnly(OnPanic(s).workers, answered))
  {
    var ws := OnPanic(s).workers;
    assert ws[name].acks == 0;
    assert RespondOnly(ws, answered)[name] == ws[name];
  }

  /** Receiving acknowledgments consumes exactly one from every unit and
      leaves everything else about the handles alone. */
  lemma FinishConsumesOneAck(s: Supervisor)
    requires s.shuttingDown && AllAcked(s.workers)
    ensures FinishShutdown(s).workers.Keys == s.workers.Keys
    ensures forall k :: k in s.workers ==>
              FinishShutdown(s).workers[k] == s.workers[k].(acks := s.workers[k].acks - 1)
    ensures FinishShutdown(s).quits == s.quits + 1
    ensures !FinishShutdown(s).shuttingDown
    ensures FinishShutdown(s).errors == s.errors && FinishShutdown(s).shutdownSigs == s.shutdownSigs
  {
  }

  /** The wait and Quit follow only a branch that began a shutdown. While the
      loop waits, a signal begins one exactly when it is a trigger, so after
      an ignored signal neither the wait nor Quit can follow; a failure
      report always begins one. */
  lemma ShutdownBegins(s: Supervisor, sig: Signal)
    requires !s.shuttingDown
    ensures (sig in s.shutdownSigs ==> CanBroadcast(s.workers, false)) ==>
              (OnSignal(s, sig).shuttingDown <==> sig in s.shutdownSigs)
    ensures |s.errors| > 0 && CanBroadcast(s.workers, true) ==> OnPanic(s).shuttingDown
  {
  }
}
