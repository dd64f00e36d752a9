/** The supervisor as objects: the shared failure channel, the per-unit
    control handle and the manager with its registry, its list of
    termination triggers and its Quit channel. Every state-changing method
    of the handle and the manager is proved to perform the corresponding
    transition of module Protocol, so the properties proved there hold of
    these objects. The event loop's branches are `OnSignal`, `OnPanic` and
    `FinishShutdown`; `ReceiveError`, `BroadcastStop`, `StopOne`,
    `DrainAcks` and `AckOne` are their internal steps. */
module Gum {
  import Protocol
  import Naming
  import Ids

  type Signal = Protocol.Signal
  type Error = Protocol.Error

  /** Whether `sig` is in `arr`, by a linear scan that stops at the first
      match. */
  method In(arr: seq<Signal>, sig: Signal) returns (found: bool)
    ensures found <==> exists i :: 0 <= i < |arr| && arr[i] == sig
    ensures found <==> sig in arr
    ensures arr == [] ==> !found
  {
    var i := 0;
    while i < |arr|
      invariant 0 <= i <= |arr|
      invariant forall j :: 0 <= j < i ==> arr[j] != sig
    {
      if arr[i] == sig {
        return true;
      }
      i := i + 1;
    }
    return false;
  }

  /** The failure channel all handles of one manager share: the errors sent
      on it and not yet received. */
  class ErrorChannel {
    var pending: seq<Error>

    constructor ()
      ensures pending == []
    {
      pending := [];
    }
  }

  /** A unit's control handle. The stop channel is represented by the
      number of values buffered on it, the number sent in all and whether it
      is closed; the completion channel by the number of acknowledgments
      buffered on it. */
  class WorkUnitManager {
    var isPaniced: bool
    var stopClosed: bool
    var stopPending: nat
    var stopsSent: nat
    var acks: nat
    const panicChan: ErrorChannel
    /** The registry name the handle is stored under. */
    ghost const name: string

    /** The stop channel is closed exactly when the unit has failed. */
    ghost predicate Valid()
      reads this
    {
      stopClosed == isPaniced
    }

    /** What the protocol sees of this handle. */
    ghost function View(): Protocol.Unit
      reads this
    {
      Protocol.Unit(isPaniced, stopClosed, stopPending, stopsSent, acks)
    }

    /** A handle bound to the manager's failure channel: not failed, both
        channels empty and open. */
    constructor (panicChan: ErrorChannel, ghost name: string)
      ensures Valid() && View() == Protocol.Idle
      ensures this.panicChan == panicChan && this.name == name
    {
      isPaniced, stopClosed := false, false;
      stopPending, stopsSent, acks := 0, 0, 0;
      this.panicChan := panicChan;
      this.name := name;
    }

    /** The unit receives from the channel its handle gives out as the stop
        signal: a buffered value first, and `false` once a closed channel is
        empty. A receive that would block is not a step of this model. */
    method ReceiveStop() returns (v: bool)
      requires Valid() && Protocol.StopReady(View())
      modifies this
      ensures Valid()
      ensures (View(), v) == Protocol.ReceiveStop(old(View()))
    {
      if stopPending > 0 {
        stopPending := stopPending - 1;
        v := true;
      } else {
        v := false;
      }
    }

    /** The unit reports completion: one acknowledgment, nothing else. */
    method Done()
      requires Valid()
      modifies this
      ensures Valid()
      ensures View() == Protocol.Done(old(View()))
    {
      acks := acks + 1;
    }

    /** The unit reports failure: the error goes to the shared channel, the
        handle is marked as failed, an acknowledgment is sent for the unit
        and the stop channel is closed, in that order. Closing the channel a
        second time would panic, so this is the unit's first report. */
    method Panic(err: Error)
      requires Valid() && !stopClosed
      modifies this, panicChan
      ensures Valid()
      ensures View() == Protocol.Panic(old(View()))
      ensures panicChan.pending == old(panicChan.pending) + [err]
    {
      panicChan.pending := panicChan.pending + [err];
      isPaniced := true;
      acks := acks + 1;
      stopClosed := true;
    }

    /** The manager sends one stop value; the channel must be open, since a
        send on a closed channel panics. */
    method SendStop()
      requires !stopClosed
      modifies this
      ensures View() == Protocol.SendStop(old(View()))
    {
      stopPending := stopPending + 1;
      stopsSent := stopsSent + 1;
    }

    /** The manager's step of a broadcast for this handle: one stop value,
        unless the broadcast skips failed units and this one failed. */
    method StopIfReached(skipPanicked: bool)
      requires Protocol.Reaches(View(), skipPanicked) ==> !stopClosed
      modifies this
      ensures View() == Protocol.StopIfReached(old(View()), skipPanicked)
    {
      if !(skipPanicked && isPaniced) {
        SendStop();
      }
    }

    /** The manager receives one acknowledgment; one must be waiting, since
        the receive blocks otherwise. */
    method TakeAck()
      requires acks > 0
      modifies this
      ensures View() == Protocol.TakeAck(old(View()))
    {
      acks := acks - 1;
    }
  }

  /** The manager. `quits` counts the values sent on Quit. `shuttingDown`
      says where the event loop is: set by a branch that begins a shutdown,
      cleared once Quit has been sent and the loop waits again. */
  class Manager {
    var shutdownSigs: seq<Signal>
    var workers: map<string, WorkUnitManager>
    var quits: nat
    var shuttingDown: bool
    const panicChan: ErrorChannel

    /** Every registered handle knows the name it is stored under, so no
        handle is stored under two names; each is valid and shares the
        manager's failure channel. */
    ghost predicate Valid()
      reads this`workers, workers.Values
    {
      forall k :: k in workers ==>
        workers[k].name == k && workers[k].Valid() && workers[k].panicChan == panicChan
    }

    /** What the protocol sees of the handles. */
    ghost function Workers(): map<string, Protocol.Unit>
      reads this`workers, workers.Values
    {
      map k | k in workers :: workers[k].View()
    }

    /** What the protocol sees of the manager. */
    ghost function State(): Protocol.Supervisor
      reads this, workers.Values, panicChan
    {
      Protocol.Supervisor(shutdownSigs, Workers(), panicChan.pending, quits, shuttingDown)
    }

    /** A new manager: no triggers, no units, nothing sent, and a failure
        channel of its own. */
    constructor ()
      ensures Valid() && fresh(panicChan)
      ensures workers == map[]
      ensures State() == Protocol.Initial
    {
      shutdownSigs := [];
      workers := map[];
      quits := 0;
      shuttingDown := false;
      panicChan := new ErrorChannel();
    }

    /** Subscribe to `sig` as a termination trigger. Only the trigger list
        changes. */
    method ShutdownOn(sig: Signal)
      requires Valid()
      modifies this`shutdownSigs
      ensures Valid() && workers == old(workers)
      ensures shutdownSigs == old(shutdownSigs) + [sig]
      ensures State() == Protocol.ShutdownOn(old(State()), sig)
    {
      shutdownSigs := shutdownSigs + [sig];
    }

    /** Register a unit whose type string is `typeName`, naming it with
        `gen`: the base name is the second '.'-separated piece of the type
        string (there must be one), the name is the base name followed by the
        id the generator hands out for it, and a fresh handle is stored under
        that name. */
    method AddUnit(typeName: string, gen: Ids.IdGenerator)
      requires Valid() && '.' in typeName
      modifies this, gen
      ensures Valid()
      ensures var base := Naming.BaseName(typeName);
              var name := Naming.UnitName(base, Ids.Count(old(gen.ids), base));
              && gen.ids == Ids.Bump(old(gen.ids), base)
              && name in workers && fresh(workers[name])
              && workers == old(workers)[name := workers[name]]
              && State() == Protocol.AddUnit(old(State()), name)
    {
      var base := Naming.Split(typeName, '.')[1];
      var id := gen.Next(base);
      var name := base + Naming.Itoa(id);
      var handle := new WorkUnitManager(panicChan, name);
      workers := workers[name := handle];
      assert Workers() == old(Workers())[name := Protocol.Idle];
    }

    /** One step of a broadcast from `pre`: send one stop value to the handle
        stored under `k`, one of the handles still to do, if the broadcast
        reaches it. */
    method StopOne(k: string, skipPanicked: bool, ghost pre: map<string, Protocol.Unit>, ghost todo: set<string>)
      requires Valid() && !shuttingDown && Protocol.CanBroadcast(pre, skipPanicked) && k in todo && k in pre
      requires Workers() == Protocol.BroadcastExcept(pre, skipPanicked, todo)
      modifies workers[k]
      ensures Valid()
      ensures Workers() == Protocol.BroadcastExcept(pre, skipPanicked, todo - {k})
    {
      Protocol.BroadcastStep(pre, skipPanicked, todo, k);
      workers[k].StopIfReached(skipPanicked);
      assert Workers() == old(Workers())[k := Protocol.StopIfReached(pre[k], skipPanicked)] by {
        assert Workers().Keys == old(Workers()).Keys;
      }
    }

    /** Send one stop value to every handle the broadcast reaches, in no
        particular order: all of them, or only those whose unit has not
        failed. A step of a branch, before it records the shutdown. */
    method BroadcastStop(skipPanicked: bool)
      requires Valid() && !shuttingDown
      requires Protocol.CanBroadcast(Workers(), skipPanicked)
      modifies workers.Values
      ensures Valid()
      ensures Workers() == Protocol.Broadcast(old(Workers()), skipPanicked)
    {
      ghost var pre := Workers();
      Protocol.BroadcastEnds(pre, skipPanicked);
      var todo := workers.Keys;
      while todo != {}
        invariant Valid() && todo <= pre.Keys
        invariant Workers() == Protocol.BroadcastExcept(pre, skipPanicked, todo)
        decreases todo
      {
        var k :| k in todo;
        StopOne(k, skipPanicked, pre, todo);
        todo := todo - {k};
      }
    }

    /** One step of a drain from `pre`: receive one acknowledgment from the
        handle stored under `k`, one of the handles still to do. */
    method AckOne(k: string, ghost pre: map<string, Protocol.Unit>, ghost todo: set<string>)
      requires Valid() && shuttingDown && Protocol.AllAcked(pre) && k in todo && k in pre
      requires Workers() == Protocol.DrainExcept(pre, todo)
      modifies workers[k]
      ensures Valid()
      ensures Workers() == Protocol.DrainExcept(pre, todo - {k})
    {
      Protocol.DrainStep(pre, todo, k);
      workers[k].TakeAck();
      assert Workers() == old(Workers())[k := Protocol.TakeAck(pre[k])] by {
        assert Workers().Keys == old(Workers()).Keys;
      }
    }

    /** Receive one acknowledgment from every handle, in no particular order;
        each must have one waiting. A step of the wait, during a shutdown. */
    method DrainAcks()
      requires Valid() && shuttingDown
      requires Protocol.AllAcked(Workers())
      modifies workers.Values
      ensures Valid()
      ensures Workers() == Protocol.Drain(old(Workers()))
    {
      ghost var pre := Workers();
      Protocol.DrainEnds(pre);
      var todo := workers.Keys;
      while todo != {}
        invariant Valid() && todo <= pre.Keys
        invariant Workers() == Protocol.DrainExcept(pre, todo)
        decreases todo
      {
        var k :| k in todo;
        AckOne(k, pre, todo);
        todo := todo - {k};
      }
    }

    /** Receive the first error queued on the failure channel, as the panic
        branch leaves the `select`. */
    method ReceiveError() returns (err: Error)
      requires !shuttingDown && |panicChan.pending| > 0
      modifies panicChan
      ensures err == Protocol.Cause(old(State()))
      ensures State() == old(State()).(errors := old(State()).errors[1..])
    {
      err := panicChan.pending[0];
      panicChan.pending := panicChan.pending[1..];
    }

    /** The signal branch of the event loop, up to the wait, entered only
        while the loop waits at its `select`. A signal that
        is not a trigger is ignored; a trigger sends stop to every unit,
        failed or not, so every stop channel must be open, and begins a
        shutdown. The result says whether shutdown began. */
    method OnSignal(sig: Signal) returns (shutdown: bool)
      requires Valid() && !shuttingDown
      requires sig in shutdownSigs ==> Protocol.CanBroadcast(Workers(), false)
      modifies this`shuttingDown, workers.Values
      ensures Valid()
      ensures shutdown <==> sig in shutdownSigs
      ensures State() == Protocol.OnSignal(old(State()), sig)
    {
      shutdown := In(shutdownSigs, sig);
      if shutdown {
        BroadcastStop(false);
        label Sent:
        shuttingDown := true;
        assert unchanged@Sent(this`workers, workers.Values);
      }
    }

    /** The panic branch of the event loop, up to the wait, entered only
        while the loop waits at its `select`: receive one
        error from the failure channel, send stop to every unit that has
        not failed, and begin a shutdown. */
    method OnPanic() returns (err: Error)
      requires Valid() && !shuttingDown && |panicChan.pending| > 0
      modifies this`shuttingDown, workers.Values, panicChan
      ensures Valid()
      ensures err == Protocol.Cause(old(State()))
      ensures State() == Protocol.OnPanic(old(State()))
    {
      err := ReceiveError();
      BroadcastStop(true);
      label Sent:
      shuttingDown := true;
      assert unchanged@Sent(this`workers, workers.Values);
    }

    /** The end of either branch, once it has begun a shutdown: wait for
        one acknowledgment from every unit, then send on Quit, after which
        the loop waits again. */
    method FinishShutdown()
      requires Valid() && shuttingDown && Protocol.AllAcked(Workers())
      modifies this`quits, this`shuttingDown, workers.Values
      ensures Valid() && workers == old(workers)
      ensures State() == Protocol.FinishShutdown(old(State()))
    {
      DrainAcks();
      label Drained:
      quits := quits + 1;
      shuttingDown := false;
      assert unchanged@Drained(this`workers, workers.Values);
    }
  }

  /** The unit registered as `name` reports completion through its handle. */
  method ReportDone(m: Manager, name: string)
    requires m.Valid() && name in m.workers
    modifies m.workers[name]
    ensures m.Valid()
    ensures m.State() == Protocol.UnitDone(old(m.State()), name)
  {
    ghost var ws := m.Workers();
    m.workers[name].Done();
    assert m.Workers() == ws[name := Protocol.Done(ws[name])] by {
      assert m.Workers().Keys == ws.Keys;
    }
  }

  /** The unit registered as `name` reports failure with cause `err` through
      its handle; it has not reported failure before. */
  method ReportPanic(m: Manager, name: string, err: Error)
    requires m.Valid() && name in m.workers && !m.workers[name].stopClosed
    modifies m.workers[name], m.panicChan
    ensures m.Valid()
    ensures m.State() == Protocol.UnitPanic(old(m.State()), name, err)
  {
    ghost var ws := m.Workers();
    m.workers[name].Panic(err);
    assert m.Workers() == ws[name := Protocol.Panic(ws[name])] by {
      assert m.Workers().Keys == ws.Keys;
    }
  }

  /** The example units' type string "*gum.Worker" has base name "Worker". */
  lemma WorkerBaseName()
    ensures Naming.BaseName("*gum.Worker") == "Worker"
  {
    var parts := ["*gum", "Worker"];
    assert Naming.Join(parts, '.') == "*gum.Worker";
    Naming.SplitJoin(parts, '.');
  }

  /** The names of the example's first two units. */
  lemma WorkerNames()
    ensures Naming.UnitName("Worker", 0) == "Worker0"
    ensures Naming.UnitName("Worker", 1) == "Worker1"
  {
  }

  /** The set-up of the example program: a manager subscribed to SIGINT
      (signal 2) with two units of type "*gum.Worker", which are named
      "Worker0" and "Worker1". */
  method ExampleManager() returns (m: Manager)
    ensures fresh(m) && fresh(m.panicChan) && fresh(m.workers.Values) && m.Valid()
    ensures m.State() == Protocol.Supervisor([2], map["Worker0" := Protocol.Idle, "Worker1" := Protocol.Idle], [], 0, false)
  {
    var gen := new Ids.IdGenerator();
    m := new Manager();
    m.ShutdownOn(2);
    WorkerBaseName();
    WorkerNames();
    assert m.State() == Protocol.Supervisor([2], map[], [], 0, false);
    m.AddUnit("*gum.Worker", gen);
    assert gen.ids == map["Worker" := 1];
    assert m.State() == Protocol.Supervisor([2], map["Worker0" := Protocol.Idle], [], 0, false);
    m.AddUnit("*gum.Worker", gen);
  }

  /** What the example worker does once its stop value is buffered: take
      it, clean up (nothing to do) and report completion. */
  method AnswerStop(m: Manager, name: string)
    requires m.Valid() && name in m.workers && m.workers[name].stopPending > 0
    modifies m.workers[name]
    ensures m.Valid() && m.Workers().Keys == old(m.Workers()).Keys
    ensures m.Workers()[name] == Protocol.Done(Protocol.ReceiveStop(old(m.Workers())[name]).0)
    ensures forall k :: k in m.workers && k != name ==> m.Workers()[k] == old(m.Workers())[k]
  {
    var w := m.workers[name];
    var stop := w.ReceiveStop();
    w.Done();
  }

  /** The handle state of an example unit that got one stop value and
      answered it. */
  ghost function Answered(): Protocol.Unit
  {
    Protocol.Done(Protocol.ReceiveStop(Protocol.SendStop(Protocol.Idle)).0)
  }

  /** The example program's signal: SIGINT arrives and the manager sends
      stop to both units. */
  method ExampleStopped() returns (m: Manager)
    ensures fresh(m) && fresh(m.panicChan) && fresh(m.workers.Values) && m.Valid()
    ensures m.quits == 0 && m.shuttingDown && m.Workers().Keys == {"Worker0", "Worker1"}
    ensures m.Workers()["Worker0"] == Protocol.SendStop(Protocol.Idle)
    ensures m.Workers()["Worker1"] == Protocol.SendStop(Protocol.Idle)
  {
    m := ExampleManager();
    ghost var ws := m.Workers();
    assert ws == map["Worker0" := Protocol.Idle, "Worker1" := Protocol.Idle];
    assert Protocol.CanBroadcast(ws, false);
    assert m.shutdownSigs == [2];
    var shutdown := m.OnSignal(2);
    assert m.Workers() == Protocol.Broadcast(ws, false);
  }

  /** The example program up to the wait: after the signal, each unit takes
      its stop value and reports completion, as the example worker does. */
  method ExampleSignalled() returns (m: Manager)
    ensures fresh(m) && fresh(m.panicChan) && fresh(m.workers.Values) && m.Valid()
    ensures m.quits == 0 && m.shuttingDown && m.Workers().Keys == {"Worker0", "Worker1"}
    ensures m.Workers()["Worker0"] == Answered() && m.Workers()["Worker1"] == Answered()
  {
    m := ExampleStopped();
    AnswerStop(m, "Worker0");
    AnswerStop(m, "Worker1");
  }

  /** The example program: after both units have answered, the manager
      receives both acknowledgments and sends on Quit. Exactly one value is
      sent on Quit, after each unit got exactly one stop. */
  method RunMain() returns (quits: nat, stops: seq<nat>)
    ensures quits == 1
    ensures stops == [1, 1]
  {
    var m := ExampleSignalled();
    assert Protocol.AllAcked(m.Workers()) by {
      forall k | k in m.Workers() ensures m.Workers()[k].acks > 0 {
        assert k == "Worker0" || k == "Worker1";
      }
    }
    ghost var before := m.Workers();
    m.FinishShutdown();
    assert m.Workers() == Protocol.Drain(before);
    var w0, w1 := m.workers["Worker0"], m.workers["Worker1"];
    assert w0.View() == Protocol.TakeAck(Answered()) == m.Workers()["Worker0"];
    assert w1.View() == Protocol.TakeAck(Answered()) == m.Workers()["Worker1"];
    quits := m.quits;
    stops := [w0.stopsSent, w1.stopsSent];
  }

  /** The handle state of an example unit that reported failure before any
      stop reached it. */
  ghost function Failed(): Protocol.Unit
  {
    Protocol.Panic(Protocol.Idle)
  }

  /** A failure instead of a signal: in the example set-up, "Worker0"
      reports failure with cause "X" before any signal arrives. */
  method ExampleFailed() returns (m: Manager)
    ensures fresh(m) && fresh(m.panicChan) && fresh(m.workers.Values) && m.Valid()
    ensures m.State() == Protocol.Supervisor([2], map["Worker0" := Failed(), "Worker1" := Protocol.Idle], ["X"], 0, false)
  {
    m := ExampleManager();
    assert m.Workers()["Worker0"] == Protocol.Idle;
    ReportPanic(m, "Worker0", "X");
  }

  /** The manager takes the failure branch: it receives "X" and sends stop
      to "Worker1" only, since "Worker0" has failed. */
  method ExamplePanicked() returns (m: Manager, err: Error)
    ensures fresh(m) && fresh(m.panicChan) && fresh(m.workers.Values) && m.Valid()
    ensures err == "X"
    ensures m.State() == Protocol.Supervisor([2], map["Worker0" := Failed(), "Worker1" := Protocol.SendStop(Protocol.Idle)], [], 0, true)
  {
    m := ExampleFailed();
    ghost var s := m.State();
    assert Protocol.CanBroadcast(s.workers, true);
    err := m.OnPanic();
    assert Protocol.Broadcast(s.workers, true) == map["Worker0" := Failed(), "Worker1" := Protocol.SendStop(Protocol.Idle)];
  }

  /** The unit that has not failed answers its stop; the failed unit's
      acknowledgment came with its failure report. */
  method ExampleFailureAnswered() returns (m: Manager, err: Error)
    ensures fresh(m) && fresh(m.panicChan) && fresh(m.workers.Values) && m.Valid()
    ensures err == "X" && m.quits == 0 && m.shuttingDown && m.Workers().Keys == {"Worker0", "Worker1"}
    ensures m.Workers()["Worker0"] == Failed() && m.Workers()["Worker1"] == Answered()
  {
    m, err := ExamplePanicked();
    assert "Worker1" in m.Workers() && m.Workers()["Worker1"].stopPending == 1;
    AnswerStop(m, "Worker1");
  }

  /** The failure scenario end to end: the cause "X" is received exactly
      once, the failed unit gets no stop and the other unit one, and Quit is
      sent once after both acknowledgments. */
  method RunFailure() returns (err: Error, quits: nat, stops: seq<nat>)
    ensures err == "X"
    ensures quits == 1
    ensures stops == [0, 1]
  {
    var m;
    m, err := ExampleFailureAnswered();
    assert Protocol.AllAcked(m.Workers()) by {
      forall k | k in m.Workers() ensures m.Workers()[k].acks > 0 {
        assert k == "Worker0" || k == "Worker1";
      }
    }
    ghost var before := m.Workers();
    m.FinishShutdown();
    assert m.Workers() == Protocol.Drain(before);
    var w0, w1 := m.workers["Worker0"], m.workers["Worker1"];
    assert w0.View() == Protocol.TakeAck(Failed()) == m.Workers()["Worker0"];
    assert w1.View() == Protocol.TakeAck(Answered()) == m.Workers()["Worker1"];
    quits := m.quits;
    stops := [w0.stopsSent, w1.stopsSent];
  }
}
