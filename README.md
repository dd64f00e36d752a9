# gum supervisor, modelled in Dafny

`gum` is a small Go supervisor for long-running work units. A `Manager` keeps
a registry of units, each behind a control handle (`WorkUnitManager`). Every
handle carries a stop channel, a completion channel, a failure flag and the
manager's shared failure channel. Units are registered with `AddUnit`. Each is
named after the second `.`-separated piece of its type string, followed by a
per-name counter that a global id generator hands out. `ShutdownOn` subscribes
the manager to OS signals that trigger shutdown.

Once started, the manager's loop waits either for a signal or for a failure
report:

- A signal that is a trigger sends stop to every unit.
- A failure report sends stop to every unit that has not failed.

Either way, the manager then receives one completion acknowledgment from every
unit and sends on `Quit`.

The model is sequential, and channels become counters. A value that has been
sent and not yet received is a pending count. A closed channel is a flag.
The loop's position becomes a flag `shuttingDown`. The manager's event
methods are the loop's branches: `OnSignal` and `OnPanic` run only while the
flag is clear and set it exactly when they begin a shutdown, and
`FinishShutdown` (the wait and the send on `Quit`) runs only while it is set
and clears it. An ignored signal returns to the `select`, so no wait and no
Quit follow it. `ReceiveError`, `BroadcastStop`, `StopOne`, `DrainAcks` and
`AckOne` are internal steps of those branches. They carry the matching phase
precondition, but the claims about the phase are made for the event methods.

- `ids.dfy` (module `Ids`) models the id generator. The class
  `IdGenerator` replaces the closure's captured map. Pure functions describe
  one call and a series of calls.
- `naming.dfy` (module `Naming`) models the two library functions that
  naming uses:
  - splitting on a separator, with its inverse `Join`;
  - decimal formatting, with its inverse `Atoi`.

  It also has the base-name and unit-name rules and proves which names
  differ.
- `protocol.dfy` (module `Protocol`) is the protocol as values:
  - `Unit` is what can be observed of one handle;
  - `Supervisor` is the manager's state;
  - there is one function per transition.

  The lemmas state what a shutdown pass does.
- `manager.dfy` (module `Gum`) holds the objects: the failure channel, the
  handle class and the manager class. `In` is the linear membership test.
  Every state-changing method of the handle and the manager is proved to
  carry out the matching `Protocol` transition on the abstraction `State()`
  or `View()`, so the `Protocol` lemmas hold of the objects. The module ends with the example program of the test file: two
  units of type `*gum.Worker`, SIGINT as trigger, one signal, one answer per
  unit, then Quit. It also runs the failure branch on the same set-up:
  "Worker0" reports failure before any signal, and only "Worker1" gets stop.

Some operations in Go panic at run time or block forever. In the model these
become preconditions:

- a send on a closed channel;
- a second close of a channel;
- indexing a split that has only one piece;
- a receive that would block.

The signal branch sends stop to every unit without checking whether it has
failed. Its precondition is therefore "no stop channel is closed", and
`Protocol.SignalBranchNeedsNoFailure` shows that this precondition fails once
any unit has failed.

The unit's type string is a parameter. The real program obtains it by
reflection, which this model does not include. OS signals are plain integers.

Unit names need not be unique. The id counter is kept per base name, so
names built from different base names can coincide ("Worker" with id 10 and "Worker1" with
id 0 both give "Worker10"). The Go map assignment then replaces the earlier
handle. The model follows the code on this point:
`Naming.NamesCollideAcrossBases` exhibits the collision, and
`Protocol.AddUnitRegisters` shows the replacement.

## Model

| member | source | states |
|---|---|---|
| Ids.IdGenerator.Next | manager.go:136-140 | returns the key's current count (0 for a key never seen) and increments exactly that key's count |
| Ids.IdGenerator.constructor | manager.go:133-134 | a new generator holds no counts |
| Ids.BumpCount | manager.go:137-138 | one call raises the count of its own key by one and leaves every other key's count unchanged |
| Ids.IssueAt | manager.go:136-140 | in a series of calls, the i-th id is the key's starting count plus the number of earlier calls for the same key |
| Ids.IssuedIncreasing | manager.go:136-140 | later calls for the same key return strictly larger ids, so ids for one key are pairwise distinct |
| Ids.IssueRepeat | manager.go:133-141 | n calls for one key return its count, count+1, …, count+n-1; from a fresh generator that is 0, 1, 2, … |
| Ids.AfterCount | manager.go:136-140 | after a series of calls, each key's count has grown by exactly the number of calls made for it |
| Ids.OtherKeysUnchanged | manager.go:136-140 | calls for other keys leave a key's count unchanged |
| Ids.OccurrencesAppend | manager.go:136-140 | counting the calls for a key over two consecutive series adds up |
| Naming.Split | manager.go:153 | splitting gives at least one piece, at least two exactly when the separator occurs, and no piece contains the separator |
| Naming.JoinSplit | manager.go:153 | joining the pieces of a split with the separator gives back the original string |
| Naming.SplitJoin | manager.go:153 | splitting a join of separator-free pieces gives back the pieces |
| Naming.SplitWithoutSeparator | manager.go:153 | a string without the separator splits into itself alone |
| Naming.SplitAfterPiece | manager.go:153 | a separator-free first piece followed by the separator splits off as the first piece |
| Naming.Itoa | manager.go:156 | decimal formatting gives at least one character, all decimal digits, and a leading '0' exactly for zero |
| Naming.AtoiItoa | manager.go:156 | reading back a formatted count gives the count |
| Naming.ItoaInjective | manager.go:156 | distinct counts format to distinct strings |
| Naming.BaseName | manager.go:153 | the base name exists when the type string contains a '.', and is itself free of '.' |
| Naming.UnitName | manager.go:156 | a unit name is the base name followed by a non-empty run of decimal digits that reads back as the id |
| Naming.SameBaseNamesDistinct | manager.go:153-156 | names made from one base name with different ids differ |
| Naming.RegisteredNamesDistinct | manager.go:152-156 | in any series of registrations, two units with the same base name receive different names |
| Naming.NamesCollideAcrossBases | manager.go:153-156 | names from different base names can coincide: "Worker" with id 10 and "Worker1" with id 0 are both "Worker10" |
| Gum.In | manager.go:172-180 | true exactly when some element equals the signal, that is, when the signal is in the list; false on an empty list |
| Gum.WorkUnitManager.constructor | manager.go:145-150 | a new handle is bound to the manager's failure channel, has not failed, and both of its channels are open and empty |
| Gum.WorkUnitManager.ReceiveStop | manager.go:33-35 | the unit's receive on the channel the handle gives out takes a buffered stop first and yields false once the closed channel is empty; the handle stays consistent |
| Gum.WorkUnitManager.Done | manager.go:37-39 | completion is one acknowledgment; the handle stays consistent |
| Gum.WorkUnitManager.Panic | manager.go:41-46 | failure appends exactly this error to the shared channel, sets the flag, adds one acknowledgment and closes stop; the stop channel must still be open |
| Gum.WorkUnitManager.SendStop | manager.go:81 | one stop value is sent; the channel must be open |
| Gum.WorkUnitManager.StopIfReached | manager.go:105-107 | one stop value unless the broadcast skips failed units and this unit failed |
| Gum.WorkUnitManager.TakeAck | manager.go:86 | one acknowledgment is received; one must be waiting |
| Gum.Manager.constructor | manager.go:163-170 | a new manager has no triggers, no units, no queued error, has sent nothing on Quit, and owns a fresh failure channel |
| Gum.Manager.ShutdownOn | manager.go:125-129 | the signal is appended to the triggers, and nothing else changes |
| Gum.Manager.AddUnit | manager.go:143-161 | the name is the second '.'-piece of the type string followed by the generator's prior count for that piece; only that piece's count advances; a fresh handle is stored under the name; every other entry is unchanged |
| Gum.Manager.StopOne | manager.go:103-108 | one iteration of a broadcast loop (this one, or the signal branch's loop at manager.go lines 79-82 when every unit is reached) advances the broadcast by exactly the handle visited |
| Gum.Manager.BroadcastStop | manager.go:103-108 | the broadcast loop of either branch (this one, or manager.go lines 79-82 when every unit is reached): before the branch records the shutdown, the loop over the registry sends one stop to exactly the handles the broadcast reaches and changes nothing else |
| Gum.Manager.AckOne | manager.go:85-88 | one iteration of a wait loop (this one or its copy at manager.go lines 111-114) advances the drain by exactly the handle visited |
| Gum.Manager.DrainAcks | manager.go:111-114 | the wait of either branch (this one or its copy at manager.go lines 85-88): during a shutdown, the loop over the registry receives exactly one acknowledgment from every handle |
| Gum.Manager.ReceiveError | manager.go:95 | while the loop waits, the first queued error is received and returned; nothing else changes |
| Gum.Manager.OnSignal | manager.go:70-82 | taken only while the loop waits at its `select`; shutdown begins, and the shutdown phase is entered, exactly when the signal is a trigger; then every unit gets one stop, otherwise nothing changes |
| Gum.Manager.OnPanic | manager.go:95-108 | taken only while the loop waits at its `select`; the first queued error is received and returned, every unit that has not failed gets one stop, and the shutdown phase is entered |
| Gum.Manager.FinishShutdown | manager.go:84-93 | only during a shutdown, and once every unit has an acknowledgment waiting: one is received from each, then one value is sent on Quit and the loop leaves the shutdown phase |
| Gum.ReportDone | manager.go:37-39 | a unit's completion report through its registered handle is the protocol's completion step on the whole manager |
| Gum.ReportPanic | manager.go:41-46 | a unit's failure report through its registered handle is the protocol's failure step on the whole manager: its error is queued and its handle fails |
| Protocol.UnitReports | manager.go:37-46 | completion adds exactly one acknowledgment and nothing else; failure sets the flag, adds one acknowledgment and closes stop, and nothing else; both keep a handle consistent |
| Protocol.UnitDoneReports | manager.go:37-39 | a completion report adds exactly one acknowledgment to the reporting unit's handle and changes nothing else |
| Protocol.UnitPanicReports | manager.go:41-46 | a failure report queues exactly one error, its own, behind the earlier ones, changes only the reporting unit's handle, and leaves the triggers, Quit and the loop's phase unchanged |
| Protocol.RunningPreserved | manager.go:125-161 | a new manager is in the running state, with no shutdown under way; subscribing, registering and a unit's first failure keep it there |
| Protocol.ShutdownOnSubscribes | manager.go:125-129 | after subscribing, the signal is a trigger, every earlier trigger still is, and nothing but the trigger list changes |
| Protocol.AddUnitRegisters | manager.go:143-161 | registration adds exactly the new name with a fresh handle, keeps every other entry, and changes nothing else; a name already present loses its old handle |
| Protocol.IgnoredSignal | manager.go:70-74 | while the loop waits, a signal that is not a trigger changes nothing: no stop, no wait, no Quit |
| Protocol.SignalBranchNeedsNoFailure | manager.go:79-82 | while running, the signal branch can run without sending on a closed channel exactly when no unit has failed |
| Protocol.ShutdownBegins | manager.go:70-95 | while the loop waits, a signal begins a shutdown exactly when it is a trigger, and a failure report always begins one |
| Protocol.SignalShutdownPass | manager.go:70-93 | after a trigger, a shutdown is under way and every unit gets exactly one stop; once all have answered, every acknowledgment is received, Quit is sent once, the shutdown ends, and nothing is left pending |
| Protocol.PanicBranchAnswered | manager.go:103-108 | after the failure branch's broadcast and the units' answers, each unit that has not failed got one stop and answered it, and every unit has exactly one acknowledgment waiting |
| Protocol.PanicShutdownPass | manager.go:95-119 | after a failure report, a shutdown is under way and the first error is received; stop goes to exactly the units that have not failed; all acknowledgments are received before one Quit; the shutdown ends and nothing is left pending |
| Protocol.UnansweredStopBlocksQuit | manager.go:84-93 | after the signal branch's broadcast, a unit that has not answered its stop leaves the wait unable to finish, whichever other units have answered, so Quit is not sent |
| Protocol.UnansweredStopBlocksQuitAfterPanic | manager.go:110-119 | after the failure branch's broadcast, a unit that has not failed and has not answered its stop leaves the wait unable to finish, whichever other units have answered, so Quit is not sent |
| Protocol.RespondOnly | manager_test.go:26-32 | the units' answers part way through: the units that have answered did so as in `Respond`, and every other unit is unchanged |
| Protocol.RespondOnlyAll | manager_test.go:26-32 | once every unit has answered, the partial answers are the units' whole answer |
| Protocol.FinishConsumesOneAck | manager.go:110-119 | the wait consumes exactly one acknowledgment from every unit, Quit is sent once afterwards, the shutdown ends, and the triggers and queued errors are unchanged |
| Protocol.Respond | manager_test.go:26-32 | the units' answer: each unit with a stop buffered takes it and adds one acknowledgment; a unit with none buffered, a failed one included, changes nothing |
| Gum.WorkerBaseName | manager.go:152-153 | the example units' type string "*gum.Worker" has base name "Worker" |
| Gum.WorkerNames | manager.go:156 | the example's two units are named "Worker0" and "Worker1" |
| Gum.ExampleManager | manager_test.go:50-62 | the example set-up yields SIGINT as the only trigger and two fresh units, "Worker0" and "Worker1", with nothing pending |
| Gum.AnswerStop | manager_test.go:26-32 | the example worker takes its stop and reports completion, and no other handle changes |
| Gum.ExampleStopped | manager_test.go:79 | SIGINT reaches the example manager, and each unit gets one stop |
| Gum.ExampleSignalled | manager_test.go:26-32 | both example units have answered their stop |
| Gum.RunMain | manager_test.go:46-70 | the example program sends exactly one value on Quit, after each unit got exactly one stop |
| Gum.ExampleFailed | manager.go:41-46 | in the example set-up, "Worker0" reports failure with cause "X": the error is queued, and "Worker0" is failed with its acknowledgment sent and its stop channel closed |
| Gum.ExamplePanicked | manager.go:95-108 | the failure branch receives "X", sends stop to "Worker1" only, and enters the shutdown |
| Gum.ExampleFailureAnswered | manager_test.go:26-32 | "Worker1" answers its stop; "Worker0" sends nothing further |
| Gum.RunFailure | manager.go:95-119 | the failure scenario receives "X" exactly once, sends no stop to the failed unit and one to the other, and sends exactly one value on Quit |

## Left out

- Goroutines, blocking and interleaving are not modelled. `go w.unit.Spawn(w)` (manager.go:63-66) is not modelled. A receive that would block becomes a precondition: `Gum.WorkUnitManager.ReceiveStop` requires a buffered stop or a closed channel, and `Gum.Manager.DrainAcks` requires an acknowledgment from every unit. The units' actions run in the order the example methods call them.
- Channel capacities are not modelled. All the channels have capacity 1 (manager.go:146-147, 165-168); the model's counters are unbounded, so a send that would block on a full channel is allowed. `OnSignal` and `OnPanic` can be entered only while the loop waits (`shuttingDown` is clear), so a shutdown made of the event methods holds a single broadcast, and the pass lemmas prove that, from the running state, this broadcast gives each unit at most one stop. A second failure report while an error is still queued would block in Go; the model queues it.
- `Start`'s outer `for` never exits (manager.go:68-122). Termination of the loop is not claimed. The loop's position is the `shuttingDown` flag: `OnSignal` with a trigger, or `OnPanic`, enters the shutdown, and `FinishShutdown` requires it and leaves it, so after Quit the model is waiting again. The lemmas describe a single pass from the running state.
- The branches of `Start` are inlined in the loop in Go; here their steps (`ReceiveError`, `BroadcastStop`, `StopOne`, `DrainAcks`, `AckOne`) are separate methods. The phase preconditions keep each step on its side of the `select`, but a caller that runs a step on its own, such as a `BroadcastStop` while the loop waits or a `DrainAcks` with no Quit after it, is outside what the phase claims cover.
- The logging loop in the panic branch (manager.go:97-101) and every `log` call are diagnostics only and are not modelled.
- `signal.Notify` (manager.go:126) and OS signal delivery are not modelled. A signal is an integer given to the handler.
- `reflect.TypeOf` (manager.go:152) is not modelled. The type string is a parameter of `AddUnit`.
- The global `idGen` (manager.go:12) becomes an explicit `IdGenerator` passed to `AddUnit`.
- The write of `isPaniced` from the unit's goroutine (manager.go:43) is a data race in Go. Here it is an ordinary field write.
- The `unit` field and the unit's own `Spawn` and `Shutdown` code are not modelled. The example worker's `Shutdown` does nothing, so `AnswerStop` only takes the stop and reports completion.
- Gum.Manager.AddUnit: requires a '.' in the type string. Without one, Go fails at run time indexing the split's second piece, and that failure is not modelled.
- Gum.WorkUnitManager.Panic: requires the stop channel to be open. A second report would close it twice, which panics in Go, and that path is not modelled.
- Gum.Manager.OnSignal: requires every stop channel to be open when the signal is a trigger. Go would panic sending to a failed unit, and that path is not modelled.
- Registration after `Start` is outside this model. The model accepts it as an ordinary registry update.
- The test file's ticker, `time.Sleep`, `syscall.Kill` and pid channel (manager_test.go:17-23, 72-80) are timing and OS plumbing and are not modelled.
- Counts, ids and the Quit counter are unbounded `nat`. Go's `int` (manager.go:134, 137-138) would wrap after 2^63 registrations under one base name. `Naming.RegisteredNamesDistinct` holds only while that does not happen.
- Update in place is modelled for handles and the registry, but iteration order over the registry is not: a broadcast or a wait visits the handles in an unspecified order, as Go's map iteration does.
