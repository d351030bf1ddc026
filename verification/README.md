# Verified models of the Zephyr applications and drivers

Dafny models of the parts of this collection whose behaviour is a protocol, a codec or a
state machine, with proofs of what they promise.  `dafny verify dfyconfig.toml` checks all of it.

**LCD driver** (`Hd44780`, `LcdImages`, `LcdCalls`, `LcdInit`, `LcdGrid`, `LcdDriver`,
`LcdFaults`, `LcdSession`).  An HD44780 controller is modelled after the instruction table and
"Initializing by Instruction", 4-bit interface, of the Hitachi HD44780U datasheet: data bus width with
a half-byte phase, display and character memory, address counter, entry mode, display flags, latching on the falling edge of
E.  The driver turns calls into pin images; the theorems run from the pin trace to the screen.
`LcdDriver` is the driver object itself, over a bus on which every transfer may fail; `LcdFaults`
says what lost transfers do to the controller, `LcdSession` what a session with the object displays.

**Sensor pipeline** (`SensorChain`, `SensorRuns`, `SensorHistory`, `SensorShell`, `Deadlines`, `Decimal`,
`SensorText`, `SensorLines`).  Three workers, a coordinator and a shell, as a state machine whose
steps are single kernel calls or statements, so every interleaving, start and stop is covered; the
coordinator's arithmetic on absolute deadlines; and the text the sensors print and the workers
parse back.

**Thread coordination** (`OrderTask`, `OrderProgress`, `OrderRepeats`, `PingPong`), **feed topics** (`Topics`),
**echo servers** (`EchoServer`) and the **MQTT sample** (`MqttApp`, `MqttLoops`) follow the same pattern: a step
or string function, the imperative code tied to it by its `ensures`, and theorems over all runs or
inputs.

Five things the sources or their comments suggest do not hold as they stand.  The code is modelled
as it is; each has its exact condition proved.

- The Kconfig range of the display allows 40x4, but the row table then sends two cells to one
  address (`LcdGrid.GeometryExact`, `LcdGrid.FortyByFour`), and text shows in the wrong row
  (`LcdGrid.ScreenExact`).
- `fn_write` returns with its lock held when a transfer fails, and `hd44780_init` succeeds although
  the backlight transfer failed (`LcdDriver.Driver.FnWrite`, `LcdDriver.LockStaysHeld`,
  `LcdDriver.Driver.Init`, `LcdDriver.BacklightMayFail`).
- "Sequence repeats indefinitely" in `order_task` is conditional, because one signal wakes the waiter
  that queued first.  It can go on for ever exactly until the next thread waits with nobody about to
  wake it, or the other two queue in the wrong order, after which at most one line is printed
  (`OrderRepeats.RepetitionExact`, `OrderProgress.IndefiniteRepetitionFails`, `OrderRepeats.CrossedReached`).
- Topics do not round-trip for user names that contain `/feeds/` or end in `/feeds`
  (`Topics.RoundTripExact`).
- Periodic publishing can silently stop while connected, when the handler cancels late
  (`MqttApp.PublishingExact`, `MqttApp.PublishingCanStop`).  This needs the main thread to run between
  the handler's test of the flag and its cancel.  Where it cannot, as on one core with the system
  work queue at its default cooperative priority, that branch is atomic and
  `MqttApp.PublishingGoesOn` is the theorem that applies.

One more depends on the configuration.  The message id passed to `mqtt_publish` wraps through 0, which section
2.3.1 of MQTT 3.1.1 forbids for PUBLISH at QoS 1 or 2 only (`MqttApp.ForbiddenExactly`).  The Kconfig default is
QoS 1; the shipped `prj.conf` selects QoS 0, under which the section is not violated.

## Assumptions of the models

- Kernel: a binary semaphore saturates at its limit of 1; a mutex is free or owned; a condition
  variable wakes its waiters in the order they queued, all threads having one priority; sleeps are
  exact; a thread identifier is non-NULL exactly while its thread exists; `k_mutex_init` frees the mutex.
- Controller: strobes with RW high read and change nothing; a byte takes the register select of its
  second nibble; in 8-bit mode the four lines that are not wired read as arbitrary values; a failed
  transfer leaves the expander's outputs as they were; waits are long enough.
- A worker's update of its own fields under the mutex and the coordinator's copy are one step each.
  One shell runs one command at a time.  An append to the log file reaches it or does not.
- Numbers are exact decimals already rounded to the printed digits (minus zero included) in place
  of IEEE floats.  `sscanf` takes the longest decimal prefix with optional fraction and exponent.
- MQTT library: a connect with result 0 opens the connection and any other leaves it closed; abort,
  disconnect and a DISCONNECT event close it; CONNACK is delivered by `mqtt_input` only, on an open
  connection.  Everything else it returns or reports is arbitrary.  Cancelling a work item removes
  its pending run.  The threads and the work queue may be interleaved at any step.

## Model

| member | source | states |
|---|---|---|
| `LcdImages.FeedNibble` | modules/my_hd44780_pcf8574_mod/drivers/hd44780_pcf8574/hd44780_pcf8574.c:132-165 | One strobed nibble latches exactly that nibble, with its register select, into any controller whatever was on the wires before, and leaves E low |
| `LcdImages.FeedByte` | modules/my_hd44780_pcf8574_mod/drivers/hd44780_pcf8574/hd44780_pcf8574.c:176-182 | The two nibbles of a byte reach an aligned controller as exactly that command or data byte and leave it aligned |
| `LcdImages.ByteImagesWires` | modules/my_hd44780_pcf8574_mod/drivers/hd44780_pcf8574/hd44780_pcf8574.c:151-182 | Each of the four images of a byte keeps RW low and the backlight line as cached |
| `LcdCalls.CommandBytes` | modules/my_hd44780_pcf8574_mod/drivers/hd44780_pcf8574/hd44780_pcf8574.c:236-260 | On the controller the clear, home and entry-mode opcodes have the effects they are named for and no other |
| `LcdCalls.ControlDecodes` | modules/my_hd44780_pcf8574_mod/drivers/hd44780_pcf8574/hd44780_pcf8574.c:295-307 | The byte built from the three flags sets exactly the display, cursor and blink flags, for all eight combinations |
| `LcdCalls.AddressDecodes` | modules/my_hd44780_pcf8574_mod/drivers/hd44780_pcf8574/hd44780_pcf8574.c:271-284 | The set-address byte selects display data at exactly its seven address bits |
| `LcdCalls.FeedText` | modules/my_hd44780_pcf8574_mod/drivers/hd44780_pcf8574/hd44780_pcf8574.c:318-332 | The pins of a text put its characters one by one at the advancing address, by induction over the text |
| `LcdCalls.EffectMeaning` | modules/my_hd44780_pcf8574_mod/drivers/hd44780_pcf8574/hd44780_pcf8574.c:236-332 | The meaning of each call without opcodes: clear blanks every cell, home moves the cursor only, a cursor position inside the numeric geometry selects its table address and one outside changes nothing, control sets the three flags, write changes no flag |
| `LcdCalls.TableRows` | modules/my_hd44780_pcf8574_mod/drivers/hd44780_pcf8574/hd44780_pcf8574.c:95-99 | The table address of a column below 20 is the column plus 0x00, 0x40, 0x14 or 0x54 |
| `LcdCalls.CallRefines` | modules/my_hd44780_pcf8574_mod/drivers/hd44780_pcf8574/hd44780_pcf8574.c:236-332 | For every call, feeding its pin images to the controller changes memory, address and flags exactly as the byte-free meaning of the call, and the controller ends ready for the next byte |
| `LcdCalls.RunRefines` | modules/my_hd44780_pcf8574_mod/drivers/hd44780_pcf8574/hd44780_pcf8574.c:236-332 | The same for every sequence of calls: the pin trace of a whole run refines the screen specification, which knows nothing of nibbles |
| `LcdCalls.RunWires` | modules/my_hd44780_pcf8574_mod/drivers/hd44780_pcf8574/hd44780_pcf8574.c:151-227 | Throughout any sequence of calls RW stays 0 and the backlight bit equals the cached one |
| `LcdInit.Resync` | modules/my_hd44780_pcf8574_mod/drivers/hd44780_pcf8574/hd44780_pcf8574.c:382-390 | From any controller state (8-bit, aligned, or any pending nibble; low data lines arbitrary) the nibbles 3, 3, 3, 2 end in aligned 4-bit mode |
| `LcdInit.Setup` | modules/my_hd44780_pcf8574_mod/drivers/hd44780_pcf8574/hd44780_pcf8574.c:392-409 | From an aligned controller the setup bytes give a cleared display, address 0, increment, display on, cursor and blink off |
| `LcdInit.InitFromAnyState` | modules/my_hd44780_pcf8574_mod/drivers/hd44780_pcf8574/hd44780_pcf8574.c:374-409 | The whole of init reaches that screen from any state whatever |
| `LcdInit.BootScreenIs` | modules/my_hd44780_pcf8574_mod/drivers/hd44780_pcf8574/hd44780_pcf8574.c:374-409 | That screen flag by flag: every cell 0x20, address 0, display on, cursor and blink off, increment without shift, two-line mode iff more than one row, 5x8 dots |
| `LcdInit.InitOrder` | modules/my_hd44780_pcf8574_mod/drivers/hd44780_pcf8574/hd44780_pcf8574.c:382-406 | The order of init: bus in step, line mode, display off, and still off while it is cleared and the entry mode is set |
| `LcdInit.BootAndRun` | modules/my_hd44780_pcf8574_mod/drivers/hd44780_pcf8574/hd44780_pcf8574.c:236-409 | Init followed by any calls shows the meaning of the calls applied to the boot screen |
| `LcdInit.InitWires` | modules/my_hd44780_pcf8574_mod/drivers/hd44780_pcf8574/hd44780_pcf8574.c:374-409 | Throughout init, too, RW stays 0 and the backlight bit equals the cached one |
| `LcdGrid.GeometryExact` | modules/my_hd44780_pcf8574_mod/drivers/hd44780_pcf8574/hd44780_pcf8574.c:90-100 | The row table gives every cell an address of its own inside display memory if and only if there are at most 80 columns on one row, 40 on two, 20 on three or four; so 40x4 is out |
| `LcdGrid.FortyByFour` | modules/my_hd44780_pcf8574_mod/drivers/hd44780_pcf8574/hd44780_pcf8574.c:90-100 | The 40x4 panel is such an excluded geometry |
| `LcdGrid.AddressIsGlass` | modules/my_hd44780_pcf8574_mod/drivers/hd44780_pcf8574/hd44780_pcf8574.c:90-100 | For such a geometry the masked 8-bit sum is the unbounded row base plus column: nothing wraps |
| `LcdGrid.PutTextFills` | modules/my_hd44780_pcf8574_mod/drivers/hd44780_pcf8574/hd44780_pcf8574.c:318-332 | A text fills consecutive addresses and no other, as long as it stays on one line of memory |
| `LcdGrid.CellShows` | modules/my_hd44780_pcf8574_mod/drivers/hd44780_pcf8574/hd44780_pcf8574.c:271-332 | After set_cursor and write each visible cell holds its character of the text if covered and is unchanged otherwise |
| `LcdGrid.PlacesShow` | modules/my_hd44780_pcf8574_mod/drivers/hd44780_pcf8574/hd44780_pcf8574.c:271-332 | Any sequence of positioned writes edits an abstract grid cell by cell |
| `LcdGrid.BootAndPlace` | modules/my_hd44780_pcf8574_mod/drivers/hd44780_pcf8574/hd44780_pcf8574.c:271-413 | From any power-up state, the pin trace of init and any positioned writes displays exactly the edited blank grid |
| `LcdGrid.ScreenExact` | modules/my_hd44780_pcf8574_mod/drivers/hd44780_pcf8574/hd44780_pcf8574.c:90-332 | After init every sequence of fitting positioned writes shows what it should if and only if the geometry is one of those |
| `LcdGrid.SpillFails` | modules/my_hd44780_pcf8574_mod/drivers/hd44780_pcf8574/hd44780_pcf8574.c:90-332 | On any other valid geometry one concrete fitting text shows in a cell of the first column that it does not cover |
| `LcdDriver.OrCodes` | modules/my_hd44780_pcf8574_mod/drivers/hd44780_pcf8574/hd44780_pcf8574.c:132-182 | Or-ing return codes as 32-bit patterns is zero iff both are, and negative iff one failed |
| `LcdDriver.ErrorCodes` | modules/my_hd44780_pcf8574_mod/drivers/hd44780_pcf8574/hd44780_pcf8574.c:365-409 | -EIO, -ENODEV and -EINVAL are the two-complement codes of -5, -19 and -22, all negative |
| `LcdDriver.DeliveredAll` | modules/my_hd44780_pcf8574_mod/drivers/hd44780_pcf8574/hd44780_pcf8574.c:114-118 | When no transfer failed the expander receives exactly the images that were sent |
| `LcdDriver.Driver.Strobe` | modules/my_hd44780_pcf8574_mod/drivers/hd44780_pcf8574/hd44780_pcf8574.c:132-140 | Attempts the image with E high then low, whatever the first returns; 0 iff both transfers succeeded |
| `LcdDriver.Driver.Write4` | modules/my_hd44780_pcf8574_mod/drivers/hd44780_pcf8574/hd44780_pcf8574.c:151-165 | Setting or clearing each pin in turn yields the nibble image; 0 iff both transfers succeeded |
| `LcdDriver.Driver.Send` | modules/my_hd44780_pcf8574_mod/drivers/hd44780_pcf8574/hd44780_pcf8574.c:176-182 | Attempts all four images of a byte even after a failure; 0 iff all four succeeded |
| `LcdDriver.Driver.BacklightApply` | modules/my_hd44780_pcf8574_mod/drivers/hd44780_pcf8574/hd44780_pcf8574.c:215-227 | The backlight bit is set iff exactly one of on and active-low holds; the cached byte is pushed once without a strobe |
| `LcdDriver.Driver.FnClear` | modules/my_hd44780_pcf8574_mod/drivers/hd44780_pcf8574/hd44780_pcf8574.c:236-244 | Attempts the images of a clear between taking the lock and giving it back, 0 iff all succeeded |
| `LcdDriver.Driver.FnHome` | modules/my_hd44780_pcf8574_mod/drivers/hd44780_pcf8574/hd44780_pcf8574.c:251-260 | Attempts the images of a home between taking the lock and giving it back, 0 iff all succeeded |
| `LcdDriver.Driver.FnSetCursor` | modules/my_hd44780_pcf8574_mod/drivers/hd44780_pcf8574/hd44780_pcf8574.c:271-284 | A row or column not below the geometry gives -EINVAL with nothing locked or sent; any other sends exactly the byte 0x80 or-ed with its table address and returns 0 iff all four transfers succeeded |
| `LcdDriver.Driver.FnControl` | modules/my_hd44780_pcf8574_mod/drivers/hd44780_pcf8574/hd44780_pcf8574.c:295-307 | Composes the flags in place and attempts that one byte under the lock, 0 iff all succeeded |
| `LcdDriver.Driver.FnWrite` | modules/my_hd44780_pcf8574_mod/drivers/hd44780_pcf8574/hd44780_pcf8574.c:318-332 | 0 iff every transfer succeeded; else some character i is the first that lost a transfer and nothing after it was attempted; the lock is released on success and stays held on failure |
| `LcdDriver.Driver.Init` | modules/my_hd44780_pcf8574_mod/drivers/hd44780_pcf8574/hd44780_pcf8574.c:359-413 | -ENODEV and nothing touched when the bus is not ready; 0 iff every transfer but the ignored backlight one succeeded, with exactly the boot images attempted; otherwise -EIO, where everything before some nibble or byte arrived, that one lost a transfer, and nothing after it was attempted |
| `LcdDriver.Driver.WriteChar` | modules/my_hd44780_pcf8574_mod/drivers/hd44780_pcf8574/hd44780_pcf8574.c:323-329 | Character i of a write: 0 and everything up to it arrived, or it is the one at which the write stops |
| `LcdDriver.LockStaysHeld` | modules/my_hd44780_pcf8574_mod/drivers/hd44780_pcf8574/hd44780_pcf8574.c:324-328 | A concrete failing write after which the lock is held |
| `LcdDriver.BacklightMayFail` | modules/my_hd44780_pcf8574_mod/drivers/hd44780_pcf8574/hd44780_pcf8574.c:226 | A concrete init that returns 0 although its backlight transfer failed |
| `LcdDriver.PartialWrite` | modules/my_hd44780_pcf8574_mod/drivers/hd44780_pcf8574/hd44780_pcf8574.c:318-332 | When a write stops at character i, the transfers before it have put exactly s[0..i] on the screen |
| `LcdFaults.LossyByte` | modules/my_hd44780_pcf8574_mod/drivers/hd44780_pcf8574/hd44780_pcf8574.c:176-182 | The complete account of a byte of which any transfers are lost: for each of the sixteen patterns, what an aligned controller becomes and whether E is left high |
| `LcdFaults.AlignedExactly` | modules/my_hd44780_pcf8574_mod/drivers/hd44780_pcf8574/hd44780_pcf8574.c:176-182 | The controller stays in step with the driver if and only if all four transfers of a byte succeeded or both with E high were lost |
| `LcdFaults.FailedWriteAligned` | modules/my_hd44780_pcf8574_mod/drivers/hd44780_pcf8574/hd44780_pcf8574.c:318-332 | After a write that stopped at character i the controller is in step if and only if both E-high transfers of that character were lost |
| `LcdFaults.LostHighOfLow` | modules/my_hd44780_pcf8574_mod/drivers/hd44780_pcf8574/hd44780_pcf8574.c:176-182 | Losing only the second image with E high leaves the controller idle with the high nibble waiting |
| `LcdFaults.WritesStayHalfOut` | modules/my_hd44780_pcf8574_mod/drivers/hd44780_pcf8574/hd44780_pcf8574.c:318-332 | A controller left waiting for half a byte stays out of step through any later write, however successful |
| `LcdSession.Perform` | modules/my_hd44780_pcf8574_mod/drivers/hd44780_pcf8574/hd44780_pcf8574.c:334-341 | Any call through the function table attempts exactly its images and returns 0, or -EINVAL for a refused position, when no transfer is lost |
| `LcdSession.Session` | modules/my_hd44780_pcf8574_mod/drivers/hd44780_pcf8574/hd44780_pcf8574.c:236-413 | Init and any calls on the driver object: if no transfer but perhaps the backlight one is lost, what its log delivers turns any panel into the meaning of the calls |
| `LcdDriver.SuccessfulInit` | modules/my_hd44780_pcf8574_mod/drivers/hd44780_pcf8574/hd44780_pcf8574.c:359-413 | Whatever became of the backlight transfer, a successful init has put the boot screen on the display |
| `SensorChain.WorkerKeeps` | sensor_task/mem_log/src/shell_threads.c:117-224 | Every step of a worker keeps the whole invariant: token, places, mutex, data, shell phase |
| `SensorChain.CoordKeeps` | sensor_task/mem_log/src/shell_threads.c:246-273 | Every step of the coordinator keeps the invariant |
| `SensorChain.ShellKeeps` | sensor_task/mem_log/src/shell_threads.c:293-355 | Every statement of the start and stop commands keeps the invariant, wherever the other threads are |
| `SensorRuns.TokenConserved` | sensor_task/mem_log/src/shell_threads.c:35-38 | In every schedule with starts and stops anywhere, semaphores plus active sections hold at most one token, exactly one while the coordinator lives; at most one thread is active |
| `SensorRuns.NoGiveLost` | sensor_task/mem_log/src/shell_threads.c:143-249 | Whenever a semaphore is given its count is 0, so saturation never loses a give |
| `SensorRuns.MutexNeverBlocks` | sensor_task/mem_log/src/shell_threads.c:129-255 | A thread about to lock always finds the mutex free, also after an abort inside a critical section |
| `SensorRuns.TraceInOrder` | sensor_task/mem_log/src/shell_threads.c:231-234 | The trace since the last start is a prefix of HT, PRESS, IMU, line, repeated, and lines match completed laps |
| `SensorRuns.StepProgress` | sensor_task/mem_log/src/shell_threads.c:117-280 | While all four threads run, each thread step either changes nothing or advances the lap by exactly one |
| `SensorRuns.NeverStuck` | sensor_task/mem_log/src/shell_threads.c:117-280 | A started system can always move |
| `SensorRuns.LinesKeepComing` | sensor_task/mem_log/src/shell_threads.c:246-273 | Any schedule of thread steps writes a line at least every 25 effective steps |
| `SensorRuns.LastSuccessMeaning` | sensor_task/mem_log/src/shell_threads.c:121-144 | The most recent success: the values of some reading after which all failed, or zeros if none succeeded |
| `SensorRuns.SampledInCycle` | sensor_task/mem_log/src/shell_threads.c:121-126 | Whenever a worker samples, its readings so far number the lines so far, so reading k is taken in cycle k |
| `SensorRuns.LineFresh` | sensor_task/mem_log/src/shell_threads.c:246-265 | In line k a Y means the values were read in cycle k itself; an N means cycle k failed and the values are the latest success since the start, or zero |
| `SensorRuns.FirstStart` | sensor_task/mem_log/src/shell_threads.c:293-326 | The state a first start leaves: empty semaphores, free mutex, zero snapshot, one of each thread |
| `SensorRuns.RestartIsFresh` | sensor_task/mem_log/src/shell_threads.c:293-326 | A start that creates the coordinator reaches that same state after any history, aborts while holding the mutex included |
| `SensorRuns.StopIsClean` | sensor_task/mem_log/src/shell_threads.c:339-355 | Whenever no command runs and the coordinator is off, no thread is left and every semaphore is 0 |
| `SensorRuns.StopTerminates` | sensor_task/mem_log/src/shell_threads.c:348-352 | A measure drops with every statement of stop_sensors and no other thread raises it: the drain loops end under any interleaving |
| `SensorRuns.StartWhileRunning` | sensor_task/mem_log/src/shell_threads.c:297-323 | start_sensors while running changes nothing |
| `SensorRuns.StopWhileStopped` | sensor_task/mem_log/src/shell_threads.c:343-352 | stop_sensors while stopped changes nothing |
| `SensorShell.StopEnds` | sensor_task/mem_log/src/shell_threads.c:339-355 | From any reachable point of a stop, twelve statements at most end it with no threads and no tokens |
| `SensorShell.Pipeline.WorkerGo` | sensor_task/mem_log/src/shell_threads.c:117-224 | The worker body, updating semaphores, mutex and snapshot in place, is the step function on the abstract state |
| `SensorShell.Pipeline.CoordGo` | sensor_task/mem_log/src/shell_threads.c:246-273 | The coordinator body in place is the step function |
| `SensorShell.Pipeline.StartSensors` | sensor_task/mem_log/src/shell_threads.c:293-326 | The command equals the run of its statements; from a stopped system it leaves the first-start state, from a running one it changes nothing |
| `SensorShell.Pipeline.StopSensors` | sensor_task/mem_log/src/shell_threads.c:339-355 | Aborts all and drains all four semaphores, leaving snapshot, mutex and file as they were; nothing changes if already stopped |
| `SensorShell.Pipeline.Drain` | sensor_task/mem_log/src/shell_threads.c:349-352 | The drain loop empties its semaphore and no other |
| `SensorHistory.FileIs` | sensor_task/mem_log/src/shell_threads.c:267-272 | In any schedule, starts and stops included, the log file gains exactly the completed lines whose append succeeded, in order |
| `SensorHistory.FileGrows` | sensor_task/mem_log/src/shell_threads.c:267-272 | The file is never shortened |
| `SensorHistory.FileFollowsLines` | sensor_task/mem_log/src/shell_threads.c:267-272 | Between starts: if every append succeeds the file gains exactly the completed lines, if none does it is unchanged |
| `SensorHistory.FileSinceStart` | sensor_task/mem_log/src/shell_threads.c:267-272 | From a start with a working file, the file is what it held before followed by every completed line |
| `SensorHistory.ResultsAre` | sensor_task/mem_log/src/shell_threads.c:121-126 | The recorded readings are exactly those handed to the worker when it samples |
| `SensorHistory.SampledIsStored` | sensor_task/mem_log/src/shell_threads.c:124-141 | The reading a worker samples is the one it stores, with its flag, leaving the other workers alone |
| `SensorHistory.MutexHeld` | sensor_task/mem_log/src/shell_threads.c:129-133 | Whoever writes or copies the snapshot holds the mutex |
| `SensorHistory.ClearedMeans` | sensor_task/mem_log/src/shell_threads.c:299 | A start leaves two, one and six fields, all zero, and no flag raised |
| `Deadlines.Coordinate` | sensor_task/mem_log/src/shell_threads.c:242-279 | The loop starts every cycle at the recurrence value, sleeps 1..P ms each time, and wakes exactly at the next start |
| `Deadlines.StartIsMax` | sensor_task/mem_log/src/shell_threads.c:242-279 | Closed form: cycle n starts at the maximum over j of t0 + jP plus the work and 1 ms of sleep of the cycles j..n-1 |
| `Deadlines.LatenessStep` | sensor_task/mem_log/src/shell_threads.c:275-278 | Lateness obeys late(n+1) = max(0, late(n) + w(n) + 1 - P), so it never accumulates otherwise |
| `Deadlines.CatchesUp` | sensor_task/mem_log/src/shell_threads.c:275-278 | With a slack of d per cycle, lateness shrinks by at least d per cycle down to zero |
| `Deadlines.NoDrift` | sensor_task/mem_log/src/shell_threads.c:242-279 | If every cycle fits its period, cycle n starts at exactly t0 + nP |
| `Deadlines.StampExact` | sensor_task/mem_log/src/shell_threads.c:61-66 | The milliseconds are below 1000, and both parts together denote the uptime if and only if the 32-bit seconds have not wrapped; else they are off by multiples of 2^32 seconds |
| `Decimal.ScanFixed` | sensor_task/mem_log/src/shell_threads.c:75-104 | Scanning a printed decimal with fraction digits returns sign, digits and scale exactly and stops where the number ends, before any text that does not continue it |
| `Decimal.DigitsValue` | sensor_task/mem_log/src/htpg_sensors.c:51-53 | Decimal printing and digit evaluation are inverse, without leading zeros |
| `Decimal.FixedMeaning` | sensor_task/mem_log/src/htpg_sensors.c:51-53 | A printed number: a minus sign exactly if negative, else a digit first; no superfluous zero; a point before the last digits; all digits together its magnitude |
| `Decimal.MinusFivePointThree` | sensor_task/mem_log/src/htpg_sensors.c:51-53 | For instance -5.3 |
| `SensorText.FieldsRoundTrip` | sensor_task/mem_log/src/shell_threads.c:75-104 | For any number of fields separated by plain literals, scanning the printed line returns exactly the printed numbers |
| `SensorLines.HtRoundTrip` | sensor_task/mem_log/src/shell_threads.c:75-79 | parse_ht of the formatted line succeeds with exactly the printed temperature and humidity |
| `SensorLines.PressRoundTrip` | sensor_task/mem_log/src/shell_threads.c:87-91 | parse_press of the formatted line succeeds with exactly the printed pressure |
| `SensorLines.ImuRoundTrip` | sensor_task/mem_log/src/shell_threads.c:100-104 | parse_imu of the formatted line succeeds with exactly the six printed axes, in order |
| `SensorLines.HtShape` | sensor_task/mem_log/src/htpg_sensors.c:51-53 | The temperature and humidity line written out around its two numbers |
| `SensorLines.PressShape` | sensor_task/mem_log/src/htpg_sensors.c:164 | The pressure line written out |
| `SensorLines.ImuShape` | sensor_task/mem_log/src/htpg_sensors.c:115-117 | The line of six axes written out |
| `SensorLines.Snprintf` | sensor_task/mem_log/src/htpg_sensors.c:51-54 | Writes the longest prefix that fits and a NUL, touches nothing beyond, and returns the untruncated length |
| `SensorLines.HumTempGetString` | sensor_task/mem_log/src/htpg_sensors.c:34-55 | -1 and an untouched buffer on failure; else the full length, and the line itself if it fits |
| `SensorLines.PressureGetString` | sensor_task/mem_log/src/htpg_sensors.c:150-166 | The same for pressure |
| `SensorLines.ImuGetString` | sensor_task/mem_log/src/htpg_sensors.c:86-119 | The same for the six axes |
| `SensorLines.HumSample` | sensor_task/mem_log/src/shell_threads.c:121-135 | Through buffer, C string and parser the worker gets, whenever the line fits, two values that times ten are the signed digits of temperature and humidity; nothing when the fetch failed |
| `SensorLines.PressSample` | sensor_task/mem_log/src/shell_threads.c:161-174 | The same for the one value of pressure |
| `SensorLines.ImuSample` | sensor_task/mem_log/src/shell_threads.c:200-214 | The same for the six axes in order, times a hundred |
| `SensorLines.SensorLinesFit` | sensor_task/mem_log/src/htpg_sensors.c:34-166 | Every line of values below 10^10 in size, which covers a 32-bit whole part and any 32-bit millionths, fits its worker buffer (128, 128, 192), so the previous three apply to all sensor values |
| `OrderTask.NextKeeps` | rtos_tasks/order_task/src/main.c:44-117 | Every step of any thread keeps mutual exclusion, the wait queue, the counter and the output right, under signal and under broadcast |
| `OrderProgress.OrderKept` | rtos_tasks/order_task/src/main.c:44-117 | In every schedule the counter stays in 0..8, array indices are in range, at most one thread is critical, and the k-th line is (k mod 9) + 1 by thread k mod 3 |
| `OrderProgress.StuckForever` | rtos_tasks/order_task/src/main.c:49-57 | Once the thread whose turn it is sleeps with no wake-up under way for it, no schedule ever prints again |
| `OrderProgress.CanPrint` | rtos_tasks/order_task/src/main.c:49-57 | In any other state an explicit schedule of at most eight steps prints the next number |
| `OrderProgress.ProgressExact` | rtos_tasks/order_task/src/main.c:44-117 | One more line: in every reachable state some continuation prints again if and only if the state is not stuck |
| `OrderRepeats.CrossedPrintsOnce` | rtos_tasks/order_task/src/main.c:44-117 | When the other two threads wait, or are about to, in the wrong order, no schedule prints more than one further line |
| `OrderRepeats.RepetitionExact` | rtos_tasks/order_task/src/main.c:44-130 | Repetition: a reachable state has continuations with any number of further lines if and only if it is neither stuck nor crossed |
| `OrderRepeats.BootRepeats` | rtos_tasks/order_task/src/main.c:134-150 | The initial state has such continuations |
| `OrderRepeats.CrossedReached` | rtos_tasks/order_task/src/main.c:78-115 | C waits, then B: a reachable crossed state that can print one line and no second |
| `OrderRepeats.BroadcastRepeats` | rtos_tasks/order_task/src/main.c:55 | With broadcast in place of signal every reachable state has continuations with any number of further lines |
| `OrderProgress.TrapLeadsToStuck` | rtos_tasks/order_task/src/main.c:78-115 | C waits, B waits, A prints and wakes C: a concrete schedule to a stuck state |
| `OrderProgress.IndefiniteRepetitionFails` | rtos_tasks/order_task/src/main.c:130 | So the documented indefinite repetition is conditional: a reachable state prints nothing under any continuation |
| `OrderProgress.BroadcastNeverStuck` | rtos_tasks/order_task/src/main.c:55 | With broadcast in place of signal every reachable state can print its next number |
| `OrderProgress.Demo.Step` | rtos_tasks/order_task/src/main.c:44-117 | The threads updating the shared variables in place take exactly the modelled step and keep the invariant |
| `PingPong.AlwaysAlternating` | rtos_tasks/ping_pong/src/main.c:44-78 | For any number of rounds and any schedule: one token, and the output is a prefix of ping 0, pong 0, ping 1, ... |
| `PingPong.StepsRunOut` | rtos_tasks/ping_pong/src/main.c:46-51 | Every effective step lowers the number of remaining steps by exactly one |
| `PingPong.NeverStuck` | rtos_tasks/ping_pong/src/main.c:44-78 | Until both threads ended, one can move |
| `PingPong.FinalState` | rtos_tasks/ping_pong/src/main.c:22-28 | At the end all 2n lines are out, semA is 1 and semB is 0 |
| `PingPong.RunsToTheEnd` | rtos_tasks/ping_pong/src/main.c:44-78 | A schedule has at most 8n effective steps, and both threads have ended iff it has exactly 8n |
| `PingPong.Game.Step` | rtos_tasks/ping_pong/src/main.c:44-78 | The threads on shared semaphores in place take exactly the modelled step |
| `Topics.FindSep` | modules/adafruit_mqtt_zephyr/src/adafruit_mqtt_topics.c:59 | strstr: the first occurrence of the separator, or none exists |
| `Topics.BuildFeed` | modules/adafruit_mqtt_zephyr/src/adafruit_mqtt_topics.c:24-38 | -ENOMEM and an untouched buffer iff the topic and its NUL exceed the stated size; else exactly the topic is written, nothing beyond the stated size |
| `Topics.ParseFeed` | modules/adafruit_mqtt_zephyr/src/adafruit_mqtt_topics.c:54-74 | 0 iff the topic holds the separator and both parts at its first place are shorter than the size; else -22 or -12 with both buffers untouched; the parts are written as C strings within the stated size |
| `Topics.EarlierOccurrence` | modules/adafruit_mqtt_zephyr/src/adafruit_mqtt_topics.c:59-63 | Inside the user part of a topic the separator occurs iff the user contains it there or ends in "/feeds" there: it overlaps itself only on the slash |
| `Topics.RoundTripExact` | modules/adafruit_mqtt_zephyr/src/adafruit_mqtt_topics.c:24-74 | parse after build returns user and feed if and only if the user neither contains "/feeds/" nor ends in "/feeds" and both parts fit; with a large buffer an unsafe user is not refused but misparsed |
| `Topics.RoundTripFails` | modules/adafruit_mqtt_zephyr/src/adafruit_mqtt_topics.c:24-74 | The concrete failure: user "a/feeds", feed "x" comes back as "a" and "feeds/x" |
| `Topics.ParseThenBuild` | modules/adafruit_mqtt_zephyr/src/adafruit_mqtt_topics.c:54-74 | build of any successful parse restores the topic |
| `EchoServer.ReduceNormal` | uart_task/echo_serv/src/main.c:47-55 | Reduction leaves a line without backspaces alone and its result never holds one |
| `EchoServer.BackspaceCancels` | uart_task/echo_serv/src/main.c:47-55 | A character and the backspace after it cancel anywhere in a line |
| `EchoServer.LeadingBackspace` | uart_task/echo_serv/src/main.c:49-51 | A backspace on an empty line is ignored |
| `EchoServer.ReduceExample` | uart_task/echo_serv/src/main.c:47-55 | For instance a, b, character 127, c reduces to ac |
| `EchoServer.EchoLines` | uart_task/echo_serv/src/main.c:41-45 | One reply for each finished line: the text, the reduced line cut at its first NUL, and a line end |
| `CStrings.CStringMeaning` | uart_task/echo_serv/src/main.c:43-44 | A C string is what stands before the first NUL |
| `EchoServer.SplitMeaning` | uart_task/echo_serv/src/main.c:41-45 | The pieces hold no carriage return, and joined by carriage returns they give the input back |
| `EchoServer.EchoSnoc` | uart_task/echo_serv/src/main.c:41-57 | One more character adds a reply exactly if it is a carriage return and otherwise extends the current line |
| `EchoServer.ShortLinesFit` | uart_task/int_echo_serv/src/main.c:36-38 | Lines of at most 127 characters, or that never hold more than 127 surviving ones, never overrun the buffer |
| `EchoServer.FitsExactly` | uart_task/int_echo_serv/src/main.c:36-62 | A stream fails the condition under which both servers are specified if and only if the index, which nothing in the code bounds, makes some first character land past the end of the buffer |
| `EchoServer.LongLineOverruns` | uart_task/int_echo_serv/src/main.c:36-38 | 129 letters without a return are such a stream |
| `EchoServer.LettersFit` | uart_task/int_echo_serv/src/main.c:19 | n letters without a return fit the buffer if and only if n is at most 128 |
| `EchoServer.Poll` | uart_task/echo_serv/src/main.c:37-58 | The polled server prints exactly the replies of the split and reduced input, on every stream for which the buffer is not overrun |
| `EchoServer.Uart.Receive` | uart_task/int_echo_serv/src/main.c:47-62 | One received character keeps buffer, index and output in step with the input so far |
| `EchoServer.Uart.Isr` | uart_task/int_echo_serv/src/main.c:40-65 | One interrupt processes exactly the characters pending, passes without data included |
| `EchoServer.Interrupts` | uart_task/int_echo_serv/src/main.c:40-65 | However a stream is cut into interrupts, the output is that of the whole stream, hence the polled server's |
| `EchoServer.CutAnywhere` | uart_task/int_echo_serv/src/main.c:43-45 | Cutting an interrupt in two anywhere receives the same characters |
| `EchoServer.EmptyPass` | uart_task/int_echo_serv/src/main.c:43-44 | A pass without received data changes nothing, wherever it stands |
| `EchoServer.AnyCut` | uart_task/int_echo_serv/src/main.c:40-65 | For any stream whose characters arrive in order in some passes of some interrupts, all other passes being empty, the interrupt server prints what the polled server prints |
| `MqttApp.NextKeeps` | wifi/sensor_mqtt/src/mqtt_client.c:103-121 | Every step of main, handler, timer and library event keeps flag, connection, history and work item consistent |
| `MqttApp.UpMeaning` | wifi/sensor_mqtt/src/mqtt_client.c:414-439 | The history predicate for an open connection: some successful connect that nothing has closed since |
| `MqttApp.OneConnectPerConnection` | wifi/sensor_mqtt/src/mqtt_client.c:414-439 | In every run, between a successful mqtt_connect and the next call of mqtt_connect the connection was closed |
| `MqttApp.RunNeedsAck` | wifi/sensor_mqtt/src/mqtt_client.c:154-167 | In every run, app_mqtt_run is entered only after a CONNACK with result 0 that answers the last successful connect on its still open connection |
| `MqttApp.PublishingExact` | wifi/sensor_mqtt/src/main.c:65-79 | While app_mqtt_run runs connected, the work item is neither pending nor executing if and only if the handler stood between finding the flag clear and cancelling when main rescheduled it, and has cancelled since |
| `MqttApp.PublishingGoesOn` | wifi/sensor_mqtt/src/main.c:65-79 | If that branch of the handler is atomic, the work item is always pending or executing there |
| `MqttApp.LostUntilReschedule` | wifi/sensor_mqtt/src/main.c:127-137 | Once lost, mqtt_publish is not called in any schedule, reconnecting included, until main reschedules the work item |
| `MqttApp.PublishingCanStop` | wifi/sensor_mqtt/src/main.c:76-78 | The exception is reachable: a run that ends connected in app_mqtt_run with the item lost |
| `MqttApp.MessageIds` | wifi/sensor_mqtt/src/mqtt_client.c:296-333 | The k-th call of mqtt_publish, whatever it returns, is passed id (k + 1) mod 65536 |
| `MqttApp.ForbiddenExactly` | wifi/sensor_mqtt/src/mqtt_client.c:296-333 | A run passes mqtt_publish the packet identifier 0, forbidden above QoS 0, if and only if the QoS is above 0 and it was called at least 65536 times |
| `MqttApp.ForbiddenReached` | wifi/sensor_mqtt/src/mqtt_client.c:296-333 | At QoS 1 or 2 such a run exists |
| `MqttApp.App.MqttEventHandler` | wifi/sensor_mqtt/src/mqtt_client.c:154-167 | The callback sets the flag on CONNACK 0 only and clears it on DISCONNECT, in place |
| `MqttApp.App.ConnectStep` | wifi/sensor_mqtt/src/mqtt_client.c:414-439 | One step of app_mqtt_connect in place is the modelled step |
| `MqttApp.App.RunStep` | wifi/sensor_mqtt/src/mqtt_client.c:364-412 | One step of app_mqtt_run and app_mqtt_process in place is the modelled step |
| `MqttApp.App.PublishWorkHandler` | wifi/sensor_mqtt/src/main.c:65-79 | One step of the work handler in place is the modelled step |
| `MqttApp.App.Step` | wifi/sensor_mqtt/src/main.c:127-137 | Any step of the whole program keeps the invariant |
| `MqttLoops.PollRunBranches` | wifi/sensor_mqtt/src/mqtt_client.c:369-393 | A timeout of the poll leads to mqtt_live, received data to mqtt_input, anything else to the next turn |
| `MqttLoops.LeavesRunExactly` | wifi/sensor_mqtt/src/mqtt_client.c:404-411 | Main leaves the loop of app_mqtt_run if and only if it finds the flag clear or mqtt_input (or the socket after it) or mqtt_live has failed |
| `MqttLoops.StaysConnected` | wifi/sensor_mqtt/src/mqtt_client.c:396-412 | While no DISCONNECT arrives and those results are zero, main stays in app_mqtt_run connected, and nothing is closed or connected anew |
| `MqttLoops.FailureCloses` | wifi/sensor_mqtt/src/mqtt_client.c:369-412 | After a non-zero result the next thing main does, whatever the others do, is close the connection |
| `MqttLoops.ClearedCloses` | wifi/sensor_mqtt/src/mqtt_client.c:404-411 | The same once it has found the flag clear |
| `MqttLoops.ConnectBranches` | wifi/sensor_mqtt/src/mqtt_client.c:418-438 | The turns of app_mqtt_connect: retry after a failed connect, read only after a positive poll, abort exactly if still unacknowledged |
| `MqttLoops.NoAckNoRun` | wifi/sensor_mqtt/src/mqtt_client.c:414-439 | Without a CONNACK 0 main never leaves app_mqtt_connect, in any schedule |
| `MqttLoops.HistoryFaithful` | wifi/sensor_mqtt/src/mqtt_client.c:103-121 | The history these results speak of misses no connect, opening, acknowledgement, closing or entry of app_mqtt_run |
| `MqttLoops.PublishedWhenConnected` | wifi/sensor_mqtt/src/main.c:69-70 | In every run each call of mqtt_publish comes from a handler whose last step found the flag set |

## Left out

- EchoServer.Poll: states nothing for streams that overrun the 128-byte buffer, because the source has no check there and its behaviour is undefined; the same holds of EchoServer.Interrupts. `EchoServer.FitsExactly` says exactly which streams these are. Bytes are characters.
- Topics.ParseFeed: requires the two output buffers to be different objects and at least as large as stated, as the C code does of its callers.
- LcdGrid.BootAndPlace: takes the wiring of 16x2 and 20x4 glass (row starts 0x00, 0x40, 0x14, 0x54); other wirings of four-row glass are not modelled.
- LcdFaults.WritesStayHalfOut: says nothing of commands sent while out of step; the controller then executes the wrongly paired byte.
- PingPong.RunsToTheEnd: the 16-bit round counter is unbounded here, so it speaks for the source up to 65535 rounds (the source has 100).
- SensorLines.HtRoundTrip: hexadecimal, infinite and NaN inputs of `sscanf` and binary rounding of floats are not modelled; the same holds of the pressure and inertial lines.
- The text of the log line itself, and its 320-byte buffer: the snapshot it prints is what is modelled.
- Clearing and printing the log, the file system and flash internals.
- Threads competing for the LCD driver's lock, its busy-waits and sleeps, and reading the controller.
- MQTT payloads, subscriptions, received commands, the poll descriptors, and name resolution, TLS and client set-up.
- The GPIO, LED, PWM and button applications, the other UART programs, and the random generator.
- `sem_task` and `sig_task`.
- `sensor_task/logger`.
- The Wi-Fi, DNS, HTTP and ping programs, `prv_mqtt`, and the connect and publish calls of the Adafruit adapter.
