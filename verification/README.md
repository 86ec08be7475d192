# Verified models of libASPL

libASPL is a library for CoreAudio server plug-ins. Most of it hands calls on; what is hard sits in six
places, which this project models in Dafny and proves properties of. `dafny verify dfyconfig.toml` checks
the whole project.

**Double buffer** (`DoubleBuffer*.dfy`). A register with lock-free readers and blocking setters, made of two
slots, two shared mutexes, a version tag per slot and a published index. The protocol is a state machine with one
step for each atomic access, lock operation and access to a value; any number of readers interleave with the one
setter that holds the write mutex. `try_lock_shared` must fail while a slot is held exclusively and may fail while
a setter waits for it. The properties are about every run: reads are linearizable and never go back, a
value that is held is not touched, retries are paid for by Sets, waits are bounded by the readers that were there
when they began, and after a Set nobody holds an older version. The object itself, with its fields updated in
place, is tied to the same steps.

**Dispatcher** (`Bits`, `Identifiers`, `Dispatcher`, `Registry*`, `Id*`, `FindObject*`). The identifier
allocator with its chunked bitset of real 64-bit words, roving cursor and adaptive soft maximum is proved against a
description without loops: the first free identifier in cyclic order, so that one that is given back is not handed
out again before the cursor has come round. Over all runs of registrations, the
bitset, the registry and the counter agree as far as explicitly chosen identifiers allow (they are freed without
having been allocated). As long as that has not happened, identifiers stay below max(hint, 4 * P) + 64 for a peak
of P live objects; once it has, the bound is lost for good, and that is an equivalence. The other half is the
protocol between `FindObject` and `UnregisterObject`, a state machine in which finders hold the map of registrations
that they have read, and replacing the map waits for those who hold older ones.

**Device configuration** (`Device*.dfy`). Changes are queued for HAL, performed, aborted, or drained when the device
is removed. A queued function is a tree: it may request further changes and add and remove streams. Requests are
conserved in every run, also when calls throw; a request from outside another change overtakes none; and the wanted
streams are at every moment the owned ones with the pending stream requests replayed over them, as long as no
request is aborted or performed before an earlier one for its stream, the exact effect of which is said too.

**Ownership** (`Ownership*.dfy`, `Plugin*.dfy`). Objects on the heap, their owners and their scope maps, and the
plugin's three indexes of devices. All creations, additions and removals keep the whole world in agreement, and it
is said exactly which additions keep ownership free of cycles.

**Volume** (`Curve*.dfy`, `VolumeCurve.dfy`, `VolumeControl.dfy`). Piecewise linear conversions between raw values,
decibels and scalars. The loops over ranges are proved against the geometry: the point of the curve over a raw
value or at a level; on curves with gaps, against the curve pushed together. Reals stand for floats. `powf` is any
function whose result y, for x and p/q, is not negative and satisfies y^q = x^p.

**Clock and tracer** (`ZeroTimestamps.dfy`, `Tracer.dfy`). The zero timestamps reported while I/O runs, and
the nesting counters of the tracer.

Where the source mutates an object there is a class whose methods are proved against functions on values; the run
properties are lemmas about those functions.

## Where the code does not do what one might expect

- `RequestConfigurationChange` has an empty function as its default argument (include/aspl/Device.hpp:932). Its
  documentation does not say so, but calling it in place or draining it throws `bad_function_call`. A drain that
  comes upon it leaves it, and all requests after it, pending in a device without owner; a change that comes upon it
  while HAL performs it stays pending until it is aborted, and the device never queues anything again.
  `DeviceRuns.NullRequestBreaksDetach` and `DeviceRuns.NullRequestBreaksPerform` show it;
  `DeviceRuns.ThrowsIffCallsNull`, `DeviceRuns.QuietUnlessNull` and `DeviceRuns.DetachRunsUpToNull` say exactly when
  and what, `DeviceRuns.NullStaysUntilAborted` and `DeviceRuns.NeverQueuesAgain` for how long.
- A client's function that HAL performs takes effect before requests that are still pending. If it adds or removes
  a stream for which one is pending, the device ends up owning a stream that it does not list, or the other way
  round: `DeviceOvertaking.RemovedTooEarly`, and exactly when in `DeviceOvertaking.OvertakingKeepsIffNotBusy`. When
  HAL aborts a stream request (include/aspl/Device.hpp:922), they disagree in any case
  (`DeviceCounters.AbortKeepsIff`), and the stream counters are off for good (`DeviceCounters.CountersLoseAborted`);
  when it performs one out of order, they disagree exactly if the last word for the stream becomes another one
  (`DeviceOvertaking.PerformKeepsIff`).
- Two objects can be added to each other, and then own each other: `OwnershipRuns.MutualOwners`, and exactly when
  ownership stays a forest in `OwnershipRuns.StepAcyclicIff`.
- Of two devices that share a UID the index by UID loses one at once and both when either is removed
  (`Plugin.SharedUIDLost`), and removing a device that another object owns takes the plugin's device with the same UID
  out of it (`Plugin.ForeignUIDLost`). Exactly when devices are lost: `Plugin.AddedUIDs`, `Plugin.RemovedUIDs`, and for
  any call `PluginRuns.StepKeepsUIDsIff`.
- The comment in `UnregisterObject` (src/Dispatcher.cpp:157-159) places the wait for ongoing `FindObject` calls at the
  lock of the registration. Those calls hold the read lock of their map until they return, so the wait takes place
  inside `Set` in line 155 already (`FindObjectRuns.WaitIsBounded`). At the lock no finder can reach the registration
  any more (`FindObjectRuns.NobodyReachesRemoved`), the lock is free at once (`FindObjectRuns.LockIsFreeAtOnce`), and
  the branch in line 39 is never taken (`FindObjectRuns.TryLockNeverFails`).
- `VolumeCurve::AddRange` stops looking for overlaps at the first range that does not start after the new one,
  so ranges can overlap: `CurveRanges.OverlapUnnoticed`, and exactly when in `CurveRanges.AddKeepsDisjoint`.
- What the tracer prints of operations nested deeper than 1000 is wrong, and inside of an operation the depth is lost by
  then (`Tracer.DepthLost`, exactly when in `Tracer.DepthReturnsIff`); from the start its counters nevertheless
  come back to zero after every well-nested trace (`Tracer.PrintedAsExpectedIffShallow`).
- The zero timestamp falls behind when calls are rare, because the counter moves by one period a call:
  `ZeroTimestamps.RareCallsLag`; `ZeroTimestamps.TracksIffNonePassedOver` says exactly when, and
  `ZeroTimestamps.CatchesUp` how it recovers.
- An explicitly chosen identifier is freed without having been counted, so that the counter can run below zero
  and wrap around, and any identifier below 2^31 can be handed out then: `RegistryContinuations.PluginWrapsCounter` and
  `IdBoundLost.LostWithPlugin`. `IdBoundLost.BoundSurvivesIff` says exactly when the bound is lost, and
  `RegistryRuns.RegisterInv` and `RegistryRuns.UnregisterInv` by how much the counter is off.
- With all UInt32 identifiers in use the allocator hands out identifier 2 again, and the registration fails:
  `IdExhaustion.ExhaustedTakesTwo`, with the exact condition in `Identifiers.ChosenIsFresh`.

## Model

| member | source | states |
|---|---|---|
| `DoubleBuffer.StepInv` | include/aspl/DoubleBuffer.hpp:120-171 | Every step of every interleaving of any number of readers and the serialized setters keeps the invariant: the current slot has its value, its tag and no exclusive holder, shared counts are the readers that hold the slot, and whoever passed the re-check holds a slot with the value published under the index it loaded. |
| `DoubleBuffer.ConstructedInv` | include/aspl/DoubleBuffer.hpp:196-206 | A freshly constructed buffer satisfies that invariant. |
| `DoubleBuffer.SetterKeepsReader` | include/aspl/DoubleBuffer.hpp:261-299 | No step of a setter, at whatever point of Set, changes what a reader that has passed the re-check holds. |
| `DoubleBufferSteps.OddIsRemainder` | include/aspl/DoubleBuffer.hpp:305-313 | The slot of an index is the one `index % 2` picks. |
| `DoubleBufferSteps.StepRefinesRegister` | include/aspl/DoubleBuffer.hpp:240-300 | The protocol refines one atomic register: the value that the current index leads to changes at no step but the store of the index, and then to the input of that Set. |
| `DoubleBufferSteps.HeldValueStays` | include/aspl/DoubleBuffer.hpp:157-171 | Between the re-check and the release, no step of anyone else writes, clears or exclusively locks the slot a reader holds. |
| `DoubleBufferSteps.FailureMeansIndexMoved` | include/aspl/DoubleBuffer.hpp:143-155 | A read attempt, failing at the lock or at the re-check, fails only if the current index has moved on since the attempt loaded it. |
| `DoubleBufferSteps.AtRestOneValue` | include/aspl/DoubleBuffer.hpp:286-299 | With no Set running, exactly one slot of a non-trivial type holds a value, and it is the current one. |
| `DoubleBufferSteps.WaitGetsShorter` | include/aspl/DoubleBuffer.hpp:264-279 | While a setter waits for a slot, no step adds to the readers it waits for, weighted by their remaining steps, and each step of such a reader reduces them. |
| `DoubleBufferSteps.NoNewHolderWhileAwaited` | include/aspl/DoubleBuffer.hpp:152-161 | While a setter waits for a slot, no further reader passes the re-check on it. |
| `DoubleBufferSteps.WaitEnds` | include/aspl/DoubleBuffer.hpp:275 | When those readers are gone the setter can take the exclusive lock. |
| `DoubleBufferSteps.SoloStepProgress` | include/aspl/DoubleBuffer.hpp:118-163 | Wherever a setter is suspended, a reader has a step to take, and every step it takes brings it closer to holding the lock. |
| `DoubleBufferRuns.RunInv` | include/aspl/DoubleBuffer.hpp:120-300 | The invariant holds in every state of every run from construction on. |
| `DoubleBufferRuns.ReadIsLinearizable` | include/aspl/DoubleBuffer.hpp:120-163 | What a read returns was the value and the version of the register at an instant within the call. |
| `DoubleBufferRuns.HeldUntilRelease` | include/aspl/DoubleBuffer.hpp:184-190 | From acquiring to releasing the read lock, the value referred to is the one published under the reader's index, however many Sets run meanwhile. |
| `DoubleBufferRuns.ReadSeesEarlierVersions` | include/aspl/DoubleBuffer.hpp:122-163 | A read returns no version older than the one that was current when it began, and none that is not published yet. |
| `DoubleBufferRuns.ReadsNeverGoBack` | include/aspl/DoubleBuffer.hpp:120-163 | Of two reads that do not overlap, the later one never returns an older version. |
| `DoubleBufferRuns.SetPublishesOnce` | include/aspl/DoubleBuffer.hpp:240-300 | Each call of Set publishes its input once, and nothing else is published while it runs. |
| `DoubleBufferRuns.ReadAfterSet` | include/aspl/DoubleBuffer.hpp:234-240 | A read begun after a Set returned gets that Set's value unless a later Set published before the read was over. |
| `DoubleBufferRuns.RetriesBoundedBySets` | include/aspl/DoubleBuffer.hpp:122-163 | The failed attempts of a read are at most the number of Sets that published during it. |
| `DoubleBufferRuns.SoloReaderFinishes` | include/aspl/DoubleBuffer.hpp:116-163 | With every other thread frozen anywhere, a reader has the lock within six of its own steps. |
| `DoubleBufferRuns.WaitIsBounded` | include/aspl/DoubleBuffer.hpp:261-293 | In every run, the wait for a slot lasts for at most three steps of each of the readers that were there when it began; later readers do not prolong it. |
| `DoubleBufferFresh.RunFresh` | include/aspl/DoubleBuffer.hpp:281-299 | In every run with a non-trivial type, a reader holds the current version, or the one before while the setter is waiting for it to let go. |
| `DoubleBufferFresh.NoOldHoldersAfterSet` | include/aspl/DoubleBuffer.hpp:286-299 | Once a Set of a non-trivial type has returned, no reader holds an older version than the one it published, then or in any later state. |
| `DoubleBufferObject.SetAlone` | include/aspl/DoubleBuffer.hpp:240-300 | The steps of Set, taken without interruption, lead to the outcome the object's method is specified with. |
| `DoubleBufferObject.AfterSetInv` | include/aspl/DoubleBuffer.hpp:240-300 | That outcome satisfies the protocol's invariant and holds the new value. |
| `DoubleBufferObject.Buffer.constructor` | include/aspl/DoubleBuffer.hpp:197-206 | Construction is the first Set, from the blank buffer, and gives the initial state of the protocol. |
| `DoubleBufferObject.Buffer.Replace` | include/aspl/DoubleBuffer.hpp:245-299 | The assignments to tag, value and index of the new slot, and to tag and value of the old one, have the outcome that the uninterrupted setter reaches. |
| `DoubleBufferObject.Buffer.Set` | include/aspl/DoubleBuffer.hpp:240-300 | From a valid buffer, or a blank one, Set leaves a valid one with the new value, and is the uninterrupted run of the protocol's setter. |
| `DoubleBufferObject.Buffer.Attempt` | include/aspl/DoubleBuffer.hpp:122-161 | One pass of the retry loop: fails on an exclusively held slot or a changed tag, and leaves no trace. |
| `DoubleBufferObject.Buffer.Get` | include/aspl/DoubleBuffer.hpp:222-227 | With no setter running, the first pass yields the value of the last Set. |
| `Chunks.FullHasAll` | src/Dispatcher.cpp:240-242 | Comparing a chunk with `BitChunk(-1)` tells exactly whether all 64 mask tests hit. |
| `Bits.Marked` | src/Dispatcher.cpp:299-313 | Setting or clearing a bit, growing the bitset if need be, changes the test of that identifier and of no other. |
| `Identifiers.FindsUnique` | src/Dispatcher.cpp:230-281 | The description of what FindFreeID returns singles out one identifier. |
| `Identifiers.PastBitsetIffFull` | src/Dispatcher.cpp:269-280 | For every start, an identifier past the bitset is returned exactly if every non-reserved bit is set; with a bitset of the largest size, exactly then the returned identifier has its bit set, and it is 2. |
| `Identifiers.ChosenIsFresh` | src/Dispatcher.cpp:175-216 | An allocated identifier is a non-reserved UInt32, and its bit was clear if and only if the identifier space is not exhausted. |
| `IdCursor.ChosenAboveCursor` | src/Dispatcher.cpp:177-203 | Below the soft maximum, taken doubled when more than half of it is in use, and with a clear identifier above the cursor, the identifier allocated is above the cursor, and every non-reserved one between them has its bit set. |
| `IdCursor.ChosenFromTheBottom` | src/Dispatcher.cpp:199-200 | At the soft maximum it is the lowest clear one. |
| `IdCursor.ChosenAfterWrapping` | src/Dispatcher.cpp:201-203 | Below it, when nothing above the cursor is clear, the lowest one too, unless the cursor is at the end of the bitset. |
| `IdCursor.GoesBackIff` | src/Dispatcher.cpp:177-203 | The cursor goes back exactly at the soft maximum, when something is clear at or below it, or when nothing above it is clear. |
| `IdCursor.NotAgainBeforeGoingBack` | src/Dispatcher.cpp:175-228 | Over every run, an identifier at or below the cursor, such as one just unregistered, is not allocated again before the cursor has gone back. |
| `Dispatcher.Dispatcher.constructor` | src/Dispatcher.cpp:11-15 | An empty bitset and registry, with the hint as soft maximum. |
| `Dispatcher.Dispatcher.IsFree` | src/Dispatcher.cpp:283-297 | Free means neither reserved nor set, with bits past the end clear. |
| `Dispatcher.Dispatcher.SetFree` | src/Dispatcher.cpp:299-313 | Changes the bit of the one identifier. |
| `Dispatcher.Dispatcher.ScanChunk` | src/Dispatcher.cpp:236-265 | Finds the lowest candidate of a chunk, in the first round the lowest from the start on, or shows there is none. |
| `Dispatcher.Dispatcher.FindFreeID` | src/Dispatcher.cpp:230-281 | The chunked scan with its skipping and wrapping finds the first clear, non-reserved identifier in cyclic order from the start, and one past the bitset if there is none. |
| `Dispatcher.Dispatcher.AllocateID` | src/Dispatcher.cpp:175-216 | Takes the identifier after the cursor, or the first free one after it, or from zero once the soft maximum is reached; marks it, counts it and moves the cursor. |
| `Dispatcher.Dispatcher.FreeID` | src/Dispatcher.cpp:218-228 | Clears the bit and counts down, modulo 2^64, whether or not the bit was set. |
| `Dispatcher.Dispatcher.RegisterObject` | src/Dispatcher.cpp:73-112 | The registry after a registration, including the identifier that was allocated and then found to be registered already. |
| `Dispatcher.Dispatcher.UnregisterObject` | src/Dispatcher.cpp:114-173 | The registry after an unregistration; unknown identifiers change nothing. |
| `RegistryRuns.RegisterInv` | src/Dispatcher.cpp:73-112 | Registering keeps, also when no identifier is left: every set bit is a registered, non-reserved identifier, every registered one with a clear bit was chosen by its caller, and the counter is the number of set bits, less the frees of clear bits, plus the allocations of set bits, modulo 2^64. |
| `RegistryRuns.UnregisterInv` | src/Dispatcher.cpp:114-173 | Unregistering keeps the same. |
| `RegistryRuns.RunInv` | src/Dispatcher.cpp:73-228 | So it holds over all runs of registrations and unregistrations. |
| `RegistryRuns.AutoRegistrationIsFresh` | src/Dispatcher.cpp:85-99 | An automatic registration yields a fresh, non-reserved, unregistered identifier, and fails exactly if the allocator comes upon a registered one, which is one that a caller chose unless all identifiers are taken. |
| `RegistryRuns.RegistrationLasts` | src/Dispatcher.cpp:89-100 | Over every run, what a registration returned was unused and keeps leading to its object until it is unregistered. |
| `RegistryContinuations.PluginWrapsCounter` | src/Dispatcher.cpp:163 | A run of two calls, registering and unregistering the plugin's identifier, after which the counter stands at 2^64 - 1. |
| `IdExhaustion.ExhaustedTakesTwo` | src/Dispatcher.cpp:269-280 | A run in which 2^32 - 2 automatic registrations use up all identifiers, and the one after it is given identifier 2, which is registered, and fails. |
| `IdGrowth.FullBitsetCount` | src/Dispatcher.cpp:269-280 | Without a candidate, all but the two reserved identifiers below the end of the bitset are in use. |
| `IdGrowth.ChosenIsLow` | src/Dispatcher.cpp:179-203 | A chosen identifier is below max(hint, 4 * peak) or inside the bitset. |
| `IdGrowth.AllocatedIdsBounded` | src/Dispatcher.cpp:175-216 | In every run, as long as no unregistration has found its bit clear, every automatically allocated identifier is below max(hint, 4 * P) + 64, if that fits a UInt32, where P is the peak number of objects alive without a reserved identifier. |
| `IdGrowth.ReservedOnlySucceeds` | src/Dispatcher.cpp:175-216 | That is so, and no automatic registration fails, when callers choose only reserved identifiers and never unregister them. |
| `IdBoundLost.BoundLost` | src/Dispatcher.cpp:179-228 | In every run that ends with more unregistrations that found their bit clear than allocations that found it set (and fewer than 2^63 of them), every identifier from 2 to 2^31 - 1 is allocated in some continuation with never more objects alive than now, or one. |
| `IdBoundLost.BoundLostAsItIs` | src/Dispatcher.cpp:179-228 | And with at most one more alive, in some continuation in which no further unregistration finds its bit clear. |
| `IdBoundLost.BoundSurvivesIff` | src/Dispatcher.cpp:175-228 | While no identifier has been allocated twice, the bound of AllocatedIdsBounded holds in all continuations without a further such unregistration, and with a peak for which it fits, if and only if there has been none so far. |
| `IdBoundLost.LostWithPlugin` | src/Dispatcher.cpp:163 | For instance, once the plugin's identifier has been unregistered, any identifier from 2 to 2^31 - 1 is allocated in some run with never more than one object alive, whatever the hint, unless it is zero. |
| `FindObject.StepInv` | src/Dispatcher.cpp:17-173 | Every step of every interleaving of finders, the registration mutex holder and the objects' lives keeps the invariant that ties the map and its version, the null pointers, the locks and the raw pointers in use together. |
| `FindObjectRuns.UsedObjectIsThere` | src/Dispatcher.cpp:47-60 | A raw pointer in use leads to an object whose memory is there and whose UnregisterObject has not returned. |
| `FindObjectRuns.NoUseAfterUnregister` | src/Dispatcher.cpp:142-161 | Once UnregisterObject has returned for an object, no FindObject in any interleaving uses its raw pointer, then or later. |
| `FindObjectRuns.ReturnMarksUnregistered` | src/Dispatcher.cpp:160-173 | Leaving UnregisterObject is what makes that guarantee begin. |
| `FindObjectRuns.FoundWasRegistered` | src/Dispatcher.cpp:17-71 | FindObject(id) returns only an object that `id` led to, and whose destructor had not started, at instants within the call. |
| `FindObjectRuns.RegisteredIsFound` | src/Dispatcher.cpp:17-60 | An object that stays registered and owned all through the call is found, whatever else is registered and unregistered. |
| `FindObjectRuns.NobodyReachesRemoved` | src/Dispatcher.cpp:149-160 | When UnregisterObject comes to lock the registration, no finder has it in hand, nor a map that leads to it. |
| `FindObjectRuns.LockIsFreeAtOnce` | src/Dispatcher.cpp:157-160 | So in every run the exclusive lock is free at once, although the comment there says that it is waited for. |
| `FindObjectRuns.TryLockNeverFails` | src/Dispatcher.cpp:34-45 | And in no run does FindObject fail to lock a registration. |
| `FindObjectRuns.FinderStepWhileWaiting` | src/Dispatcher.cpp:149-155 | While the registrar is inside Set, each step of a finder with an older map brings it closer to letting go, and no finder comes to use the raw pointer of an object that is being unregistered. |
| `FindObjectRuns.WaitGetsShorter` | src/Dispatcher.cpp:155 | Calls that begin during the wait inside Set do not prolong it, and each step of a finder it waits for shortens it. |
| `FindObjectRuns.WaitEnds` | src/Dispatcher.cpp:155 | When those finders are gone Set can return. |
| `FindObjectRuns.WaitIsBounded` | src/Dispatcher.cpp:100-155 | In every run, RegisterObject and UnregisterObject are held up inside Set by at most six steps of each of the finders that were there when the wait began; calls that begin later do not prolong it. |
| `FindObjectRuns.BlockersAtMostSixEach` | src/Dispatcher.cpp:19-71 | That weight is at most six steps a finder. |
| `DeviceChanges.ThrowsIffHasNull` | src/Device.cpp:1613 | Running a change throws exactly if an empty function is in it, at whatever depth of requests. |
| `DeviceQueue.DrainThrowsIffNull` | src/Device.cpp:1667-1674 | The drain throws exactly if an empty function is among the pending changes. |
| `DeviceQueue.OrderIncreases` | src/Device.cpp:1666-1674 | The order in which the drain takes requests has each pending identifier once, increasing. |
| `DeviceQueue.DrainRunsAllInOrder` | src/Device.cpp:1666-1674 | Without empty functions the drain runs every pending change once, lowest identifier first, and empties the queue. |
| `DeviceQueue.DrainRunsUpToNull` | src/Device.cpp:1667-1674 | With an empty function among them, the drain runs exactly the pending changes before the first that has one, in order, and of that one what comes before the empty function; that one and all later ones stay. |
| `DeviceEffects.RequestWaits` | src/Device.cpp:1599-1608 | While the context has its host, the device its owner, and no change is being performed, every request, also that of adding or removing a stream, runs nothing, throws nothing, and is pending as it is under the next identifier. |
| `DeviceEffects.RequestRuns` | src/Device.cpp:1609-1614 | In every other case its function has been called when the call returns, and nothing is queued. |
| `DeviceEffects.PerformTakes` | src/Device.cpp:1685-1705 | Performing a pending request calls the functions in it, in order, and takes it from the queue unless that throws. |
| `DeviceEffects.LogIsInOrder` | src/Device.cpp:1599-1614 | Functions that are requested from within functions are called at once, each before those it requests and before the next one, up to an empty function. |
| `DeviceEffects.OnlyHALApplies` | src/Device.cpp:1589-1705 | In every run, while the device has host and owner and no performed change has thrown, owned streams and counters change, and functions are called, only when HAL performs a request or the device is detached. |
| `DeviceEffects.NothingAppliedBetween` | src/Device.cpp:1589-1614 | So over any stretch of a run without such calls. |
| `DeviceRuns.ThrowsIffCallsNull` | src/Device.cpp:1589-1708 | For every call: it throws if and only if it comes upon an empty function where the code calls it. |
| `DeviceRuns.NullRequestBreaksDetach` | src/Device.cpp:1654-1674 | A device with a pending empty request, which the default argument makes: removing it throws and leaves a request pending without an owner. |
| `DeviceRuns.NullRequestSticksInPerform` | src/Device.cpp:1685-1705 | A change that throws while HAL performs it stays pending, neither executed nor aborted, and leaves the nesting counter raised; nothing but the configuration changes besides. |
| `DeviceRuns.NullStaysUntilAborted` | src/Device.cpp:1667-1725 | In every run, a change with an empty function in it, once pending, is pending and unchanged in exactly the later states before the first abort of it, whatever is performed or drained; and after that it is aborted. |
| `DeviceRuns.NeverQueuesAgain` | src/Device.cpp:1685-1705 | In every run, once a change has thrown while HAL performed it, the device is inside it in all later states, and nothing is ever queued again. |
| `DeviceRuns.NullRequestBreaksPerform` | src/Device.cpp:1599-1613 | A reachable device for which that happens: the pending change requests the default argument. |
| `DeviceRuns.QuietUnlessNull` | src/Device.cpp:1589-1708 | Between calls nothing is pending without host and owner and no change is in progress, and a call breaks this exactly if it performs or drains an empty function. |
| `DeviceRuns.StepConserves` | src/Device.cpp:1589-1725 | Every call, whether or not it throws and whatever was thrown before, keeps: each request is exactly one of executed once, aborted, ignored for being empty, or pending, and no other identifier is any of these. |
| `DeviceRuns.RequestsConserved` | src/Device.cpp:1589-1725 | So over every run, with or without exceptions. |
| `DeviceRuns.RequestsAttended` | src/Device.cpp:1589-1708 | In every run, requests are pending only while the device has its host and owner, and no change is in progress between calls, exactly until HAL performs or a detach drains an empty function. |
| `DeviceRuns.LatePerformDoesNothing` | src/Device.cpp:1654-1658 | HAL calls for requests that were drained, performed, aborted or never made change nothing. |
| `DeviceRuns.NoOvertaking` | src/Device.cpp:1599-1614 | A change requested from outside another one is applied in place only if nothing is pending; otherwise it is queued behind everything pending. |
| `DeviceRuns.DetachRunsPendingInOrder` | src/Device.cpp:1638-1676 | Detaching runs exactly the pending requests, in increasing order of identifiers, and terminates with none left. |
| `DeviceRuns.DetachRunsUpToNull` | src/Device.cpp:1667-1674 | And if one of them has an empty function, exactly those before the first such one, which stays pending with all after it. |
| `DeviceStreams.StepKeepsStreams` | src/Device.cpp:511-600 | Every orderly call, whether or not it throws, keeps: replaying the pending stream requests over the owned streams and counters gives exactly the wanted lists, and the index by identifier covers exactly those lists. HAL performs the requests of different streams in any order. |
| `DeviceEffects.WithoutJoins` | src/Device.cpp:572-574 | Removing a stream from a list leaves the others in their order. |
| `DeviceScopes.AttachedIsAdded` | src/Device.cpp:538-548 | Attaching a stream is adding it to the scope map of its direction. |
| `DeviceScopes.DetachedIsRemoved` | src/Device.cpp:586-594 | Detaching one is removing its identifier from the first scope map that has it. |
| `DeviceStreams.WantedIsOwnedPlusPending` | src/Device.cpp:511-600 | So over every orderly run, in which the functions of clients may add and remove streams themselves. |
| `DeviceStreams.SettledMeansOwned` | src/Device.cpp:1652-1674 | With no stream request pending, as after a detach, the device owns exactly the streams of its lists, and its counters say how many. |
| `DeviceStreams.TidySettles` | src/Device.cpp:538-548 | A client's function that, when it runs, adds absent and removes present streams, at any depth of nested calls, and touches none with a pending request, keeps that agreement although it overtakes the queue. |
| `DeviceStreams.DrainSettles` | src/Device.cpp:1667-1674 | The drain at detach keeps it, also if it throws halfway. |
| `DeviceOvertaking.OvertakingKeepsIffNotBusy` | src/Device.cpp:1599-1614 | A call from inside a change, for a stream that is as it should be, keeps wanted and owned streams in agreement if and only if no request is pending for that stream. |
| `DeviceOvertaking.RemovedTooEarly` | src/Device.cpp:586-594 | A run in which it does not: a client's change removes a stream whose addition is pending, and in the end the device owns a stream that it does not list. |
| `DeviceOvertaking.PerformKeepsIff` | src/Device.cpp:1679-1708 | When HAL performs a stream request, in whatever order, they stay in agreement if and only if the last word for the stream stays the same: that of the latest other request for it, or of this one if there is none, is that of the latest one before. |
| `DeviceCounters.AbortKeepsIff` | src/Device.cpp:1710-1725 | When HAL aborts a request, they stay in agreement if and only if it is no pending request of AddStreamAsync or RemoveStreamAsync. |
| `DeviceCounters.StepBalanced` | src/Device.cpp:511-600 | However HAL performs and aborts, each stream counter and the length of its list differ by what the pending requests will count and by what has been aborted, modulo 2^32. |
| `DeviceCounters.CountersLoseAborted` | src/Device.cpp:511-600 | So in every run in which streams are added while absent and removed while present: what is aborted is lost for good. |
| `DeviceCounters.CountersRightIff` | src/Device.cpp:511-600 | Once no stream request is pending, a counter is the number of listed streams if and only if as many attachments as detachments of its direction have been aborted, modulo 2^32. |
| `DeviceObject.Device.RunChange` | src/Device.cpp:1613 | Calling the function of a change, with its nested requests applied in place, has the effect of the model's recursive run. |
| `DeviceObject.Device.RequestConfigurationChange` | src/Device.cpp:1589-1615 | With host, owner and no change being performed, only the queue changes, by the new entry; otherwise the queue does not, and the functions of the change have been called. Refines the model's request, exception included. |
| `DeviceObject.Device.PerformConfigurationChange` | src/Device.cpp:1679-1708 | Refines the model's perform: an unknown request leaves no entry behind, and an exception leaves the entry and the nesting counter. |
| `DeviceObject.Device.AbortConfigurationChange` | src/Device.cpp:1710-1725 | Refines the model's abort. |
| `DeviceObject.Device.DrainPending` | src/Device.cpp:1667-1674 | The loop terminates and refines the recursive drain, exception included. |
| `DeviceObject.Device.RequestOwnershipChange` | src/Device.cpp:1617-1677 | Refines attaching and detaching, both of which do nothing the second time. |
| `DeviceObject.Device.AddStreamAsync` | src/Device.cpp:511-554 | The stream is appended to the list of its direction at once, its ownership requested; null changes nothing. |
| `DeviceObject.Device.RemoveStreamAsync` | src/Device.cpp:556-600 | The same for removal. |
| `Ownership.Object.AttachOwner` | src/Object.cpp:187-199 | Owner and owner identifier agree afterwards. |
| `Ownership.Object.DetachOwner` | src/Object.cpp:201-207 | Neither is left. |
| `Ownership.Object.AddOwnedObject` | src/Object.cpp:107-146 | The object is entered in the one scope map and gets this owner; null and the object itself change nothing. |
| `Ownership.Object.FindOwned` | src/Object.cpp:154-158 | Finds the first scope, of all that there are and in the order of the map, that knows the identifier, if any does. |
| `Ownership.Object.RemoveOwnedObject` | src/Object.cpp:148-185 | Takes the identifier out of that one scope and frees that object of its owner; no other object is touched. |
| `Ownership.Object.GetOwnedObjectIDs` | src/Object.cpp:85-105 | Lists exactly the owned identifiers of the scope and class asked for, in the order of scopes and then of identifiers. |
| `Ownership.ListedIff` | src/Object.cpp:85-105 | An identifier is listed exactly if an object under it is owned in the scope and is of the class that were asked for. |
| `Ownership.ScopeListIncreases` | src/Object.cpp:85-105 | What is listed for one scope is in increasing order. |
| `Ownership.ScopesInOrder` | src/Object.cpp:85-105 | And what is in a scope with a lower code comes before what is in one with a higher. |
| `Ownership.ListedOnce` | src/Object.cpp:85-105 | None is listed twice if every object is in one scope, as in every consistent world. |
| `OwnershipForest.OwnerIffHeldOnce` | src/Object.cpp:107-207 | In a consistent world, the owner of x is o exactly if x sits in exactly one scope map of o, and otherwise it sits in none of them. |
| `OwnershipForest.AddedAgrees` | src/Object.cpp:107-146 | Adding an object without owner keeps all owners and scope maps of all objects in agreement. |
| `OwnershipForest.RemovedAgrees` | src/Object.cpp:148-185 | Removing keeps them too, and changes the owner of the object concerned only, if it was owned here. |
| `OwnershipForest.OwnerIDTells` | src/Object.cpp:80-83 | HasOwner, which looks at the identifier, is right about the pointer. |
| `OwnershipForest.NewWorldConsistent` | src/Object.cpp:107-207 | Any world of new objects with distinct identifiers is consistent. |
| `OwnershipForest.NewcomerConsistent` | src/Object.cpp:107-207 | And stays so when a further new object joins. |
| `OwnershipForest.Add` | src/Object.cpp:107-146 | The method on real objects moves the whole world as the agreement lemma says. |
| `OwnershipForest.Remove` | src/Object.cpp:148-185 | The same for removal. |
| `OwnershipForest.Create` | src/Object.cpp:187-207 | A constructor call in a consistent world gives a consistent one with one object more. |
| `OwnershipRuns.StepSound` | src/Object.cpp:107-207 | Creating, adding and removing keep owners and scope maps of all objects in agreement. |
| `OwnershipRuns.OwnerIffHeldOnceInRuns` | src/Object.cpp:107-207 | So in every state of every run that starts without objects, the owner of x is o exactly if x sits in exactly one scope map of o. |
| `OwnershipRuns.AddKeepsAcyclicIff` | src/Object.cpp:107-146 | Adding an ownerless x to o keeps ownership free of cycles if and only if o is not x nor anywhere below it. |
| `OwnershipRuns.MutualOwners` | src/Object.cpp:122-137 | The code only looks at the object itself: two objects that are added to each other own each other, with all maps in agreement. |
| `OwnershipRuns.StepAcyclicIff` | src/Object.cpp:107-207 | Of all calls only such an addition closes a cycle. |
| `OwnershipRuns.RunAcyclic` | src/Object.cpp:107-207 | So ownership is a forest all along every run without one. |
| `Plugin.WithoutFirstElements` | src/Plugin.cpp:174-183 | Erasing what std::find finds from a list without duplicates removes that device and no other. |
| `Plugin.WithoutFirstAt` | src/Plugin.cpp:174-183 | The other devices keep their order. |
| `Plugin.AddedCovers` | src/Plugin.cpp:121-133 | Adding keeps the list duplicate-free and the list and the index by identifier equal to what is owned. |
| `Plugin.RemovedCovers` | src/Plugin.cpp:174-190 | Removing keeps them too, whether or not the device was there. |
| `Plugin.AddedUIDs` | src/Plugin.cpp:135-143 | The index by UID only leads to owned devices, under their UIDs; and an addition keeps it leading to each of them that has one if and only if none of the others has the UID of the new one. |
| `Plugin.RemovedUIDs` | src/Plugin.cpp:192-200 | And a removal, of whatever device, if and only if it is one of the plugin's or none of those has its UID. |
| `Plugin.SharedUIDLost` | src/Plugin.cpp:135-143 | If two devices share a UID, the first one is not found by it, and once either is removed neither is. |
| `Plugin.ForeignUIDLost` | src/Plugin.cpp:192-200 | And when a device that someone else owns is removed, a device of the plugin with its UID is no longer found by it. |
| `Plugin.Plugin.AddDevice` | src/Plugin.cpp:90-152 | For every device: list, index by identifier and ownership agree before and after, and so does the index by UID if no two objects share one; a device that has an owner changes nothing. |
| `Plugin.Plugin.RemoveDevice` | src/Plugin.cpp:154-209 | The same for removal; one without an owner changes nothing. |
| `Plugin.Plugin.NewPluginValid` | src/Plugin.cpp:90-209 | A new plugin in a consistent world satisfies what AddDevice and RemoveDevice ask for. |
| `Plugin.Plugin.NewcomerValid` | src/Plugin.cpp:90-209 | And still does when a further object has been created. |
| `PluginRuns.StepInv` | src/Plugin.cpp:90-209 | Adding and removing devices, and whatever other owners do, keep the indexes and the ownership in agreement. |
| `PluginRuns.StepKeepsUIDsIff` | src/Plugin.cpp:90-209 | Every call keeps each device that has a UID in the index by it if and only if it is not such an addition or removal. |
| `PluginRuns.DeviceIndexedIffOwned` | src/Plugin.cpp:90-209 | In every state of every run, a device is in the duplicate-free list, and in the index by identifier, exactly if it sits in exactly one scope map of the plugin, and with distinct UIDs it is in the index by UID exactly if it has one besides. |
| `Plugin.Plugin.Attach` | src/Device.cpp:1621-1637 | Requesting ownership makes a device without owner owned by the plugin and changes no other owner; with an owner nothing changes. |
| `Plugin.Plugin.Detach` | src/Device.cpp:1638-1652 | Giving it up makes it unowned and changes no other owner; without one nothing changes. |
| `CurvePoints.CurveRises` | src/VolumeCurve.cpp:248-358 | A curve of joined rising lines rises strictly, so it has one point over each raw value and one at each level. |
| `CurvePoints.RawToDB` | src/VolumeCurve.cpp:307-358 | The level of the curve's point over the raw value brought into range. |
| `CurvePoints.Position` | src/VolumeCurve.cpp:286-288 | Where the curve reaches a level. |
| `CurveConversions.RawSurvivesDB` | src/VolumeCurve.cpp:248-358 | Raw to dB to raw gives the same raw value, for every raw value and every curve, and the clamped one out of range. |
| `CurveConversions.RawToDBRises` | src/VolumeCurve.cpp:307-358 | Raw to dB is strictly monotone on the raw range. |
| `CurveConversions.DBToRawRises` | src/VolumeCurve.cpp:248-305 | dB to raw is monotone on all decibels. |
| `CurveConversions.RoundedInRange` | src/VolumeCurve.cpp:290-294 | Rounding never leaves the raw range. |
| `CurveConversions.HalfStepAtMost` | src/VolumeCurve.cpp:278-294 | dB to raw to dB is within half of the local step of the clamped level. |
| `CurveConversions.NearestLevel` | src/VolumeCurve.cpp:290-294 | No raw value at all has a level closer to the wanted one than the one chosen. |
| `CurveConversions.HigherOfTwo` | src/VolumeCurve.cpp:290-294 | And of two equally close ones the higher is chosen. |
| `CurveConversions.QuantizedOnce` | src/VolumeCurve.cpp:248-358 | A level that has gone through raw once is not changed by going again. |
| `CurveScalars.PowersCancel` | src/VolumeCurve.cpp:384-415 | Raising to p/q and then to q/p changes nothing, for all positive p and q, with the power given by what it satisfies. |
| `CurveScalars.RawToScalarIsPower` | src/VolumeCurve.cpp:378-386 | The scalar of a raw value is its share of the range, raised to numerator over denominator where the scale is bent. |
| `CurveScalars.SquareFromTheStart` | src/VolumeCurve.cpp:17-18 | With the exponent a new curve has, it is the square of the share. |
| `CurveScalars.ScalarToRawIsClosest` | src/VolumeCurve.cpp:398-425 | For every scalar, no raw value of the range is closer to its share of it than the one returned, where the share is the clamped scalar, raised to denominator over numerator where the scale is bent; of two equally close ones the higher is returned. |
| `CurveScalars.RawSurvivesScalar` | src/VolumeCurve.cpp:360-425 | Raw to scalar to raw gives the same raw value, bent by whatever power or by none. |
| `CurveScalars.RawToScalarRises` | src/VolumeCurve.cpp:360-389 | Raw to scalar is strictly monotone, with the ends of the range at zero and one. |
| `CurveScalars.ScalarToRawRises` | src/VolumeCurve.cpp:398-425 | Scalar to raw is monotone and always in range, for scalars outside zero to one too. |
| `CurveRanges.AddKeepsDisjoint` | src/VolumeCurve.cpp:187-210 | Exactly when adding a range keeps the ranges disjoint; an overlap with only a later range than the first goes unnoticed. |
| `CurveRanges.OverlapUnnoticed` | src/VolumeCurve.cpp:198-204 | A curve and a range for which that happens. |
| `CurveRanges.AddExtends` | src/VolumeCurve.cpp:187-210 | A range that begins where the curve ends is appended, so every curve of joined rising lines can be built. |
| `VolumeCurve.Curve.SetTransferFunction` | src/VolumeCurve.cpp:77-185 | The exponent that each enumerator names, and none applied for the linear curve. |
| `VolumeCurve.ExponentsRise` | src/VolumeCurve.cpp:77-185 | Of the transfer functions that bend the scale, a later one has a greater exponent. |
| `VolumeCurve.Curve.SetIsApplyingTransferFunction` | src/VolumeCurve.hpp:49-52 | Switches the bending on or off and leaves the exponent. |
| `VolumeCurve.Curve.ResetRange` | src/VolumeCurve.cpp:212-215 | No range is left. |
| `VolumeCurve.Curve.AddRange` | src/VolumeCurve.cpp:187-210 | The scan turns a range away exactly if it overlaps the first entry, or starts before all and overlaps any. |
| `VolumeCurve.Curve.CheckForContinuity` | src/VolumeCurve.cpp:217-246 | True exactly if all neighbouring ranges abut in raw values and in decibels. |
| `CurveGaps.LevelRisesIff` | src/VolumeCurve.cpp:307-358 | Also on curves with gaps a louder raw value is never fewer decibels, and more exactly if the other one is below where the curve would end without its gaps. |
| `CurveGaps.NoGaps` | src/VolumeCurve.cpp:248-358 | On a continuous curve, what the loops compute on curves with gaps is the level of the curve over the raw value and the raw value closest to where it reaches the level. |
| `CurveGaps.JoinedAt` | src/VolumeCurve.cpp:331-355 | The curve that the loop over raw steps walks has the ranges in their order, each with its own width and height, beginning where the one before ends. |
| `CurveGaps.RawForIsNearest` | src/VolumeCurve.cpp:266-301 | The raw value for a level is, in steps of the first range that reaches up to it, within half a step of where the level is. |
| `VolumeCurve.Curve.ConvertDBToRaw` | src/VolumeCurve.cpp:248-305 | The loop over ranges finds the raw value closest to the curve's point at the clamped level, the higher one of two; with gaps, as many steps into the first range that reaches up to the level as it is above its beginning, after the steps of the ranges before. |
| `VolumeCurve.Curve.ConvertRawToDB` | src/VolumeCurve.cpp:307-358 | The loop over ranges finds the level of the curve's point over the clamped raw value; with gaps, of the point of the curve pushed together. |
| `VolumeCurve.Curve.ConvertRawToScalar` | src/VolumeCurve.cpp:360-389 | The share y of the raw range, or, if a transfer function applies and the last maximum less the first minimum is above 30 dB, the number that is not negative and whose denominator-th power is the numerator-th power of the share. |
| `VolumeCurve.Curve.ConvertScalarToRaw` | src/VolumeCurve.cpp:398-425 | The raw value closest to the share of the range that the clamped scalar stands for under the same condition, the higher one of two. |
| `VolumeCurve.Curve.ConvertDBToScalar` | src/VolumeCurve.cpp:391-396 | By way of the raw value. |
| `VolumeCurve.Curve.ConvertScalarToDB` | src/VolumeCurve.cpp:427-432 | By way of the raw value. |
| `VolumeCurve.ScalarSurvivesDB` | src/VolumeCurve.cpp:391-432 | Scalar to dB to scalar loses no more than one rounding to a raw value. |
| `VolumeCurve.DBSurvivesScalar` | src/VolumeCurve.cpp:391-432 | dB to scalar to dB neither. |
| `VolumeControl.Control.constructor` | src/VolumeControl.cpp:14-25 | The single range makes a usable curve and the volume starts at its maximum. |
| `VolumeControl.Control.SetRawValue` | src/VolumeControl.cpp:42-87 | The stored value is the wanted one brought into range; listeners are told exactly if another value than the stored one was asked for. |
| `VolumeControl.Control.GetDecibelValue` | src/VolumeControl.cpp:89-92 | The level of the stored value. |
| `VolumeControl.Control.SetDecibelValue` | src/VolumeControl.cpp:94-110 | The nearest raw value is stored; setting the level that is read changes nothing and tells nobody. |
| `VolumeControl.Control.GetScalarValue` | src/VolumeControl.cpp:112-115 | The scalar of the stored value. |
| `VolumeControl.Control.SetScalarValue` | src/VolumeControl.cpp:117-133 | Setting the scalar that is read changes nothing and tells nobody. |
| `VolumeControl.Control.ApplyProcessing` | src/VolumeControl.cpp:171-185 | In place, each sample of the frames is multiplied by the scalar volume and clipped at one, and those beyond are untouched. |
| `VolumeControl.ProcessedIsProduct` | src/VolumeControl.cpp:171-185 | A sample within one is multiplied by the scalar volume and nothing else. |
| `VolumeControl.ProcessedSample` | src/VolumeControl.cpp:171-185 | Processing never raises a sample or turns its sign, follows the order of the raw volumes, is silence at the minimum and nothing at the maximum. |
| `ZeroTimestamps.Timeline.StartIO` | src/Device.cpp:1071-1130 | Only the first client asks the handler and sets the anchor and the counter; every client that starts is counted. |
| `ZeroTimestamps.Timeline.StopIO` | src/Device.cpp:1132-1181 | One client fewer; the clock is left. |
| `ZeroTimestamps.Timeline.GetZeroTimeStamp` | src/Device.cpp:1261-1302 | Reports k * period and a host time that is less than one tick before anchor + k * ticks per period, for the counter k after the call. |
| `ZeroTimestamps.ClientsCounted` | src/Device.cpp:1095-1162 | Over every run, the start count is what it was, with the starts that succeed less the stops, counted from the events alone: a start succeeds if there are clients or the handler accepts it. |
| `ZeroTimestamps.ClockKept` | src/Device.cpp:1113-1130 | As long as no client starts while there is none, the anchor stays, the reported period never falls, and it grows by at most one a call. |
| `ZeroTimestamps.AnchorIsLastFreshStart` | src/Device.cpp:1117-1126 | In every run the anchor is the time of the last start of a client while there was none. |
| `ZeroTimestamps.AnchorWhileRunning` | src/Device.cpp:1117-1126 | So while clients are there it is that of the first start, whoever else starts and stops. |
| `ZeroTimestamps.NoDrift` | src/Device.cpp:1284-1295 | Rounding down to ticks does not add up over the periods. |
| `ZeroTimestamps.AskFollows` | src/Device.cpp:1281-1297 | One call takes the counter to the period in progress, but by at most one period, and never to one that has not begun. |
| `ZeroTimestamps.NextTimestamp` | src/Device.cpp:1281-1297 | Two reports in a row are the same, or one period apart in samples and a period of ticks, rounded down or up, apart in host time. |
| `ZeroTimestamps.NeverInTheFuture` | src/Device.cpp:1113-1130 | In no run, with clients starting and stopping, is a reported host time later than the call. |
| `ZeroTimestamps.TracksIffNonePassedOver` | src/Device.cpp:1261-1302 | Every report of a run, however often I/O is stopped and started in it, is of the latest period that has begun, if and only if no more than one period begins between any two calls, or between a first start and the next call. |
| `ZeroTimestamps.OftenEnoughTracks` | src/Device.cpp:1113-1130 | That is so from the first start on, through all stops and new starts, if calls are at most floor(ticks per period) ticks apart. |
| `ZeroTimestamps.CatchesUp` | src/Device.cpp:1281-1291 | Until I/O is started anew, a clock that has fallen behind reaches a period that has begun after as many calls as it was periods behind. |
| `ZeroTimestamps.RareCallsLag` | src/Device.cpp:1281-1291 | A device asked for the first time ten periods after its start reports the first period. |
| `Tracer.Tracer.OperationBegin` | src/Tracer.cpp:64-93 | Counters and output of a beginning, as the trace lemmas use them. |
| `Tracer.Tracer.Message` | src/Tracer.cpp:95-118 | The same for a message. |
| `Tracer.Tracer.OperationEnd` | src/Tracer.cpp:120-146 | The same for an end, paired or not. |
| `Tracer.UnpairedIff` | src/Tracer.cpp:120-146 | The tracer complains of an end exactly if no operation is begun, and the depth then stays at zero. |
| `Tracer.IgnoredIsSilent` | src/Tracer.cpp:80-93 | Inside an ignored operation, nothing of a trace within the hard limit is printed and both counters come back. |
| `Tracer.TracePrinted` | src/Tracer.cpp:64-146 | Outside of one, exactly the operations and messages without an ignored operation at or above them are printed, each at its nesting depth, and both counters come back. |
| `Tracer.TooDeepComplains` | src/Tracer.cpp:72-78 | A trace that is nested deeper than the hard limit, ignored or not, makes the tracer complain. |
| `Tracer.CountersNeverRise` | src/Tracer.cpp:120-146 | However deep a well-nested trace is, it leaves no counter higher than it was. |
| `Tracer.DepthReturnsIff` | src/Tracer.cpp:72-78 | The depth comes back if and only if the trace is outside of every operation or within the hard limit; otherwise it ends lower. |
| `Tracer.DepthLost` | src/Tracer.cpp:72-78 | A thousand operations inside one another inside of an operation, after which that operation's depth is lost. |
| `Tracer.PrintedAsExpectedIffShallow` | src/Tracer.cpp:64-146 | For every ignore predicate, every well-nested trace leaves both counters at zero, and is printed as it should be if and only if it is at most 1000 operations deep. |

## Left out

- Weak memory order: every atomic access is one sequentially consistent step.
- Lock failures other than those of a slot that is held exclusively or awaited.
- The wrap of the double buffer's version number at the largest SInt64: indexes are unbounded here, and a
  reader that is suspended through 2^63 Sets is not modelled.
- Fairness of the shared mutexes: waits are bounded in steps of the readers concerned, not in time.
- The map of registrations is read in one step and published in one step, and `Set` then waits for the holders of older
  maps. `DoubleBufferRuns.ReadIsLinearizable`, `DoubleBufferRuns.HeldUntilRelease` and
  `DoubleBufferFresh.NoOldHoldersAfterSet` say so of the double buffer; the two state machines are not composed step
  by step.
- Ownership.Object.AttachOwner: needs an object without owner; with one (src/Object.cpp:191-195), detaching from the
  previous owner would lock the object's mutex, which is not recursive, a second time.
- Ownership.Object.AddOwnedObject: needs the same of an object that it adds.
- OwnershipForest.Add: needs the same.
- Scope maps left empty by a removal: the nested maps by scope and identifier are one map by pairs here.
- Plugin.Plugin.Attach: the ownership part of the device's request only; its notifications to HAL are left out.
- Plugin.Plugin.Detach: the same; that the device drains its queue then is
  DeviceObject.Device.RequestOwnershipChange.
- IsInstance is a set of class identifiers per object.
- Functions passed to RequestConfigurationChange that throw exceptions of their own, or that add or remove the
  device they belong to; apart from streams and requests, a client's own effect is an entry in a log.
- DeviceStreams.WantedIsOwnedPlusPending: a stream that is added while present or removed while absent is not covered;
  of stream requests that HAL aborts or performs before an earlier one for the same stream,
  DeviceCounters.AbortKeepsIff, DeviceCounters.CountersLoseAborted and DeviceOvertaking.PerformKeepsIff say the effect.
- DeviceOvertaking.PerformKeepsIff: needs that an identifier stands for one stream, as long as requests for it are
  pending, and for none that the device owns in the other direction.
- The call that tells HAL of a queued request, and the handlers that are told of the first start and the last stop.
- Calls of HAL with the wrong object identifier, which are turned away before anything else.
- The other asynchronous setters of Device, which queue one assignment each.
- VolumeCurve.Curve.ConvertDBToRaw: needs a range, and ranges that rise strictly; on an empty curve the source
  dereferences the end of the map, and on ranges with equal ends it divides by zero.
- VolumeCurve.Curve.ConvertRawToDB: needs the same.
- VolumeCurve.Curve.ConvertDBToScalar: needs the same.
- VolumeCurve.Curve.ConvertScalarToDB: needs the same.
- VolumeCurve.Curve.ConvertRawToScalar: needs a raw range that is not empty, as the source divides by its width.
- VolumeControl.Control.constructor: needs minima below the maxima, for the same reasons.
- Rounding of floats and overflow of SInt32 in raw ranges: reals and unbounded integers.
- VolumeControl.Control.ApplyProcessing: the product of frame and channel counts does not wrap around here.
- Existence of real powers: `powf` is given by the equation it satisfies, not constructed.
- Changes of sample rate or period while I/O runs, and StopIO without StartIO.
- Formatting, indentation limit and destinations of the tracer, and the mode in which it does nothing, beyond that it
  changes nothing; threads each have their own counters, so one is modelled.
- Generated property dispatch, string tables, `Storage`, `Convert`, `Driver`, `Context`, streams' formats, mute
  controls and the handlers' defaults: wide but shallow.
