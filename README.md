# libARSAL: the Android BLE manager and the time helpers

This project models two parts of libARSAL, Parrot's system abstraction layer:

- **ARSALBLEManager** (Java, Android). It turns the platform's asynchronous
  GATT callbacks into blocking calls: `connect`, `disconnect`,
  `discoverBLENetworkServices`, `setCharacteristicNotification`, `writeData`,
  `readData`, `unlock`, `reset` and `setListener`. Each blocking call arms a
  flag, calls the platform, then waits on one of six semaphores. The matching
  callback (`onConnectionStateChange`, `onServicesDiscovered`,
  `onDescriptorWrite`, `onCharacteristicChanged`) fills an error slot and
  releases that semaphore.
- **ARSAL_Time.h**. It holds the `TIMEVAL_TO_TIMESPEC` and
  `TIMESPEC_TO_TIMEVAL` macros and the documented contracts of
  `ARSAL_Time_TimevalEquals` and `ARSAL_Time_ComputeMsTimeDiff`.

The project has four modules:

- `ArsalTime` (`arsal_time.dfy`) holds the time helpers as pure functions on
  `Timeval` and `Timespec`. It uses C's truncating division by 1000, and it
  proves the two round trips: one is exact, the other is lossy by less than
  1000 ns.
- `BleState` (`ble_state.dfy`) is the manager as a state machine on values.
  A `State` record holds every field of the class.
  - Each blocking call has two functions. The begin step is the synchronized
    code up to the wait. The Await step is the code that runs after the wait
    returns.
  - Each callback is one function.
  - The field `waiting` records which synchronized call is blocked.
    `connect`, `disconnect`, `discoverBLENetworkServices` and
    `setCharacteristicNotification` all hold `synchronized (this)` through
    the semaphore wait, so no other synchronized call can begin until that
    call's Await step has run. The callbacks, `readData`, `writeData`,
    `unlock` and `setListener` are not synchronized.
  - A semaphore is a permit count. A wait finishes only when a permit is
    there, or when the waiting thread is interrupted; an interrupted wait
    takes no permit.
  - What the platform answers, and whether a wait is interrupted, are
    parameters.
- `BleRuns` (`ble_runs.dfy`) describes any sequence of call phases and
  callbacks as a run. It proves an invariant for every reachable state, and
  it proves the scenarios the code is written for: connect, timeout,
  reconnect, requested and unrequested disconnection, link loss during a
  wait, status reporting, and the notification queue.
- `BleManager` (`ble_manager.dfy`) is the class itself, `ArsalBleManager`,
  with the Java fields. Each method updates the fields in place. Each method
  is proved to move `Snapshot()` exactly as the matching `BleState` function
  moves the state, and every public method and callback that changes a field
  keeps `Valid()` (the invariant `Inv`); `WriteData` changes no field, and the
  small helpers the methods call are framed to one or two fields and do not
  mention `Valid()`. `CharacteristicList` stands for the caller's
  `List<BluetoothGattCharacteristic>` that `readData` appends to.
  `reset`'s six drain loops are kept as loops.

The model has these consequences. Each one is proved.

- `onConnectionStateChange` compares the active gatt with itself, not with
  the event's `gatt` argument. So a DISCONNECTED event drops the active gatt
  whichever gatt it names (`DisconnectIgnoresGattArgument`).
- `reset` drains the permits and only the permits. The gatt, the queue, the
  error slots and the configuring flag keep their values. As a result,
  notifications queued before a reset leave the next `readData` blocked
  (`ResetRestoresOnlyPermits`, `ResetStrandsQueuedNotifications`).
- `unlock` adds one permit on every call, even when nobody is waiting
  (`UnlockAccumulates`).
- A characteristic without the notification descriptor makes
  `setCharacteristicNotification` end with a NullPointerException. The
  configuring flag stays set after that.
- That stale configuring flag outlives the link. The next DISCONNECTED
  callback releases the configuration semaphore for nobody. After a
  reconnection, the next `setCharacteristicNotification` takes that permit
  and returns ARSAL_OK at once (`StaleConfiguringFlagLeavesPermit`).
- Two notifications that arrive before a read are returned together by one
  read. The second permit makes the next read return false at once
  (`BurstIsCoalesced`).
- The callbacks do not take the manager's monitor. The synchronized calls
  hold the monitor while they wait. A timed-out `connect` leaves the recorded
  device in place. Those are the behaviours modelled, rather than a callback
  path that takes the lock, a lock released during the wait, or an idempotent
  unlock.

## Model

| member | source | states |
|---|---|---|
| ArsalTime.TruncDiv1000 | Includes/libARSAL/ARSAL_Time.h:34 | C's `/ 1000` truncates toward zero: quotient·1000 is within 1000 of the dividend and lies between it and zero, for both signs |
| ArsalTime.TruncRem1000 | Includes/libARSAL/ARSAL_Time.h:34 | the C remainder has the dividend's sign, is less than 1000 in magnitude, and a = q·1000 + m |
| ArsalTime.TimevalToTimespec | Includes/libARSAL/ARSAL_Time.h:18-23 | the seconds are copied, and the timespec denotes exactly the same instant in nanoseconds |
| ArsalTime.TimespecToTimeval | Includes/libARSAL/ARSAL_Time.h:30-35 | the seconds are copied; the microseconds are the nanoseconds truncated toward zero (bounds for both signs) |
| ArsalTime.TimevalRoundTrip | Includes/libARSAL/ARSAL_Time.h:18-35 | timeval → timespec → timeval gives back every timeval |
| ArsalTime.TimespecRoundTripIsLossy | Includes/libARSAL/ARSAL_Time.h:18-35 | timespec → timeval → timespec drops the C remainder of the nanoseconds: the result is a multiple of 1000, within 1000 below for non-negative nanoseconds and toward zero otherwise, and equal to the input exactly when the nanoseconds are a multiple of 1000 |
| ArsalTime.TimevalToTimespecKeepsNormalized | Includes/libARSAL/ARSAL_Time.h:18-23 | a normalized timeval gives a normalized timespec whose nanoseconds fit a signed 32-bit long |
| ArsalTime.TimespecToTimevalKeepsNormalized | Includes/libARSAL/ARSAL_Time.h:30-35 | a normalized timespec gives a normalized timeval |
| ArsalTime.TimevalEquals | Includes/libARSAL/ARSAL_Time.h:38-47 | returns 1 when both fields are equal and 0 in all other cases |
| ArsalTime.TimevalEqualsIsSameInstant | Includes/libARSAL/ARSAL_Time.h:38-47 | on normalized timevals, 1 exactly when they denote the same instant |
| ArsalTime.ComputeMsTimeDiff | Includes/libARSAL/ARSAL_Time.h:49-60 | the whole milliseconds from start to end; the header fixes the unit and the sign convention, and the model rounds the total microsecond difference toward zero, for both orders |
| ArsalTime.MsTimeDiffSign | Includes/libARSAL/ARSAL_Time.h:49-60 | the result is non-negative when end is not before start, a negative result means the arguments were swapped, and 0 exactly for gaps under 1 ms |
| ArsalTime.MsTimeDiffAntisymmetric | Includes/libARSAL/ARSAL_Time.h:49-60 | swapping start and end negates the result |
| BleState.Init | JNI/java/com/parrot/arsdk/arsal/ARSALBLEManager.java:72-99 | no device, gatt or listener, an empty queue, no permits, all slots OK, all flags clear; satisfies Inv |
| BleState.Disconnect | JNI/java/com/parrot/arsdk/arsal/ARSALBLEManager.java:156-172 | without a gatt nothing changes; with one, askDisconnection is set and the call blocks on the disconnection semaphore; nothing else changes |
| BleState.Connect | JNI/java/com/parrot/arsdk/arsal/ARSALBLEManager.java:117-135 | with a live gatt it is exactly the begin step of disconnect, remembering the device; otherwise it records the device and blocks on the connection semaphore; nothing else changes |
| BleState.AwaitDisconnection | JNI/java/com/parrot/arsdk/arsal/ARSALBLEManager.java:170-181 | one permit taken (none if interrupted), askDisconnection cleared, and connect resumed (device recorded, wait for connection) when connect started the disconnect |
| BleState.AwaitConnection | JNI/java/com/parrot/arsdk/arsal/ARSALBLEManager.java:133-153 | the timed wait takes a permit if one is there; the result is ARSAL_ERROR_BLE_CONNECTION exactly when no gatt is active and ARSAL_OK otherwise |
| BleState.DiscoverServices | JNI/java/com/parrot/arsdk/arsal/ARSALBLEManager.java:187-229 | not connected: ARSAL_ERROR_BLE_NOT_CONNECTED and no change; rejected by the platform: ARSAL_ERROR with the flag cleared and the slot OK; accepted: blocks with the flag set and the slot OK |
| BleState.AwaitServicesDiscovery | JNI/java/com/parrot/arsdk/arsal/ARSALBLEManager.java:203-220 | returns the slot, or ARSAL_ERROR when interrupted; one permit taken unless interrupted; the flag is cleared |
| BleState.SetCharacteristicNotification | JNI/java/com/parrot/arsdk/arsal/ARSALBLEManager.java:356-376 | not connected: ARSAL_ERROR_BLE_NOT_CONNECTED and no change; otherwise flag set and slot OK, then it blocks, or it throws a NullPointerException (flag left set) when the descriptor is missing |
| BleState.AwaitConfiguration | JNI/java/com/parrot/arsdk/arsal/ARSALBLEManager.java:373-386 | returns the slot, or ARSAL_ERROR when interrupted; one permit taken unless interrupted; the flag is cleared |
| BleState.WriteData | JNI/java/com/parrot/arsdk/arsal/ARSALBLEManager.java:398-410 | the platform is called exactly when a gatt, a characteristic and data are all present; the result is true exactly when it was called and accepted the write |
| BleState.ReadData | JNI/java/com/parrot/arsdk/arsal/ARSALBLEManager.java:412-439 | one permit taken; true exactly when the queue was non-empty, in which case the whole queue is appended to the caller's list in order and the queue is emptied; otherwise the list and the queue are unchanged; interrupted: false and no change |
| BleState.Unlock | JNI/java/com/parrot/arsdk/arsal/ARSALBLEManager.java:441-452 | one more permit each on connection, configuration and read; nothing else changes |
| BleState.Reset | JNI/java/com/parrot/arsdk/arsal/ARSALBLEManager.java:454-491 | all six semaphores at zero permits; nothing else changes |
| BleState.SetListener | JNI/java/com/parrot/arsdk/arsal/ARSALBLEManager.java:236-239 | the listener is replaced; nothing else changes |
| BleState.ReleaseIfAsked | JNI/java/com/parrot/arsdk/arsal/ARSALBLEManager.java:265-269 | one disconnection permit exactly when the disconnection was asked for; nothing else changes |
| BleState.FailServicesIfInFlight | JNI/java/com/parrot/arsdk/arsal/ARSALBLEManager.java:271-276 | with a discovery in flight, the slot becomes ARSAL_ERROR_BLE_NOT_CONNECTED and one permit is added; without one, nothing changes |
| BleState.FailCharacteristicsIfInFlight | JNI/java/com/parrot/arsdk/arsal/ARSALBLEManager.java:278-283 | the same for the characteristic discovery |
| BleState.FailConfigurationIfInFlight | JNI/java/com/parrot/arsdk/arsal/ARSALBLEManager.java:285-290 | the same for the notification configuration |
| BleState.ConnectionStateChange | JNI/java/com/parrot/arsdk/arsal/ARSALBLEManager.java:244-302 | CONNECTED: the gatt becomes active and one connection permit is added; DISCONNECTED with a gatt: the gatt is dropped, a disconnection permit is added iff asked, each in-flight operation gets NOT_CONNECTED and a permit, and the listener is called iff the disconnection was not asked for and a listener is set; anything else: no change |
| BleState.ServicesDiscovered | JNI/java/com/parrot/arsdk/arsal/ARSALBLEManager.java:306-315 | a non-success status writes ARSAL_ERROR_BLE_SERVICES_DISCOVERING into the slot; always one permit |
| BleState.DescriptorWrite | JNI/java/com/parrot/arsdk/arsal/ARSALBLEManager.java:331-341 | a non-success status writes ARSAL_ERROR_BLE_CHARACTERISTIC_CONFIGURING into the slot; always one permit |
| BleState.CharacteristicChanged | JNI/java/com/parrot/arsdk/arsal/ARSALBLEManager.java:345-353 | the characteristic is appended to the queue and one read permit is added |
| BleRuns.ApplyPreservesInv | JNI/java/com/parrot/arsdk/arsal/ARSALBLEManager.java:117-491 | every call phase and every callback keeps Inv |
| BleRuns.RunPreservesInv | JNI/java/com/parrot/arsdk/arsal/ARSALBLEManager.java:117-491 | any run keeps Inv |
| BleRuns.ReachableStatesSatisfyInv | JNI/java/com/parrot/arsdk/arsal/ARSALBLEManager.java:72-99 | Inv holds in every state reachable from a newly constructed manager |
| BleRuns.PendingWaitCanComplete | JNI/java/com/parrot/arsdk/arsal/ARSALBLEManager.java:256-290 | a waiting disconnect, discovery or configuration is never stranded: its wait can finish now, or can finish after the DISCONNECTED callback |
| BleRuns.ApplyKeepsQueueCovered | JNI/java/com/parrot/arsdk/arsal/ARSALBLEManager.java:345-353 | every step except reset keeps each queued notification backed by a read permit |
| BleRuns.RunWithoutResetKeepsQueueCovered | JNI/java/com/parrot/arsdk/arsal/ARSALBLEManager.java:412-439 | along any run without reset, a non-empty queue never leaves readData blocked |
| BleRuns.ResetStrandsQueuedNotifications | JNI/java/com/parrot/arsdk/arsal/ARSALBLEManager.java:454-491 | after reset, queued notifications are kept but readData is blocked |
| BleRuns.BurstIsCoalesced | JNI/java/com/parrot/arsdk/arsal/ARSALBLEManager.java:412-439 | two notifications are returned by one read in arrival order, and the next read returns false without touching the list |
| BleRuns.DisconnectIgnoresGattArgument | JNI/java/com/parrot/arsdk/arsal/ARSALBLEManager.java:258 | a DISCONNECTED event has the same effect whichever gatt it names |
| BleRuns.ConnectTimesOut | JNI/java/com/parrot/arsdk/arsal/ARSALBLEManager.java:133-150 | connect with no callback before the wait ends reports ARSAL_ERROR_BLE_CONNECTION and only records the device |
| BleRuns.ConnectSucceeds | JNI/java/com/parrot/arsdk/arsal/ARSALBLEManager.java:247-254 | connect whose CONNECTED callback arrives reports ARSAL_OK with that gatt active |
| BleRuns.ReconnectDisconnectsFirst | JNI/java/com/parrot/arsdk/arsal/ARSALBLEManager.java:122-126 | connect on a live link first disconnects it silently, then connects; the connection and disconnection permit counts end where they started |
| BleRuns.StaleConfiguringFlagLeavesPermit | JNI/java/com/parrot/arsdk/arsal/ARSALBLEManager.java:285-290 | a configuring flag left set by the NullPointerException makes the next DISCONNECTED add a configuration permit with NOT_CONNECTED, so after reconnecting the next configuration returns ARSAL_OK before any descriptor-write callback |
| BleRuns.RequestedDisconnectIsSilent | JNI/java/com/parrot/arsdk/arsal/ARSALBLEManager.java:265-299 | a requested disconnection releases the disconnect wait and does not call the listener |
| BleRuns.DropFailsPendingDiscovery | JNI/java/com/parrot/arsdk/arsal/ARSALBLEManager.java:271-276 | a link drop during a service discovery makes it return ARSAL_ERROR_BLE_NOT_CONNECTED; the listener is called iff one is set |
| BleRuns.DropFailsPendingConfiguration | JNI/java/com/parrot/arsdk/arsal/ARSALBLEManager.java:285-290 | the same for a notification configuration |
| BleRuns.DiscoveryReportsStatus | JNI/java/com/parrot/arsdk/arsal/ARSALBLEManager.java:306-315 | discovery completed by the callback returns OK on success and ARSAL_ERROR_BLE_SERVICES_DISCOVERING otherwise, with the permit count restored |
| BleRuns.ConfigurationReportsStatus | JNI/java/com/parrot/arsdk/arsal/ARSALBLEManager.java:331-341 | configuration completed by the callback returns OK on success and ARSAL_ERROR_BLE_CHARACTERISTIC_CONFIGURING otherwise |
| BleRuns.ResetIdempotent | JNI/java/com/parrot/arsdk/arsal/ARSALBLEManager.java:454-491 | resetting twice is the same as resetting once |
| BleRuns.ResetRestoresOnlyPermits | JNI/java/com/parrot/arsdk/arsal/ARSALBLEManager.java:454-491 | from a reachable idle state, reset gives the constructor's state except for the device, gatt, listener, queue, two slots and the configuring flag |
| BleRuns.UnlockAccumulates | JNI/java/com/parrot/arsdk/arsal/ARSALBLEManager.java:441-452 | two unlocks leave two extra permits on each of the three semaphores |
| BleManager.ArsalBleManager.constructor | JNI/java/com/parrot/arsdk/arsal/ARSALBLEManager.java:72-99 | the new object's state is `BleState.Init()` and it is valid |
| BleManager.ArsalBleManager.Connect | JNI/java/com/parrot/arsdk/arsal/ARSALBLEManager.java:117-131 | updates the fields as `BleState.Connect`; keeps the invariant |
| BleManager.ArsalBleManager.AwaitConnection | JNI/java/com/parrot/arsdk/arsal/ARSALBLEManager.java:133-153 | result and fields as `BleState.AwaitConnection`; keeps the invariant |
| BleManager.ArsalBleManager.Disconnect | JNI/java/com/parrot/arsdk/arsal/ARSALBLEManager.java:156-168 | fields as `BleState.Disconnect`; keeps the invariant |
| BleManager.ArsalBleManager.AwaitDisconnection | JNI/java/com/parrot/arsdk/arsal/ARSALBLEManager.java:170-182 | fields as `BleState.AwaitDisconnection`; keeps the invariant |
| BleManager.ArsalBleManager.DiscoverBLENetworkServices | JNI/java/com/parrot/arsdk/arsal/ARSALBLEManager.java:187-229 | outcome and fields as `BleState.DiscoverServices`; keeps the invariant |
| BleManager.ArsalBleManager.AwaitServicesDiscovery | JNI/java/com/parrot/arsdk/arsal/ARSALBLEManager.java:203-220 | result and fields as `BleState.AwaitServicesDiscovery`; keeps the invariant |
| BleManager.ArsalBleManager.SetCharacteristicNotification | JNI/java/com/parrot/arsdk/arsal/ARSALBLEManager.java:356-376 | outcome and fields as `BleState.SetCharacteristicNotification`; keeps the invariant |
| BleManager.ArsalBleManager.AwaitConfiguration | JNI/java/com/parrot/arsdk/arsal/ARSALBLEManager.java:373-386 | result and fields as `BleState.AwaitConfiguration`; keeps the invariant |
| BleManager.ArsalBleManager.WriteData | JNI/java/com/parrot/arsdk/arsal/ARSALBLEManager.java:398-410 | true only when the platform was called; result as `BleState.WriteData`; changes no field |
| BleManager.ArsalBleManager.ReadData | JNI/java/com/parrot/arsdk/arsal/ARSALBLEManager.java:412-439 | result, fields and the caller's list as `BleState.ReadData`; keeps the invariant |
| BleManager.ArsalBleManager.Unlock | JNI/java/com/parrot/arsdk/arsal/ARSALBLEManager.java:441-452 | fields as `BleState.Unlock`; keeps the invariant |
| BleManager.ArsalBleManager.Reset | JNI/java/com/parrot/arsdk/arsal/ARSALBLEManager.java:454-491 | fields as `BleState.Reset`; keeps the invariant |
| BleManager.ArsalBleManager.DrainConnectionSem | JNI/java/com/parrot/arsdk/arsal/ARSALBLEManager.java:461-464 | the loop ends with no connection permit; nothing else changes |
| BleManager.ArsalBleManager.DrainDisconnectionSem | JNI/java/com/parrot/arsdk/arsal/ARSALBLEManager.java:466-469 | the same for the disconnection semaphore |
| BleManager.ArsalBleManager.DrainDiscoverServicesSem | JNI/java/com/parrot/arsdk/arsal/ARSALBLEManager.java:471-474 | the same for the discover-services semaphore |
| BleManager.ArsalBleManager.DrainDiscoverCharacteristicsSem | JNI/java/com/parrot/arsdk/arsal/ARSALBLEManager.java:476-479 | the same for the discover-characteristics semaphore |
| BleManager.ArsalBleManager.DrainReadCharacteristicSem | JNI/java/com/parrot/arsdk/arsal/ARSALBLEManager.java:481-484 | the same for the read semaphore |
| BleManager.ArsalBleManager.DrainConfigurationSem | JNI/java/com/parrot/arsdk/arsal/ARSALBLEManager.java:486-489 | the same for the configuration semaphore |
| BleManager.ArsalBleManager.SetListener | JNI/java/com/parrot/arsdk/arsal/ARSALBLEManager.java:236-239 | fields as `BleState.SetListener`; keeps the invariant |
| BleManager.ArsalBleManager.OnConnectionStateChange | JNI/java/com/parrot/arsdk/arsal/ARSALBLEManager.java:244-302 | whether the listener is called, and the fields, as `BleState.ConnectionStateChange`; keeps the invariant |
| BleManager.ArsalBleManager.ReleaseDisconnectionIfAsked | JNI/java/com/parrot/arsdk/arsal/ARSALBLEManager.java:265-269 | fields as `BleState.ReleaseIfAsked` |
| BleManager.ArsalBleManager.FailServicesDiscoveryIfInFlight | JNI/java/com/parrot/arsdk/arsal/ARSALBLEManager.java:271-276 | fields as `BleState.FailServicesIfInFlight` |
| BleManager.ArsalBleManager.FailCharacteristicsDiscoveryIfInFlight | JNI/java/com/parrot/arsdk/arsal/ARSALBLEManager.java:278-283 | fields as `BleState.FailCharacteristicsIfInFlight` |
| BleManager.ArsalBleManager.FailConfigurationIfInFlight | JNI/java/com/parrot/arsdk/arsal/ARSALBLEManager.java:285-290 | fields as `BleState.FailConfigurationIfInFlight` |
| BleManager.ArsalBleManager.OnServicesDiscovered | JNI/java/com/parrot/arsdk/arsal/ARSALBLEManager.java:306-315 | fields as `BleState.ServicesDiscovered`; keeps the invariant |
| BleManager.ArsalBleManager.OnDescriptorWrite | JNI/java/com/parrot/arsdk/arsal/ARSALBLEManager.java:331-341 | fields as `BleState.DescriptorWrite`; keeps the invariant |
| BleManager.ArsalBleManager.OnCharacteristicChanged | JNI/java/com/parrot/arsdk/arsal/ARSALBLEManager.java:345-353 | fields as `BleState.CharacteristicChanged`; keeps the invariant |

## Left out

- Android objects: `BluetoothDevice`, `BluetoothGatt`, characteristics and listeners are opaque handles compared by identity. The platform's replies (whether `discoverServices` and `writeCharacteristic` accept, whether `getDescriptor` finds the descriptor) are boolean parameters. The calls `connectGatt`, `disconnect`, `close`, `setCharacteristicNotification`, `setValue` on the descriptor and `writeDescriptor` have no effect the manager can observe, so they appear only as comments. The `setValue` of the payload onto the characteristic in `writeData` is not modelled.
- Threads, the monitor, the list mutex and time. Each step is atomic, and the interleavings are the sequences of actions that are enabled. A blocked call is the `waiting` field. The five-second timeout of `connect` is not a clock: the wait takes a permit if one is there and times out otherwise. The runtime's `InterruptedException` is an `interrupted` parameter. The `readCharacteristicMutex` lock is not modelled, because each step is already atomic.
- `finalize`, `getGatt`, the `context` field, `mGattCharacteristics`, logging (`ARSALPrint`, `printStackTrace`), and the `onCharacteristicRead` and `onDescriptorRead` callbacks, which do nothing. The `status` argument of `onConnectionStateChange` is accepted and ignored, as in the source.
- Null arguments are not modelled: the model takes only non-null values for them. In the Java code:
  - `connect(null)` first runs the disconnect when a gatt is live. It then stores null in `deviceBLEService` and throws a NullPointerException from `connectGatt` (lines 129-130). `BleState.Connect` takes a `Device`, not an `Option<Device>`.
  - `setCharacteristicNotification` with a null characteristic returns ARSAL_ERROR_BLE_NOT_CONNECTED when no gatt is active (lines 364, 388-391). It throws only when a gatt is live (lines 369-370), with the configuring flag already set.
  - `readData(null)` returns false when the queue is empty. It throws only when the queue is non-empty (lines 421-425). By then it has taken a read permit and holds `readCharacteristicMutex`, which stays locked and blocks every later `onCharacteristicChanged` (line 347).
  - The null descriptor, and a null `data` or characteristic in `writeData`, are modelled.
- BleState.AwaitConnection: the tryAcquire that times out is deterministic (it takes a permit exactly when one is already there), so a CONNECTED callback that arrives during the five seconds must be ordered before the Await step.
- ArsalTime.ComputeMsTimeDiff: the header fixes only the unit (milliseconds) and the sign convention (a negative result is an error; `end` must not be before `start`). How the result is rounded is the model's choice, because `ARSAL_Time.c` is not part of this model. The model truncates the total microsecond difference toward zero. Another reading, `Δsec·1000 + Δusec/1000`, differs: for start (0, 999999) and end (1, 0) it gives 1 where the model gives 0.
- Integer widths: the time fields are unbounded integers. `TimevalToTimespecKeepsNormalized` states when the multiplication fits 32 bits. The `int32_t` result of `ARSAL_Time_ComputeMsTimeDiff` is not truncated. Permit counts are unbounded (a Java semaphore holds at most `Integer.MAX_VALUE` permits).
- `ARSAL_Time.c` is not part of this model. `ArsalTime.TimevalEquals` follows the header's documented returns: 1 for the same value, 0 otherwise.
- The `gettimeofday` wrapper, which is disabled by `#if 0` in the header.
- `ARSAL_Print.h` is not part of this model.
