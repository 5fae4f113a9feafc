/**
 * The state machine behind ARSALBLEManager, on values.
 *
 * `State` holds every field of the manager. Each blocking public operation is
 * split in two: its begin step (what runs under `synchronized (this)` up to and
 * including the transport call) and its Await step (what runs once the
 * semaphore wait returns). Each GATT callback is one step. The transport's
 * answers and the runtime's interruptions are parameters; a semaphore is a
 * permit count, and a blocking `acquire` can only complete when the count is
 * positive (or when the waiting thread is interrupted).
 */
module BleState {

  datatype Option<+T> = None | Some(value: T)

  /** The values of ARSAL_ERROR_ENUM that the manager returns or stores. */
  datatype ArsalError =
    | Ok                                // ARSAL_OK
    | Error                             // ARSAL_ERROR
    | ErrorBleConnection                // ARSAL_ERROR_BLE_CONNECTION
    | ErrorBleNotConnected              // ARSAL_ERROR_BLE_NOT_CONNECTED
    | ErrorBleServicesDiscovering       // ARSAL_ERROR_BLE_SERVICES_DISCOVERING
    | ErrorBleCharacteristicConfiguring // ARSAL_ERROR_BLE_CHARACTERISTIC_CONFIGURING

  /** Opaque platform objects, compared by identity. */
  datatype Gatt = Gatt(handle: nat)
  datatype Device = Device(address: nat)
  datatype Characteristic = Characteristic(handle: nat)
  datatype Listener = Listener(handle: nat)

  /** The connection states the platform reports to onConnectionStateChange. */
  datatype ProfileState = StateDisconnected | StateConnecting | StateConnected | StateDisconnecting

  /** The platform's GATT_SUCCESS status code. */
  const GattSuccess: int := 0

  /**
   * The public call that holds the manager's monitor while it is blocked on a
   * semaphore. `WaitDisconnection(Some(d))` is the disconnect that `connect(d)`
   * runs first when a gatt is still active.
   */
  datatype Wait =
    | NoWait
    | WaitConnection
    | WaitDisconnection(thenConnect: Option<Device>)
    | WaitServices
    | WaitConfiguration

  datatype State = State(
    device: Option<Device>,
    activeGatt: Option<Gatt>,
    listener: Option<Listener>,
    notifications: seq<Characteristic>,
    connectionSem: nat,
    disconnectionSem: nat,
    discoverServicesSem: nat,
    discoverCharacteristicsSem: nat,
    readCharacteristicSem: nat,
    configurationSem: nat,
    discoverServicesError: ArsalError,
    discoverCharacteristicsError: ArsalError,
    configurationError: ArsalError,
    askDisconnection: bool,
    isDiscoveringServices: bool,
    isDiscoveringCharacteristics: bool,
    isConfiguringCharacteristics: bool,
    waiting: Wait)

  /** A step that also produces a value for its caller. */
  datatype Step<+T> = Step(next: State, result: T)

  /** How the begin step of a blocking call ends. */
  datatype Begun =
    | Waiting                  // the call is now blocked on its semaphore
    | Returned(code: ArsalError)
    | ThrewNullPointer         // the call ended with a NullPointerException

  datatype ReadResult = ReadResult(ok: bool, out: seq<Characteristic>)

  datatype WriteResult = WriteResult(transportCalled: bool, ok: bool)

  predicate NoPermits(s: State) {
    && s.connectionSem == 0 && s.disconnectionSem == 0 && s.discoverServicesSem == 0
    && s.discoverCharacteristicsSem == 0 && s.readCharacteristicSem == 0 && s.configurationSem == 0
  }

  /**
   * What holds in every reachable state:
   *  - the services flag is set exactly while discoverBLENetworkServices waits;
   *  - setCharacteristicNotification only waits with its flag set (the flag
   *    can outlive the call, when the call ends with a NullPointerException);
   *  - askDisconnection is set exactly while disconnect waits;
   *  - nothing ever starts a characteristic discovery, so its flag, slot and
   *    semaphore keep their initial values;
   *  - a waiting disconnect, discovery or configuration is never stranded:
   *    either a gatt is active (so the platform still owes a callback) or a
   *    permit is already there for it.
   */
  predicate Inv(s: State) {
    && (s.isDiscoveringServices <==> s.waiting == WaitServices)
    && (s.waiting == WaitConfiguration ==> s.isConfiguringCharacteristics)
    && (s.askDisconnection <==> s.waiting.WaitDisconnection?)
    && !s.isDiscoveringCharacteristics
    && s.discoverCharacteristicsSem == 0
    && s.discoverCharacteristicsError == Ok
    && (s.waiting.WaitDisconnection? ==> s.activeGatt.Some? || s.disconnectionSem > 0)
    && (s.waiting == WaitServices ==> s.activeGatt.Some? || s.discoverServicesSem > 0)
    && (s.waiting == WaitConfiguration ==> s.activeGatt.Some? || s.configurationSem > 0)
  }

  /** The constructor: no device, no gatt, no listener, empty list, no permits, slots OK. */
  function Init(): (s: State)
    ensures Inv(s) && NoPermits(s)
    ensures s.device == None && s.activeGatt == None && s.listener == None && s.notifications == []
    ensures s.discoverServicesError == Ok && s.discoverCharacteristicsError == Ok && s.configurationError == Ok
    ensures !s.askDisconnection && !s.isDiscoveringServices && !s.isDiscoveringCharacteristics
    ensures !s.isConfiguringCharacteristics && s.waiting == NoWait
  {
    State(None, None, None, [], 0, 0, 0, 0, 0, 0, Ok, Ok, Ok, false, false, false, false, NoWait)
  }

  // ---------------------------------------------------------------------------
  // Public operations

  /**
   * disconnect, begin step: with an active gatt, asks for the disconnection,
   * calls the platform's disconnect and blocks on the disconnection
   * semaphore; without one it is a no-op.
   */
  function Disconnect(s: State): (t: State)
    requires s.waiting == NoWait
    ensures s.activeGatt.None? ==> t == s
    ensures s.activeGatt.Some? ==> t.askDisconnection && t.waiting == WaitDisconnection(None)
    ensures t.(askDisconnection := s.askDisconnection, waiting := NoWait) == s
  {
    if s.activeGatt.Some? then s.(askDisconnection := true, waiting := WaitDisconnection(None)) else s
  }

  /**
   * connect, begin step: when a gatt is still active, connect first runs
   * disconnect (and resumes in AwaitDisconnection); otherwise it records the
   * device, calls the platform's connectGatt and blocks on the connection
   * semaphore.
   */
  function Connect(s: State, device: Device): (t: State)
    requires s.waiting == NoWait
    ensures s.activeGatt.Some? ==> t == Disconnect(s).(waiting := WaitDisconnection(Some(device)))
    ensures s.activeGatt.None? ==>
      t.device == Some(device) && t.waiting == WaitConnection && t.(device := s.device, waiting := NoWait) == s
  {
    if s.activeGatt.Some? then
      s.(askDisconnection := true, waiting := WaitDisconnection(Some(device)))
    else
      s.(device := Some(device), waiting := WaitConnection)
  }

  /**
   * disconnect, Await step: the wait takes one disconnection permit (none if
   * interrupted), askDisconnection is cleared, and, for the disconnect run by
   * connect, connect goes on: it records the device, calls connectGatt and
   * blocks on the connection semaphore.
   */
  function AwaitDisconnection(s: State, interrupted: bool): (t: State)
    requires s.waiting.WaitDisconnection?
    requires interrupted || s.disconnectionSem > 0
    ensures !t.askDisconnection
    ensures t.disconnectionSem == if interrupted then s.disconnectionSem else s.disconnectionSem - 1
    ensures s.waiting.thenConnect.None? ==> t.waiting == NoWait && t.device == s.device
    ensures s.waiting.thenConnect.Some? ==> t.waiting == WaitConnection && t.device == s.waiting.thenConnect
    ensures t.(device := s.device, disconnectionSem := s.disconnectionSem, askDisconnection := s.askDisconnection,
               waiting := s.waiting) == s
  {
    var s1 := s.(disconnectionSem := if interrupted then s.disconnectionSem else s.disconnectionSem - 1,
                 askDisconnection := false);
    match s.waiting.thenConnect
    case None => s1.(waiting := NoWait)
    case Some(d) => s1.(device := Some(d), waiting := WaitConnection)
  }

  /**
   * connect, Await step. The five-second tryAcquire takes a permit when there
   * is one and times out otherwise (or is interrupted, taking none); either
   * way connect then reports ARSAL_ERROR_BLE_CONNECTION exactly when no gatt
   * is active, and ARSAL_OK otherwise.
   */
  function AwaitConnection(s: State, interrupted: bool): (r: Step<ArsalError>)
    requires s.waiting == WaitConnection
    ensures r.result == ErrorBleConnection <==> s.activeGatt.None?
    ensures r.result == Ok <==> s.activeGatt.Some?
    ensures r.next.connectionSem == if !interrupted && s.connectionSem > 0 then s.connectionSem - 1 else s.connectionSem
    ensures r.next.waiting == NoWait
    ensures r.next.(connectionSem := s.connectionSem, waiting := s.waiting) == s
  {
    var acquired := !interrupted && s.connectionSem > 0;
    var t := s.(connectionSem := if acquired then s.connectionSem - 1 else s.connectionSem, waiting := NoWait);
    Step(t, if s.activeGatt.Some? then Ok else ErrorBleConnection)
  }

  /**
   * discoverBLENetworkServices, begin step. Without an active gatt it returns
   * ARSAL_ERROR_BLE_NOT_CONNECTED and touches nothing. Otherwise it sets the
   * flag, clears the slot and calls the platform's discoverServices, whose
   * answer is `accepted`: when rejected it returns ARSAL_ERROR at once with
   * the flag cleared again and the slot left at OK; when accepted it blocks
   * on the discover-services semaphore with the flag set.
   */
  function DiscoverServices(s: State, accepted: bool): (r: Step<Begun>)
    requires s.waiting == NoWait
    ensures s.activeGatt.None? ==> r == Step(s, Returned(ErrorBleNotConnected))
    ensures s.activeGatt.Some? && !accepted ==>
      r == Step(s.(isDiscoveringServices := false, discoverServicesError := Ok), Returned(Error))
    ensures s.activeGatt.Some? && accepted ==>
      && r.result == Waiting && r.next.waiting == WaitServices
      && r.next.isDiscoveringServices && r.next.discoverServicesError == Ok
      && r.next.(isDiscoveringServices := s.isDiscoveringServices, discoverServicesError := s.discoverServicesError,
                 waiting := NoWait) == s
  {
    if s.activeGatt.None? then
      Step(s, Returned(ErrorBleNotConnected))
    else
      var armed := s.(isDiscoveringServices := true, discoverServicesError := Ok);
      if accepted then Step(armed.(waiting := WaitServices), Waiting)
      else Step(armed.(isDiscoveringServices := false), Returned(Error))
  }

  /**
   * discoverBLENetworkServices, Await step: the acquire takes one permit and
   * the call returns the slot as it is now; interrupted, it takes none and
   * returns ARSAL_ERROR. The flag is cleared either way.
   */
  function AwaitServicesDiscovery(s: State, interrupted: bool): (r: Step<ArsalError>)
    requires s.waiting == WaitServices
    requires interrupted || s.discoverServicesSem > 0
    ensures r.result == if interrupted then Error else s.discoverServicesError
    ensures !r.next.isDiscoveringServices && r.next.waiting == NoWait
    ensures r.next.discoverServicesSem == if interrupted then s.discoverServicesSem else s.discoverServicesSem - 1
    ensures r.next.(discoverServicesSem := s.discoverServicesSem, isDiscoveringServices := s.isDiscoveringServices,
                    waiting := s.waiting) == s
  {
    var t := s.(discoverServicesSem := if interrupted then s.discoverServicesSem else s.discoverServicesSem - 1,
                isDiscoveringServices := false, waiting := NoWait);
    Step(t, if interrupted then Error else s.discoverServicesError)
  }

  /**
   * setCharacteristicNotification, begin step. Without an active gatt it
   * returns ARSAL_ERROR_BLE_NOT_CONNECTED and touches nothing. Otherwise it
   * sets the flag, clears the slot, enables the notification locally, looks up
   * the client-characteristic-configuration descriptor and writes the enable
   * value to it (the answers of those calls are ignored), then blocks on the
   * configuration semaphore. When the characteristic has no such descriptor
   * the lookup yields null and the call ends with a NullPointerException,
   * leaving the flag set.
   */
  function SetCharacteristicNotification(s: State, c: Characteristic, descriptorFound: bool): (r: Step<Begun>)
    requires s.waiting == NoWait
    ensures s.activeGatt.None? ==> r == Step(s, Returned(ErrorBleNotConnected))
    ensures s.activeGatt.Some? ==>
      && r.next.isConfiguringCharacteristics && r.next.configurationError == Ok
      && r.result == (if descriptorFound then Waiting else ThrewNullPointer)
      && r.next.waiting == (if descriptorFound then WaitConfiguration else NoWait)
      && r.next.(isConfiguringCharacteristics := s.isConfiguringCharacteristics,
                 configurationError := s.configurationError, waiting := NoWait) == s
  {
    if s.activeGatt.None? then
      Step(s, Returned(ErrorBleNotConnected))
    else
      var armed := s.(isConfiguringCharacteristics := true, configurationError := Ok);
      if descriptorFound then Step(armed.(waiting := WaitConfiguration), Waiting)
      else Step(armed, ThrewNullPointer)
  }

  /**
   * setCharacteristicNotification, Await step: takes one configuration permit
   * and returns the slot (ARSAL_ERROR and no permit when interrupted); the
   * flag is cleared.
   */
  function AwaitConfiguration(s: State, interrupted: bool): (r: Step<ArsalError>)
    requires s.waiting == WaitConfiguration
    requires interrupted || s.configurationSem > 0
    ensures r.result == if interrupted then Error else s.configurationError
    ensures !r.next.isConfiguringCharacteristics && r.next.waiting == NoWait
    ensures r.next.configurationSem == if interrupted then s.configurationSem else s.configurationSem - 1
    ensures r.next.(configurationSem := s.configurationSem,
                    isConfiguringCharacteristics := s.isConfiguringCharacteristics, waiting := s.waiting) == s
  {
    var t := s.(configurationSem := if interrupted then s.configurationSem else s.configurationSem - 1,
                isConfiguringCharacteristics := false, waiting := NoWait);
    Step(t, if interrupted then Error else s.configurationError)
  }

  /**
   * writeData: with an active gatt, a characteristic and a payload it attaches
   * the payload and returns the platform's answer to writeCharacteristic;
   * otherwise it returns false without calling the platform. It changes no
   * field of the manager.
   */
  function WriteData(s: State, data: Option<seq<bv8>>, c: Option<Characteristic>, accepted: bool): (r: WriteResult)
    ensures r.transportCalled <==> s.activeGatt.Some? && c.Some? && data.Some?
    ensures r.ok <==> r.transportCalled && accepted
  {
    if s.activeGatt.Some? && c.Some? && data.Some? then WriteResult(true, accepted) else WriteResult(false, false)
  }

  /**
   * readData: the acquire takes one read permit (none, and false, when
   * interrupted). If notifications are queued, all of them are appended to
   * the caller's list in arrival order, the queue is emptied and the result
   * is true; otherwise the result is false and the caller's list is unchanged.
   */
  function ReadData(s: State, interrupted: bool, out: seq<Characteristic>): (r: Step<ReadResult>)
    requires interrupted || s.readCharacteristicSem > 0
    ensures interrupted ==> r == Step(s, ReadResult(false, out))
    ensures !interrupted ==> r.next.readCharacteristicSem == s.readCharacteristicSem - 1
    ensures !interrupted ==> (r.result.ok <==> |s.notifications| > 0)
    ensures r.result.ok ==> r.result.out == out + s.notifications && r.next.notifications == []
    ensures !r.result.ok ==> r.result.out == out && r.next.notifications == s.notifications
    ensures r.next.(readCharacteristicSem := s.readCharacteristicSem, notifications := s.notifications) == s
  {
    if interrupted then
      Step(s, ReadResult(false, out))
    else
      var t := s.(readCharacteristicSem := s.readCharacteristicSem - 1);
      if |s.notifications| > 0 then Step(t.(notifications := []), ReadResult(true, out + s.notifications))
      else Step(t, ReadResult(false, out))
  }

  /**
   * unlock: one permit each for the connection, configuration and read
   * semaphores; the disconnection and the two discovery semaphores, and every
   * other field, are left alone.
   */
  function Unlock(s: State): (t: State)
    ensures t.connectionSem == s.connectionSem + 1
    ensures t.configurationSem == s.configurationSem + 1
    ensures t.readCharacteristicSem == s.readCharacteristicSem + 1
    ensures t.(connectionSem := s.connectionSem, configurationSem := s.configurationSem,
               readCharacteristicSem := s.readCharacteristicSem) == s
  {
    s.(connectionSem := s.connectionSem + 1, configurationSem := s.configurationSem + 1,
       readCharacteristicSem := s.readCharacteristicSem + 1)
  }

  /**
   * reset: every semaphore drained to zero permits; the gatt, the flags, the
   * error slots and the notification queue are left as they are.
   */
  function Reset(s: State): (t: State)
    requires s.waiting == NoWait
    ensures NoPermits(t)
    ensures t.(connectionSem := s.connectionSem, disconnectionSem := s.disconnectionSem,
               discoverServicesSem := s.discoverServicesSem, discoverCharacteristicsSem := s.discoverCharacteristicsSem,
               readCharacteristicSem := s.readCharacteristicSem, configurationSem := s.configurationSem) == s
  {
    s.(connectionSem := 0, disconnectionSem := 0, discoverServicesSem := 0, discoverCharacteristicsSem := 0,
       readCharacteristicSem := 0, configurationSem := 0)
  }

  /** setListener: the listener to tell about unrequested disconnections (None is Java's null). */
  function SetListener(s: State, l: Option<Listener>): (t: State)
    ensures t.listener == l && t.(listener := s.listener) == s
  {
    s.(listener := l)
  }

  // ---------------------------------------------------------------------------
  // GATT callbacks

  /**
   * On a disconnection, an operation whose flag is set gets
   * ARSAL_ERROR_BLE_NOT_CONNECTED in its slot and exactly one permit; an
   * operation whose flag is clear keeps both.
   */
  predicate SignalledIfInFlight(inFlight: bool, slot: ArsalError, permits: nat, slot': ArsalError, permits': nat) {
    if inFlight then slot' == ErrorBleNotConnected && permits' == permits + 1
    else slot' == slot && permits' == permits
  }

  /** The disconnection semaphore gets a permit when the disconnection was asked for. */
  function ReleaseIfAsked(s: State): (t: State)
    ensures t.disconnectionSem == s.disconnectionSem + (if s.askDisconnection then 1 else 0)
    ensures t.(disconnectionSem := s.disconnectionSem) == s
  {
    if s.askDisconnection then s.(disconnectionSem := s.disconnectionSem + 1) else s
  }

  /** A service discovery in flight is failed with ARSAL_ERROR_BLE_NOT_CONNECTED and released. */
  function FailServicesIfInFlight(s: State): (t: State)
    ensures SignalledIfInFlight(s.isDiscoveringServices, s.discoverServicesError, s.discoverServicesSem,
                                t.discoverServicesError, t.discoverServicesSem)
    ensures t.(discoverServicesError := s.discoverServicesError, discoverServicesSem := s.discoverServicesSem) == s
  {
    if s.isDiscoveringServices then
      s.(discoverServicesError := ErrorBleNotConnected, discoverServicesSem := s.discoverServicesSem + 1)
    else s
  }

  /** The same for a characteristic discovery in flight. */
  function FailCharacteristicsIfInFlight(s: State): (t: State)
    ensures SignalledIfInFlight(s.isDiscoveringCharacteristics, s.discoverCharacteristicsError,
                                s.discoverCharacteristicsSem, t.discoverCharacteristicsError,
                                t.discoverCharacteristicsSem)
    ensures t.(discoverCharacteristicsError := s.discoverCharacteristicsError,
               discoverCharacteristicsSem := s.discoverCharacteristicsSem) == s
  {
    if s.isDiscoveringCharacteristics then
      s.(discoverCharacteristicsError := ErrorBleNotConnected,
         discoverCharacteristicsSem := s.discoverCharacteristicsSem + 1)
    else s
  }

  /** The same for a notification configuration in flight. */
  function FailConfigurationIfInFlight(s: State): (t: State)
    ensures SignalledIfInFlight(s.isConfiguringCharacteristics, s.configurationError, s.configurationSem,
                                t.configurationError, t.configurationSem)
    ensures t.(configurationError := s.configurationError, configurationSem := s.configurationSem) == s
  {
    if s.isConfiguringCharacteristics then
      s.(configurationError := ErrorBleNotConnected, configurationSem := s.configurationSem + 1)
    else s
  }

  /**
   * The active gatt is closed and dropped, then the four releases above are
   * applied in the order of the source.
   */
  function GattLost(s: State): State {
    FailConfigurationIfInFlight(FailCharacteristicsIfInFlight(FailServicesIfInFlight(
      ReleaseIfAsked(s.(activeGatt := None)))))
  }

  /**
   * onConnectionStateChange; the result says whether the listener's
   * onBLEDisconnect was called.
   *  - CONNECTED: the gatt becomes the active one and the connection
   *    semaphore gets a permit.
   *  - DISCONNECTED with an active gatt (whichever gatt the event names: the
   *    source compares the active gatt with itself): the gatt is closed and
   *    dropped; the disconnection semaphore gets a permit exactly when the
   *    disconnection was asked for; every in-flight operation is failed with
   *    ARSAL_ERROR_BLE_NOT_CONNECTED and released; the listener is called
   *    exactly when the disconnection was not asked for and a listener is set.
   *  - DISCONNECTED without an active gatt, and every other state: nothing.
   */
  function ConnectionStateChange(s: State, gatt: Gatt, newState: ProfileState): (r: Step<bool>)
    ensures newState == StateConnected ==>
      && r.next.activeGatt == Some(gatt) && r.next.connectionSem == s.connectionSem + 1 && !r.result
      && r.next.(activeGatt := s.activeGatt, connectionSem := s.connectionSem) == s
    ensures newState == StateDisconnected && s.activeGatt.Some? ==>
      && r.next.activeGatt == None
      && r.next.disconnectionSem == s.disconnectionSem + (if s.askDisconnection then 1 else 0)
      && SignalledIfInFlight(s.isDiscoveringServices, s.discoverServicesError, s.discoverServicesSem,
                             r.next.discoverServicesError, r.next.discoverServicesSem)
      && SignalledIfInFlight(s.isDiscoveringCharacteristics, s.discoverCharacteristicsError,
                             s.discoverCharacteristicsSem, r.next.discoverCharacteristicsError,
                             r.next.discoverCharacteristicsSem)
      && SignalledIfInFlight(s.isConfiguringCharacteristics, s.configurationError, s.configurationSem,
                             r.next.configurationError, r.next.configurationSem)
      && (r.result <==> !s.askDisconnection && s.listener.Some?)
      && r.next.(activeGatt := s.activeGatt, disconnectionSem := s.disconnectionSem,
                 discoverServicesError := s.discoverServicesError, discoverServicesSem := s.discoverServicesSem,
                 discoverCharacteristicsError := s.discoverCharacteristicsError,
                 discoverCharacteristicsSem := s.discoverCharacteristicsSem,
                 configurationError := s.configurationError, configurationSem := s.configurationSem) == s
    ensures ((newState == StateDisconnected && s.activeGatt.None?) || newState == StateConnecting
             || newState == StateDisconnecting) ==> r == Step(s, false)
  {
    if newState == StateConnected then
      Step(s.(activeGatt := Some(gatt), connectionSem := s.connectionSem + 1), false)
    else if newState == StateDisconnected && s.activeGatt.Some? then
      Step(GattLost(s), !s.askDisconnection && s.listener.Some?)
    else
      Step(s, false)
  }

  /**
   * onServicesDiscovered: a status other than GATT_SUCCESS overwrites the slot
   * with ARSAL_ERROR_BLE_SERVICES_DISCOVERING (success leaves it alone); the
   * discover-services semaphore always gets exactly one permit.
   */
  function ServicesDiscovered(s: State, status: int): (t: State)
    ensures t.discoverServicesError == if status != GattSuccess then ErrorBleServicesDiscovering else s.discoverServicesError
    ensures t.discoverServicesSem == s.discoverServicesSem + 1
    ensures t.(discoverServicesError := s.discoverServicesError, discoverServicesSem := s.discoverServicesSem) == s
  {
    s.(discoverServicesError := if status != GattSuccess then ErrorBleServicesDiscovering else s.discoverServicesError,
       discoverServicesSem := s.discoverServicesSem + 1)
  }

  /**
   * onDescriptorWrite: a status other than GATT_SUCCESS overwrites the slot
   * with ARSAL_ERROR_BLE_CHARACTERISTIC_CONFIGURING; the configuration
   * semaphore always gets exactly one permit.
   */
  function DescriptorWrite(s: State, status: int): (t: State)
    ensures t.configurationError == if status != GattSuccess then ErrorBleCharacteristicConfiguring else s.configurationError
    ensures t.configurationSem == s.configurationSem + 1
    ensures t.(configurationError := s.configurationError, configurationSem := s.configurationSem) == s
  {
    s.(configurationError := if status != GattSuccess then ErrorBleCharacteristicConfiguring else s.configurationError,
       configurationSem := s.configurationSem + 1)
  }

  /** onCharacteristicChanged: the characteristic joins the end of the queue and one read permit is added. */
  function CharacteristicChanged(s: State, c: Characteristic): (t: State)
    ensures t.notifications == s.notifications + [c] && t.readCharacteristicSem == s.readCharacteristicSem + 1
    ensures t.(notifications := s.notifications, readCharacteristicSem := s.readCharacteristicSem) == s
  {
    s.(notifications := s.notifications + [c], readCharacteristicSem := s.readCharacteristicSem + 1)
  }
}
