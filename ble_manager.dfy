/**
 * ARSALBLEManager as an object: the fields of the Java class, updated in place
 * by one method per public call phase and per GATT callback. Each of these is
 * proved to move the object exactly as the matching BleState function moves
 * its Snapshot(), and each one that changes a field keeps the invariant
 * BleState.Inv (WriteData changes no field). The small helpers they call
 * (reset's Drain*Sem loops and the releases of onConnectionStateChange) are
 * framed to one or two fields, are specified by a record update or a BleState
 * function on Snapshot(), and do not mention Valid().
 */
module BleManager {
  import opened BleState

  /** The caller's List<BluetoothGattCharacteristic> that readData appends to. */
  class CharacteristicList {
    var items: seq<Characteristic>

    constructor ()
      ensures items == []
    {
      items := [];
    }
  }

  class ArsalBleManager {
    var deviceBLEService: Option<Device>
    var activeGatt: Option<Gatt>
    var listener: Option<Listener>
    var characteristicNotifications: seq<Characteristic>

    // The six semaphores, as permit counts.
    var connectionSem: nat
    var disconnectionSem: nat
    var discoverServicesSem: nat
    var discoverCharacteristicsSem: nat
    var readCharacteristicSem: nat
    var configurationSem: nat

    var discoverServicesError: ArsalError
    var discoverCharacteristicsError: ArsalError
    var configurationCharacteristicError: ArsalError

    var askDisconnection: bool
    var isDiscoveringServices: bool
    var isDiscoveringCharacteristics: bool
    var isConfiguringCharacteristics: bool

    /** The synchronized call that is blocked on a semaphore while holding the monitor, if any. */
    var waiting: Wait

    function Snapshot(): State
      reads this
    {
      State(deviceBLEService, activeGatt, listener, characteristicNotifications,
            connectionSem, disconnectionSem, discoverServicesSem, discoverCharacteristicsSem,
            readCharacteristicSem, configurationSem,
            discoverServicesError, discoverCharacteristicsError, configurationCharacteristicError,
            askDisconnection, isDiscoveringServices, isDiscoveringCharacteristics, isConfiguringCharacteristics,
            waiting)
    }

    ghost predicate Valid()
      reads this
    {
      Inv(Snapshot())
    }

    /** The Android context is not modelled. */
    constructor ()
      ensures Valid() && Snapshot() == Init()
    {
      deviceBLEService := None;
      activeGatt := None;
      characteristicNotifications := [];
      listener := None;
      connectionSem, disconnectionSem, discoverServicesSem := 0, 0, 0;
      discoverCharacteristicsSem, readCharacteristicSem, configurationSem := 0, 0, 0;
      askDisconnection := false;
      isDiscoveringServices := false;
      isDiscoveringCharacteristics := false;
      isConfiguringCharacteristics := false;
      discoverServicesError := Ok;
      discoverCharacteristicsError := Ok;
      configurationCharacteristicError := Ok;
      waiting := NoWait;
    }

    /** connect, up to the wait (see BleState.Connect). */
    method Connect(device: Device)
      requires Valid() && waiting == NoWait
      modifies this
      ensures Valid() && Snapshot() == BleState.Connect(old(Snapshot()), device)
    {
      if activeGatt.Some? {
        Disconnect();
        waiting := WaitDisconnection(Some(device));
      } else {
        deviceBLEService := Some(device);
        // connectGatt is called here; its gatt comes back through OnConnectionStateChange.
        waiting := WaitConnection;
      }
    }

    /** connect, after the five-second wait on the connection semaphore. */
    method AwaitConnection(interrupted: bool) returns (result: ArsalError)
      requires Valid() && waiting == WaitConnection
      modifies this
      ensures Valid()
      ensures Step(Snapshot(), result) == BleState.AwaitConnection(old(Snapshot()), interrupted)
    {
      if !interrupted && connectionSem > 0 {
        connectionSem := connectionSem - 1;
      }
      result := Ok;
      if activeGatt.None? {
        result := ErrorBleConnection;
      }
      waiting := NoWait;
    }

    /** disconnect, up to the wait (see BleState.Disconnect). */
    method Disconnect()
      requires Valid() && waiting == NoWait
      modifies this
      ensures Valid() && Snapshot() == BleState.Disconnect(old(Snapshot()))
    {
      if activeGatt.Some? {
        askDisconnection := true;
        // the platform's disconnect is called here.
        waiting := WaitDisconnection(None);
      }
    }

    /** disconnect, after the wait on the disconnection semaphore; resumes connect when it started it. */
    method AwaitDisconnection(interrupted: bool)
      requires Valid() && waiting.WaitDisconnection?
      requires interrupted || disconnectionSem > 0
      modifies this
      ensures Valid() && Snapshot() == BleState.AwaitDisconnection(old(Snapshot()), interrupted)
    {
      if !interrupted {
        disconnectionSem := disconnectionSem - 1;
      }
      askDisconnection := false;
      match waiting.thenConnect
      case None =>
        waiting := NoWait;
      case Some(d) =>
        deviceBLEService := Some(d);
        // connectGatt is called here.
        waiting := WaitConnection;
    }

    /** discoverBLENetworkServices, up to the wait; `accepted` is the answer of discoverServices. */
    method DiscoverBLENetworkServices(accepted: bool) returns (begun: Begun)
      requires Valid() && waiting == NoWait
      modifies this
      ensures Valid() && Step(Snapshot(), begun) == BleState.DiscoverServices(old(Snapshot()), accepted)
    {
      if activeGatt.Some? {
        isDiscoveringServices := true;
        discoverServicesError := Ok;
        if accepted {
          waiting := WaitServices;
          begun := Waiting;
        } else {
          begun := Returned(Error);
          isDiscoveringServices := false;
        }
      } else {
        begun := Returned(ErrorBleNotConnected);
      }
    }

    /** discoverBLENetworkServices, after the wait on the discover-services semaphore. */
    method AwaitServicesDiscovery(interrupted: bool) returns (result: ArsalError)
      requires Valid() && waiting == WaitServices
      requires interrupted || discoverServicesSem > 0
      modifies this
      ensures Valid()
      ensures Step(Snapshot(), result) == BleState.AwaitServicesDiscovery(old(Snapshot()), interrupted)
    {
      if interrupted {
        result := Error;
      } else {
        discoverServicesSem := discoverServicesSem - 1;
        result := discoverServicesError;
      }
      isDiscoveringServices := false;
      waiting := NoWait;
    }

    /**
     * setCharacteristicNotification, up to the wait; `descriptorFound` says
     * whether the characteristic has the client-characteristic-configuration
     * descriptor.
     */
    method SetCharacteristicNotification(characteristic: Characteristic, descriptorFound: bool) returns (begun: Begun)
      requires Valid() && waiting == NoWait
      modifies this
      ensures Valid()
      ensures Step(Snapshot(), begun)
              == BleState.SetCharacteristicNotification(old(Snapshot()), characteristic, descriptorFound)
    {
      var localActiveGatt := activeGatt;
      if localActiveGatt.Some? {
        isConfiguringCharacteristics := true;
        configurationCharacteristicError := Ok;
        // setCharacteristicNotification and getDescriptor are called here.
        if !descriptorFound {
          begun := ThrewNullPointer;
          return;
        }
        // setValue and writeDescriptor are called here; their answers are ignored.
        waiting := WaitConfiguration;
        begun := Waiting;
      } else {
        begun := Returned(ErrorBleNotConnected);
      }
    }

    /** setCharacteristicNotification, after the wait on the configuration semaphore. */
    method AwaitConfiguration(interrupted: bool) returns (result: ArsalError)
      requires Valid() && waiting == WaitConfiguration
      requires interrupted || configurationSem > 0
      modifies this
      ensures Valid()
      ensures Step(Snapshot(), result) == BleState.AwaitConfiguration(old(Snapshot()), interrupted)
    {
      if interrupted {
        result := Error;
      } else {
        configurationSem := configurationSem - 1;
        result := configurationCharacteristicError;
      }
      isConfiguringCharacteristics := false;
      waiting := NoWait;
    }

    /**
     * writeData; `data` and `characteristic` are None for Java's null, and
     * `accepted` is the answer of writeCharacteristic. The manager's fields
     * are not touched.
     */
    method WriteData(data: Option<seq<bv8>>, characteristic: Option<Characteristic>, accepted: bool)
      returns (result: bool, transportCalled: bool)
      ensures result ==> transportCalled
      ensures WriteResult(transportCalled, result) == BleState.WriteData(Snapshot(), data, characteristic, accepted)
    {
      result, transportCalled := false, false;
      var localActiveGatt := activeGatt;
      if localActiveGatt.Some? && characteristic.Some? && data.Some? {
        transportCalled := true;
        result := accepted;
      }
    }

    /** readData, once the wait on the read semaphore has returned. */
    method ReadData(characteristicArray: CharacteristicList, interrupted: bool) returns (result: bool)
      requires Valid()
      requires interrupted || readCharacteristicSem > 0
      modifies this, characteristicArray
      ensures Valid()
      ensures var r := BleState.ReadData(old(Snapshot()), interrupted, old(characteristicArray.items));
        Snapshot() == r.next && result == r.result.ok && characteristicArray.items == r.result.out
    {
      result := false;
      if !interrupted {
        readCharacteristicSem := readCharacteristicSem - 1;
        if |characteristicNotifications| > 0 {
          characteristicArray.items := characteristicArray.items + characteristicNotifications;
          characteristicNotifications := [];
          result := true;
        }
      }
    }

    /** unlock: one permit each on the connection, configuration and read semaphores. */
    method Unlock()
      requires Valid()
      modifies this
      ensures Valid() && Snapshot() == BleState.Unlock(old(Snapshot()))
    {
      connectionSem := connectionSem + 1;
      configurationSem := configurationSem + 1;
      readCharacteristicSem := readCharacteristicSem + 1;
    }

    /** reset: each semaphore is drained with tryAcquire until it has no permit left. */
    method Reset()
      requires Valid() && waiting == NoWait
      modifies this
      ensures Valid() && Snapshot() == BleState.Reset(old(Snapshot()))
    {
      DrainConnectionSem();
      DrainDisconnectionSem();
      DrainDiscoverServicesSem();
      DrainDiscoverCharacteristicsSem();
      DrainReadCharacteristicSem();
      DrainConfigurationSem();
    }

    /** One of reset's loops: `while (connectionSem.tryAcquire())`, which ends with no permit left. */
    method DrainConnectionSem()
      modifies this`connectionSem
      ensures Snapshot() == old(Snapshot()).(connectionSem := 0)
    {
      while connectionSem > 0
        invariant Snapshot() == old(Snapshot()).(connectionSem := connectionSem)
        decreases connectionSem
      {
        connectionSem := connectionSem - 1;
      }
    }

    /** One of reset's loops: `while (disconnectionSem.tryAcquire())`, which ends with no permit left. */
    method DrainDisconnectionSem()
      modifies this`disconnectionSem
      ensures Snapshot() == old(Snapshot()).(disconnectionSem := 0)
    {
      while disconnectionSem > 0
        invariant Snapshot() == old(Snapshot()).(disconnectionSem := disconnectionSem)
        decreases disconnectionSem
      {
        disconnectionSem := disconnectionSem - 1;
      }
    }

    /** One of reset's loops: `while (discoverServicesSem.tryAcquire())`, which ends with no permit left. */
    method DrainDiscoverServicesSem()
      modifies this`discoverServicesSem
      ensures Snapshot() == old(Snapshot()).(discoverServicesSem := 0)
    {
      while discoverServicesSem > 0
        invariant Snapshot() == old(Snapshot()).(discoverServicesSem := discoverServicesSem)
        decreases discoverServicesSem
      {
        discoverServicesSem := discoverServicesSem - 1;
      }
    }

    /** One of reset's loops: `while (discoverCharacteristicsSem.tryAcquire())`, which ends with no permit left. */
    method DrainDiscoverCharacteristicsSem()
      modifies this`discoverCharacteristicsSem
      ensures Snapshot() == old(Snapshot()).(discoverCharacteristicsSem := 0)
    {
      while discoverCharacteristicsSem > 0
        invariant Snapshot() == old(Snapshot()).(discoverCharacteristicsSem := discoverCharacteristicsSem)
        decreases discoverCharacteristicsSem
      {
        discoverCharacteristicsSem := discoverCharacteristicsSem - 1;
      }
    }

    /** One of reset's loops: `while (readCharacteristicSem.tryAcquire())`, which ends with no permit left. */
    method DrainReadCharacteristicSem()
      modifies this`readCharacteristicSem
      ensures Snapshot() == old(Snapshot()).(readCharacteristicSem := 0)
    {
      while readCharacteristicSem > 0
        invariant Snapshot() == old(Snapshot()).(readCharacteristicSem := readCharacteristicSem)
        decreases readCharacteristicSem
      {
        readCharacteristicSem := readCharacteristicSem - 1;
      }
    }

    /** One of reset's loops: `while (configurationSem.tryAcquire())`, which ends with no permit left. */
    method DrainConfigurationSem()
      modifies this`configurationSem
      ensures Snapshot() == old(Snapshot()).(configurationSem := 0)
    {
      while configurationSem > 0
        invariant Snapshot() == old(Snapshot()).(configurationSem := configurationSem)
        decreases configurationSem
      {
        configurationSem := configurationSem - 1;
      }
    }

    /** setListener. */
    method SetListener(l: Option<Listener>)
      requires Valid()
      modifies this
      ensures Valid() && Snapshot() == BleState.SetListener(old(Snapshot()), l)
    {
      listener := l;
    }

    /** gattCallback.onConnectionStateChange; the result says whether listener.onBLEDisconnect was called. */
    method OnConnectionStateChange(gatt: Gatt, status: int, newState: ProfileState) returns (listenerNotified: bool)
      requires Valid()
      modifies this
      ensures Valid()
      ensures Step(Snapshot(), listenerNotified) == BleState.ConnectionStateChange(old(Snapshot()), gatt, newState)
    {
      listenerNotified := false;
      if newState == StateConnected {
        activeGatt := Some(gatt);
        connectionSem := connectionSem + 1;
        return;
      }
      if !(newState == StateDisconnected && activeGatt.Some? && activeGatt == activeGatt) {
        return;
      }
      // activeGatt.close() is called here.
      activeGatt := None;
      ReleaseDisconnectionIfAsked();
      FailServicesDiscoveryIfInFlight();
      FailCharacteristicsDiscoveryIfInFlight();
      FailConfigurationIfInFlight();
      if !askDisconnection && listener.Some? {
        listenerNotified := true;
      }
    }

    /** The disconnection semaphore is released only when the disconnection was asked for. */
    method ReleaseDisconnectionIfAsked()
      modifies this`disconnectionSem
      ensures Snapshot() == BleState.ReleaseIfAsked(old(Snapshot()))
    {
      if askDisconnection {
        disconnectionSem := disconnectionSem + 1;
      }
    }

    /** A service discovery in flight gets ARSAL_ERROR_BLE_NOT_CONNECTED and its permit. */
    method FailServicesDiscoveryIfInFlight()
      modifies this`discoverServicesError, this`discoverServicesSem
      ensures Snapshot() == BleState.FailServicesIfInFlight(old(Snapshot()))
    {
      if isDiscoveringServices {
        discoverServicesError := ErrorBleNotConnected;
        discoverServicesSem := discoverServicesSem + 1;
      }
    }

    /** The same for a characteristic discovery in flight. */
    method FailCharacteristicsDiscoveryIfInFlight()
      modifies this`discoverCharacteristicsError, this`discoverCharacteristicsSem
      ensures Snapshot() == BleState.FailCharacteristicsIfInFlight(old(Snapshot()))
    {
      if isDiscoveringCharacteristics {
        discoverCharacteristicsError := ErrorBleNotConnected;
        discoverCharacteristicsSem := discoverCharacteristicsSem + 1;
      }
    }

    /** The same for a notification configuration in flight. */
    method FailConfigurationIfInFlight()
      modifies this`configurationCharacteristicError, this`configurationSem
      ensures Snapshot() == BleState.FailConfigurationIfInFlight(old(Snapshot()))
    {
      if isConfiguringCharacteristics {
        configurationCharacteristicError := ErrorBleNotConnected;
        configurationSem := configurationSem + 1;
      }
    }

    /** gattCallback.onServicesDiscovered. */
    method OnServicesDiscovered(gatt: Gatt, status: int)
      requires Valid()
      modifies this
      ensures Valid() && Snapshot() == BleState.ServicesDiscovered(old(Snapshot()), status)
    {
      if status != GattSuccess {
        discoverServicesError := ErrorBleServicesDiscovering;
      }
      discoverServicesSem := discoverServicesSem + 1;
    }

    /** gattCallback.onDescriptorWrite. */
    method OnDescriptorWrite(gatt: Gatt, status: int)
      requires Valid()
      modifies this
      ensures Valid() && Snapshot() == BleState.DescriptorWrite(old(Snapshot()), status)
    {
      if status != GattSuccess {
        configurationCharacteristicError := ErrorBleCharacteristicConfiguring;
      }
      configurationSem := configurationSem + 1;
    }

    /** gattCallback.onCharacteristicChanged (the list mutex is not modelled). */
    method OnCharacteristicChanged(gatt: Gatt, characteristic: Characteristic)
      requires Valid()
      modifies this
      ensures Valid() && Snapshot() == BleState.CharacteristicChanged(old(Snapshot()), characteristic)
    {
      characteristicNotifications := characteristicNotifications + [characteristic];
      readCharacteristicSem := readCharacteristicSem + 1;
    }
  }
}
