/**
 * Runs of the ARSALBLEManager state machine: every public call phase and
 * every GATT callback as one `Action`, any sequence of them from the
 * constructor's state, and what holds along every such run.
 */
module BleRuns {
  import opened BleState

  /** One step of the manager: a public call phase or a platform callback. */
  datatype Action =
    | ConnectCall(device: Device)
    | AwaitConnectionCall(interrupted: bool)
    | DisconnectCall
    | AwaitDisconnectionCall(interrupted: bool)
    | DiscoverServicesCall(accepted: bool)
    | AwaitServicesCall(interrupted: bool)
    | SetNotificationCall(c: Characteristic, descriptorFound: bool)
    | AwaitConfigurationCall(interrupted: bool)
    | ReadDataCall(interrupted: bool)
    | UnlockCall
    | ResetCall
    | SetListenerCall(l: Option<Listener>)
    | ConnectionStateEvent(gatt: Gatt, newState: ProfileState)
    | ServicesDiscoveredEvent(status: int)
    | DescriptorWriteEvent(status: int)
    | CharacteristicChangedEvent(c: Characteristic)

  /**
   * Whether the step can happen now: a synchronized call needs the monitor
   * free, and a semaphore wait can only return with a permit available or by
   * an interruption. Callbacks, readData's start and unlock are not
   * synchronized.
   */
  predicate Enabled(s: State, a: Action) {
    match a
    case ConnectCall(_) => s.waiting == NoWait
    case AwaitConnectionCall(_) => s.waiting == WaitConnection
    case DisconnectCall => s.waiting == NoWait
    case AwaitDisconnectionCall(i) => s.waiting.WaitDisconnection? && (i || s.disconnectionSem > 0)
    case DiscoverServicesCall(_) => s.waiting == NoWait
    case AwaitServicesCall(i) => s.waiting == WaitServices && (i || s.discoverServicesSem > 0)
    case SetNotificationCall(_, _) => s.waiting == NoWait
    case AwaitConfigurationCall(i) => s.waiting == WaitConfiguration && (i || s.configurationSem > 0)
    case ReadDataCall(i) => i || s.readCharacteristicSem > 0
    case ResetCall => s.waiting == NoWait
    case _ => true
  }

  /** The state after an enabled step (values returned to callers are dropped). */
  function Apply(s: State, a: Action): State
    requires Enabled(s, a)
  {
    match a
    case ConnectCall(d) => Connect(s, d)
    case AwaitConnectionCall(i) => AwaitConnection(s, i).next
    case DisconnectCall => Disconnect(s)
    case AwaitDisconnectionCall(i) => AwaitDisconnection(s, i)
    case DiscoverServicesCall(ok) => DiscoverServices(s, ok).next
    case AwaitServicesCall(i) => AwaitServicesDiscovery(s, i).next
    case SetNotificationCall(c, found) => SetCharacteristicNotification(s, c, found).next
    case AwaitConfigurationCall(i) => AwaitConfiguration(s, i).next
    case ReadDataCall(i) => ReadData(s, i, []).next
    case UnlockCall => Unlock(s)
    case ResetCall => Reset(s)
    case SetListenerCall(l) => SetListener(s, l)
    case ConnectionStateEvent(g, st) => ConnectionStateChange(s, g, st).next
    case ServicesDiscoveredEvent(status) => ServicesDiscovered(s, status)
    case DescriptorWriteEvent(status) => DescriptorWrite(s, status)
    case CharacteristicChangedEvent(c) => CharacteristicChanged(s, c)
  }

  /** A step that cannot happen yet is simply not taken at this point of the run. */
  function Next(s: State, a: Action): State {
    if Enabled(s, a) then Apply(s, a) else s
  }

  function Run(s: State, actions: seq<Action>): State
    decreases |actions|
  {
    if actions == [] then s else Run(Next(s, actions[0]), actions[1..])
  }

  // ---------------------------------------------------------------------------
  // The invariant

  /** Every step, call or callback, keeps Inv. */
  lemma ApplyPreservesInv(s: State, a: Action)
    requires Inv(s) && Enabled(s, a)
    ensures Inv(Apply(s, a))
  {
  }

  lemma {:induction false} RunPreservesInv(s: State, actions: seq<Action>)
    requires Inv(s)
    ensures Inv(Run(s, actions))
    decreases |actions|
  {
    if actions != [] {
      if Enabled(s, actions[0]) {
        ApplyPreservesInv(s, actions[0]);
      }
      RunPreservesInv(Next(s, actions[0]), actions[1..]);
    }
  }

  /** Inv holds in every state reachable from a freshly constructed manager. */
  lemma ReachableStatesSatisfyInv(actions: seq<Action>)
    ensures Inv(Run(Init(), actions))
  {
    RunPreservesInv(Init(), actions);
  }

  /**
   * A waiting disconnect, discovery or configuration can always be completed:
   * its Await step is enabled now, or a DISCONNECTED callback (which the
   * platform still owes, since a gatt is active) enables it.
   */
  lemma PendingWaitCanComplete(s: State, g: Gatt)
    requires Inv(s) && s.waiting != NoWait && s.waiting != WaitConnection
    ensures var t := ConnectionStateChange(s, g, StateDisconnected).next;
      match s.waiting
      case WaitDisconnection(_) => Enabled(s, AwaitDisconnectionCall(false)) || Enabled(t, AwaitDisconnectionCall(false))
      case WaitServices => Enabled(s, AwaitServicesCall(false)) || Enabled(t, AwaitServicesCall(false))
      case WaitConfiguration => Enabled(s, AwaitConfigurationCall(false)) || Enabled(t, AwaitConfigurationCall(false))
  {
  }

  // ---------------------------------------------------------------------------
  // Notification queue and read permits

  /** Every queued notification is backed by a read permit. */
  predicate QueueCovered(s: State) {
    |s.notifications| <= s.readCharacteristicSem
  }

  lemma ApplyKeepsQueueCovered(s: State, a: Action)
    requires QueueCovered(s) && Enabled(s, a) && !a.ResetCall?
    ensures QueueCovered(Apply(s, a))
  {
  }

  /** Along any run without reset, queued notifications never leave readData blocked. */
  lemma {:induction false} RunWithoutResetKeepsQueueCovered(s: State, actions: seq<Action>)
    requires QueueCovered(s)
    requires forall i :: 0 <= i < |actions| ==> !actions[i].ResetCall?
    ensures QueueCovered(Run(s, actions))
    ensures |Run(s, actions).notifications| > 0 ==> Enabled(Run(s, actions), ReadDataCall(false))
    decreases |actions|
  {
    if actions != [] {
      if Enabled(s, actions[0]) {
        ApplyKeepsQueueCovered(s, actions[0]);
      }
      RunWithoutResetKeepsQueueCovered(Next(s, actions[0]), actions[1..]);
    }
  }

  /**
   * reset drains the read permits but keeps the queue, so notifications
   * queued before a reset leave the next readData blocked until another
   * notification or an unlock arrives.
   */
  lemma ResetStrandsQueuedNotifications(s: State)
    requires s.waiting == NoWait && |s.notifications| > 0
    ensures !QueueCovered(Reset(s))
    ensures !Enabled(Reset(s), ReadDataCall(false))
    ensures Reset(s).notifications == s.notifications
  {
  }

  /**
   * Two notifications that arrive before a read are returned by ONE read, in
   * arrival order; the second permit stays behind, so the next read returns
   * at once with false and leaves the caller's list alone.
   */
  lemma BurstIsCoalesced(s: State, c1: Characteristic, c2: Characteristic, out: seq<Characteristic>)
    requires s.notifications == []
    ensures var t := CharacteristicChanged(CharacteristicChanged(s, c1), c2);
      var r1 := ReadData(t, false, out);
      && r1.result == ReadResult(true, out + [c1, c2])
      && r1.next.notifications == []
      && r1.next.readCharacteristicSem == s.readCharacteristicSem + 1
      && ReadData(r1.next, false, r1.result.out).result == ReadResult(false, out + [c1, c2])
  {
  }

  // ---------------------------------------------------------------------------
  // Connection scenarios

  /** The gatt named by a DISCONNECTED event plays no part. */
  lemma DisconnectIgnoresGattArgument(s: State, g1: Gatt, g2: Gatt)
    ensures ConnectionStateChange(s, g1, StateDisconnected) == ConnectionStateChange(s, g2, StateDisconnected)
  {
  }

  /** connect with no CONNECTED callback before the wait ends reports ARSAL_ERROR_BLE_CONNECTION. */
  lemma ConnectTimesOut(s: State, d: Device)
    requires s.waiting == NoWait && s.activeGatt.None? && s.connectionSem == 0
    ensures AwaitConnection(Connect(s, d), false) == Step(s.(device := Some(d)), ErrorBleConnection)
  {
  }

  /** connect whose CONNECTED callback arrives reports ARSAL_OK with that gatt active. */
  lemma ConnectSucceeds(s: State, d: Device, g: Gatt)
    requires s.waiting == NoWait && s.activeGatt.None?
    ensures var r := AwaitConnection(ConnectionStateChange(Connect(s, d), g, StateConnected).next, false);
      && r.result == Ok && r.next.activeGatt == Some(g) && r.next.waiting == NoWait
      && r.next == s.(device := Some(d), activeGatt := Some(g))
  {
  }

  /**
   * connect while a gatt is active: the old link is disconnected first,
   * silently (no listener call), and the new connection then succeeds; the
   * connection and disconnection permit counts end as they started.
   */
  lemma ReconnectDisconnectsFirst(s: State, d: Device, g: Gatt)
    requires Inv(s) && s.waiting == NoWait && s.activeGatt.Some?
    ensures var t1 := Connect(s, d);
      var e1 := ConnectionStateChange(t1, s.activeGatt.value, StateDisconnected);
      var t2 := AwaitDisconnection(e1.next, false);
      var e2 := ConnectionStateChange(t2, g, StateConnected);
      var r := AwaitConnection(e2.next, false);
      && !e1.result
      && r.result == Ok
      && r.next.activeGatt == Some(g) && r.next.device == Some(d)
      && r.next.connectionSem == s.connectionSem && r.next.disconnectionSem == s.disconnectionSem
      && r.next.waiting == NoWait && !r.next.askDisconnection
  {
  }

  /**
   * A configuring flag left set by a NullPointerException outlives the link:
   * the next DISCONNECTED callback releases the configuration semaphore for
   * nobody, so after a reconnection the next setCharacteristicNotification
   * finds that stale permit and returns ARSAL_OK at once, before the platform
   * has confirmed the descriptor write.
   */
  lemma StaleConfiguringFlagLeavesPermit(s: State, g1: Gatt, g2: Gatt, c: Characteristic)
    requires Inv(s) && s.waiting == NoWait && s.activeGatt.Some? && s.isConfiguringCharacteristics
    ensures var e1 := ConnectionStateChange(s, g1, StateDisconnected).next;
      var e2 := ConnectionStateChange(e1, g2, StateConnected).next;
      var b := SetCharacteristicNotification(e2, c, true);
      && e1.configurationSem == s.configurationSem + 1 && e1.configurationError == ErrorBleNotConnected
      && b.result == Waiting
      && Enabled(b.next, AwaitConfigurationCall(false))
      && AwaitConfiguration(b.next, false).result == Ok
  {
  }

  /**
   * A requested disconnect: the DISCONNECTED callback only releases the
   * disconnect wait and does not call the listener; afterwards no gatt is
   * active and the monitor is free.
   */
  lemma RequestedDisconnectIsSilent(s: State, g: Gatt)
    requires Inv(s) && s.waiting == NoWait && s.activeGatt.Some?
    ensures var e := ConnectionStateChange(Disconnect(s), g, StateDisconnected);
      var t := AwaitDisconnection(e.next, false);
      && !e.result
      && e.next.disconnectionSem == s.disconnectionSem + 1
      && t.waiting == NoWait && t.activeGatt == None && !t.askDisconnection
      && t.disconnectionSem == s.disconnectionSem
  {
  }

  /**
   * A link drop while discoverBLENetworkServices waits: the discovery returns
   * ARSAL_ERROR_BLE_NOT_CONNECTED (whatever the slot held before), and the
   * listener is called exactly when one is set.
   */
  lemma DropFailsPendingDiscovery(s: State, g: Gatt)
    requires Inv(s) && s.waiting == WaitServices && s.activeGatt.Some?
    ensures var e := ConnectionStateChange(s, g, StateDisconnected);
      && (e.result <==> s.listener.Some?)
      && Enabled(e.next, AwaitServicesCall(false))
      && AwaitServicesDiscovery(e.next, false).result == ErrorBleNotConnected
  {
  }

  /** The same for a link drop while setCharacteristicNotification waits. */
  lemma DropFailsPendingConfiguration(s: State, g: Gatt)
    requires Inv(s) && s.waiting == WaitConfiguration && s.activeGatt.Some?
    ensures var e := ConnectionStateChange(s, g, StateDisconnected);
      && (e.result <==> s.listener.Some?)
      && Enabled(e.next, AwaitConfigurationCall(false))
      && AwaitConfiguration(e.next, false).result == ErrorBleNotConnected
  {
  }

  /** A discovery completed by onServicesDiscovered returns OK on success and the discovery error otherwise. */
  lemma DiscoveryReportsStatus(s: State, status: int)
    requires s.waiting == NoWait && s.activeGatt.Some?
    ensures var b := DiscoverServices(s, true);
      var r := AwaitServicesDiscovery(ServicesDiscovered(b.next, status), false);
      && b.result == Waiting
      && r.result == (if status == GattSuccess then Ok else ErrorBleServicesDiscovering)
      && !r.next.isDiscoveringServices && r.next.discoverServicesSem == s.discoverServicesSem
  {
  }

  /** A configuration completed by onDescriptorWrite returns OK on success and the configuring error otherwise. */
  lemma ConfigurationReportsStatus(s: State, c: Characteristic, status: int)
    requires s.waiting == NoWait && s.activeGatt.Some?
    ensures var b := SetCharacteristicNotification(s, c, true);
      var r := AwaitConfiguration(DescriptorWrite(b.next, status), false);
      && b.result == Waiting
      && r.result == (if status == GattSuccess then Ok else ErrorBleCharacteristicConfiguring)
      && !r.next.isConfiguringCharacteristics && r.next.configurationSem == s.configurationSem
  {
  }

  // ---------------------------------------------------------------------------
  // unlock and reset

  /** reset twice is reset once. */
  lemma ResetIdempotent(s: State)
    requires s.waiting == NoWait
    ensures Reset(Reset(s)) == Reset(s)
  {
  }

  /**
   * What reset does not restore: from a reachable idle state it gives the
   * constructor's state except for the device, the gatt, the listener, the
   * queue, two error slots and the configuring flag, which keep their values.
   */
  lemma ResetRestoresOnlyPermits(s: State)
    requires Inv(s) && s.waiting == NoWait
    ensures Reset(s) == Init().(device := s.device, activeGatt := s.activeGatt, listener := s.listener,
                                notifications := s.notifications, discoverServicesError := s.discoverServicesError,
                                configurationError := s.configurationError,
                                isConfiguringCharacteristics := s.isConfiguringCharacteristics)
  {
  }

  /** unlock is not idempotent: each call leaves one more permit on each of its three semaphores. */
  lemma UnlockAccumulates(s: State)
    ensures Unlock(Unlock(s)).connectionSem == s.connectionSem + 2
    ensures Unlock(Unlock(s)).configurationSem == s.configurationSem + 2
    ensures Unlock(Unlock(s)).readCharacteristicSem == s.readCharacteristicSem + 2
  {
  }
}
