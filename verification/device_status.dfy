/** The device page: battery bands, the connection panel and the reconnect
    action. */
module DeviceStatus {
  import opened Wrappers
  import opened Store
  import opened Dashboard

  // ---------------------------------------------------------------------
  // Battery bands

  datatype BatteryColor = Green | Yellow | Red

  /** `getBatteryColor`: the first threshold the level clears decides. */
  function BatteryColorOf(level: int): (c: BatteryColor)
    ensures c == Green <==> level > 50
    ensures c == Yellow <==> 20 < level <= 50
    ensures c == Red <==> level <= 20
  {
    if level > 50 then Green
    else if level > 20 then Yellow
    else Red
  }

  datatype BatteryIcon = PlainBattery | WarningBattery

  /** `getBatteryIcon`: the icon shape; its colour is the band's. */
  function BatteryIconOf(level: int): (i: BatteryIcon)
    ensures i == WarningBattery <==> level <= 20
  {
    if level <= 20 then WarningBattery else PlainBattery
  }

  /** The icon warns exactly when the band is red. */
  lemma WarningIconIsRedBand(level: int)
    ensures BatteryIconOf(level) == WarningBattery <==> BatteryColorOf(level) == Red
  {
  }

  datatype BatteryMessage = LowBatteryWarning | ChargeSoon | NoActionNeeded

  /** The three guarded message blocks under the progress bar, in page
      order; each block has its own condition. */
  function BatteryMessages(level: int): (ms: seq<BatteryMessage>)
    ensures LowBatteryWarning in ms <==> level <= 20
    ensures ChargeSoon in ms <==> 20 < level <= 50
    ensures NoActionNeeded in ms <==> level > 50
  {
    (if level <= 20 then [LowBatteryWarning] else [])
    + (if level > 20 && level <= 50 then [ChargeSoon] else [])
    + (if level > 50 then [NoActionNeeded] else [])
  }

  /** The message each colour band goes with. */
  function BandMessage(c: BatteryColor): BatteryMessage {
    match c
    case Green => NoActionNeeded
    case Yellow => ChargeSoon
    case Red => LowBatteryWarning
  }

  /** Whatever the level, exactly one message is shown, and it is the one
      that belongs to the level's colour band: the independently written
      conditions of the three blocks partition the levels the same way
      the colour function does. */
  lemma ExactlyOneBatteryMessage(level: int)
    ensures BatteryMessages(level) == [BandMessage(BatteryColorOf(level))]
  {
  }

  // ---------------------------------------------------------------------
  // Connection panel

  datatype ConnectionPanel = ConnectionPanel(
    badge: string,
    showReconnect: bool,
    reconnectEnabled: bool,
    showHealthy: bool)

  /** What the connection card shows for a device state and the page's
      `isReconnecting` flag. */
  function ConnectionPanelOf(d: DeviceState, isReconnecting: bool): (p: ConnectionPanel)
    ensures p.badge == (if d.isOnline then "Online" else "Offline")
    ensures p.showReconnect <==> !p.showHealthy
    ensures p.showHealthy <==> d.isOnline
    ensures p.reconnectEnabled <==> p.showReconnect && !isReconnecting
  {
    ConnectionPanel(
      if d.isOnline then "Online" else "Offline",
      !d.isOnline,
      !d.isOnline && !isReconnecting,
      d.isOnline)
  }

  // ---------------------------------------------------------------------
  // Reconnect

  /** What `iotService.checkStatus()` delivered: a reading or a rejection. */
  datatype CheckOutcome = Reading(isOnline: bool, batteryLevel: int) | CheckFailed

  /** The page state the reconnect handler touches. */
  datatype DevicePage = DevicePage(store: AppState, isReconnecting: bool)

  /** `handleReconnect`, run to completion. `now` is the ISO time read when
      the reading arrives. The loading toast is replaced under the same id,
      so only the final toast is returned. */
  function Reconnect(page: DevicePage, outcome: CheckOutcome, now: string): (r: (DevicePage, Toast))
    ensures !r.0.isReconnecting
    ensures outcome.Reading? ==>
      && r.0.store.device == DeviceState(outcome.isOnline, outcome.batteryLevel, now)
      && r.1 == SuccessToast("Device reconnected successfully!")
    ensures outcome.CheckFailed? ==>
      r.0.store == page.store && r.1 == ErrorToast("Failed to reconnect")
    ensures r.0.store.medicines == page.store.medicines
    ensures r.0.store.schedules == page.store.schedules
    ensures r.0.store.logs == page.store.logs
    ensures r.0.store.settings == page.store.settings
  {
    match outcome
    case Reading(online, level) =>
      var st := UpdateDeviceStatus(page.store, DevicePatch(Some(online), Some(level), Some(now)));
      (DevicePage(st, false), SuccessToast("Device reconnected successfully!"))
    case CheckFailed =>
      (DevicePage(page.store, false), ErrorToast("Failed to reconnect"))
  }

  /** After a successful reconnect the page reflects the reading: the
      badge shows the reported connectivity, the button is enabled again
      if the device is still offline, and the battery band is the reading's. */
  lemma ReconnectShowsReading(page: DevicePage, online: bool, level: int, now: string)
    ensures var after := Reconnect(page, Reading(online, level), now).0;
      && ConnectionPanelOf(after.store.device, after.isReconnecting)
         == ConnectionPanelOf(DeviceState(online, level, now), false)
      && BatteryColorOf(after.store.device.batteryLevel) == BatteryColorOf(level)
  {
  }

  /** A reconnect depends only on the reading, not on the device state it
      replaces: repeating it with the same reading changes nothing. */
  lemma ReconnectIdempotent(page: DevicePage, outcome: CheckOutcome, now: string)
    ensures var once := Reconnect(page, outcome, now);
      Reconnect(once.0, outcome, now) == once
  {
  }
}
