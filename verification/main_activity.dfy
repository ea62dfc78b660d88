/** The activity's connection-selection and device-list state machine
    (MainActivity): the selection guard of onItemClick, refreshDeviceList,
    the controller lifecycle and the connection-status branch of the
    broadcast receiver. */
module MainActivity {
  import opened Wrappers
  import opened Devices
  import opened DeviceList

  /** MtAsyncConnection's connection states. */
  datatype ConnectionState = StateNone | StateConnecting | StateConnected

  /** A request the activity issues to the BLE service. */
  datatype ServiceCall = ConnectCall(device: Device) | DisconnectCall | CancelDiscoveryCall

  /** BLEService as the activity sees it: its connection state, its current
      device and the devices it can see, plus the log of requests it has been
      sent. A request only enters the log; its outcome reaches the activity
      later as a connection-status broadcast. */
  class BleService {
    var state: ConnectionState
    var currentDevice: Option<Device>
    var visibleDevices: seq<Device>
    var calls: seq<ServiceCall>

    constructor (state: ConnectionState, currentDevice: Option<Device>, visibleDevices: seq<Device>)
      ensures this.state == state && this.currentDevice == currentDevice
      ensures this.visibleDevices == visibleDevices && calls == []
    {
      this.state := state;
      this.currentDevice := currentDevice;
      this.visibleDevices := visibleDevices;
      calls := [];
    }

    /** isConnected(). */
    predicate IsConnected()
      reads this
    {
      state == StateConnected
    }

    /** connect(device). */
    method Connect(device: Device)
      modifies this`calls
      ensures calls == old(calls) + [ConnectCall(device)]
    {
      calls := calls + [ConnectCall(device)];
    }

    /** disconnect(). */
    method Disconnect()
      modifies this`calls
      ensures calls == old(calls) + [DisconnectCall]
    {
      calls := calls + [DisconnectCall];
    }

    /** cancelDiscovery(). */
    method CancelDiscovery()
      modifies this`calls
      ensures calls == old(calls) + [CancelDiscoveryCall]
    {
      calls := calls + [CancelDiscoveryCall];
    }
  }

  /** The address of the service's current device, null when there is no
      current device or its address is null. */
  function CurrentAddress(current: Option<Device>): Option<string> {
    if current.Some? then current.value.address else None
  }

  /** onItemClick's test "already connected to the selected device". */
  predicate SelectsConnectedDevice(state: ConnectionState, current: Option<Device>, selected: Device) {
    state == StateConnected && CurrentAddress(current).Some? && selected.address == CurrentAddress(current)
  }

  /** A GLMDeviceController instance: the number of its creation and the
      device it was initialised with. */
  datatype ControllerHandle = ControllerHandle(serial: nat, device: Option<Device>)

  /** What the device label (devTextView) shows. */
  datatype DeviceLabel = LayoutText | ConnectedTo(deviceName: Option<string>) | NoDeviceConnected

  /** The broadcasts the receiver tells apart. A connection-status broadcast
      carries the status extra (absent: STATE_NONE) and the device name extra. */
  datatype Intent =
    | ConnectionStatusUpdate(status: Option<ConnectionState>, deviceName: Option<string>)
    | DeviceListUpdated
    | SyncContainerReceived
    | ThermalContainerReceived
    | OtherAction

  /** The status a connection-status broadcast reports. */
  function ReportedStatus(intent: Intent): ConnectionState
    requires intent.ConnectionStatusUpdate?
  {
    if intent.status.Some? then intent.status.value else StateNone
  }

  class Activity {
    var btService: BleService?
    var devices: seq<Device>
    var deviceController: Option<ControllerHandle>
    var controllersCreated: nat
    var controllersDestroyed: nat
    var deviceLabel: DeviceLabel

    /** At most one controller is alive: every controller created so far has
        been destroyed except the current one, which is the latest. The list
        on display is always in name order. */
    ghost predicate Valid()
      reads this
    {
      && controllersCreated == controllersDestroyed + (if deviceController.Some? then 1 else 0)
      && (deviceController.Some? ==> deviceController.value.serial == controllersCreated)
      && SortedByName(devices)
    }

    /** The list refreshDeviceList builds from the service as it is now. */
    function RefreshedList(): (r: seq<Device>)
      reads this, btService
      requires btService != null ==> Sortable(btService.visibleDevices)
      ensures btService == null ==> r == []
      ensures btService != null ==> multiset(r) == multiset(btService.visibleDevices)
      ensures SortedByName(r)
    {
      if btService == null then [] else SortByName(btService.visibleDevices)
    }

    /** The activity with its field initialisers, bound to service (null
        while the service is not bound). */
    constructor (service: BleService?)
      ensures Valid()
      ensures btService == service && devices == [] && deviceController.None?
      ensures controllersCreated == 0 && controllersDestroyed == 0 && deviceLabel == LayoutText
    {
      btService := service;
      devices := [];
      deviceController := None;
      controllersCreated, controllersDestroyed := 0, 0;
      deviceLabel := LayoutText;
    }

    /** refreshDeviceList: clear the list, add the visible devices when a
        service is bound, sort by display name ignoring case. */
    method RefreshDeviceList()
      requires Valid()
      requires btService != null ==> Sortable(btService.visibleDevices)
      modifies this`devices
      ensures Valid()
      ensures devices == RefreshedList()
    {
      var list: seq<Device> := [];
      if btService != null {
        list := list + btService.visibleDevices;
        assert list == btService.visibleDevices;
      }
      devices := SortByName(list);
    }

    /** destroyDeviceController: destroy the controller if there is one. */
    method DestroyDeviceController()
      requires Valid()
      modifies this`deviceController, this`controllersDestroyed
      ensures Valid()
      ensures deviceController.None?
      ensures controllersDestroyed == old(controllersDestroyed) + (if old(deviceController).Some? then 1 else 0)
    {
      if deviceController.Some? {
        controllersDestroyed := controllersDestroyed + 1;
        deviceController := None;
      }
    }

    /** setupDeviceController: when the service is connected, a controller
        bound to its current device replaces any existing one, which is
        destroyed first; otherwise the controller is destroyed. */
    method SetupDeviceController()
      requires Valid() && btService != null
      modifies this`deviceController, this`controllersCreated, this`controllersDestroyed
      decreases if deviceController.Some? then 1 else 0
      ensures Valid()
      ensures deviceController.Some? <==> btService.IsConnected()
      ensures btService.IsConnected() ==>
                deviceController == Some(ControllerHandle(old(controllersCreated) + 1, btService.currentDevice))
      ensures controllersCreated == old(controllersCreated) + (if btService.IsConnected() then 1 else 0)
      ensures controllersDestroyed == old(controllersDestroyed) + (if old(deviceController).Some? then 1 else 0)
    {
      if btService.IsConnected() {
        if deviceController.None? {
          controllersCreated := controllersCreated + 1;
          deviceController := Some(ControllerHandle(controllersCreated, btService.currentDevice));
        } else {
          DestroyDeviceController();
          SetupDeviceController();
        }
      } else {
        DestroyDeviceController();
      }
    }

    /** onItemClick for the device shown at position: ignored while
        connecting; a click on the connected device disconnects it and
        refreshes the list; any other click connects to the device. */
    method OnItemClick(position: nat)
      requires Valid()
      requires btService != null && position < |devices|
      // getCurrentDevice() is dereferenced when the state is CONNECTED
      requires btService.state == StateConnected ==> btService.currentDevice.Some?
      // the selected device's address is dereferenced when the current address is compared
      requires btService.state == StateConnected && CurrentAddress(btService.currentDevice).Some?
               ==> devices[position].address.Some?
      requires SelectsConnectedDevice(btService.state, btService.currentDevice, devices[position])
               ==> Sortable(btService.visibleDevices)
      modifies this`devices, btService`calls
      ensures Valid()
      ensures btService.state == StateConnecting ==>
                btService.calls == old(btService.calls) && devices == old(devices)
      ensures btService.state != StateConnecting
              && SelectsConnectedDevice(btService.state, btService.currentDevice, old(devices)[position]) ==>
                btService.calls == old(btService.calls) + [DisconnectCall] && devices == RefreshedList()
      ensures btService.state != StateConnecting
              && !SelectsConnectedDevice(btService.state, btService.currentDevice, old(devices)[position]) ==>
                btService.calls == old(btService.calls) + [ConnectCall(old(devices)[position])]
                && devices == old(devices)
    {
      if btService.state == StateConnecting {
        return;
      }
      var device := devices[position];
      if SelectsConnectedDevice(btService.state, btService.currentDevice, device) {
        btService.Disconnect();
        RefreshDeviceList();
        return;
      }
      btService.Connect(device);
    }

    /** onPause: stop the scan when a service is bound. */
    method OnPause()
      modifies btService
      ensures btService != null ==> btService.calls == old(btService.calls) + [CancelDiscoveryCall]
      ensures btService != null ==>
                btService.state == old(btService.state) && btService.currentDevice == old(btService.currentDevice)
                && btService.visibleDevices == old(btService.visibleDevices)
    {
      if btService != null {
        btService.CancelDiscovery();
      }
    }

    /** The broadcast receiver. A connection-status broadcast refreshes the
        list and then sets the controller up (status CONNECTED) or destroys
        it (any other status); a device-list broadcast only refreshes the
        list; every other broadcast leaves the modelled state alone. */
    method OnReceive(intent: Option<Intent>)
      requires Valid()
      requires (intent.Some? && (intent.value.ConnectionStatusUpdate? || intent.value.DeviceListUpdated?)
                && btService != null) ==> Sortable(btService.visibleDevices)
      // setupDeviceController calls isConnected() on the service
      requires (intent.Some? && intent.value.ConnectionStatusUpdate?
                && ReportedStatus(intent.value) == StateConnected) ==> btService != null
      modifies this`devices, this`deviceController, this`controllersCreated, this`controllersDestroyed,
               this`deviceLabel
      ensures Valid()
      ensures intent.Some? && intent.value.ConnectionStatusUpdate? ==>
                devices == RefreshedList()
      ensures intent.Some? && intent.value.ConnectionStatusUpdate? && ReportedStatus(intent.value) == StateConnected ==>
                (deviceController.Some? <==> btService.IsConnected())
                && (btService.IsConnected() ==>
                      deviceController == Some(ControllerHandle(old(controllersCreated) + 1, btService.currentDevice)))
                && controllersDestroyed == old(controllersDestroyed) + (if old(deviceController).Some? then 1 else 0)
                && deviceLabel == ConnectedTo(intent.value.deviceName)
      ensures intent.Some? && intent.value.ConnectionStatusUpdate? && ReportedStatus(intent.value) != StateConnected ==>
                deviceController.None? && deviceLabel == NoDeviceConnected
                && controllersCreated == old(controllersCreated)
      ensures intent.Some? && intent.value.DeviceListUpdated? ==>
                devices == RefreshedList()
                && deviceController == old(deviceController) && deviceLabel == old(deviceLabel)
                && controllersCreated == old(controllersCreated) && controllersDestroyed == old(controllersDestroyed)
      ensures intent.None? || !(intent.value.ConnectionStatusUpdate? || intent.value.DeviceListUpdated?) ==>
                devices == old(devices)
                && deviceController == old(deviceController) && deviceLabel == old(deviceLabel)
                && controllersCreated == old(controllersCreated) && controllersDestroyed == old(controllersDestroyed)
    {
      if intent.Some? && intent.value.ConnectionStatusUpdate? {
        RefreshDeviceList();
        if ReportedStatus(intent.value) == StateConnected {
          SetupDeviceController();
          deviceLabel := ConnectedTo(intent.value.deviceName);
        } else {
          DestroyDeviceController();
          deviceLabel := NoDeviceConnected;
        }
      } else if intent.Some? && intent.value.DeviceListUpdated? {
        RefreshDeviceList();
      }
    }
  }
}
