/** The device record the app works with (MTBluetoothDevice). */
module Devices {
  import opened Wrappers

  /** A discovered BLE device: its display name (getDisplayName()) and the
      hardware address of the wrapped Android device (getDevice().getAddress()).
      Java allows either to be null. */
  datatype Device = Device(displayName: Option<string>, address: Option<string>)
}
