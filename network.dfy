/**
 * The panel's network indicator (CanopyDE/src/widgets/network.c): the
 * label names the first NetworkManager device that carries a connection.
 * What NetworkManager reports about each device is a `NetDevice` value.
 */
module Network {
  import opened Foreign

  /** NM_DEVICE_STATE_ACTIVATED (NetworkManager's NMDeviceState). */
  const NM_DEVICE_STATE_ACTIVATED: int := 100

  datatype DeviceKind = Wifi | Ethernet | OtherKind

  /** A device's type, its state, and (for WiFi) whether it has an active access point. */
  datatype NetDevice = NetDevice(kind: DeviceKind, state: int, hasAccessPoint: bool)

  const DISCONNECTED: string := "Disconnected"
  const PREFERENCES_COMMAND: string := "nm-connection-editor"

  /** The device carries a connection: an activated WiFi device with an access point, or an activated Ethernet device. */
  predicate Connected(d: NetDevice) {
    match d.kind
    case Wifi => d.hasAccessPoint && d.state == NM_DEVICE_STATE_ACTIVATED
    case Ethernet => d.state == NM_DEVICE_STATE_ACTIVATED
    case OtherKind => false
  }

  /** What the label says for a connected device. */
  function KindName(k: DeviceKind): string {
    match k
    case Wifi => "WiFi"
    case Ethernet => "Ethernet"
    case OtherKind => DISCONNECTED
  }

  /** The index of the first connected device from `i` on, if any. */
  function FirstConnected(devs: seq<NetDevice>, i: nat): (r: nat)
    ensures i <= r && (r < |devs| ==> Connected(devs[r])) && (r >= |devs| ==> r == i || r == |devs|)
    ensures forall j | i <= j < r && j < |devs| :: !Connected(devs[j])
    decreases |devs| - i
  {
    if i >= |devs| then i
    else if Connected(devs[i]) then i
    else FirstConnected(devs, i + 1)
  }

  /** The label network_update writes: the kind of the first connected device, or "Disconnected". */
  function StatusOf(devs: seq<NetDevice>): string {
    var k := FirstConnected(devs, 0);
    if k < |devs| then KindName(devs[k].kind) else DISCONNECTED
  }

  /**
   * The label is "Disconnected" exactly when no device is connected, and
   * otherwise names the first connected one; a device later in the list
   * never overrides an earlier one.
   */
  lemma {:induction false} StatusIff(devs: seq<NetDevice>)
    ensures StatusOf(devs) == DISCONNECTED <==> forall j | 0 <= j < |devs| :: !Connected(devs[j])
    ensures StatusOf(devs) == "WiFi" <==> exists k | 0 <= k < |devs| ::
      Connected(devs[k]) && devs[k].kind == Wifi && forall j | 0 <= j < k :: !Connected(devs[j])
    ensures StatusOf(devs) == "Ethernet" <==> exists k | 0 <= k < |devs| ::
      Connected(devs[k]) && devs[k].kind == Ethernet && forall j | 0 <= j < k :: !Connected(devs[j])
  {
    var k := FirstConnected(devs, 0);
    if k < |devs| {
      forall k' | 0 <= k' < |devs| && Connected(devs[k']) && forall j | 0 <= j < k' :: !Connected(devs[j])
        ensures k' == k
      {
      }
      assert devs[k].kind != OtherKind;
    }
  }

  /** A device before the first connected one is never a connected device of any kind, so an unsuitable WiFi device lets the scan go on. */
  lemma {:induction false} SkippedNotConnected(devs: seq<NetDevice>, d: NetDevice)
    requires !Connected(d)
    ensures StatusOf([d] + devs) == StatusOf(devs)
  {
    var s := [d] + devs;
    assert FirstConnected(s, 0) == FirstConnected(s, 1);
    FirstConnectedShift(d, devs, 0);
  }

  lemma {:induction false} FirstConnectedShift(d: NetDevice, devs: seq<NetDevice>, i: nat)
    ensures FirstConnected([d] + devs, i + 1) == FirstConnected(devs, i) + 1
    decreases |devs| - i
  {
    var s := [d] + devs;
    if i < |devs| {
      assert s[i + 1] == devs[i];
      if !Connected(devs[i]) {
        FirstConnectedShift(d, devs, i + 1);
      }
    }
  }

  class NetworkWidget {
    /** Whether nm_client_new gave a client. */
    var hasClient: bool
    var text: string

    /** network_new: an empty label; `clientOk` is whether the NetworkManager client was created. */
    constructor (clientOk: bool)
      ensures hasClient == clientOk && text == ""
    {
      hasClient := clientOk;
      text := "";
    }

    /**
     * network_update: without a client nothing changes; otherwise the
     * devices are scanned in order and the first connected one decides the
     * label.
     */
    method Update(devs: seq<NetDevice>)
      modifies this`text
      ensures !hasClient ==> text == old(text)
      ensures hasClient ==> text == StatusOf(devs)
    {
      if !hasClient {
        return;
      }
      var status := DISCONNECTED;
      var i := 0;
      while i < |devs|
        invariant i <= |devs| && status == DISCONNECTED
        invariant FirstConnected(devs, i) == FirstConnected(devs, 0)
      {
        var device := devs[i];
        if device.kind == Wifi {
          if device.hasAccessPoint && device.state == NM_DEVICE_STATE_ACTIVATED {
            status := "WiFi";
            break;
          }
        } else if device.kind == Ethernet && device.state == NM_DEVICE_STATE_ACTIVATED {
          status := "Ethernet";
          break;
        }
        i := i + 1;
      }
      text := status;
    }

    /** on_network_preferences_clicked: the connection editor is started. */
    method OnPreferencesClicked(out: Outbox)
      modifies out
      ensures out.sent == old(out.sent) + [Spawn(PREFERENCES_COMMAND)]
    {
      out.sent := out.sent + [Spawn(PREFERENCES_COMMAND)];
    }
  }
}
