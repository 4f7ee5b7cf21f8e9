/** The xiao controller (src/xiao-controller/src/main.cpp): it classifies the joystick
    and button readings, formats them as `[x|y|z]`, and keeps a connection mode and a
    failed-send counter. Radio scans, connection polls, esp-now results and pin readings
    are parameters. */
module XiaoController {
  import opened Shared
  import opened Decimal

  const X_TOLERANCE_LOWER: int := 1200
  const X_TOLERANCE_UPPER: int := 3200
  const MAX_FAILED_MESSAGE_SENDS: u32 := 100
  const MAX_FAILED_AP_CONNECTION_ATTEMPTS: u32 := 30
  const HOST_SSID := "xiao-runner-light-host"
  const CONTENT_SIZE: nat := 120

  /** `ERuntimeMode`. */
  datatype Mode = Connected | Disconnected | Failed

  /** One network found by the scan: its SSID and its BSSID bytes. */
  datatype Network = Network(ssid: seq<char>, bssid: seq<u8>)

  /** An axis reading in three positions: 1 above the upper tolerance, 2 below the lower
      one, 0 in between. */
  function Classify(raw: int): (r: u8)
    ensures r <= 2
    ensures r == 1 <==> raw > X_TOLERANCE_UPPER
    ensures r == 2 <==> raw < X_TOLERANCE_LOWER
    ensures r == 0 <==> X_TOLERANCE_LOWER <= raw <= X_TOLERANCE_UPPER
  {
    if raw > X_TOLERANCE_UPPER then 1 else if raw < X_TOLERANCE_LOWER then 2 else 0
  }

  /** The button as 0 or 1: pressed reads 1, or 0 when built with `BUTTON_NORMAL_OPEN`. */
  function NormaliseZ(pin: int, normalOpen: bool): (z: u8)
    ensures z <= 1
    ensures z == 1 <==> pin == (if normalOpen then 0 else 1)
  {
    if normalOpen then (if pin == 0 then 1 else 0) else (if pin == 1 then 1 else 0)
  }

  /** The 120-character `message_payload.content` that is sent: the `sprintf` text, then
      `'\0'` (the buffer starts zeroed and only its first 40 characters are ever written). */
  function Frame(x: nat, y: nat, z: nat): (content: seq<char>)
    requires |Triple(x, y, z)| < 40
    ensures |content| == CONTENT_SIZE && content[..|Triple(x, y, z)|] == Triple(x, y, z)
    ensures forall i :: |Triple(x, y, z)| <= i < CONTENT_SIZE ==> content[i] == '\0'
  {
    Triple(x, y, z) + seq(CONTENT_SIZE - |Triple(x, y, z)|, _ => '\0')
  }

  /** A frame of classified readings is `[x|y|z]` with one digit per field. */
  lemma FrameText(x: u8, y: u8, z: u8)
    requires x <= 2 && y <= 2 && z <= 1
    ensures Triple(x, y, z) == ['[', DigitChar(x), '|', DigitChar(y), '|', DigitChar(z), ']']
    ensures |Triple(x, y, z)| == 7
  {
  }

  /** `failed_send_count += result == 0 ? 0 : failed_send_count + 1`, in `uint32_t`. */
  function NextFailedCount(count: u32, result: int): (r: u32)
    ensures result == 0 ==> r == count
    ensures result != 0 && count < 0x8000_0000 ==> r == 2 * count + 1
  {
    if result == 0 then count else (count + count + 1) % U32_MODULUS
  }

  /** The count after `k` failed sends in a row from 0. */
  function Failures(k: nat): u32
  {
    if k == 0 then 0 else NextFailedCount(Failures(k - 1), 1)
  }

  function Pow2(k: nat): (p: nat)
    ensures p >= 1
  {
    if k == 0 then 1 else 2 * Pow2(k - 1)
  }

  /** Failed sends double the count and add one: `k` of them in a row from 0 give
      `2^k - 1`, as long as that fits. */
  lemma {:induction false} FailuresDouble(k: nat)
    requires k <= 31
    ensures Failures(k) == Pow2(k) - 1
  {
    if k > 0 {
      FailuresDouble(k - 1);
      Pow2Bound(k - 1);
    }
  }

  lemma {:induction false} Pow2Bound(k: nat)
    requires k <= 30
    ensures Pow2(k) <= 0x4000_0000
  {
    Pow2Monotone(k, 30);
    Pow2Add(10, 20);
    Pow2Add(10, 10);
    assert Pow2(10) == 1024;
  }

  lemma {:induction false} Pow2Add(a: nat, b: nat)
    ensures Pow2(a + b) == Pow2(a) * Pow2(b)
    decreases b
  {
    if b > 0 {
      Pow2Add(a, b - 1);
      assert Pow2(a + b) == 2 * Pow2(a + b - 1);
    }
  }

  lemma {:induction false} Pow2Monotone(k: nat, n: nat)
    requires k <= n
    ensures Pow2(k) <= Pow2(n)
    decreases n
  {
    if k < n {
      Pow2Monotone(k, n - 1);
    }
  }

  /** So six failures in a row leave the controller connected, and the seventh makes it
      disconnect. */
  lemma SeventhFailureDisconnects()
    ensures Failures(6) == 63 <= MAX_FAILED_MESSAGE_SENDS
    ensures Failures(7) == 127 > MAX_FAILED_MESSAGE_SENDS
  {
    FailuresDouble(7);
    FailuresDouble(6);
  }

  /** The BSSID the scan reports with its last byte decremented (`uint8_t` wrap): the
      address esp-now sends to. */
  function PeerAddress(bssid: seq<u8>): (r: seq<u8>)
    requires |bssid| >= 6
    ensures |r| == 6 && r[..5] == bssid[..5]
    ensures (r[5] as int + 1) % 0x100 == bssid[5]
  {
    bssid[..5] + [(bssid[5] as int + 0xFF) % 0x100]
  }

  /** The index of the first network whose SSID is the light host's. */
  function FirstHost(scan: seq<Network>): (r: Option<nat>)
    ensures r.Some? ==> r.value < |scan| && scan[r.value].ssid == HOST_SSID
    ensures r.Some? ==> forall j :: 0 <= j < r.value ==> scan[j].ssid != HOST_SSID
    ensures r.None? ==> forall j :: 0 <= j < |scan| ==> scan[j].ssid != HOST_SSID
  {
    if scan == [] then None
    else
      var r := FirstHost(scan[..|scan| - 1]);
      if r.Some? then r
      else if scan[|scan| - 1].ssid == HOST_SSID then Some(|scan| - 1)
      else None
  }

  /** The controller's globals: `mode`, `failed_send_count` and `broadcast_address`. */
  class Controller {
    var mode: Mode
    var failedSendCount: u32
    const broadcastAddress: array<u8>

    /** While connected, the count has not passed the limit: a connected controller that
        fails once more cannot wrap the count. */
    predicate Valid()
      reads this
    {
      broadcastAddress.Length == 6 && (mode == Connected ==> failedSendCount <= MAX_FAILED_MESSAGE_SENDS)
    }

    /** The static initial state: disconnected, no failures, a zero address. */
    constructor()
      ensures Valid() && fresh(broadcastAddress)
      ensures mode == Disconnected && failedSendCount == 0 && broadcastAddress[..] == [0, 0, 0, 0, 0, 0]
    {
      mode := Disconnected;
      failedSendCount := 0;
      broadcastAddress := new u8[6](_ => 0);
    }

    /** The copy loop of `loop`: the six BSSID bytes, the last one decremented. */
    method CopyAddress(bssid: seq<u8>)
      requires Valid() && |bssid| >= 6
      modifies broadcastAddress
      ensures Valid() && broadcastAddress[..] == PeerAddress(bssid)
    {
      var i: u8 := 0;
      while i < 6
        invariant 0 <= i <= 6 && Valid()
        invariant forall j :: 0 <= j < i ==>
                    broadcastAddress[j] == if j == 5 then (bssid[5] as int + 0xFF) % 0x100 else bssid[j]
      {
        broadcastAddress[i] := bssid[i];
        if i == 5 {
          broadcastAddress[i] := (broadcastAddress[i] as int - 1) % 0x100;
        }
        i := i + 1;
      }
      assert broadcastAddress[..] == bssid[..5] + [broadcastAddress[5]];
    }

    /** `loop` once disconnected: find the light host in `scan`, take its address, and
        poll the Wi-Fi status, of which the first `notConnectedPolls` readings say it
        is not connected yet; after 30 failed attempts give up until the next loop.
        Then start esp-now and add the peer, either of which can fail for good. */
    method Connect(scan: seq<Network>, notConnectedPolls: nat, initOk: bool, peerOk: bool)
      requires Valid() && mode == Disconnected
      requires forall j :: 0 <= j < |scan| ==> |scan[j].bssid| >= 6
      modifies this, broadcastAddress
      ensures Valid()
      ensures FirstHost(scan).None? ==>
                mode == Disconnected && failedSendCount == old(failedSendCount) &&
                broadcastAddress[..] == old(broadcastAddress[..])
      ensures FirstHost(scan).Some? ==>
                && broadcastAddress[..] == PeerAddress(scan[FirstHost(scan).value].bssid)
                && mode == (if notConnectedPolls > MAX_FAILED_AP_CONNECTION_ATTEMPTS then Disconnected
                            else if initOk && peerOk then Connected
                            else Failed)
                && failedSendCount == (if mode == Connected then 0 else old(failedSendCount))
    {
      var i := 0;
      var found := false;
      while i < |scan|
        invariant 0 <= i <= |scan| && Valid() && mode == Disconnected
        invariant failedSendCount == old(failedSendCount)
        invariant broadcastAddress[..] == old(broadcastAddress[..])
        invariant forall j :: 0 <= j < i ==> scan[j].ssid != HOST_SSID
      {
        if scan[i].ssid == HOST_SSID {
          CopyAddress(scan[i].bssid);
          var attempts: u32 := 0;
          var polls := notConnectedPolls;
          while polls > 0
            invariant attempts as int + polls == notConnectedPolls && attempts <= MAX_FAILED_AP_CONNECTION_ATTEMPTS
          {
            polls := polls - 1;
            attempts := attempts + 1;
            if attempts > MAX_FAILED_AP_CONNECTION_ATTEMPTS {
              return;
            }
          }
          found := true;
          break;
        }
        i := i + 1;
      }
      if !found {
        return;
      }
      if !initOk {
        mode := Failed;
        return;
      }
      if !peerOk {
        mode := Failed;
        return;
      }
      failedSendCount := 0;
      mode := Connected;
    }

    /** `loop` once connected: classify the readings, send the frame, and count a failed
        send; past 100 the controller disconnects. Returns what was sent. */
    method Send(rawX: int, rawY: int, zPin: int, normalOpen: bool, result: int) returns (sent: seq<char>)
      requires Valid() && mode == Connected
      modifies this
      ensures Valid()
      ensures sent == Frame(Classify(rawX), Classify(rawY), NormaliseZ(zPin, normalOpen))
      ensures failedSendCount == NextFailedCount(old(failedSendCount), result)
      ensures failedSendCount >= old(failedSendCount)
      ensures mode == (if failedSendCount > MAX_FAILED_MESSAGE_SENDS then Disconnected else Connected)
    {
      var y := Classify(rawY);
      var x := Classify(rawX);
      var z := NormaliseZ(zPin, normalOpen);
      FrameText(x, y, z);
      sent := Frame(x, y, z);
      failedSendCount := (failedSendCount + (if result == 0 then 0 else failedSendCount + 1)) % U32_MODULUS;
      if failedSendCount > MAX_FAILED_MESSAGE_SENDS {
        mode := Disconnected;
        return;
      }
    }

    /** One `loop`: nothing once failed; connect while disconnected; send while
        connected. */
    method Loop(scan: seq<Network>, notConnectedPolls: nat, initOk: bool, peerOk: bool,
                rawX: int, rawY: int, zPin: int, normalOpen: bool, result: int)
      returns (sent: Option<seq<char>>)
      requires Valid()
      requires forall j :: 0 <= j < |scan| ==> |scan[j].bssid| >= 6
      modifies this, broadcastAddress
      ensures Valid()
      ensures old(mode) == Failed ==> mode == Failed && failedSendCount == old(failedSendCount) && sent == None
      ensures old(mode) != Connected ==> sent == None
      ensures old(mode) == Connected ==>
                sent == Some(Frame(Classify(rawX), Classify(rawY), NormaliseZ(zPin, normalOpen))) &&
                broadcastAddress[..] == old(broadcastAddress[..])
      // the controller only fails while connecting
      ensures mode == Failed ==> old(mode) != Connected
    {
      if mode == Failed {
        return None;
      }
      if mode == Disconnected {
        Connect(scan, notConnectedPolls, initOk, peerOk);
        return None;
      }
      var frame := Send(rawX, rawY, zPin, normalOpen, result);
      sent := Some(frame);
    }
  }
}
