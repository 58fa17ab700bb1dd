/** The Web Bluetooth adapter (ArduinoBluetooth): the three-step device
    request, the GATT connection, the choice of the service and
    characteristic to listen on, the error-message classification, the
    data path into the line framer, and disconnect. Every browser call
    (requestDevice, gatt.connect, getPrimaryService(s), getCharacteristic(s),
    startNotifications, stopNotifications) is replaced by its outcome. */
module Bluetooth {
  import opened Wrappers
  import opened JsText
  import opened Framing

  const DeviceName: string := "SHIMTER"
  /** The HC-05/HC-06 style serial service and its data characteristic. */
  const SerialService: string := "0000ffe0-0000-1000-8000-00805f9b34fb"
  const SerialCharacteristic: string := "0000ffe1-0000-1000-8000-00805f9b34fb"
  /** The Serial Port Profile service. */
  const SppService: string := "00001101-0000-1000-8000-00805f9b34fb"
  /** The services every device request asks access to. */
  const OptionalServices: seq<string> := ["battery_service", SerialService, SppService]
  /** The services tried by UUID before the discovered ones, in order. */
  const KnownServices: seq<string> := [SerialService, SppService]

  // ---------------------------------------------------------------------------
  // device request

  datatype Filter = NameFilter(name: string) | AcceptAllDevices | ServicesFilter(services: seq<string>)
  datatype DeviceRequest = DeviceRequest(filter: Filter, optionalServices: seq<string>)

  /** The three requestDevice options, in the order they are tried. */
  const DeviceRequests: seq<DeviceRequest> := [
    DeviceRequest(NameFilter(DeviceName), OptionalServices),
    DeviceRequest(AcceptAllDevices, OptionalServices),
    DeviceRequest(ServicesFilter([SerialService]), OptionalServices)
  ]

  datatype Characteristic = Characteristic(uuid: string, read: bool, notify: bool, indicate: bool)

  /** A characteristic the adapter can take data from. */
  predicate Usable(c: Characteristic) {
    c.read || c.notify || c.indicate
  }

  /** A primary service, with what its getCharacteristics() yields. */
  datatype Service = Service(uuid: string, characteristics: Result<seq<Characteristic>, string>)

  /** A connected GATT server, with what its getPrimaryServices() yields. */
  datatype Server = Server(primaryServices: Result<seq<Service>, string>, connected: bool)

  /** A chosen device: gatt.connect() resolves to a server or rejects; None
      when the device has no gatt member. */
  datatype Device = Device(gatt: Option<Result<Server, string>>)

  /** The nested try/catch around requestDevice: the name filter, then all
      devices, then the service filter; the first success is used, and only
      the failure of the last attempt escapes. */
  function RequestDevice(respond: DeviceRequest -> Result<Device, string>): (r: Result<Device, string>)
    ensures r.Success? <==> exists i :: 0 <= i < |DeviceRequests| && respond(DeviceRequests[i]).Success?
    ensures r.Success? ==>
      exists i ::
        && 0 <= i < |DeviceRequests| && r == respond(DeviceRequests[i])
        && forall j :: 0 <= j < i ==> respond(DeviceRequests[j]).Failure?
    ensures r.Failure? ==> r == respond(DeviceRequests[2])
  {
    var byName := respond(DeviceRequests[0]);
    if byName.Success? then byName
    else
      var all := respond(DeviceRequests[1]);
      if all.Success? then all
      else respond(DeviceRequests[2])
  }

  /** All three requests ask for the same optional services. */
  lemma RequestsShareOptionalServices()
    ensures forall i :: 0 <= i < |DeviceRequests| ==> DeviceRequests[i].optionalServices == OptionalServices
  {
  }

  // ---------------------------------------------------------------------------
  // service and characteristic selection

  /** getPrimaryService(uuid) and getCharacteristic(uuid): the first
      element with that UUID, or None where the browser call rejects. */
  function FindUuid<T>(xs: seq<T>, uuidOf: T -> string, uuid: string): (r: Option<T>)
    ensures r.Some? ==> r.value in xs && uuidOf(r.value) == uuid
    ensures r.None? <==> forall i :: 0 <= i < |xs| ==> uuidOf(xs[i]) != uuid
  {
    if |xs| == 0 then None
    else if uuidOf(xs[0]) == uuid then Some(xs[0])
    else FindUuid(xs[1..], uuidOf, uuid)
  }

  function FindService(services: seq<Service>, uuid: string): Option<Service> {
    FindUuid(services, (s: Service) => s.uuid, uuid)
  }

  function FindCharacteristic(cs: seq<Characteristic>, uuid: string): Option<Characteristic> {
    FindUuid(cs, (c: Characteristic) => c.uuid, uuid)
  }

  /** cs[i] is the first usable characteristic of cs. */
  predicate FirstUsableAt(cs: seq<Characteristic>, i: int) {
    0 <= i < |cs| && Usable(cs[i]) && forall j :: 0 <= j < i ==> !Usable(cs[j])
  }

  /** characteristics.find(read || notify || indicate). */
  function FirstUsable(cs: seq<Characteristic>): (r: Option<Characteristic>)
    ensures r.None? <==> forall i :: 0 <= i < |cs| ==> !Usable(cs[i])
    ensures r.Some? ==> exists i :: FirstUsableAt(cs, i) && cs[i] == r.value
  {
    if |cs| == 0 then None
    else if Usable(cs[0]) then Some(cs[0])
    else
      var r := FirstUsable(cs[1..]);
      assert r.Some? ==> exists i :: FirstUsableAt(cs, i) && cs[i] == r.value by {
        if r.Some? {
          var k :| FirstUsableAt(cs[1..], k) && cs[1..][k] == r.value;
          assert forall j :: 1 <= j < k + 1 ==> cs[j] == cs[1..][j - 1];
          assert FirstUsableAt(cs, k + 1);
        }
      }
      r
  }

  /** What one known service yields: the ffe1 characteristic, else the
      first usable one, else the first one; nothing when its
      characteristics cannot be listed or there are none. */
  function ServiceChoice(svc: Service): Option<Characteristic> {
    match svc.characteristics
    case Failure(_) => None
    case Success(cs) =>
      match FindCharacteristic(cs, SerialCharacteristic)
      case Some(c) => Some(c)
      case None =>
        if |cs| == 0 then None
        else match FirstUsable(cs)
          case Some(c) => Some(c)
          case None => Some(cs[0])
  }

  /** The first phase: the known service UUIDs in order. */
  function KnownChoice(services: seq<Service>, known: seq<string>): Option<Characteristic> {
    if |known| == 0 then None
    else match FindService(services, known[0])
      case None => KnownChoice(services, known[1..])
      case Some(svc) =>
        match ServiceChoice(svc)
        case Some(c) => Some(c)
        case None => KnownChoice(services, known[1..])
  }

  /** The second phase: the discovered services in order; the first usable
      characteristic of the first service that has one. A service whose
      characteristics cannot be listed ends the search with that error. */
  function DiscoveredChoice(services: seq<Service>): (d: Result<Option<Characteristic>, string>)
    ensures d.Failure? ==> exists i :: 0 <= i < |services| && services[i].characteristics == Failure(d.error)
  {
    if |services| == 0 then Success(None)
    else match services[0].characteristics
      case Failure(e) => Failure(e)
      case Success(cs) =>
        match FirstUsable(cs)
        case Some(c) => Success(Some(c))
        case None => DiscoveredChoice(services[1..])
  }

  function ServiceUuids(services: seq<Service>): (uuids: seq<string>)
    ensures |uuids| == |services| && forall i :: 0 <= i < |services| ==> uuids[i] == services[i].uuid
  {
    if |services| == 0 then [] else [services[0].uuid] + ServiceUuids(services[1..])
  }

  /** The error thrown when no service or characteristic is found; it lists
      every discovered service UUID. */
  function NoSerialService(services: seq<Service>): string {
    "시리얼 통신을 위한 서비스나 특성을 찾을 수 없습니다. " + "발견된 서비스: " + Join(ServiceUuids(services), ", ")
  }

  /** The characteristic connect listens on, or the message of the error
      the selection throws. */
  function Selection(services: seq<Service>): (r: Result<Characteristic, string>)
    ensures KnownChoice(services, KnownServices).Some? ==> r == Success(KnownChoice(services, KnownServices).value)
    ensures r.Failure? ==>
              || r.error == NoSerialService(services)
              || exists i :: 0 <= i < |services| && services[i].characteristics == Failure(r.error)
  {
    match KnownChoice(services, KnownServices)
    case Some(c) => Success(c)
    case None =>
      match DiscoveredChoice(services)
      case Failure(e) => Failure(e)
      case Success(Some(c)) => Success(c)
      case Success(None) => Failure(NoSerialService(services))
  }

  /** The two loops of connect that look for the service and characteristic
      to listen on: first the known UUIDs, then the discovered services. */
  method SelectCharacteristic(services: seq<Service>) returns (r: Result<Characteristic, string>)
    ensures r == Selection(services)
  {
    var characteristic: Option<Characteristic> := None;
    var k := 0;
    while k < |KnownServices|
      invariant 0 <= k <= |KnownServices| && characteristic.None?
      invariant KnownChoice(services, KnownServices) == KnownChoice(services, KnownServices[k..])
    {
      var uuid := KnownServices[k];
      assert KnownServices[k..][1..] == KnownServices[k + 1..];
      k := k + 1;
      var service := FindService(services, uuid);
      if service.None? {
        // getPrimaryService rejected
        continue;
      }
      match service.value.characteristics
      case Failure(_) =>
        // getCharacteristic and getCharacteristics rejected; the outer catch continues
        continue;
      case Success(cs) =>
        var ffe1 := FindCharacteristic(cs, SerialCharacteristic);
        if ffe1.Some? {
          characteristic := ffe1;
          break;
        }
        if |cs| > 0 {
          var found := FirstUsable(cs);
          characteristic := if found.Some? then found else Some(cs[0]);
          break;
        }
    }
    assert characteristic == KnownChoice(services, KnownServices);
    if characteristic.None? {
      var j := 0;
      while j < |services|
        invariant 0 <= j <= |services| && characteristic.None?
        invariant DiscoveredChoice(services) == DiscoveredChoice(services[j..])
      {
        var svc := services[j];
        assert services[j..][1..] == services[j + 1..];
        j := j + 1;
        match svc.characteristics
        case Failure(e) =>
          // not caught in this phase: connect fails with this error
          return Failure(e);
        case Success(cs) =>
          var found := FirstUsable(cs);
          if found.Some? {
            characteristic := found;
            break;
          }
      }
      assert characteristic == DiscoveredChoice(services).value;
    }
    if characteristic.None? {
      return Failure(NoSerialService(services));
    }
    return Success(characteristic.value);
  }

  // ---------------------------------------------------------------------------
  // properties of the selection

  /** c is a characteristic listed by one of the services. */
  predicate Offers(services: seq<Service>, c: Characteristic) {
    exists i :: 0 <= i < |services| && services[i].characteristics.Success? && c in services[i].characteristics.value
  }

  lemma {:induction false} KnownChoiceSound(services: seq<Service>, known: seq<string>)
    ensures KnownChoice(services, known).Some? ==> Offers(services, KnownChoice(services, known).value)
    decreases |known|
  {
    if |known| > 0 {
      KnownChoiceSound(services, known[1..]);
      var svc := FindService(services, known[0]);
      if svc.Some? && ServiceChoice(svc.value).Some? {
        var i :| 0 <= i < |services| && services[i] == svc.value;
      }
    }
  }

  lemma {:induction false} DiscoveredChoiceSound(services: seq<Service>)
    ensures var d := DiscoveredChoice(services);
      d.Success? && d.value.Some? ==> Offers(services, d.value.value) && Usable(d.value.value)
    decreases |services|
  {
    if |services| > 0 && services[0].characteristics.Success? && FirstUsable(services[0].characteristics.value).None? {
      DiscoveredChoiceSound(services[1..]);
      var d := DiscoveredChoice(services);
      if d.Success? && d.value.Some? {
        var i :| 0 <= i < |services[1..]| && services[1..][i].characteristics.Success?
          && d.value.value in services[1..][i].characteristics.value;
        assert services[i + 1] == services[1..][i];
      }
    }
  }

  /** Whatever connect listens on is a characteristic of a discovered
      service. */
  lemma SelectionSound(services: seq<Service>)
    ensures Selection(services).Success? ==> Offers(services, Selection(services).value)
  {
    KnownChoiceSound(services, KnownServices);
    DiscoveredChoiceSound(services);
  }

  /** The search returns the first element with the UUID. */
  lemma {:induction false} FindUuidFirst<T>(xs: seq<T>, uuidOf: T -> string, uuid: string, i: nat)
    requires i < |xs| && uuidOf(xs[i]) == uuid
    requires forall j :: 0 <= j < i ==> uuidOf(xs[j]) != uuid
    ensures FindUuid(xs, uuidOf, uuid) == Some(xs[i])
    decreases i
  {
    if i > 0 {
      FindUuidFirst(xs[1..], uuidOf, uuid, i - 1);
    }
  }

  /** When the first ffe0 service lists an ffe1 characteristic, connect
      listens on ffe1 of that service, whatever else is offered. */
  lemma SelectionPrefersSerialCharacteristic(services: seq<Service>, i: nat, cs: seq<Characteristic>)
    requires i < |services| && services[i].uuid == SerialService && services[i].characteristics == Success(cs)
    requires forall j :: 0 <= j < i ==> services[j].uuid != SerialService
    requires exists c :: c in cs && c.uuid == SerialCharacteristic
    ensures Selection(services).Success?
    ensures Selection(services).value.uuid == SerialCharacteristic && Selection(services).value in cs
  {
    FindUuidFirst(services, (s: Service) => s.uuid, SerialService, i);
  }

  lemma {:induction false} DiscoveredChoiceComplete(services: seq<Service>)
    requires forall i :: 0 <= i < |services| ==> services[i].characteristics.Success?
    ensures DiscoveredChoice(services).Success?
    ensures DiscoveredChoice(services).value.None? <==>
      forall i, k :: 0 <= i < |services| && 0 <= k < |services[i].characteristics.value| ==>
        !Usable(services[i].characteristics.value[k])
    decreases |services|
  {
    if |services| > 0 {
      DiscoveredChoiceComplete(services[1..]);
      assert forall i :: 1 <= i < |services| ==> services[i] == services[1..][i - 1];
    }
  }

  /** A known service yields its ffe1 characteristic when it lists one;
      otherwise its first usable characteristic, or its first characteristic
      when none is usable; and nothing when it lists none or its
      characteristics cannot be listed. */
  lemma ServiceChoiceFallback(svc: Service)
    ensures svc.characteristics.Failure? ==> ServiceChoice(svc) == None
    ensures svc.characteristics.Success? ==>
      var cs := svc.characteristics.value;
      && (ServiceChoice(svc) == None <==> |cs| == 0)
      && ((exists k :: 0 <= k < |cs| && cs[k].uuid == SerialCharacteristic) ==>
            ServiceChoice(svc).Some? && ServiceChoice(svc).value in cs
            && ServiceChoice(svc).value.uuid == SerialCharacteristic)
      && ((forall k :: 0 <= k < |cs| ==> cs[k].uuid != SerialCharacteristic) && |cs| > 0 ==>
            (exists i :: FirstUsableAt(cs, i) && ServiceChoice(svc) == Some(cs[i]))
            || ((forall i :: 0 <= i < |cs| ==> !Usable(cs[i])) && ServiceChoice(svc) == Some(cs[0])))
  {
  }

  /** A known UUID is passed over, and the search goes on with the next
      one, when no discovered service has it, or when the first service that
      has it lists no characteristic or cannot list them. */
  lemma KnownChoiceSkips(services: seq<Service>, known: seq<string>, i: nat)
    requires |known| > 0 && i <= |services|
    requires forall j :: 0 <= j < i ==> services[j].uuid != known[0]
    requires i < |services| ==>
      services[i].uuid == known[0]
      && (services[i].characteristics.Failure? || services[i].characteristics == Success([]))
    ensures KnownChoice(services, known) == KnownChoice(services, known[1..])
  {
    if i < |services| {
      FindUuidFirst(services, (s: Service) => s.uuid, known[0], i);
    }
  }

  /** The known UUIDs are tried in order: a later one is consulted only when
      every earlier one yields nothing. */
  lemma {:induction false} KnownChoiceInOrder(services: seq<Service>, first: seq<string>, later: seq<string>)
    ensures KnownChoice(services, first + later) ==
      if KnownChoice(services, first).Some? then KnownChoice(services, first) else KnownChoice(services, later)
    decreases |first|
  {
    if |first| == 0 {
      assert first + later == later;
    } else {
      assert (first + later)[0] == first[0];
      assert (first + later)[1..] == first[1..] + later;
      KnownChoiceInOrder(services, first[1..], later);
    }
  }

  /** The SPP service is tried only when the ffe0 service yields nothing. */
  lemma SerialServiceBeforeSpp(services: seq<Service>)
    ensures KnownChoice(services, KnownServices) ==
      if KnownChoice(services, [SerialService]).Some? then KnownChoice(services, [SerialService])
      else KnownChoice(services, [SppService])
  {
    assert KnownServices == [SerialService] + [SppService];
    KnownChoiceInOrder(services, [SerialService], [SppService]);
  }

  /** The discovery phase passes over svc: it lists its characteristics and
      none of them is usable. */
  predicate PassedOver(svc: Service) {
    svc.characteristics.Success? && FirstUsable(svc.characteristics.value).None?
  }

  /** The discovery phase stops at the first service, in discovery order,
      that it does not pass over: it takes that service's first usable
      characteristic, or fails with its listing error; it finds nothing
      exactly when it passes over every service. */
  lemma {:induction false} DiscoveredChoiceFirst(services: seq<Service>)
    ensures var d := DiscoveredChoice(services);
      d.Success? && d.value.Some? ==>
        exists i :: 0 <= i < |services| && services[i].characteristics.Success?
          && d.value == FirstUsable(services[i].characteristics.value)
          && forall j :: 0 <= j < i ==> PassedOver(services[j])
    ensures var d := DiscoveredChoice(services);
      d.Failure? ==>
        exists i :: 0 <= i < |services| && services[i].characteristics == Failure(d.error)
          && forall j :: 0 <= j < i ==> PassedOver(services[j])
    ensures DiscoveredChoice(services) == Success(None) <==>
      forall j :: 0 <= j < |services| ==> PassedOver(services[j])
    decreases |services|
  {
    if |services| > 0 && PassedOver(services[0]) {
      var rest := services[1..];
      DiscoveredChoiceFirst(rest);
      assert forall j :: 1 <= j < |services| ==> services[j] == rest[j - 1];
    }
  }

  /** When the known UUIDs yield nothing, discovery decides: a selected
      characteristic is the first usable one of the first service not passed
      over; when every service is passed over the error lists every
      discovered UUID; any other error is the listing error of the first
      service not passed over. */
  lemma SelectionFallsBackToDiscovery(services: seq<Service>)
    requires KnownChoice(services, KnownServices).None?
    ensures Selection(services).Success? ==>
      exists i :: 0 <= i < |services| && services[i].characteristics.Success?
        && Some(Selection(services).value) == FirstUsable(services[i].characteristics.value)
        && forall j :: 0 <= j < i ==> PassedOver(services[j])
    ensures (forall j :: 0 <= j < |services| ==> PassedOver(services[j])) ==>
      Selection(services) == Failure(NoSerialService(services))
    ensures Selection(services).Failure? && !(forall j :: 0 <= j < |services| ==> PassedOver(services[j])) ==>
      exists i :: 0 <= i < |services| && services[i].characteristics == Failure(Selection(services).error)
        && forall j :: 0 <= j < i ==> PassedOver(services[j])
  {
    DiscoveredChoiceFirst(services);
  }

  /** Without any known service, connect takes a usable characteristic of a
      discovered service when one exists, and otherwise fails with the
      message listing the discovered UUIDs. */
  lemma SelectionWithoutKnownServices(services: seq<Service>)
    requires forall i :: 0 <= i < |services| ==> services[i].uuid !in KnownServices
    requires forall i :: 0 <= i < |services| ==> services[i].characteristics.Success?
    ensures Selection(services).Success? ==> Usable(Selection(services).value) && Offers(services, Selection(services).value)
    ensures Selection(services).Failure? <==>
      forall i, k :: 0 <= i < |services| && 0 <= k < |services[i].characteristics.value| ==>
        !Usable(services[i].characteristics.value[k])
    ensures Selection(services).Failure? ==> Selection(services).error == NoSerialService(services)
  {
    assert FindService(services, KnownServices[0]).None?;
    assert FindService(services, KnownServices[1..][0]).None?;
    assert KnownServices[1..][1..] == [];
    assert KnownChoice(services, KnownServices[1..]) == None;
    assert KnownChoice(services, KnownServices) == None;
    DiscoveredChoiceComplete(services);
    DiscoveredChoiceSound(services);
  }

  // ---------------------------------------------------------------------------
  // error classification

  // The messages are written as concatenations of short pieces, which keeps
  // the reasoning about their characters small.
  const BleApiMissing: string := "Web Bluetooth API is " + "not supported" + " in this browser"
  const GattMissing: string := "Failed to connect to " + "GATT" + " server"
  const DeviceCancelled: string := "장치 선택이 취소되었습니다."
  const ClassicGuidance: string :=
    "HC-05는 클래식 블루투스 모듈로 Web Bluetooth API에서 지원되지 않습니다.\n\n" +
    "해결 방법:\n" +
    "1. BLE 모듈로 교체 (ESP32, HM-10, nRF51822 등)\n" +
    "2. 중간 서버 사용 (Node.js 브릿지 서버)\n" +
    "3. Web Serial API 사용 (USB 케이블 연결 필요)\n\n" +
    "Web Bluetooth API는 BLE(Bluetooth Low Energy) 장치만 지원합니다."

  /** The message reported for a GATT failure: it quotes the original. */
  function GattFailure(msg: string): (r: string)
    ensures Includes(r, msg)
  {
    IncludesMiddle("GATT 서버 연결 실패: ", msg, "\n장치가 BLE를 지원하는지 확인해주세요.");
    "GATT 서버 연결 실패: " + msg + "\n장치가 BLE를 지원하는지 확인해주세요."
  }

  /** The message connect rethrows for a failure with message msg. */
  function BluetoothConnectError(msg: string): (r: string)
    ensures Includes(msg, "Unsupported device") || Includes(msg, "NetworkError") ==> r == ClassicGuidance
    ensures !Includes(msg, "Unsupported device") && !Includes(msg, "NetworkError") ==>
      && (Includes(msg, "No device selected") ==> r == DeviceCancelled)
      && (!Includes(msg, "No device selected") && Includes(msg, "GATT") ==> r == GattFailure(msg))
      && (!Includes(msg, "No device selected") && !Includes(msg, "GATT") ==> r == msg)
    ensures r == msg || r == ClassicGuidance || r == DeviceCancelled || r == GattFailure(msg)
  {
    if Includes(msg, "Unsupported device") || Includes(msg, "NetworkError") then ClassicGuidance
    else if Includes(msg, "No device selected") then DeviceCancelled
    else if Includes(msg, "GATT") then GattFailure(msg)
    else msg
  }

  /** Unlike the serial adapter, a missing navigator.bluetooth is reported
      with its own English message: it matches none of the phrases. */
  lemma BleApiMissingUnchanged()
    ensures BluetoothConnectError(BleApiMissing) == BleApiMissing
  {
    BleApiMissingLacksU();
    BleApiMissingLacksN();
    BleApiMissingLacksG();
    ExcludesByChar(BleApiMissing, "Unsupported device", 0);
    ExcludesByChar(BleApiMissing, "NetworkError", 0);
    ExcludesByChar(BleApiMissing, "No device selected", 0);
    ExcludesByChar(BleApiMissing, "GATT", 0);
  }

  lemma BleApiMissingLacksU()
    ensures 'U' !in BleApiMissing
  {
  }

  lemma BleApiMissingLacksN()
    ensures 'N' !in BleApiMissing
  {
  }

  lemma BleApiMissingLacksG()
    ensures 'G' !in BleApiMissing
  {
  }

  /** A device without a GATT server is reported as a GATT failure. */
  lemma GattMissingReported()
    ensures BluetoothConnectError(GattMissing) == GattFailure(GattMissing)
  {
    GattMissingLacksU();
    GattMissingLacksN();
    ExcludesByChar(GattMissing, "Unsupported device", 0);
    ExcludesByChar(GattMissing, "NetworkError", 0);
    ExcludesByChar(GattMissing, "No device selected", 0);
    IncludesMiddle("Failed to connect to ", "GATT", " server");
  }

  lemma GattMissingLacksU()
    ensures 'U' !in GattMissing
  {
  }

  lemma GattMissingLacksN()
    ensures 'N' !in GattMissing
  {
  }

  // ---------------------------------------------------------------------------
  // the adapter

  /** What the browser does during one connect: whether navigator.bluetooth
      exists, its answer to each device request, and the rejection message
      of startNotifications, if any. */
  datatype BluetoothEnv = BluetoothEnv(
    apiAvailable: bool,
    respond: DeviceRequest -> Result<Device, string>,
    startError: Option<string>)

  /** The GATT server connect reaches, if it gets that far. */
  function ReachedServer(env: BluetoothEnv): Option<Server> {
    if !env.apiAvailable then None
    else match RequestDevice(env.respond)
      case Failure(_) => None
      case Success(device) =>
        match device.gatt
        case Some(Success(server)) => Some(server)
        case _ => None
  }

  /** The characteristic connect selects, if it gets that far. */
  function ReachedCharacteristic(env: BluetoothEnv): Option<Characteristic> {
    match ReachedServer(env)
    case None => None
    case Some(server) =>
      match server.primaryServices
      case Failure(_) => None
      case Success(services) =>
        match Selection(services)
        case Failure(_) => None
        case Success(c) => Some(c)
  }

  /** The message of the error connect catches, or None when it succeeds. */
  function ConnectFailure(env: BluetoothEnv): Option<string> {
    if !env.apiAvailable then Some(BleApiMissing)
    else match RequestDevice(env.respond)
      case Failure(e) => Some(e)
      case Success(device) =>
        match device.gatt
        case None => Some(GattMissing)
        case Some(Failure(e)) => Some(e)
        case Some(Success(server)) =>
          match server.primaryServices
          case Failure(e) => Some(e)
          case Success(services) =>
            match Selection(services)
            case Failure(e) => Some(e)
            case Success(_) => env.startError
  }

  class ArduinoBluetooth {
    var device: Option<Server>
    var characteristic: Option<Characteristic>
    /** The data buffer and the registered data handler. */
    const framer: LineFramer

    constructor()
      ensures fresh(framer) && framer.Valid()
      ensures device == None && characteristic == None
      ensures framer.buffer == "" && framer.handler == None && framer.emitted == []
    {
      device := None;
      characteristic := None;
      framer := new LineFramer();
    }

    /** isConnected(): device?.connected ?? false. */
    predicate IsConnected()
      reads this
    {
      device.Some? && device.value.connected
    }

    /** setDataHandler: later readings go to handler only. */
    method SetDataHandler(handler: HandlerId)
      modifies framer
      ensures framer.handler == Some(handler)
      ensures framer.buffer == old(framer.buffer) && framer.emitted == old(framer.emitted)
    {
      framer.SetHandler(handler);
    }

    /** handleData: one notified value, already decoded to text. */
    method HandleData(text: string)
      modifies framer
      ensures framer.Valid()
      ensures framer.buffer == Rest(old(framer.buffer) + text)
      ensures framer.handler == old(framer.handler)
      ensures framer.emitted == old(framer.emitted) + Calls(framer.handler, Readings(Complete(old(framer.buffer) + text)))
    {
      framer.Feed(text);
    }

    /** connect(): the outcome is Pass, or Fail with the message thrown. The
        server is kept as soon as it is reached and the characteristic as
        soon as it is selected, even when a later step fails. */
    method Connect(env: BluetoothEnv) returns (outcome: Outcome<string>)
      modifies this
      ensures outcome == if ConnectFailure(env).None? then Pass else Fail(BluetoothConnectError(ConnectFailure(env).value))
      ensures device == if ReachedServer(env).Some? then ReachedServer(env) else old(device)
      ensures characteristic == if ReachedCharacteristic(env).Some? then ReachedCharacteristic(env) else old(characteristic)
      ensures outcome.Pass? ==> device.Some? && characteristic.Some?
    {
      if !env.apiAvailable {
        return Fail(BluetoothConnectError(BleApiMissing));
      }
      var requested := RequestDevice(env.respond);
      if requested.Failure? {
        return Fail(BluetoothConnectError(requested.error));
      }
      match requested.value.gatt
      case None =>
        return Fail(BluetoothConnectError(GattMissing));
      case Some(Failure(e)) =>
        return Fail(BluetoothConnectError(e));
      case Some(Success(server)) =>
        device := Some(server);
        match server.primaryServices
        case Failure(e) =>
          return Fail(BluetoothConnectError(e));
        case Success(allServices) =>
          var selected := SelectCharacteristic(allServices);
          if selected.Failure? {
            return Fail(BluetoothConnectError(selected.error));
          }
          characteristic := Some(selected.value);
          if env.startError.Some? {
            return Fail(BluetoothConnectError(env.startError.value));
          }
          // the characteristicvaluechanged listener then feeds HandleData
          return Pass;
    }

    /** disconnect(): stopNotifications is awaited first; when it rejects,
        the error propagates and nothing is cleared. Otherwise both handles
        are dropped. */
    method Disconnect(stopError: Option<string>) returns (outcome: Outcome<string>)
      modifies this
      ensures characteristic == None || old(characteristic).Some?
      ensures old(characteristic).Some? && stopError.Some? ==>
        outcome == Fail(stopError.value) && device == old(device) && characteristic == old(characteristic)
      ensures old(characteristic).None? || stopError.None? ==>
        outcome == Pass && device == None && characteristic == None && !IsConnected()
    {
      if characteristic.Some? && stopError.Some? {
        return Fail(stopError.value);
      }
      // device.disconnect() acts on the remote device; the handle is dropped below
      device := None;
      characteristic := None;
      return Pass;
    }
  }
}
