/**
  The endpoint catalog of the G7 transmitter: the services and
  characteristics it exposes, each identified by a UUID string, and the
  single `dexcomG7` peripheral configuration that says which
  characteristics are expected under which service.

  UUIDs are plain strings here; CoreBluetooth's own parsing and
  normalisation of a UUID string is not part of this model.
 */
module BluetoothServices {
  import opened Wrappers

  type Uuid = string

  // ---------------------------------------------------------------------------
  // Services
  // ---------------------------------------------------------------------------

  /** `TransmitterServiceUUID`. */
  datatype TransmitterService = DeviceInfo | Advertisement | CgmService | ServiceB

  /** The service's raw value: the two standard services have 16-bit short UUIDs, the other two full 128-bit ones. */
  function ServiceUuid(s: TransmitterService): (u: Uuid)
    ensures |u| == 4 <==> s.DeviceInfo? || s.Advertisement?
    ensures |u| == 36 <==> s.CgmService? || s.ServiceB?
  {
    match s
    case DeviceInfo => "180A"
    case Advertisement => "FEBC"
    case CgmService => "F8083532-849E-531C-C594-30F1F86A4EA5"
    case ServiceB => "F8084532-849E-531C-C594-30F1F86A4EA5"
  }

  /** `TransmitterServiceUUID(rawValue:)`: only the four declared strings parse. */
  function ParseService(raw: Uuid): (r: Option<TransmitterService>)
    ensures r.Some? ==> ServiceUuid(r.value) == raw
    ensures r.None? <==> forall s :: ServiceUuid(s) != raw
  {
    if raw == ServiceUuid(DeviceInfo) then Some(DeviceInfo)
    else if raw == ServiceUuid(Advertisement) then Some(Advertisement)
    else if raw == ServiceUuid(CgmService) then Some(CgmService)
    else if raw == ServiceUuid(ServiceB) then Some(ServiceB)
    else None
  }

  // ---------------------------------------------------------------------------
  // Characteristics
  // ---------------------------------------------------------------------------

  /** `DeviceInfoCharacteristicUUID`. */
  datatype DeviceInfoCharacteristic = ManufacturerNameString

  /** The characteristic's raw value: a 16-bit short UUID. */
  function DeviceInfoUuid(c: DeviceInfoCharacteristic): (u: Uuid)
    ensures |u| == 4
  {
    match c
    case ManufacturerNameString => "2A29"
  }

  function ParseDeviceInfo(raw: Uuid): (r: Option<DeviceInfoCharacteristic>)
    ensures r.Some? ==> DeviceInfoUuid(r.value) == raw
    ensures r.None? <==> forall c :: DeviceInfoUuid(c) != raw
  {
    if raw == DeviceInfoUuid(ManufacturerNameString) then Some(ManufacturerNameString)
    else None
  }

  /** `CGMServiceCharacteristicUUID`. */
  datatype CGMCharacteristic = Communication | Control | Authentication | Backfill

  /** The characteristic's raw value: a full 128-bit UUID. */
  function CGMUuid(c: CGMCharacteristic): (u: Uuid)
    ensures |u| == 36
  {
    match c
    case Communication => "F8083533-849E-531C-C594-30F1F86A4EA5"
    case Control => "F8083534-849E-531C-C594-30F1F86A4EA5"
    case Authentication => "F8083535-849E-531C-C594-30F1F86A4EA5"
    case Backfill => "F8083536-849E-531C-C594-30F1F86A4EA5"
  }

  function ParseCGM(raw: Uuid): (r: Option<CGMCharacteristic>)
    ensures r.Some? ==> CGMUuid(r.value) == raw
    ensures r.None? <==> forall c :: CGMUuid(c) != raw
  {
    if raw == CGMUuid(Communication) then Some(Communication)
    else if raw == CGMUuid(Control) then Some(Control)
    else if raw == CGMUuid(Authentication) then Some(Authentication)
    else if raw == CGMUuid(Backfill) then Some(Backfill)
    else None
  }

  /** `ServiceBCharacteristicUUID`. */
  datatype ServiceBCharacteristic = CharacteristicE | CharacteristicF

  /** The characteristic's raw value: a full 128-bit UUID. */
  function ServiceBUuid(c: ServiceBCharacteristic): (u: Uuid)
    ensures |u| == 36
  {
    match c
    case CharacteristicE => "F8084533-849E-531C-C594-30F1F86A4EA5"
    case CharacteristicF => "F8084534-849E-531C-C594-30F1F86A4EA5"
  }

  function ParseServiceB(raw: Uuid): (r: Option<ServiceBCharacteristic>)
    ensures r.Some? ==> ServiceBUuid(r.value) == raw
    ensures r.None? <==> forall c :: ServiceBUuid(c) != raw
  {
    if raw == ServiceBUuid(CharacteristicE) then Some(CharacteristicE)
    else if raw == ServiceBUuid(CharacteristicF) then Some(CharacteristicF)
    else None
  }

  /** The service a CGM-service characteristic lives under. */
  function CGMCharacteristicService(c: CGMCharacteristic): TransmitterService
  {
    CgmService
  }

  // ---------------------------------------------------------------------------
  // Raw-value round trips and distinctness
  // ---------------------------------------------------------------------------

  /** Parsing a service's raw value gives that service back, so no two services share a raw value. */
  lemma ServiceRawValueRoundTrip(s: TransmitterService)
    ensures ParseService(ServiceUuid(s)) == Some(s)
    ensures forall s' :: ServiceUuid(s') == ServiceUuid(s) ==> s' == s
  {
  }

  /** Parsing the device-info characteristic's raw value gives it back. */
  lemma DeviceInfoRawValueRoundTrip(c: DeviceInfoCharacteristic)
    ensures ParseDeviceInfo(DeviceInfoUuid(c)) == Some(c)
  {
    match c
    case ManufacturerNameString =>
  }

  /** Parsing a CGM characteristic's raw value gives it back, so no two share a raw value. */
  lemma CGMRawValueRoundTrip(c: CGMCharacteristic)
    ensures ParseCGM(CGMUuid(c)) == Some(c)
    ensures forall c' :: CGMUuid(c') == CGMUuid(c) ==> c' == c
  {
  }

  /** Parsing a service-B characteristic's raw value gives it back, so the two differ. */
  lemma ServiceBRawValueRoundTrip(c: ServiceBCharacteristic)
    ensures ParseServiceB(ServiceBUuid(c)) == Some(c)
    ensures forall c' :: ServiceBUuid(c') == ServiceBUuid(c) ==> c' == c
  {
  }

  /** Every UUID string the catalog declares, services first. */
  function AllUuids(): seq<Uuid>
  {
    [ ServiceUuid(DeviceInfo), ServiceUuid(Advertisement), ServiceUuid(CgmService), ServiceUuid(ServiceB),
      DeviceInfoUuid(ManufacturerNameString),
      CGMUuid(Communication), CGMUuid(Control), CGMUuid(Authentication), CGMUuid(Backfill),
      ServiceBUuid(CharacteristicE), ServiceBUuid(CharacteristicF) ]
  }

  /** All eleven UUID strings are pairwise distinct. */
  lemma AllUuidsDistinct()
    ensures |AllUuids()| == 11
    ensures forall i, j :: 0 <= i < j < |AllUuids()| ==> AllUuids()[i] != AllUuids()[j]
  {
  }

  /** In particular no characteristic UUID is also a service UUID, across all three characteristic enums. */
  lemma NoCharacteristicIsAService()
    ensures forall c :: ParseService(CGMUuid(c)).None?
    ensures forall c :: ParseService(DeviceInfoUuid(c)).None?
    ensures forall c :: ParseService(ServiceBUuid(c)).None?
    ensures forall c :: ParseCGM(ServiceBUuid(c)).None?
    ensures forall c :: ParseCGM(DeviceInfoUuid(c)).None?
  {
    forall c ensures ParseService(CGMUuid(c)).None? {
      match c
      case Communication =>
      case Control =>
      case Authentication =>
      case Backfill =>
    }
    forall c ensures ParseService(DeviceInfoUuid(c)).None? && ParseCGM(DeviceInfoUuid(c)).None? {
      match c
      case ManufacturerNameString =>
    }
    forall c ensures ParseService(ServiceBUuid(c)).None? && ParseCGM(ServiceBUuid(c)).None? {
      match c
      case CharacteristicE =>
      case CharacteristicF =>
    }
  }

  // ---------------------------------------------------------------------------
  // Peripheral configuration
  // ---------------------------------------------------------------------------

  /** A value-update macro is code run on a characteristic update; only its presence is modelled. */
  datatype Macro = Macro

  /** `G7PeripheralManager.Configuration`. */
  datatype Configuration = Configuration(
    serviceCharacteristics: map<Uuid, seq<Uuid>>,
    notifyingCharacteristics: map<Uuid, seq<Uuid>>,
    valueUpdateMacros: map<Uuid, Macro>)

  /**
    `Configuration.dexcomG7`: the CGM service is the one service listed, every
    CGM-service characteristic is expected under it exactly once, nothing
    else is expected, and no characteristic is set to notify or has a macro.
   */
  function DexcomG7(): (config: Configuration)
    ensures config.serviceCharacteristics.Keys == {ServiceUuid(CgmService)}
    ensures var listed := config.serviceCharacteristics[ServiceUuid(CgmService)];
            && |listed| == 4
            && (forall i :: 0 <= i < |listed| ==> ParseCGM(listed[i]).Some?)
            && (forall i, j :: 0 <= i < j < |listed| ==> listed[i] != listed[j])
    ensures forall c :: CGMUuid(c) in config.serviceCharacteristics[ServiceUuid(CgmService)]
    ensures config.notifyingCharacteristics == map[]
    ensures config.valueUpdateMacros == map[]
  {
    Configuration(
      map[ServiceUuid(CgmService) :=
            [CGMUuid(Communication), CGMUuid(Authentication), CGMUuid(Control), CGMUuid(Backfill)]],
      map[],
      map[])
  }

  /** The characteristics a configuration expects under a service; none for a service it does not list. */
  function ExpectedCharacteristics(config: Configuration, service: Uuid): seq<Uuid>
  {
    if service in config.serviceCharacteristics then config.serviceCharacteristics[service] else []
  }

  /** `dexcomG7` expects exactly the CGM service, with the four characteristics in this order. */
  lemma DexcomG7Services()
    ensures DexcomG7().serviceCharacteristics.Keys == {ServiceUuid(CgmService)}
    ensures ExpectedCharacteristics(DexcomG7(), ServiceUuid(CgmService))
            == [CGMUuid(Communication), CGMUuid(Authentication), CGMUuid(Control), CGMUuid(Backfill)]
    ensures forall s :: s != CgmService ==> ExpectedCharacteristics(DexcomG7(), ServiceUuid(s)) == []
    ensures DexcomG7().notifyingCharacteristics == map[]
    ensures DexcomG7().valueUpdateMacros == map[]
  {
  }

  /** `uuid` is listed under some service of `config`. */
  ghost predicate Configured(config: Configuration, uuid: Uuid)
  {
    exists service :: service in config.serviceCharacteristics
                      && uuid in config.serviceCharacteristics[service]
  }

  /** A UUID is configured exactly when some service expects it, so services a configuration omits expect nothing. */
  lemma ConfiguredIffExpected(config: Configuration, uuid: Uuid)
    ensures Configured(config, uuid) <==> exists service :: uuid in ExpectedCharacteristics(config, service)
  {
    if Configured(config, uuid) {
      var service :| service in config.serviceCharacteristics && uuid in config.serviceCharacteristics[service];
      assert uuid in ExpectedCharacteristics(config, service);
    }
    if exists service :: uuid in ExpectedCharacteristics(config, service) {
      var service :| uuid in ExpectedCharacteristics(config, service);
      assert service in config.serviceCharacteristics;
    }
  }

  /** Being configured in `dexcomG7` means being one of the four characteristics under the CGM service. */
  lemma ConfiguredInDexcomG7(uuid: Uuid)
    ensures Configured(DexcomG7(), uuid) <==>
              uuid in [CGMUuid(Communication), CGMUuid(Authentication), CGMUuid(Control), CGMUuid(Backfill)]
  {
    var cgm := ServiceUuid(CgmService);
    assert DexcomG7().serviceCharacteristics.Keys == {cgm};
    if uuid in DexcomG7().serviceCharacteristics[cgm] {
      assert cgm in DexcomG7().serviceCharacteristics;
    }
  }

  /** A UUID is configured in `dexcomG7` exactly when it is a CGM-service characteristic. */
  lemma DexcomG7CharacteristicsAreCGM(uuid: Uuid)
    ensures Configured(DexcomG7(), uuid) <==> ParseCGM(uuid).Some?
  {
    ConfiguredInDexcomG7(uuid);
  }

  /** No device-info or service-B characteristic, and no service UUID, is configured in `dexcomG7`. */
  lemma OtherEndpointsNotConfigured(uuid: Uuid)
    ensures ParseDeviceInfo(uuid).Some? ==> !Configured(DexcomG7(), uuid)
    ensures ParseServiceB(uuid).Some? ==> !Configured(DexcomG7(), uuid)
    ensures ParseService(uuid).Some? ==> !Configured(DexcomG7(), uuid)
  {
    DexcomG7CharacteristicsAreCGM(uuid);
    NoCharacteristicIsAService();
    if ParseCGM(uuid).Some? {
      assert uuid == CGMUuid(ParseCGM(uuid).value);
    }
  }

  /** Each CGM characteristic the session uses is expected under the catalog entry for its own service. */
  lemma CharacteristicsBelongToTheirService(c: CGMCharacteristic)
    ensures CGMUuid(c) in ExpectedCharacteristics(DexcomG7(), ServiceUuid(CGMCharacteristicService(c)))
  {
    match c
    case Communication =>
    case Control =>
    case Authentication =>
    case Backfill =>
  }
}
