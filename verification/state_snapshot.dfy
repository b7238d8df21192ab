/**
  The durable snapshot of the G7 CGM manager (`G7CGMManagerState`): five
  optional fields that are written to, and read back from, the host's raw
  state dictionary (`[String: Any]`).

  Reading back uses a type-checked cast per key, so a missing entry and an
  entry of the wrong type both give an absent field, and keys other than the
  five are ignored. The latest reading is stored as its wire bytes and
  re-parsed from those bytes.
 */
module StateSnapshot {
  import opened Wrappers
  import opened Clock
  import opened GlucoseMessages

  /** What a raw-state dictionary can hold under a key, as far as the casts can tell. */
  datatype Value =
    | VString(text: string)
    | VDate(date: Date)
    | VData(bytes: seq<bv8>)
    | VOther

  /** `CGMManager.RawStateValue`. */
  type RawState = map<string, Value>

  const SensorIDKey: string := "sensorID"
  const ActivatedAtKey: string := "activatedAt"
  const LatestReadingKey: string := "latestReading"
  const LatestReadingReceivedAtKey: string := "latestReadingReceivedAt"
  const LatestConnectKey: string := "latestConnect"

  /** The only keys the snapshot reads or writes. */
  const StateKeys: set<string> :=
    {SensorIDKey, ActivatedAtKey, LatestReadingKey, LatestReadingReceivedAtKey, LatestConnectKey}

  datatype ManagerState = ManagerState(
    sensorID: Option<string>,
    activatedAt: Option<Date>,
    latestReading: Option<GlucoseMessage>,
    latestReadingReceivedAt: Option<Date>,
    latestConnect: Option<Date>)

  /** True iff every field is absent. */
  predicate IsEmpty(s: ManagerState)
  {
    && s.sensorID.None?
    && s.activatedAt.None?
    && s.latestReading.None?
    && s.latestReadingReceivedAt.None?
    && s.latestConnect.None?
  }

  /** `init()`: the snapshot of a manager with no sensor. */
  function Initial(): (s: ManagerState)
    ensures IsEmpty(s)
  {
    ManagerState(None, None, None, None, None)
  }

  // ---------------------------------------------------------------------------
  // Type-checked reads (`raw[key] as? T`)
  // ---------------------------------------------------------------------------

  /** `raw[key] as? String`. */
  function StringEntry(raw: RawState, key: string): (r: Option<string>)
    ensures r.Some? <==> key in raw && raw[key].VString?
    ensures r.Some? ==> raw[key] == VString(r.value)
  {
    if key in raw && raw[key].VString? then Some(raw[key].text) else None
  }

  /** `raw[key] as? Date`. */
  function DateEntry(raw: RawState, key: string): (r: Option<Date>)
    ensures r.Some? <==> key in raw && raw[key].VDate?
    ensures r.Some? ==> raw[key] == VDate(r.value)
  {
    if key in raw && raw[key].VDate? then Some(raw[key].date) else None
  }

  /** `raw[key] as? Data`. */
  function DataEntry(raw: RawState, key: string): (r: Option<seq<bv8>>)
    ensures r.Some? <==> key in raw && raw[key].VData?
    ensures r.Some? ==> raw[key] == VData(r.value)
  {
    if key in raw && raw[key].VData? then Some(raw[key].bytes) else None
  }

  /** `init(rawValue:)`. */
  function FromRawValue(decode: Decoder, raw: RawState): (s: ManagerState)
    ensures s.sensorID.Some? <==> SensorIDKey in raw && raw[SensorIDKey].VString?
    ensures s.sensorID.Some? ==> raw[SensorIDKey] == VString(s.sensorID.value)
    ensures s.activatedAt.Some? <==> ActivatedAtKey in raw && raw[ActivatedAtKey].VDate?
    ensures s.activatedAt.Some? ==> raw[ActivatedAtKey] == VDate(s.activatedAt.value)
    ensures LatestReadingKey !in raw || !raw[LatestReadingKey].VData? ==> s.latestReading.None?
    ensures LatestReadingKey in raw && raw[LatestReadingKey].VData? ==>
              s.latestReading == decode(raw[LatestReadingKey].bytes)
    ensures s.latestReadingReceivedAt.Some? <==>
              LatestReadingReceivedAtKey in raw && raw[LatestReadingReceivedAtKey].VDate?
    ensures s.latestReadingReceivedAt.Some? ==>
              raw[LatestReadingReceivedAtKey] == VDate(s.latestReadingReceivedAt.value)
    ensures s.latestConnect.Some? <==> LatestConnectKey in raw && raw[LatestConnectKey].VDate?
    ensures s.latestConnect.Some? ==> raw[LatestConnectKey] == VDate(s.latestConnect.value)
  {
    ManagerState(
      StringEntry(raw, SensorIDKey),
      DateEntry(raw, ActivatedAtKey),
      match DataEntry(raw, LatestReadingKey)
      case Some(bytes) => decode(bytes)
      case None => None,
      DateEntry(raw, LatestReadingReceivedAtKey),
      DateEntry(raw, LatestConnectKey))
  }

  // ---------------------------------------------------------------------------
  // Writing (`rawValue`)
  // ---------------------------------------------------------------------------

  /** `raw[key] = value` on a Swift dictionary: assigning `nil` removes the key. */
  function Assign(raw: RawState, key: string, value: Option<Value>): (r: RawState)
    ensures key in r <==> value.Some?
    ensures value.Some? ==> r[key] == value.value
    ensures forall k :: k != key ==> (k in r <==> k in raw)
    ensures forall k :: k != key && k in raw ==> r[k] == raw[k]
  {
    match value
    case Some(v) => raw[key := v]
    case None => raw - {key}
  }

  function StringValue(v: Option<string>): Option<Value>
  {
    match v
    case Some(t) => Some(VString(t))
    case None => None
  }

  function DateValue(v: Option<Date>): Option<Value>
  {
    match v
    case Some(d) => Some(VDate(d))
    case None => None
  }

  function ReadingValue(v: Option<GlucoseMessage>): Option<Value>
  {
    match v
    case Some(m) => Some(VData(m.data))
    case None => None
  }

  /** `rawValue`: the five fields written one after another into an empty dictionary. */
  function ToRawValue(s: ManagerState): (raw: RawState)
    ensures raw.Keys <= StateKeys
    ensures SensorIDKey in raw <==> s.sensorID.Some?
    ensures s.sensorID.Some? ==> raw[SensorIDKey] == VString(s.sensorID.value)
    ensures ActivatedAtKey in raw <==> s.activatedAt.Some?
    ensures s.activatedAt.Some? ==> raw[ActivatedAtKey] == VDate(s.activatedAt.value)
    ensures LatestReadingKey in raw <==> s.latestReading.Some?
    ensures s.latestReading.Some? ==>
              raw[LatestReadingKey] == VData(s.latestReading.value.data)
    ensures LatestReadingReceivedAtKey in raw <==> s.latestReadingReceivedAt.Some?
    ensures s.latestReadingReceivedAt.Some? ==>
              raw[LatestReadingReceivedAtKey] == VDate(s.latestReadingReceivedAt.value)
    ensures LatestConnectKey in raw <==> s.latestConnect.Some?
    ensures s.latestConnect.Some? ==> raw[LatestConnectKey] == VDate(s.latestConnect.value)
  {
    var raw0: RawState := map[];
    var raw1 := Assign(raw0, SensorIDKey, StringValue(s.sensorID));
    var raw2 := Assign(raw1, ActivatedAtKey, DateValue(s.activatedAt));
    var raw3 := Assign(raw2, LatestReadingKey, ReadingValue(s.latestReading));
    var raw4 := Assign(raw3, LatestReadingReceivedAtKey, DateValue(s.latestReadingReceivedAt));
    Assign(raw4, LatestConnectKey, DateValue(s.latestConnect))
  }

  // ---------------------------------------------------------------------------
  // Properties
  // ---------------------------------------------------------------------------

  /**
    The snapshot's reading, if any, is what its own bytes parse to. Every
    snapshot built from a dictionary has this property (`ReadSnapshotsParse`),
    and so has one whose reading came straight from the parser.
   */
  predicate ReadingParsesFromOwnData(decode: Decoder, s: ManagerState)
  {
    s.latestReading.Some? ==> ParsesFromOwnData(decode, s.latestReading.value)
  }

  /** The empty snapshot is written as the empty dictionary, and the empty dictionary reads back as it. */
  lemma EmptyRoundTrip(decode: Decoder)
    ensures ToRawValue(Initial()) == map[]
    ensures FromRawValue(decode, map[]) == Initial()
  {
    assert ToRawValue(Initial()).Keys == {};
  }

  /** Reading back what was written gives the same snapshot, for every snapshot whose reading re-parses. */
  lemma RoundTrip(decode: Decoder, s: ManagerState)
    requires ReadingParsesFromOwnData(decode, s)
    ensures FromRawValue(decode, ToRawValue(s)) == s
  {
    if s.latestReading.Some? {
      assert decode(s.latestReading.value.data) == s.latestReading;
    }
  }

  /**
    Without any hypothesis on the parser: a snapshot survives the round trip
    exactly when its reading (if any) is what its own bytes parse to.
   */
  lemma RoundTripExactlyWhenReadingDoes(decode: Decoder, s: ManagerState)
    ensures FromRawValue(decode, ToRawValue(s)) == s <==> ReadingParsesFromOwnData(decode, s)
  {
  }

  /** A parser that keeps its input only ever yields snapshots whose reading re-parses. */
  lemma ReadSnapshotsParse(decode: Decoder, raw: RawState)
    requires KeepsData(decode)
    ensures ReadingParsesFromOwnData(decode, FromRawValue(decode, raw))
  {
    if LatestReadingKey in raw && raw[LatestReadingKey].VData? {
      ParsedMessagesParseFromOwnData(decode, raw[LatestReadingKey].bytes);
    }
  }

  /** The entry under `key` would survive `FromRawValue` (right type; for the reading, bytes that parse). */
  predicate Retained(decode: Decoder, key: string, v: Value)
  {
    || (key == SensorIDKey && v.VString?)
    || (key == ActivatedAtKey && v.VDate?)
    || (key == LatestReadingKey && v.VData? && decode(v.bytes).Some?)
    || (key == LatestReadingReceivedAtKey && v.VDate?)
    || (key == LatestConnectKey && v.VDate?)
  }

  /** The part of a dictionary that reading it back keeps. */
  function RetainedEntries(decode: Decoder, raw: RawState): (r: RawState)
    ensures r.Keys <= StateKeys
    ensures forall k :: k in r <==> k in raw && Retained(decode, k, raw[k])
    ensures forall k :: k in r ==> r[k] == raw[k]
  {
    map k | k in raw && Retained(decode, k, raw[k]) :: raw[k]
  }

  /**
    Writing back what was read keeps exactly the retained entries: unknown
    keys, ill-typed entries and unparsable reading bytes are dropped and
    nothing else changes, for a parser that keeps its input as `data`.
   */
  lemma RewriteKeepsRetainedEntries(decode: Decoder, raw: RawState)
    requires KeepsData(decode)
    ensures ToRawValue(FromRawValue(decode, raw)) == RetainedEntries(decode, raw)
  {
    var s := FromRawValue(decode, raw);
    var written := ToRawValue(s);
    var kept := RetainedEntries(decode, raw);
    if LatestReadingKey in raw && raw[LatestReadingKey].VData? {
      var bytes := raw[LatestReadingKey].bytes;
      if decode(bytes).Some? {
        assert decode(bytes).value.data == bytes;
      }
    }
    forall k | k in StateKeys
      ensures k in written <==> k in kept
      ensures k in written ==> written[k] == kept[k]
    {
      if k == SensorIDKey {
      } else if k == ActivatedAtKey {
      } else if k == LatestReadingKey {
      } else if k == LatestReadingReceivedAtKey {
      } else {
        assert k == LatestConnectKey;
      }
    }
    assert written.Keys == kept.Keys;
  }

  /** A dictionary made only of retained entries under the five keys is a fixed point of read-then-write. */
  lemma WellFormedRawStateRoundTrip(decode: Decoder, raw: RawState)
    requires KeepsData(decode)
    requires forall k :: k in raw ==> Retained(decode, k, raw[k])
    ensures ToRawValue(FromRawValue(decode, raw)) == raw
  {
    RewriteKeepsRetainedEntries(decode, raw);
    assert RetainedEntries(decode, raw) == raw;
  }

  /** Reading is idempotent through a write: a snapshot that was read once reads back unchanged. */
  lemma ReadWriteReadIsRead(decode: Decoder, raw: RawState)
    requires KeepsData(decode)
    ensures FromRawValue(decode, ToRawValue(FromRawValue(decode, raw))) == FromRawValue(decode, raw)
  {
    ReadSnapshotsParse(decode, raw);
    RoundTrip(decode, FromRawValue(decode, raw));
  }

  /** Two dictionaries hold the same entry (or both none) under `key`. */
  predicate SameEntry(raw1: RawState, raw2: RawState, key: string)
  {
    (key in raw1 <==> key in raw2) && (key in raw1 ==> raw1[key] == raw2[key])
  }

  /** Each field depends on its own key only: dictionaries that agree on a key agree on its field. */
  lemma FieldsDecodeIndependently(decode: Decoder, raw1: RawState, raw2: RawState)
    ensures SameEntry(raw1, raw2, SensorIDKey) ==>
              FromRawValue(decode, raw1).sensorID == FromRawValue(decode, raw2).sensorID
    ensures SameEntry(raw1, raw2, ActivatedAtKey) ==>
              FromRawValue(decode, raw1).activatedAt == FromRawValue(decode, raw2).activatedAt
    ensures SameEntry(raw1, raw2, LatestReadingKey) ==>
              FromRawValue(decode, raw1).latestReading == FromRawValue(decode, raw2).latestReading
    ensures SameEntry(raw1, raw2, LatestReadingReceivedAtKey) ==>
              FromRawValue(decode, raw1).latestReadingReceivedAt
              == FromRawValue(decode, raw2).latestReadingReceivedAt
    ensures SameEntry(raw1, raw2, LatestConnectKey) ==>
              FromRawValue(decode, raw1).latestConnect == FromRawValue(decode, raw2).latestConnect
  {
  }

  /** Entries under keys other than the five are ignored, whether added, replaced or removed. */
  lemma ForeignKeysIgnored(decode: Decoder, raw: RawState, key: string, v: Value)
    requires key !in StateKeys
    ensures FromRawValue(decode, raw[key := v]) == FromRawValue(decode, raw)
    ensures FromRawValue(decode, raw - {key}) == FromRawValue(decode, raw)
  {
  }

  /** A missing entry and an entry of the wrong type read back alike, as an absent field. */
  lemma IllTypedEntriesReadAsAbsent(decode: Decoder, raw: RawState)
    ensures SensorIDKey in raw && !raw[SensorIDKey].VString? ==>
              FromRawValue(decode, raw) == FromRawValue(decode, raw - {SensorIDKey})
    ensures ActivatedAtKey in raw && !raw[ActivatedAtKey].VDate? ==>
              FromRawValue(decode, raw) == FromRawValue(decode, raw - {ActivatedAtKey})
    ensures LatestReadingKey in raw && !raw[LatestReadingKey].VData? ==>
              FromRawValue(decode, raw) == FromRawValue(decode, raw - {LatestReadingKey})
    ensures LatestReadingReceivedAtKey in raw && !raw[LatestReadingReceivedAtKey].VDate? ==>
              FromRawValue(decode, raw) == FromRawValue(decode, raw - {LatestReadingReceivedAtKey})
    ensures LatestConnectKey in raw && !raw[LatestConnectKey].VDate? ==>
              FromRawValue(decode, raw) == FromRawValue(decode, raw - {LatestConnectKey})
  {
  }
}
