/**
 * The telemetry codec of src/ios/utils.cpp: two unsigned 64-bit byte
 * counters carried as a JSON object between the background service and
 * the foreground app. The JSON text layer belongs to jsoncpp, so the
 * writer and the reader are parameters: `write` renders a value as text,
 * `parse` reads text back and answers `None` when the text does not parse.
 */
module Telemetry {
  import opened JsonValue

  const RxKey: string := "total_rx_bytes"
  const TxKey: string := "total_tx_bytes"

  /** The pair of counters that `parseTelemetryJson` writes through its two out-pointers. */
  datatype Counters = Counters(totalRxBytes: uint64, totalTxBytes: uint64)

  /** The object `serializeTelemetryJson` builds before handing it to the writer. */
  function TelemetryJson(totalRxBytes: uint64, totalTxBytes: uint64): (j: Json)
    ensures j.Object? && j.members.Keys == {RxKey, TxKey}
    ensures j.members[RxKey].UInt? && AsUInt64(j.members[RxKey]) == totalRxBytes
    ensures j.members[TxKey].UInt? && AsUInt64(j.members[TxKey]) == totalTxBytes
  {
    Object(map[RxKey := UInt(totalRxBytes), TxKey := UInt(totalTxBytes)])
  }

  /**
   * A counter member as jsoncpp's reader gives it back: a value up to the
   * largest signed 64-bit integer comes back as `Int`, a larger one as `UInt`.
   */
  predicate HoldsCounter(j: Json, x: uint64)
  {
    j == UInt(x) || (j.Int? && j.i as int == x as int)
  }

  /** What a reader returns for the text of the two counters: an object holding both members. */
  predicate ReadsBackCounters(root: Option<Json>, totalRxBytes: uint64, totalTxBytes: uint64)
  {
    root.Some? && root.value.Object? &&
    RxKey in root.value.members && HoldsCounter(root.value.members[RxKey], totalRxBytes) &&
    TxKey in root.value.members && HoldsCounter(root.value.members[TxKey], totalTxBytes)
  }

  /**
   * `serializeTelemetryJson`: the object above, rendered by the library's
   * writer. Any reader that reads what `write` makes of that object back as
   * an object holding both counters decodes the text to the same pair.
   */
  function SerializeTelemetryJson(totalRxBytes: uint64, totalTxBytes: uint64, write: Json -> string): (text: string)
    ensures forall parse: string -> Option<Json> ::
      ReadsBackCounters(parse(write(TelemetryJson(totalRxBytes, totalTxBytes))), totalRxBytes, totalTxBytes) ==>
      ParseTelemetry(text, parse) == Some(Counters(totalRxBytes, totalTxBytes))
  {
    write(TelemetryJson(totalRxBytes, totalTxBytes))
  }

  /**
   * One counter of a decoded object: the member's value when the member is
   * there and holds an unsigned 64-bit integer, and 0 in every other case.
   */
  function CounterOrZero(root: Json, name: string): (r: uint64)
    ensures r != 0 ==> IsMember(root, name) && IsUInt64(root.members[name])
    ensures IsMember(root, name) && IsUInt64(root.members[name]) ==> r == AsUInt64(root.members[name])
  {
    if IsMember(root, name) && IsUInt64(root.members[name]) then AsUInt64(root.members[name]) else 0
  }

  /** Decoding of an already parsed root: only an object is accepted, and each counter defaults on its own. */
  function DecodeTelemetry(root: Json): (r: Option<Counters>)
    ensures r.Some? <==> root.Object?
  {
    if root.Object? then Some(Counters(CounterOrZero(root, RxKey), CounterOrZero(root, TxKey))) else None
  }

  /** Decoding of a text payload: a text the reader rejects decodes to nothing. */
  function ParseTelemetry(resp: string, parse: string -> Option<Json>): (r: Option<Counters>)
    ensures r.Some? <==> parse(resp).Some? && parse(resp).value.Object?
  {
    match parse(resp)
    case None => None
    case Some(root) => DecodeTelemetry(root)
  }

  /**
   * `parseTelemetryJson`. The two out-pointers are modelled as in/out
   * parameters: `rxIn` and `txIn` are what the pointees held before the
   * call, `totalRxBytes` and `totalTxBytes` what they hold after it.
   */
  method ParseTelemetryJson(resp: string, parse: string -> Option<Json>, rxIn: uint64, txIn: uint64)
    returns (ok: bool, totalRxBytes: uint64, totalTxBytes: uint64)
    ensures ok <==> ParseTelemetry(resp, parse).Some?
    ensures ok ==> ParseTelemetry(resp, parse) == Some(Counters(totalRxBytes, totalTxBytes))
    ensures !ok ==> totalRxBytes == rxIn && totalTxBytes == txIn
  {
    totalRxBytes, totalTxBytes := rxIn, txIn;
    var parsed := parse(resp);
    if parsed.None? {
      return false, totalRxBytes, totalTxBytes;
    }
    var root := parsed.value;
    if !root.Object? {
      return false, totalRxBytes, totalTxBytes;
    }
    totalRxBytes := 0;
    if IsMember(root, RxKey) && IsUInt64(root.members[RxKey]) {
      totalRxBytes := AsUInt64(root.members[RxKey]);
    }
    totalTxBytes := 0;
    if IsMember(root, TxKey) && IsUInt64(root.members[TxKey]) {
      totalTxBytes := AsUInt64(root.members[TxKey]);
    }
    ok := true;
  }

  /** Decoding the value the encoder builds gives back both counters. */
  lemma RoundTrip(totalRxBytes: uint64, totalTxBytes: uint64)
    ensures DecodeTelemetry(TelemetryJson(totalRxBytes, totalTxBytes)) == Some(Counters(totalRxBytes, totalTxBytes))
  {
  }

  /** Text that does not parse is rejected. */
  lemma UnparsableRejected(resp: string, parse: string -> Option<Json>)
    requires parse(resp).None?
    ensures ParseTelemetry(resp, parse).None?
  {
  }

  /** A scalar or array root is rejected. */
  lemma NonObjectRejected(root: Json)
    requires !root.Object?
    ensures DecodeTelemetry(root).None?
  {
  }

  /** Every object is accepted, and an object without either member gives zeros. */
  lemma ObjectAccepted(members: map<string, Json>)
    ensures DecodeTelemetry(Object(members)).Some?
    ensures RxKey !in members && TxKey !in members ==> DecodeTelemetry(Object(members)) == Some(Counters(0, 0))
  {
  }

  /** The empty object decodes to zeros. */
  lemma EmptyObjectIsZero()
    ensures DecodeTelemetry(Object(map[])) == Some(Counters(0, 0))
  {
  }

  /**
   * A `total_rx_bytes` member that is absent or not an unsigned 64-bit
   * integer (a negative number, a string, an array, ...) decodes to 0, and
   * `total_tx_bytes` is decoded as if that member were not there.
   */
  lemma RxDefaultsToZero(members: map<string, Json>)
    requires RxKey !in members || !IsUInt64(members[RxKey])
    ensures DecodeTelemetry(Object(members)).value.totalRxBytes == 0
    ensures DecodeTelemetry(Object(members)).value.totalTxBytes == DecodeTelemetry(Object(members - {RxKey})).value.totalTxBytes
  {
  }

  /** The same for `total_tx_bytes`. */
  lemma TxDefaultsToZero(members: map<string, Json>)
    requires TxKey !in members || !IsUInt64(members[TxKey])
    ensures DecodeTelemetry(Object(members)).value.totalTxBytes == 0
    ensures DecodeTelemetry(Object(members)).value.totalRxBytes == DecodeTelemetry(Object(members - {TxKey})).value.totalRxBytes
  {
  }

  /** A member named neither `total_rx_bytes` nor `total_tx_bytes` has no effect on the decoded counters. */
  lemma OtherMembersIgnored(members: map<string, Json>, name: string, v: Json)
    requires name != RxKey && name != TxKey
    ensures DecodeTelemetry(Object(members[name := v])) == DecodeTelemetry(Object(members))
  {
  }
}
