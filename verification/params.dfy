/** The query parameters of the packet-list endpoints: the builder inside
    `ListDevicePackets`, which writes only the fields that differ from
    their zero value, and the two lenient readers
    `ListDevicePacketsParamsFromQuery` and `ListAllPacketsParamsFromQuery`,
    which never fail and fall back to zero values. */
module PacketParams {
  import opened Wrappers
  import opened Decimal
  import opened LocalTime
  import opened Query

  const DirectionKey := "direction"
  const LimitToLastKey := "limit_to_last"
  const OffsetKey := "offset"
  const PayloadOnlyKey := "payload_only"
  const ReceivedAfterKey := "received_after"
  const SkipSuborgsKey := "skip_suborgs"

  /** The five keys the device packet list understands. */
  const DevicePacketsKeys: set<string> :=
    {DirectionKey, LimitToLastKey, OffsetKey, PayloadOnlyKey, ReceivedAfterKey}

  /** `ListDevicePacketsParams`; `None` stands for a nil `ReceivedAfter`. */
  datatype DevicePacketsParams = DevicePacketsParams(
    direction: string,
    limitToLast: Int64,
    offset: Int64,
    payloadOnly: bool,
    receivedAfter: Option<Time>)

  /** `ListAllPacketsParams`: the same five fields and `SkipSuborgs`. */
  datatype AllPacketsParams = AllPacketsParams(
    direction: string,
    limitToLast: Int64,
    offset: Int64,
    payloadOnly: bool,
    receivedAfter: Option<Time>,
    skipSuborgs: bool)
  {
    /** The fields shared with the device packet list. */
    function Shared(): DevicePacketsParams {
      DevicePacketsParams(direction, limitToLast, offset, payloadOnly, receivedAfter)
    }
  }

  /** The Go zero value of `ListDevicePacketsParams`. */
  const ZeroParams := DevicePacketsParams("", 0, 0, false, None)

  /** `saveParseInt`: the decimal value of `s`, or 0 when `s` is not an
      integer that fits. */
  function SaveParseInt(s: string): (n: Int64)
    ensures ParseInt(s).Some? ==> n == ParseInt(s).value
    ensures ParseInt(s).None? ==> n == 0
  {
    ParseInt(s).GetOr(0)
  }

  /** `saveParseBool`: the boolean `s` spells, or false when it spells none. */
  function SaveParseBool(s: string): (b: bool)
    ensures b <==> s in {"1", "t", "T", "TRUE", "true", "True"}
  {
    ParseBool(s).GetOr(false)
  }

  /** The `received_after` reader shared by both decoders: a time exactly
      when the first value parses with the timestamp layout, nothing for a
      missing, empty or malformed value. */
  function ReceivedAfterFromQuery(q: Values): (r: Option<Time>)
    ensures r.Some? <==> ParseTimestamp(Get(q, ReceivedAfterKey)).Success?
    ensures r.Some? ==> FourDigitYear(r.value) && FormatTimestamp(r.value) == Get(q, ReceivedAfterKey)
  {
    match ParseTimestamp(Get(q, ReceivedAfterKey))
    case Success(t) => Some(t)
    case Failure(_) => None
  }

  /** `ListDevicePacketsParamsFromQuery`: total; every field is read from
      the first value of its key, with the zero value for what is missing
      or unreadable. `direction` is copied verbatim, without validation. */
  function ListDevicePacketsParamsFromQuery(q: Values): (p: DevicePacketsParams)
    ensures p.direction == Get(q, DirectionKey)
    ensures ParseInt(Get(q, LimitToLastKey)).Some? ==> p.limitToLast == ParseInt(Get(q, LimitToLastKey)).value
    ensures ParseInt(Get(q, LimitToLastKey)).None? ==> p.limitToLast == 0
    ensures ParseInt(Get(q, OffsetKey)).Some? ==> p.offset == ParseInt(Get(q, OffsetKey)).value
    ensures ParseInt(Get(q, OffsetKey)).None? ==> p.offset == 0
    ensures p.payloadOnly <==> ParseBool(Get(q, PayloadOnlyKey)) == Some(true)
    ensures p.receivedAfter.Some? ==> FormatTimestamp(p.receivedAfter.value) == Get(q, ReceivedAfterKey)
    ensures p.receivedAfter.None? <==> ParseTimestamp(Get(q, ReceivedAfterKey)).Failure?
  {
    DevicePacketsParams(
      Get(q, DirectionKey),
      SaveParseInt(Get(q, LimitToLastKey)),
      SaveParseInt(Get(q, OffsetKey)),
      SaveParseBool(Get(q, PayloadOnlyKey)),
      ReceivedAfterFromQuery(q))
  }

  /** `ListAllPacketsParamsFromQuery`: the device reader plus `skip_suborgs`. */
  function ListAllPacketsParamsFromQuery(q: Values): (p: AllPacketsParams)
    ensures p.Shared() == ListDevicePacketsParamsFromQuery(q)
    ensures p.skipSuborgs <==> ParseBool(Get(q, SkipSuborgsKey)) == Some(true)
  {
    AllPacketsParams(
      Get(q, DirectionKey),
      SaveParseInt(Get(q, LimitToLastKey)),
      SaveParseInt(Get(q, OffsetKey)),
      SaveParseBool(Get(q, PayloadOnlyKey)),
      ReceivedAfterFromQuery(q),
      SaveParseBool(Get(q, SkipSuborgsKey)))
  }

  /** The six key names are pairwise distinct. */
  lemma KeysDistinct()
    ensures |DirectionKey| == 9 && |LimitToLastKey| == 13 && |OffsetKey| == 6
    ensures |PayloadOnlyKey| == 12 && |ReceivedAfterKey| == 14 && |SkipSuborgsKey| == 12
    ensures PayloadOnlyKey[0] != SkipSuborgsKey[0]
  {
  }

  /** `Set(q, key, v)` when `cond` holds, `q` unchanged otherwise. */
  function SetIf(q: Values, cond: bool, key: string, v: string): (r: Values)
    ensures key in r <==> cond || key in q
    ensures cond ==> r[key] == [v]
    ensures forall k | k != key :: (k in r <==> k in q) && (k in q ==> r[k] == q[k])
    ensures !cond ==> r == q
  {
    if cond then Set(q, key, v) else q
  }

  /** The query-building block of `ListDevicePackets`: starting from the
      query already on the URL, each field that differs from its zero
      value replaces its key with one value. */
  function EncodeDevicePackets(base: Values, p: DevicePacketsParams): (q: Values)
    ensures DirectionKey in q <==> p.direction != "" || DirectionKey in base
    ensures LimitToLastKey in q <==> p.limitToLast != 0 || LimitToLastKey in base
    ensures OffsetKey in q <==> p.offset != 0 || OffsetKey in base
    ensures PayloadOnlyKey in q <==> p.payloadOnly || PayloadOnlyKey in base
    ensures ReceivedAfterKey in q <==> p.receivedAfter.Some? || ReceivedAfterKey in base
    ensures p.direction != "" ==> q[DirectionKey] == [p.direction]
    ensures p.limitToLast != 0 ==> q[LimitToLastKey] == [FormatInt(p.limitToLast)]
    ensures p.offset != 0 ==> q[OffsetKey] == [FormatInt(p.offset)]
    ensures p.payloadOnly ==> q[PayloadOnlyKey] == ["true"]
    ensures p.receivedAfter.Some? ==> q[ReceivedAfterKey] == [FormatTimestamp(p.receivedAfter.value)]
    ensures forall k | k !in AddedKeys(p) :: (k in q <==> k in base) && (k in base ==> q[k] == base[k])
  {
    KeysDistinct();
    var q1 := SetIf(base, p.direction != "", DirectionKey, p.direction);
    var q2 := SetIf(q1, p.limitToLast != 0, LimitToLastKey, FormatInt(p.limitToLast));
    var q3 := SetIf(q2, p.offset != 0, OffsetKey, FormatInt(p.offset));
    var q4 := SetIf(q3, p.payloadOnly, PayloadOnlyKey, FormatBool(p.payloadOnly));
    SetIf(q4, p.receivedAfter.Some?, ReceivedAfterKey,
      if p.receivedAfter.Some? then FormatTimestamp(p.receivedAfter.value) else "")
  }

  /** The keys the builder adds for `p`: one per field that differs from
      its zero value. */
  function AddedKeys(p: DevicePacketsParams): set<string> {
    (if p.direction != "" then {DirectionKey} else {})
    + (if p.limitToLast != 0 then {LimitToLastKey} else {})
    + (if p.offset != 0 then {OffsetKey} else {})
    + (if p.payloadOnly then {PayloadOnlyKey} else {})
    + (if p.receivedAfter.Some? then {ReceivedAfterKey} else {})
  }

  /** A key is present exactly when the base query had it or its field is
      not the zero value; no other key appears. */
  lemma EncodedKeys(base: Values, p: DevicePacketsParams)
    ensures EncodeDevicePackets(base, p).Keys == base.Keys + AddedKeys(p)
  {
    var q := EncodeDevicePackets(base, p);
    forall k | k in q
      ensures k in base.Keys + AddedKeys(p)
    {
      if k !in AddedKeys(p) {
      }
    }
  }

  /** Zero-valued parameters leave the URL's query as it was; from an
      empty query they produce an empty one, and nothing else does. */
  lemma EncodeZero(base: Values, p: DevicePacketsParams)
    ensures EncodeDevicePackets(base, ZeroParams) == base
    ensures EncodeDevicePackets(map[], p) == map[] <==> p == ZeroParams
  {
    EncodedKeys(map[], p);
    if EncodeDevicePackets(map[], p) == map[] {
      assert AddedKeys(p) == {};
    }
  }

  /** The reference meaning of writing `p` over a query that reads as
      `under`: each non-zero field of `p` wins, each zero field shows
      whatever the query already said. */
  function Overlay(p: DevicePacketsParams, under: DevicePacketsParams): DevicePacketsParams {
    DevicePacketsParams(
      if p.direction != "" then p.direction else under.direction,
      if p.limitToLast != 0 then p.limitToLast else under.limitToLast,
      if p.offset != 0 then p.offset else under.offset,
      p.payloadOnly || under.payloadOnly,
      if p.receivedAfter.Some? then p.receivedAfter else under.receivedAfter)
  }

  /** What a reader of the builder's output sees under each of the five
      keys: the field's text when it is not the zero value, the base
      query's first value otherwise. */
  lemma GetEncoded(base: Values, p: DevicePacketsParams)
    ensures var q := EncodeDevicePackets(base, p);
      && Get(q, DirectionKey) == (if p.direction != "" then p.direction else Get(base, DirectionKey))
      && Get(q, LimitToLastKey) == (if p.limitToLast != 0 then FormatInt(p.limitToLast) else Get(base, LimitToLastKey))
      && Get(q, OffsetKey) == (if p.offset != 0 then FormatInt(p.offset) else Get(base, OffsetKey))
      && Get(q, PayloadOnlyKey) == (if p.payloadOnly then "true" else Get(base, PayloadOnlyKey))
      && Get(q, ReceivedAfterKey) ==
        (if p.receivedAfter.Some? then FormatTimestamp(p.receivedAfter.value) else Get(base, ReceivedAfterKey))
  {
    KeysDistinct();
    var q := EncodeDevicePackets(base, p);
    GetField(base, q, DirectionKey, p.direction != "", p.direction);
    GetField(base, q, LimitToLastKey, p.limitToLast != 0, FormatInt(p.limitToLast));
    GetField(base, q, OffsetKey, p.offset != 0, FormatInt(p.offset));
    GetField(base, q, PayloadOnlyKey, p.payloadOnly, "true");
    var after := if p.receivedAfter.Some? then FormatTimestamp(p.receivedAfter.value) else "";
    GetField(base, q, ReceivedAfterKey, p.receivedAfter.Some?, after);
  }

  /** Reading one key of the builder's output: the written text, or what
      the base query had under that key. */
  lemma GetField(base: Values, q: Values, key: string, written: bool, text: string)
    requires key in q <==> written || key in base
    requires written ==> q[key] == [text]
    requires !written && key in base ==> q[key] == base[key]
    ensures Get(q, key) == (if written then text else Get(base, key))
  {
  }

  /** The builder's output reads back as `p` written over the base query's
      own reading, provided a given `ReceivedAfter` has a four-digit year. */
  lemma DecodeEncode(base: Values, p: DevicePacketsParams)
    requires p.receivedAfter.Some? ==> FourDigitYear(p.receivedAfter.value)
    ensures ListDevicePacketsParamsFromQuery(EncodeDevicePackets(base, p))
      == Overlay(p, ListDevicePacketsParamsFromQuery(base))
  {
    var q := EncodeDevicePackets(base, p);
    var d, u := ListDevicePacketsParamsFromQuery(q), ListDevicePacketsParamsFromQuery(base);
    GetEncoded(base, p);
    assert d.direction == Overlay(p, u).direction;
    assert d.limitToLast == Overlay(p, u).limitToLast by {
      if p.limitToLast != 0 {
        ParseFormatInt(p.limitToLast);
      }
    }
    assert d.offset == Overlay(p, u).offset by {
      if p.offset != 0 {
        ParseFormatInt(p.offset);
      }
    }
    assert d.payloadOnly == Overlay(p, u).payloadOnly;
    assert d.receivedAfter == Overlay(p, u).receivedAfter by {
      if p.receivedAfter.Some? {
        ParseFormatTimestamp(p.receivedAfter.value);
      }
    }
  }

  /** A query without any of the five keys reads as the zero value. */
  lemma DecodeWithoutKeys(q: Values)
    requires forall k | k in DevicePacketsKeys :: k !in q
    ensures ListDevicePacketsParamsFromQuery(q) == ZeroParams
  {
    KeysDistinct();
    assert Get(q, ReceivedAfterKey) == "";
  }

  /** Round trip: over a base query that carries none of the five keys,
      reading the builder's output gives back `p` exactly when a given
      `ReceivedAfter` has a four-digit year. */
  lemma RoundTrip(base: Values, p: DevicePacketsParams)
    requires forall k | k in DevicePacketsKeys :: k !in base
    ensures ListDevicePacketsParamsFromQuery(EncodeDevicePackets(base, p)) == p
      <==> (p.receivedAfter.Some? ==> FourDigitYear(p.receivedAfter.value))
  {
    DecodeWithoutKeys(base);
    if p.receivedAfter.Some? && !FourDigitYear(p.receivedAfter.value) {
      var t := p.receivedAfter.value;
      var q := EncodeDevicePackets(base, p);
      var d := ListDevicePacketsParamsFromQuery(q);
      assert Get(q, ReceivedAfterKey) == FormatTimestamp(t);
      assert d.receivedAfter != Some(t);
    } else {
      DecodeEncode(base, p);
    }
  }

  /** The example `PayloadOnly: true, LimitToLast: 50` over an
      empty query gives `limit_to_last=50&payload_only=true` and nothing else. */
  lemma PayloadOnlyLimitExample()
    ensures EncodeDevicePackets(map[], DevicePacketsParams("", 50, 0, true, None))
      == map[LimitToLastKey := ["50"], PayloadOnlyKey := ["true"]]
  {
    assert FormatInt(50) == "50";
  }

  /** Lenient reading: an unknown direction is kept as it is and a zoned
      timestamp reads as no time at all; with `saveParseInt` and
      `saveParseBool` taken as `SaveParseInt` and `SaveParseBool`, an
      unreadable number reads as 0 and a word that is not a boolean reads
      as false. */
  lemma LenientDecodeExample()
    ensures ListDevicePacketsParamsFromQuery(map[
        DirectionKey := ["sideways"], LimitToLastKey := ["ten"], OffsetKey := ["+7", "8"],
        PayloadOnlyKey := ["yes"], ReceivedAfterKey := ["2023-01-15T10:30:00Z"]])
      == DevicePacketsParams("sideways", 0, 7, false, None)
  {
    KeysDistinct();
    assert !IsDigit("ten"[0]);
    assert "+7"[1..] == "7";
    assert !IsTimestampText("2023-01-15T10:30:00Z");
  }
}
