# firefly-go core in Dafny

A model of the logic-bearing core of the Go client for the Digimondo
firefly LoRaWAN API (`package firefly`):

- **The local-time-without-zone timestamp** (`LocalTimeWithoutZone`). Its
  text is the wall clock of a `time.Time` in the Go layout
  `2006-01-02T15:04:05`. That is RFC 3339 section 5.6 `full-date "T"
  partial-time`, with no fraction and no offset. In JSON the text is
  wrapped in double quotes.
  - The layout is a sequence of chunks: literal characters plus the year,
    month, day, hour, minute and second fields. Formatting and parsing walk
    it the way the Go time package does.
  - Parsing checks each field's range as soon as it is read, in layout
    order (month, hour, minute, second). It rejects any text left over
    after the layout. It checks the day against the month's length last.
  - Modules: `LocalTime`, with examples in `LocalTimeExamples`.
- **The packet-list query parameters.**
  - Writing: the builder inside `ListDevicePackets` writes only the fields
    that differ from their zero value into the URL's query.
  - Reading: `ListDevicePacketsParamsFromQuery` and
    `ListAllPacketsParamsFromQuery` never fail. They fall back to zero
    values.
  - Modules: `Query` models `url.Values` `Get`/`Set`, `PacketParams` holds
    the parameters, and `Decimal` models `strconv.Itoa`/`Atoi` and
    `FormatBool`/`ParseBool`.
- **The device endpoints** (module `Devices`). For each operation the model
  gives the HTTP verb and the path it appends to the client's base URL.
  The model relates each path to the resource it names, through a router
  that reads it back.

The shared `Option`/`Result` types are in `Wrappers`.

Where the code and the field documentation disagree, the model follows the code:

- The documented defaults do not come from the decoders.
  - A missing `direction` reads as `""`, not as `desc`. Under the assumed
    `saveParseInt`/`saveParseBool` (see "Left out"), a missing
    `limit_to_last` or `offset` reads as `0`, not as `1`, and a missing
    `payload_only` reads as `false`.
  - Under the same assumption, a `received_after` with no `limit_to_last`
    still reads `limitToLast` as `0`, not `10`.
  - Those defaults are the server's business.
- `payload_only` is documented as "any other value will set this
  parameter to true". The decoder instead reads it with `saveParseBool`.
  Under the assumed `saveParseBool` (see "Left out"), `yes` reads as
  `false` (`PacketParams.LenientDecodeExample`).
- A `/` in an identifier is not escaped when it is appended to the path.
  An EUI ending in `/packets` names the packet list of another device
  (`Devices.EuiWithSlashCollides`).

## Model

| member | source | states |
|---|---|---|
| LocalTime.DaysIn | firefly/model.go:32-36 | February has 29 days exactly in Gregorian leap years, otherwise 28; April, June, September and November have 30; the rest 31 |
| LocalTime.YearText | firefly/model.go:18 | the year field has exactly four digits for years 0..9999 and reads back as the year; a negative year is `-` then the digits of its magnitude, padded to four; a larger year is its own minimal digits |
| Decimal.Pad | firefly/model.go:18 | a zero-padded field is all digits, at least the field width, denotes the value, is exactly the width iff the value fits, and has no leading zero when it is wider |
| Decimal.FixedDigitsOfValue | firefly/model.go:22 | each value has exactly one spelling in a fixed-width digit field |
| LocalTime.FormatTimestamp | firefly/model.go:18 | for four-digit years the text has the fixed 19-character shape with separators `-`, `-`, `T`, `:`, `:` at positions 4, 7, 10, 13, 16, and each field reads back from its slice; other years break the shape |
| LocalTime.TimestampSpelledOut | firefly/model.go:22 | the formatted text is the year, `-`, the two-digit month, `-`, the day, `T`, hour, `:`, minute, `:`, second |
| LocalTime.ParseChunks | firefly/model.go:32 | scanning keeps every field the layout does not write, and from a scanned start yields a four-digit year and fields that passed the immediate range checks |
| LocalTime.Parse | firefly/model.go:32-36 | every accepted text yields a valid calendar time with a four-digit year |
| LocalTime.ScanFormatted | firefly/model.go:32-36 | for a record with a four-digit year, scanning its formatted text fails with the first out-of-range field in layout order, or yields the record's fields |
| LocalTime.FormatScanned | firefly/model.go:32 | whatever a scan accepts is exactly the formatted text of the record it yields |
| LocalTime.ParseFormatted | firefly/model.go:17-38 | for a layout writing every field once, parsing the formatted text of a time with a four-digit year gives the time back |
| LocalTime.FormatParsed | firefly/model.go:17-38 | for such a layout, every accepted text is the formatted text of its result |
| LocalTime.TimestampRangeError | firefly/model.go:32-36 | the timestamp layout reports month first, then hour, minute, second |
| LocalTime.ParseTimestampVerdict | firefly/model.go:112 | for a rendered record with a four-digit year, the `received_after` reader's verdict on its text is exactly the reference verdict: month, hour, minute, second range errors in that order, then the day-of-month check, else the time |
| LocalTime.ParseTimestamp | firefly/model.go:112 | an accepted `received_after` text has the fixed shape and is the formatter's own spelling of the result |
| LocalTime.ParseFormatTimestamp | firefly/devices.go:76-78 | the unquoted text of a time parses back to that time iff its year has four digits |
| LocalTime.TrailingTextRejected | firefly/model.go:112 | appending anything, such as a zone `Z`, to a text the `received_after` reader accepts makes it rejected; Go's fractional-seconds suffix is the exception named under `LocalTime.Parse` in "Left out" |
| LocalTime.MarshalJSON | firefly/model.go:17-20 | the JSON text is the timestamp text between double quotes, 21 characters of the fixed shape for four-digit years |
| LocalTime.MarshalIsQuotedFormat | firefly/model.go:17-22 | marshalling equals formatting with the quoted layout the decoder parses with |
| LocalTime.UnmarshalJSON | firefly/model.go:31-38 | input without an opening quote fails with a mismatch; accepted input is 21 characters of the quoted shape and is exactly what marshalling writes for the result |
| LocalTime.UnmarshalJSONVerdict | firefly/model.go:31-37 | for a rendered record with a four-digit year, the JSON decoder's verdict on its quoted text is exactly the reference verdict, the same one the `received_after` reader gives |
| LocalTime.UnmarshalMarshal | firefly/model.go:17-38 | unmarshalling the marshalled text restores the wall clock iff the year has four digits |
| LocalTimeExamples.DecodesWireExample | firefly/model.go:31-38 | `"2023-01-15T10:30:00"` decodes to January 15, 2023, 10:30:00 |
| LocalTimeExamples.RejectsZoneSuffix | firefly/model.go:31-37 | the same text with a trailing `Z` is rejected, quoted or not |
| LocalTimeExamples.RejectsMissingQuotes | firefly/model.go:32-36 | the unquoted text is rejected by the JSON decoder |
| LocalTimeExamples.RejectsNonDigitField | firefly/model.go:32-36 | a letter in the month field is rejected, quoted or not |
| LocalTimeExamples.RejectsMonth13 | firefly/model.go:31-37 | month 13 is reported as a month range error, by the JSON decoder on the quoted text and by the `received_after` reader (line 112) on the bare text |
| LocalTimeExamples.ReportsMonthBeforeHour | firefly/model.go:31-37 | with month 0 and hour 25 the month is reported, quoted or bare |
| LocalTimeExamples.ReportsHourBeforeDay | firefly/model.go:31-37 | with April 31 and hour 24 the hour is reported, quoted or bare |
| LocalTimeExamples.RejectsFebruary30 | firefly/model.go:31-37 | February 30 is reported as a day range error, quoted or bare |
| LocalTimeExamples.LeapDay2024 | firefly/model.go:31-37 | February 29, 2024 is accepted, quoted or bare |
| LocalTimeExamples.LeapDay2000 | firefly/model.go:31-37 | February 29, 2000 is accepted, quoted or bare |
| LocalTimeExamples.NoLeapDay2023 | firefly/model.go:31-37 | February 29, 2023 is reported as a day range error, quoted or bare |
| LocalTimeExamples.NoLeapDay2100 | firefly/model.go:31-37 | February 29, 2100 is reported as a day range error, quoted or bare |
| LocalTimeExamples.FiveDigitYearIsLost | firefly/model.go:18 | the text written for year 10000 cannot be read back |
| Decimal.FormatInt | firefly/devices.go:68 | `Itoa` writes a leading `-` exactly for negatives, then the digits of the magnitude with no leading zero; zero is exactly `"0"` |
| Decimal.ParseInt | firefly/model.go:122-123 | a text is accepted exactly when it is an optional `+` or `-` followed by one or more digits whose signed value fits in 64 bits, and then the result is that signed value |
| Decimal.ParseFormatInt | firefly/devices.go:67-72 | every 64-bit integer written by `Itoa` is read back by `Atoi` |
| Decimal.ParseBool | firefly/model.go:124 | exactly the six spellings of true read as true and the six of false as false |
| Decimal.ParseFormatBool | firefly/devices.go:73-74 | `FormatBool` output reads back as the same boolean |
| Query.Get | firefly/model.go:121-124 | the first value of a key, or the empty string when it has none |
| Query.Set | firefly/devices.go:65 | the key carries exactly the one value; every other key keeps its presence and values; the key set grows by the key |
| Query.GetSet | firefly/devices.go:63-78 | a key reads back as the value just set |
| Query.GetSetOther | firefly/devices.go:63-78 | setting one key does not change what another key reads as |
| Query.SetSet | firefly/devices.go:63-78 | a second set of the same key overwrites the first |
| Query.SetCommutes | firefly/devices.go:63-78 | sets of distinct keys commute |
| PacketParams.SaveParseInt | firefly/model.go:122-123 | the `Atoi` value when it parses, 0 otherwise |
| PacketParams.SaveParseBool | firefly/model.go:124 | true exactly for the six spellings of true |
| PacketParams.ReceivedAfterFromQuery | firefly/model.go:111-118 | a time exactly when the first `received_after` value parses; that time has a four-digit year and formats back to the value |
| PacketParams.ListDevicePacketsParamsFromQuery | firefly/model.go:109-129 | total: direction copied verbatim; numbers read with `Atoi` or 0; payload-only true exactly for a spelling of true; `received_after` present exactly when its text parses, and then it formats back to that text |
| PacketParams.ListAllPacketsParamsFromQuery | firefly/model.go:146-167 | agrees with the device reader on the five shared fields and reads `skip_suborgs` as a boolean |
| PacketParams.EncodeDevicePackets | firefly/devices.go:63-80 | each key is present iff its field is non-zero or the base had it; a non-zero field's key holds exactly its one text (`Itoa`, `"true"`, the timestamp text); every key it does not write, including a zero field's own key, keeps its presence and values |
| PacketParams.EncodedKeys | firefly/devices.go:63-78 | the key set of the result is the base's keys plus one key per non-zero field |
| PacketParams.EncodeZero | firefly/devices.go:63-80 | zero parameters leave the query unchanged, and over an empty query the result is empty iff the parameters are zero |
| PacketParams.GetEncoded | firefly/devices.go:63-78 | each of the five keys reads as its field's text when the field is non-zero, else as the base query's value |
| PacketParams.DecodeEncode | firefly/devices.go:63-80 | when a given `ReceivedAfter` has a four-digit year, reading the builder's output gives the parameters laid over what the base query already reads as |
| PacketParams.DecodeWithoutKeys | firefly/model.go:109-129 | a query without the five keys reads as the zero parameters |
| PacketParams.RoundTrip | firefly/devices.go:63-80 | over a base without the five keys, reading the output restores the parameters iff a given time has a four-digit year |
| PacketParams.PayloadOnlyLimitExample | firefly/devices.go:67-75 | payload-only with limit 50 gives exactly `limit_to_last=["50"]` and `payload_only=["true"]` |
| PacketParams.LenientDecodeExample | firefly/model.go:109-129 | unknown direction kept and zoned time absent; under the assumed `saveParseInt` and `saveParseBool`, unreadable number 0, `+7` read as 7 from the first value, `yes` false |
| Devices.Route | firefly/devices.go:9-89 | a reference reader of the paths the operations build: a routed resource's identifiers contain no `/`, and with the lemmas below it inverts the path construction |
| Devices.RouteResourcePath | firefly/devices.go:9-89 | every resource with slash-free identifiers routes back from its path |
| Devices.ResourcePathRoute | firefly/devices.go:9-89 | every routed path is the path of its resource |
| Devices.ResourcePathInjective | firefly/devices.go:9-89 | distinct resources with slash-free identifiers have distinct paths |
| Devices.EuiWithSlashCollides | firefly/devices.go:18-61 | an EUI ending in `/packets` shares its path with another device's packet list |
| Devices.Call | firefly/devices.go:7-93 | the request keeps the base query, extends the base path, and the extension routes to the resource |
| Devices.ShowAllDevices | firefly/devices.go:7-14 | GET of the device collection |
| Devices.ShowDeviceByEui | firefly/devices.go:16-23 | GET of the device named by its EUI |
| Devices.ShowDeviceByAddress | firefly/devices.go:25-32 | GET of the device named by its address |
| Devices.CreateDevice | firefly/devices.go:34-41 | POST to the device collection |
| Devices.UpdateDevice | firefly/devices.go:43-50 | PUT to the device named by its EUI |
| Devices.DeleteDevice | firefly/devices.go:51-57 | DELETE of the device named by its EUI |
| Devices.ListDevicePackets | firefly/devices.go:59-85 | GET of the device's packet list with the parameters written into the base query |
| Devices.SendPacketToDevice | firefly/devices.go:87-93 | POST to the device's packet list |
| Devices.SharedEndpoints | firefly/devices.go:9-89 | show, update and delete by EUI share one URL with three verbs; show-all and create share a URL; listing and sending packets share a path, and, with the base query taken as already parsed, the whole URL when no parameters are set |
| Devices.LookupsDiffer | firefly/devices.go:18-27 | the EUI and address lookups never share a path for slash-free identifiers |
| Devices.ListDevicePacketsReadBack | firefly/devices.go:59-80 | for a slash-free EUI and a `ReceivedAfter` with a four-digit year, a server reads the device and, over a base without the five keys, exactly the given parameters back from the request |

## Left out

- The HTTP transport: `client.Url`, `getAndDecode`, `postAndDecode`, `putAndDecode` and `deleteNoContent` are not part of this model. The base URL is a parameter. Each helper's verb is taken from its name.
- Request and response bodies. These are the JSON encodings of the data-transfer structs, driven by struct tags, including the float and schema-less fields. `CreateDevice`, `UpdateDevice` and `SendPacketToDevice` are modelled without their body.
- `UnmarshalJSONXX` (firefly/model.go:24-29): an RFC 3339 decoder that is not wired to `json.Unmarshaler`.
- Time zones and instants: `time.Local` in `UnmarshalJSON` versus UTC in `time.Parse`, and sub-second precision. Only the wall-clock fields are modelled.
- LocalTime.UnmarshalJSON: Go builds the result with `time.Date` in `time.Local`, which moves a wall clock that falls in a daylight-saving gap (02:30 on a spring-forward day that skips 02:00-03:00 comes back an hour off: 03:30 in Europe/Berlin, 01:30 in America/New_York; Go does not guarantee which). For such inputs the Go decoder does not restore the wall clock it read, and re-marshalling does not give back the input; the model, which has no zones, promises both (here and in LocalTime.UnmarshalMarshal).
- Decimal.ParseInt: Go's `int` and `strconv.Atoi` are taken at 64 bits (the `Int64` type); on a 32-bit platform both are 32 bits, and the ranges in Decimal.ParseInt, Decimal.ParseFormatInt and the parameter records would shrink accordingly.
- LocalTime.Parse: it is the strict 19-character pattern. The Go time package also accepts a one-digit hour and fractional seconds after the seconds field; those inputs are rejected here.
- LocalTime.UnmarshalJSON: on error the Go method also sets the receiver to the zero time. The model returns only the error.
- LocalTime.ParseChunks: error values carry only their kind (mismatch, extra text, which field is out of range), not Go's message text.
- `url.Values.Encode` and `URL.Query`: percent-escaping and key ordering of the raw query string. The query is a map from key to values, and the model's base query is already parsed. `ListDevicePackets` rebuilds the raw query from `URL.Query()`, which silently drops pairs it cannot parse (a bad percent-escape such as `x=%zz`, or a `;` separator), while `SendPacketToDevice` keeps the raw query as it is; for such a base URL the two requests differ even with zero parameters, which Devices.SharedEndpoints does not capture.
- PacketParams.SaveParseInt: `saveParseInt` is not part of this model. It is assumed to be `strconv.Atoi` falling back to 0. The `limit_to_last` and `offset` halves of PacketParams.DecodeEncode, PacketParams.RoundTrip and Devices.ListDevicePacketsReadBack depend on that assumption.
- PacketParams.SaveParseBool: `saveParseBool` is not part of this model. It is assumed to be `strconv.ParseBool` falling back to false. The `payload_only` half of those round trips, and `skip_suborgs`, depend on that assumption.
- Nothing in devices.go or model.go writes `ListAllPacketsParams`, so only its reader is modelled.
- The data-transfer structs other than the two parameter records carry no logic and are not modelled.
