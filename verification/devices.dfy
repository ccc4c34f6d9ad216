/** The device endpoints of the client: which HTTP verb each operation
    uses and which path it appends to the client's base URL. The request
    bodies and the transport are not part of this model. */
module Devices {
  import opened Wrappers
  import opened Query
  import opened PacketParams
  import opened LocalTime

  /** The HTTP method of the transport helper each operation calls. */
  datatype Verb = Get | Post | Put | Delete

  /** A URL reduced to what the operations change: the path and the
      parsed query string. */
  datatype Url = Url(path: string, query: Values)

  datatype Request = Request(verb: Verb, url: Url)

  /** The server resources the device operations address. */
  datatype Resource =
    | DeviceCollection
    | DeviceByEui(eui: string)
    | DeviceByAddress(address: string)
    | DevicePackets(eui: string)

  const EuiPrefix := "devices/eui/"
  const AddressPrefix := "devices/address/"
  const PacketsSuffix := "/packets"

  /** The path suffix a resource is reached under. */
  function ResourcePath(r: Resource): string {
    match r
    case DeviceCollection => "devices"
    case DeviceByEui(eui) => EuiPrefix + eui
    case DeviceByAddress(address) => AddressPrefix + address
    case DevicePackets(eui) => EuiPrefix + eui + PacketsSuffix
  }

  /** The identifiers in a resource contain no `/`. */
  predicate PlainKeys(r: Resource) {
    match r
    case DeviceCollection => true
    case DeviceByEui(eui) => '/' !in eui
    case DeviceByAddress(address) => '/' !in address
    case DevicePackets(eui) => '/' !in eui
  }

  /** The resource a path suffix names, as a server splitting on `/` reads it. */
  function Route(path: string): (r: Option<Resource>)
    ensures r.Some? ==> PlainKeys(r.value)
  {
    if path == "devices" then Some(DeviceCollection)
    else if |EuiPrefix| <= |path| && path[..|EuiPrefix|] == EuiPrefix then
      var rest := path[|EuiPrefix|..];
      if '/' !in rest then Some(DeviceByEui(rest))
      else if |PacketsSuffix| <= |rest| && rest[|rest| - |PacketsSuffix|..] == PacketsSuffix
        && '/' !in rest[..|rest| - |PacketsSuffix|]
      then Some(DevicePackets(rest[..|rest| - |PacketsSuffix|]))
      else None
    else if |AddressPrefix| <= |path| && path[..|AddressPrefix|] == AddressPrefix
      && '/' !in path[|AddressPrefix|..]
    then Some(DeviceByAddress(path[|AddressPrefix|..]))
    else None
  }

  /** Every resource whose identifiers contain no `/` is routed back to itself. */
  lemma RouteResourcePath(r: Resource)
    requires PlainKeys(r)
    ensures Route(ResourcePath(r)) == Some(r)
  {
    var path := ResourcePath(r);
    match r
    case DeviceCollection =>
    case DeviceByEui(eui) =>
      assert path[..|EuiPrefix|] == EuiPrefix && path[|EuiPrefix|..] == eui;
    case DeviceByAddress(address) =>
      assert path[..|AddressPrefix|] != EuiPrefix by {
        assert path[8] != EuiPrefix[8];
      }
      assert path[..|AddressPrefix|] == AddressPrefix && path[|AddressPrefix|..] == address;
    case DevicePackets(eui) =>
      var rest := eui + PacketsSuffix;
      assert path[..|EuiPrefix|] == EuiPrefix && path[|EuiPrefix|..] == rest;
      assert rest[|eui|] == '/';
      assert rest[|rest| - |PacketsSuffix|..] == PacketsSuffix && rest[..|rest| - |PacketsSuffix|] == eui;
  }

  /** Whatever path is routed is the path of the resource it is routed to. */
  lemma ResourcePathRoute(path: string)
    requires Route(path).Some?
    ensures ResourcePath(Route(path).value) == path
  {
    if path != "devices" && |EuiPrefix| <= |path| && path[..|EuiPrefix|] == EuiPrefix {
      var rest := path[|EuiPrefix|..];
      assert path == EuiPrefix + rest;
      if '/' in rest {
        var eui := rest[..|rest| - |PacketsSuffix|];
        assert rest == eui + PacketsSuffix;
      }
    } else if path != "devices" {
      assert path == AddressPrefix + path[|AddressPrefix|..];
    }
  }

  /** The paths of distinct resources differ, as long as the identifiers
      contain no `/`. */
  lemma ResourcePathInjective(r: Resource, s: Resource)
    requires PlainKeys(r) && PlainKeys(s)
    requires ResourcePath(r) == ResourcePath(s)
    ensures r == s
  {
    RouteResourcePath(r);
    RouteResourcePath(s);
  }

  /** The paths are not escaped: an EUI ending in `/packets` names the
      packet list of a different device. */
  lemma EuiWithSlashCollides(eui: string)
    ensures ResourcePath(DeviceByEui(eui + PacketsSuffix)) == ResourcePath(DevicePackets(eui))
    ensures DeviceByEui(eui + PacketsSuffix) != DevicePackets(eui)
  {
  }

  /** The request for `r` with `verb`: the resource path appended to the
      base URL's path, the base query kept. */
  function Call(base: Url, verb: Verb, r: Resource): (req: Request)
    ensures req.verb == verb && req.url.query == base.query
    ensures |base.path| <= |req.url.path| && req.url.path[..|base.path|] == base.path
    ensures PlainKeys(r) ==> Route(req.url.path[|base.path|..]) == Some(r)
  {
    var req := Request(verb, Url(base.path + ResourcePath(r), base.query));
    assert req.url.path[..|base.path|] == base.path;
    assert req.url.path[|base.path|..] == ResourcePath(r);
    if PlainKeys(r) then
      RouteResourcePath(r);
      req
    else req
  }

  /** `ShowAllDevices`: GET of the device collection. */
  function ShowAllDevices(base: Url): (req: Request)
    ensures req == Call(base, Get, DeviceCollection)
  {
    Request(Get, Url(base.path + "devices", base.query))
  }

  /** `ShowDeviceByEui`. */
  function ShowDeviceByEui(base: Url, eui: string): (req: Request)
    ensures req == Call(base, Get, DeviceByEui(eui))
  {
    Request(Get, Url(base.path + ("devices/eui/" + eui), base.query))
  }

  /** `ShowDeviceByAddress`. */
  function ShowDeviceByAddress(base: Url, address: string): (req: Request)
    ensures req == Call(base, Get, DeviceByAddress(address))
  {
    Request(Get, Url(base.path + ("devices/address/" + address), base.query))
  }

  /** `CreateDevice`: POST to the device collection. */
  function CreateDevice(base: Url): (req: Request)
    ensures req == Call(base, Post, DeviceCollection)
  {
    Request(Post, Url(base.path + "devices", base.query))
  }

  /** `UpdateDevice`: PUT to the device's EUI path. */
  function UpdateDevice(base: Url, eui: string): (req: Request)
    ensures req == Call(base, Put, DeviceByEui(eui))
  {
    Request(Put, Url(base.path + ("devices/eui/" + eui), base.query))
  }

  /** `DeleteDevice`: DELETE of the device's EUI path. */
  function DeleteDevice(base: Url, eui: string): (req: Request)
    ensures req == Call(base, Delete, DeviceByEui(eui))
  {
    Request(Delete, Url(base.path + ("devices/eui/" + eui), base.query))
  }

  /** `ListDevicePackets`: GET of the device's packet list, with the
      parameters written into the base query. */
  function ListDevicePackets(base: Url, eui: string, params: DevicePacketsParams): (req: Request)
    ensures req.verb == Get
    ensures req.url.path == Call(base, Get, DevicePackets(eui)).url.path
    ensures req.url.query == EncodeDevicePackets(base.query, params)
  {
    Request(Get, Url(base.path + ("devices/eui/" + eui + "/packets"), EncodeDevicePackets(base.query, params)))
  }

  /** `SendPacketToDevice`: POST to the device's packet list. */
  function SendPacketToDevice(base: Url, eui: string): (req: Request)
    ensures req == Call(base, Post, DevicePackets(eui))
  {
    Request(Post, Url(base.path + ("devices/eui/" + eui + "/packets"), base.query))
  }

  /** Showing, updating and deleting a device address the same URL with
      three different verbs; listing and sending packets share a path. */
  lemma SharedEndpoints(base: Url, eui: string, params: DevicePacketsParams)
    ensures ShowDeviceByEui(base, eui).url == UpdateDevice(base, eui).url == DeleteDevice(base, eui).url
    ensures ShowAllDevices(base).url == CreateDevice(base).url
    ensures ListDevicePackets(base, eui, params).url.path == SendPacketToDevice(base, eui).url.path
    ensures ListDevicePackets(base, eui, ZeroParams).url == SendPacketToDevice(base, eui).url
    ensures ShowDeviceByEui(base, eui).verb != UpdateDevice(base, eui).verb
    ensures UpdateDevice(base, eui).verb != DeleteDevice(base, eui).verb
    ensures ShowDeviceByEui(base, eui).verb != DeleteDevice(base, eui).verb
  {
    EncodeZero(base.query, params);
  }

  /** The two device lookups never share a path when the identifiers
      contain no `/`. */
  lemma LookupsDiffer(base: Url, eui: string, address: string)
    requires '/' !in eui && '/' !in address
    ensures ShowDeviceByEui(base, eui).url.path != ShowDeviceByAddress(base, address).url.path
  {
  }

  /** End to end: a server reading the packet-list request finds the
      device and, over a base URL without packet-list parameters, exactly
      the parameters the client was given. */
  lemma ListDevicePacketsReadBack(base: Url, eui: string, params: DevicePacketsParams)
    requires '/' !in eui
    requires forall k | k in DevicePacketsKeys :: k !in base.query
    requires params.receivedAfter.Some? ==> FourDigitYear(params.receivedAfter.value)
    ensures var req := ListDevicePackets(base, eui, params);
      && Route(req.url.path[|base.path|..]) == Some(DevicePackets(eui))
      && ListDevicePacketsParamsFromQuery(req.url.query) == params
  {
    RoundTrip(base.query, params);
  }
}
