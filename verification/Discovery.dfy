/** Service discovery of onvif/client.py: where the camera says its services are, and what
    get_definition makes of it. */
module Discovery {
  import opened Wrappers
  import opened Urls
  import opened Text
  import opened UrlRewriting

  /** onvif/definition.py */
  datatype Definition = Definition(ns: string, wsdl: string, binding: string)

  const EVENTS_NS := "http://www.onvif.org/ver10/events/wsdl"

  const SERVICES: map<string, Definition> := map[
    "devicemgmt" := Definition("http://www.onvif.org/ver10/device/wsdl", "devicemgmt.wsdl", "DeviceBinding"),
    "media" := Definition("http://www.onvif.org/ver10/media/wsdl", "media.wsdl", "MediaBinding"),
    "ptz" := Definition("http://www.onvif.org/ver20/ptz/wsdl", "ptz.wsdl", "PTZBinding"),
    "imaging" := Definition("http://www.onvif.org/ver20/imaging/wsdl", "imaging.wsdl", "ImagingBinding"),
    "deviceio" := Definition("http://www.onvif.org/ver10/deviceIO/wsdl", "deviceio.wsdl", "DeviceIOBinding"),
    "events" := Definition(EVENTS_NS, "events.wsdl", "EventBinding"),
    "pullpoint" := Definition(EVENTS_NS, "events.wsdl", "PullPointSubscriptionBinding"),
    "notification" := Definition(EVENTS_NS, "events.wsdl", "NotificationProducerBinding"),
    "subscription" := Definition(EVENTS_NS, "events.wsdl", "SubscriptionManagerBinding"),
    "analytics" := Definition("http://www.onvif.org/ver20/analytics/wsdl", "analytics.wsdl", "AnalyticsEngineBinding"),
    "recording" := Definition("http://www.onvif.org/ver10/recording/wsdl", "recording.wsdl", "RecordingBinding"),
    "search" := Definition("http://www.onvif.org/ver10/search/wsdl", "search.wsdl", "SearchBinding"),
    "replay" := Definition("http://www.onvif.org/ver10/replay/wsdl", "replay.wsdl", "ReplayBinding"),
    "receiver" := Definition("http://www.onvif.org/ver10/receiver/wsdl", "receiver.wsdl", "ReceiverBinding")]

  /** device.xaddrs; None is the address of a capability that carries none. */
  type XAddrs = map<string, Option<string>>

  /** One element of a GetServices answer: without the expected attributes, or with them, where an
      absent value is the empty string. */
  datatype ServiceEntry = MalformedService | ServiceEntry(ns: string, xaddr: string)

  /** One element of a GetCapabilities answer: its key unless it is no string, and the capability. */
  datatype Capability = Absent | WithoutXAddr | WithXAddr(xaddr: Option<string>)
  datatype CapabilityEntry = CapabilityEntry(name: Option<string>, capability: Capability)

  /** What one element asks the loop to do: nothing, or to set an address. */
  datatype Assignment = Skip | Set(ns: string, xaddr: Option<string>)

  /** An element of GetServices that says where a service is. */
  predicate Usable(e: ServiceEntry) {
    e.ServiceEntry? && e.ns != "" && e.xaddr != ""
  }

  predicate Listed(e: ServiceEntry, ns: string) {
    Usable(e) && e.ns == ns
  }

  function FromService(e: ServiceEntry): Assignment {
    if e.MalformedService? || e.ns == "" || e.xaddr == "" then Skip else Set(e.ns, Some(e.xaddr))
  }

  function FromCapability(table: map<string, Definition>, e: CapabilityEntry): Assignment {
    if e.name.None? || Lower(e.name.value) !in table || !e.capability.WithXAddr? then Skip
    else Set(table[Lower(e.name.value)].ns, e.capability.xaddr)
  }

  function FromServices(es: seq<ServiceEntry>): (r: seq<Assignment>)
    ensures |r| == |es| && forall i :: 0 <= i < |es| ==> r[i] == FromService(es[i])
  {
    seq(|es|, i requires 0 <= i < |es| => FromService(es[i]))
  }

  function FromCapabilities(table: map<string, Definition>, es: seq<CapabilityEntry>): (r: seq<Assignment>)
    ensures |r| == |es| && forall i :: 0 <= i < |es| ==> r[i] == FromCapability(table, es[i])
  {
    seq(|es|, i requires 0 <= i < |es| => FromCapability(table, es[i]))
  }

  /** How a camera is reached, as given to the constructor, and what urlparse accepts. */
  datatype Access = Access(host: string, port: int, natOverride: bool, accepts: Accepts)

  /** rewrite_url(normalize_url(url)); None is urlparse's ValueError. */
  function Advertised(access: Access, url: string): Option<string> {
    var normal := Normalized(access.accepts, url);
    if normal.None? || !access.natOverride then normal
    else ReplaceHostPort(access.accepts, normal.value, access.host, access.port)
  }

  type Rewrite = string -> Option<string>

  function Rewriting(access: Access): Rewrite {
    url => Advertised(access, url)
  }

  /** The same for an address that may be missing, which stays missing. */
  function Rewritten(rewrite: Rewrite, xaddr: Option<string>): Option<Option<string>> {
    if xaddr.None? then Some(None)
    else if rewrite(xaddr.value).None? then None else Some(rewrite(xaddr.value))
  }

  /** A pass over the elements: the addresses after it, whether any was set, and whether a
      ValueError ended it. */
  datatype Pass = Pass(xaddrs: XAddrs, found: bool, raised: bool)

  function Assigned(rewrite: Rewrite, xaddrs: XAddrs, assignments: seq<Assignment>): Pass
    decreases |assignments|
  {
    if assignments == [] then Pass(xaddrs, false, false)
    else
      var before := Assigned(rewrite, xaddrs, assignments[..|assignments| - 1]);
      var last := assignments[|assignments| - 1];
      if before.raised || last.Skip? then before
      else
        var address := Rewritten(rewrite, last.xaddr);
        if address.None? then before.(raised := true) else Pass(before.xaddrs[last.ns := address.value], true, false)
  }

  lemma {:induction false} RaisedEndsThePass(rewrite: Rewrite, xaddrs: XAddrs, assignments: seq<Assignment>, i: nat)
    requires i <= |assignments| && Assigned(rewrite, xaddrs, assignments[..i]).raised
    ensures Assigned(rewrite, xaddrs, assignments) == Assigned(rewrite, xaddrs, assignments[..i])
    decreases |assignments|
  {
    if i == |assignments| {
      assert assignments[..i] == assignments;
    } else {
      var front := assignments[..|assignments| - 1];
      assert front[..i] == assignments[..i];
      RaisedEndsThePass(rewrite, xaddrs, front, i);
    }
  }

  // ------------------------------------------------------------------ the last advertised address wins

  /** The last element that sets this namespace, or -1. */
  function LastSet(assignments: seq<Assignment>, ns: string): (i: int)
    ensures -1 <= i < |assignments|
    ensures i >= 0 ==> assignments[i].Set? && assignments[i].ns == ns
    ensures forall j :: i < j < |assignments| ==> !(assignments[j].Set? && assignments[j].ns == ns)
  {
    if assignments == [] then -1
    else
      var last := assignments[|assignments| - 1];
      if last.Set? && last.ns == ns then |assignments| - 1 else LastSet(assignments[..|assignments| - 1], ns)
  }

  predicate Unreadable(rewrite: Rewrite, a: Assignment) {
    a.Set? && Rewritten(rewrite, a.xaddr).None?
  }

  lemma {:induction false} RaisesExactlyWhen(rewrite: Rewrite, xaddrs: XAddrs, assignments: seq<Assignment>)
    ensures Assigned(rewrite, xaddrs, assignments).raised
       <==> exists i :: 0 <= i < |assignments| && Unreadable(rewrite, assignments[i])
    decreases |assignments|
  {
    if assignments != [] {
      var front, last := assignments[..|assignments| - 1], assignments[|assignments| - 1];
      RaisesExactlyWhen(rewrite, xaddrs, front);
      assert forall i :: 0 <= i < |front| ==> front[i] == assignments[i];
    }
  }

  /** Unless an address cannot be parsed, each namespace ends up with the rewritten address of the
      last element that sets it, and every other namespace is as it was. */
  lemma {:induction false} LastAdvertisedWins(rewrite: Rewrite, xaddrs: XAddrs, assignments: seq<Assignment>, ns: string)
    requires !Assigned(rewrite, xaddrs, assignments).raised
    ensures var pass := Assigned(rewrite, xaddrs, assignments);
            var i := LastSet(assignments, ns);
            && (ns in pass.xaddrs <==> i >= 0 || ns in xaddrs)
            && (i >= 0 ==> Some(pass.xaddrs[ns]) == Rewritten(rewrite, assignments[i].xaddr))
            && (i < 0 && ns in xaddrs ==> pass.xaddrs[ns] == xaddrs[ns])
            && (pass.found <==> exists j :: 0 <= j < |assignments| && assignments[j].Set?)
    decreases |assignments|
  {
    if assignments != [] {
      var front, last := assignments[..|assignments| - 1], assignments[|assignments| - 1];
      LastAdvertisedWins(rewrite, xaddrs, front, ns);
      assert forall i :: 0 <= i < |front| ==> front[i] == assignments[i];
    }
  }

  // ------------------------------------------------------------------ get_definition

  datatype Refusal = UnknownService | NoSuchFile | Unsupported

  datatype Found = Found(xaddr: string, wsdl: string, binding: string)

  function DevicemgmtXAddr(access: Access): string {
    (if "http://" <= access.host || "https://" <= access.host then access.host else "http://" + BracketHost(access.host))
    + ":" + Decimal(access.port) + "/onvif/device_service"
  }

  function NamespaceOf(name: string, portType: Option<string>): string
    requires name in SERVICES
  {
    SERVICES[name].ns + if portType.None? || portType.value == "" then "" else "/" + portType.value
  }

  function GetDefinition(access: Access, files: set<string>, xaddrs: XAddrs, name: string, portType: Option<string>)
    : Result<Found, Refusal>
  {
    if name !in SERVICES then Err(UnknownService)
    else
      var d := SERVICES[name];
      var ns := NamespaceOf(name, portType);
      var binding := "{" + d.ns + "}" + d.binding;
      if d.wsdl !in files then Err(NoSuchFile)
      else if name == "devicemgmt" then Ok(Found(DevicemgmtXAddr(access), d.wsdl, binding))
      else if ns !in xaddrs || xaddrs[ns].None? || xaddrs[ns].value == "" then Err(Unsupported)
      else Ok(Found(xaddrs[ns].value, d.wsdl, binding))
  }

  /** Names without capitals are looked up as they are. */
  lemma LowerOf(name: string)
    requires forall i :: 0 <= i < |name| ==> !('A' <= name[i] <= 'Z')
    ensures Lower(name) == name
  {
  }

  const EVENTS_WSDL := "events.wsdl"
  const DEVICEMGMT_WSDL := "devicemgmt.wsdl"

  function AddressOf(xaddrs: XAddrs, ns: string): string {
    if ns in xaddrs && xaddrs[ns].Some? then xaddrs[ns].value else ""
  }

  /** devicemgmt needs its WSDL file and no discovery. */
  lemma DevicemgmtDefinition(access: Access, files: set<string>, xaddrs: XAddrs)
    ensures var found := GetDefinition(access, files, xaddrs, "devicemgmt", None);
            && (found.Ok? <==> DEVICEMGMT_WSDL in files)
            && (found.Ok? ==> found.value.xaddr == DevicemgmtXAddr(access))
  {
  }

  /** A service of the events family needs the shared WSDL file and an address under its port type. */
  lemma EventDefinition(access: Access, files: set<string>, xaddrs: XAddrs, name: string, portType: Option<string>)
    requires name == "events" || name == "notification" || name == "subscription" || name == "pullpoint"
    requires portType.Some? ==> portType.value != ""
    ensures var found := GetDefinition(access, files, xaddrs, name, portType);
            var address := AddressOf(xaddrs, if portType.None? then EVENTS_NS else EVENTS_NS + "/" + portType.value);
            && (found.Ok? <==> EVENTS_WSDL in files && address != "")
            && (found.Ok? ==> found.value.xaddr == address)
  {
    assert name in SERVICES && SERVICES[name].wsdl == EVENTS_WSDL && SERVICES[name].ns == EVENTS_NS;
    assert name != "devicemgmt";
    assert NamespaceOf(name, portType) == if portType.None? then EVENTS_NS else EVENTS_NS + "/" + portType.value;
  }

  /** Rewriting keeps a non-empty address non-empty, and an empty one empty. */
  lemma AdvertisedNonEmpty(access: Access, url: string)
    requires Advertised(access, url).Some?
    ensures Advertised(access, url).value == "" <==> url == ""
  {
    NonEmptyStaysNonEmpty(access.accepts, url, access.host, access.port);
    NonEmptyStaysNonEmpty(access.accepts, Normalized(access.accepts, url).value, access.host, access.port);
  }

  /** What update_xaddrs leaves, given the two answers; `services` is None when GetServices failed
      in a way the code treats as unsupported. */
  function Discovered(access: Access, services: Option<seq<ServiceEntry>>, capabilities: seq<CapabilityEntry>): Pass {
    var first := if services.None? then Pass(map[], false, false)
                 else Assigned(Rewriting(access), map[], FromServices(services.value));
    if first.found || first.raised then first
    else Assigned(Rewriting(access), first.xaddrs, FromCapabilities(SERVICES, capabilities))
  }

  /** After a pass over an empty map, get_definition finds an address exactly for devicemgmt and for
      the services whose namespace was set last to a non-empty address. */
  lemma DefinedExactlyWhenSet(access: Access, files: set<string>, assignments: seq<Assignment>, name: string)
    requires name in SERVICES && SERVICES[name].wsdl in files
    requires !Assigned(Rewriting(access), map[], assignments).raised
    ensures var i := LastSet(assignments, SERVICES[name].ns);
            GetDefinition(access, files, Assigned(Rewriting(access), map[], assignments).xaddrs, name, None).Ok? <==>
              name == "devicemgmt" || (i >= 0 && assignments[i].xaddr.Some? && assignments[i].xaddr.value != "")
  {
    var ns := SERVICES[name].ns;
    LastAdvertisedWins(Rewriting(access), map[], assignments, ns);
    var i := LastSet(assignments, ns);
    if i >= 0 && assignments[i].xaddr.Some? {
      AdvertisedNonEmpty(access, assignments[i].xaddr.value);
    }
    assert NamespaceOf(name, None) == ns;
  }

  /** After discovery by GetServices, get_definition finds an address exactly for devicemgmt and
      for the services whose namespace the camera listed with an address; the capabilities it
      would have answered make no difference. */
  lemma DefinedExactlyWhenListed(access: Access, files: set<string>, services: seq<ServiceEntry>,
                                 capabilities: seq<CapabilityEntry>, name: string)
    requires name in SERVICES && SERVICES[name].wsdl in files
    requires exists i :: 0 <= i < |services| && Usable(services[i])
    requires !Discovered(access, Some(services), capabilities).raised
    ensures var xaddrs := Discovered(access, Some(services), capabilities).xaddrs;
            GetDefinition(access, files, xaddrs, name, None).Ok? <==>
              name == "devicemgmt"
              || exists i :: 0 <= i < |services| && Listed(services[i], SERVICES[name].ns)
  {
    ListedDecides(access, services, capabilities);
    ListedLast(services, SERVICES[name].ns);
    DefinedExactlyWhenSet(access, files, FromServices(services), name);
  }

  lemma ListedDecides(access: Access, services: seq<ServiceEntry>, capabilities: seq<CapabilityEntry>)
    requires exists i :: 0 <= i < |services| && Usable(services[i])
    requires !Discovered(access, Some(services), capabilities).raised
    ensures Discovered(access, Some(services), capabilities) == Assigned(Rewriting(access), map[], FromServices(services))
  {
    var assignments := FromServices(services);
    var k :| 0 <= k < |services| && Usable(services[k]);
    assert assignments[k].Set?;
    if !Assigned(Rewriting(access), map[], assignments).raised {
      LastAdvertisedWins(Rewriting(access), map[], assignments, "");
    }
  }

  lemma ListedLast(services: seq<ServiceEntry>, ns: string)
    ensures var assignments := FromServices(services);
            var i := LastSet(assignments, ns);
            && (i >= 0 ==> assignments[i].xaddr.Some? && assignments[i].xaddr.value != "")
            && (i >= 0 <==> exists j :: 0 <= j < |services| && Listed(services[j], ns))
  {
    var assignments := FromServices(services);
    assert forall j :: 0 <= j < |services| ==> assignments[j] == FromService(services[j]);
  }

  lemma {:induction false} NothingSet(rewrite: Rewrite, xaddrs: XAddrs, assignments: seq<Assignment>)
    requires forall i :: 0 <= i < |assignments| ==> assignments[i].Skip?
    ensures Assigned(rewrite, xaddrs, assignments) == Pass(xaddrs, false, false)
    decreases |assignments|
  {
    if assignments != [] {
      NothingSet(rewrite, xaddrs, assignments[..|assignments| - 1]);
    }
  }

  // ------------------------------------------------------------------ the addresses themselves

  /** No later element lists this namespace. */
  predicate LastListing(services: seq<ServiceEntry>, ns: string, j: nat) {
    j < |services| && Listed(services[j], ns) && forall k :: j < k < |services| ==> !Listed(services[k], ns)
  }

  lemma LastListingIsLastSet(services: seq<ServiceEntry>, ns: string)
    ensures var assignments := FromServices(services);
            var i := LastSet(assignments, ns);
            && (forall j: nat :: LastListing(services, ns, j) ==> i == j && assignments[j].xaddr == Some(services[j].xaddr))
            && (i >= 0 ==> Listed(services[i], ns))
  {
    var assignments := FromServices(services);
    assert forall j :: 0 <= j < |services| ==> assignments[j] == FromService(services[j]);
    forall j: nat | LastListing(services, ns, j)
      ensures LastSet(assignments, ns) == j
    {
      assert assignments[j].Set? && assignments[j].ns == ns;
    }
  }

  /** After a pass over a GetServices answer, a namespace has the rewritten address of the last
      element that lists it, and one that no element lists has none. */
  lemma ListedAddress(rewrite: Rewrite, services: seq<ServiceEntry>, ns: string)
    requires !Assigned(rewrite, map[], FromServices(services)).raised
    ensures var xaddrs := Assigned(rewrite, map[], FromServices(services)).xaddrs;
            && (forall j: nat :: LastListing(services, ns, j) ==>
                  ns in xaddrs && xaddrs[ns].Some? && xaddrs[ns] == rewrite(services[j].xaddr))
            && (ns in xaddrs ==> exists j :: 0 <= j < |services| && Listed(services[j], ns))
  {
    LastAdvertisedWins(rewrite, map[], FromServices(services), ns);
    LastListingIsLastSet(services, ns);
  }

  /** An element of GetCapabilities that says where the service of this name is. */
  predicate Capable(e: CapabilityEntry, name: string) {
    e.name.Some? && Lower(e.name.value) == name && e.capability.WithXAddr?
  }

  /** No later element says where a service of this namespace is. */
  predicate LastCapability(table: map<string, Definition>, capabilities: seq<CapabilityEntry>, ns: string, name: string,
                           j: nat)
  {
    && j < |capabilities| && name in table && table[name].ns == ns && Capable(capabilities[j], name)
    && forall k, n :: j < k < |capabilities| && n in table && table[n].ns == ns ==> !Capable(capabilities[k], n)
  }

  lemma LastCapabilityIsLastSet(table: map<string, Definition>, capabilities: seq<CapabilityEntry>, ns: string,
                                name: string, j: nat)
    requires LastCapability(table, capabilities, ns, name, j)
    ensures var assignments := FromCapabilities(table, capabilities);
            LastSet(assignments, ns) == j && assignments[j].xaddr == capabilities[j].capability.xaddr
  {
    var assignments := FromCapabilities(table, capabilities);
    var i := LastSet(assignments, ns);
    assert assignments[j] == FromCapability(table, capabilities[j]) == Set(ns, capabilities[j].capability.xaddr);
    assert assignments[i] == FromCapability(table, capabilities[i]);
    var n := Lower(capabilities[i].name.value);
    assert n in table && table[n].ns == ns && Capable(capabilities[i], n);
  }

  /** The last element that says where a service of this namespace is gives an address. */
  ghost predicate CapableWithAddress(table: map<string, Definition>, capabilities: seq<CapabilityEntry>, ns: string) {
    exists name, j: nat :: LastCapability(table, capabilities, ns, name, j) && HasAddress(capabilities[j].capability)
  }

  predicate HasAddress(c: Capability) {
    c.WithXAddr? && c.xaddr.Some? && c.xaddr.value != ""
  }

  lemma CapableDecides(table: map<string, Definition>, capabilities: seq<CapabilityEntry>, ns: string)
    ensures var assignments := FromCapabilities(table, capabilities);
            var i := LastSet(assignments, ns);
            CapableWithAddress(table, capabilities, ns) <==>
              i >= 0 && assignments[i].xaddr.Some? && assignments[i].xaddr.value != ""
  {
    var assignments := FromCapabilities(table, capabilities);
    var i := LastSet(assignments, ns);
    if i >= 0 {
      LastSetIsCapability(table, capabilities, ns);
    }
    forall name, j: nat | LastCapability(table, capabilities, ns, name, j)
      ensures i == j && assignments[j].xaddr == capabilities[j].capability.xaddr
    {
      LastCapabilityIsLastSet(table, capabilities, ns, name, j);
    }
  }

  lemma LastSetIsCapability(table: map<string, Definition>, capabilities: seq<CapabilityEntry>, ns: string)
    requires LastSet(FromCapabilities(table, capabilities), ns) >= 0
    ensures var i := LastSet(FromCapabilities(table, capabilities), ns);
            capabilities[i].name.Some? && LastCapability(table, capabilities, ns, Lower(capabilities[i].name.value), i)
  {
    var assignments := FromCapabilities(table, capabilities);
    var i := LastSet(assignments, ns);
    assert assignments[i] == FromCapability(table, capabilities[i]);
    forall k, n | i < k < |capabilities| && n in table && table[n].ns == ns
      ensures !Capable(capabilities[k], n)
    {
      assert assignments[k] == FromCapability(table, capabilities[k]);
    }
  }

  /** When GetServices is unsupported or lists nothing usable, get_definition finds an address exactly
      for devicemgmt and for the services whose namespace was last advertised with one. */
  lemma DefinedExactlyWhenCapable(access: Access, files: set<string>, services: Option<seq<ServiceEntry>>,
                                  capabilities: seq<CapabilityEntry>, name: string)
    requires name in SERVICES && SERVICES[name].wsdl in files
    requires services.Some? ==> forall i :: 0 <= i < |services.value| ==> !Usable(services.value[i])
    requires !Discovered(access, services, capabilities).raised
    ensures var xaddrs := Discovered(access, services, capabilities).xaddrs;
            GetDefinition(access, files, xaddrs, name, None).Ok? <==>
              name == "devicemgmt" || CapableWithAddress(SERVICES, capabilities, SERVICES[name].ns)
  {
    if services.Some? {
      NothingSet(Rewriting(access), map[], FromServices(services.value));
    }
    DefinedExactlyWhenSet(access, files, FromCapabilities(SERVICES, capabilities), name);
    CapableDecides(SERVICES, capabilities, SERVICES[name].ns);
  }

  /** After a pass over a GetCapabilities answer, a namespace of the table has the rewritten address
      of the last element whose name, in any letter case, has it in the table, and a missing one
      if that element carries none. */
  lemma CapableAddress(rewrite: Rewrite, table: map<string, Definition>, capabilities: seq<CapabilityEntry>,
                       ns: string, name: string, j: nat)
    requires !Assigned(rewrite, map[], FromCapabilities(table, capabilities)).raised
    requires LastCapability(table, capabilities, ns, name, j)
    ensures var xaddrs := Assigned(rewrite, map[], FromCapabilities(table, capabilities)).xaddrs;
            var xaddr := capabilities[j].capability.xaddr;
            && ns in xaddrs
            && (xaddr.None? ==> xaddrs[ns].None?)
            && (xaddr.Some? ==> xaddrs[ns].Some? && xaddrs[ns] == rewrite(xaddr.value))
  {
    LastAdvertisedWins(rewrite, map[], FromCapabilities(table, capabilities), ns);
    LastCapabilityIsLastSet(table, capabilities, ns, name, j);
  }

  /** What get_definition hands out: for devicemgmt the fixed address, for every other service the
      one recorded under its namespace and port type; with the WSDL file and binding of the table. */
  lemma DefinitionHandedOut(access: Access, files: set<string>, xaddrs: XAddrs, name: string, portType: Option<string>)
    requires GetDefinition(access, files, xaddrs, name, portType).Ok?
    ensures var found := GetDefinition(access, files, xaddrs, name, portType).value;
            var ns := if portType == None || portType == Some("") then SERVICES[name].ns
                      else SERVICES[name].ns + "/" + portType.value;
            && name in SERVICES && SERVICES[name].wsdl in files
            && found.wsdl == SERVICES[name].wsdl
            && found.binding == "{" + SERVICES[name].ns + "}" + SERVICES[name].binding
            && (name == "devicemgmt" ==> found.xaddr == DevicemgmtXAddr(access))
            && (name != "devicemgmt" ==> ns in xaddrs && xaddrs[ns] == Some(found.xaddr) && found.xaddr != "")
  {
    assert portType.None? ==> SERVICES[name].ns + "" == SERVICES[name].ns;
    assert portType == Some("") ==> SERVICES[name].ns + "" == SERVICES[name].ns;
    assert portType.Some? && portType.value != "" ==>
             SERVICES[name].ns + ("/" + portType.value) == SERVICES[name].ns + "/" + portType.value;
  }

  /** And what it refuses: a name that is not in the table, a WSDL file that is not there, and but for
      devicemgmt an address that is missing or empty. */
  lemma DefinitionRefused(access: Access, files: set<string>, xaddrs: XAddrs, name: string)
    ensures var found := GetDefinition(access, files, xaddrs, name, None);
            && (found == Err(UnknownService) <==> name !in SERVICES)
            && (found == Err(NoSuchFile) <==> name in SERVICES && SERVICES[name].wsdl !in files)
            && (found == Err(Unsupported) <==>
                  && name in SERVICES && SERVICES[name].wsdl in files && name != "devicemgmt"
                  && AddressOf(xaddrs, SERVICES[name].ns) == "")
  {
    assert name in SERVICES ==> NamespaceOf(name, None) == SERVICES[name].ns;
  }

  /** After discovery by GetServices, a service is defined at the rewritten address of the last
      element that lists its namespace. */
  lemma DefinedWhereListed(access: Access, files: set<string>, services: seq<ServiceEntry>,
                           capabilities: seq<CapabilityEntry>, name: string, j: nat)
    requires name in SERVICES && SERVICES[name].wsdl in files && name != "devicemgmt"
    requires !Discovered(access, Some(services), capabilities).raised
    requires LastListing(services, SERVICES[name].ns, j)
    ensures var found := GetDefinition(access, files, Discovered(access, Some(services), capabilities).xaddrs, name, None);
            found.Ok? && Some(found.value.xaddr) == Advertised(access, services[j].xaddr)
  {
    assert Usable(services[j]);
    ListedDecides(access, services, capabilities);
    ListedAddress(Rewriting(access), services, SERVICES[name].ns);
    AdvertisedNonEmpty(access, services[j].xaddr);
    AddressIsDefined(access, files, Discovered(access, Some(services), capabilities).xaddrs, name);
  }

  /** When GetServices is unsupported or lists nothing usable, at the rewritten address of the last
      capability of its namespace. */
  lemma DefinedWhereCapable(access: Access, files: set<string>, services: Option<seq<ServiceEntry>>,
                            capabilities: seq<CapabilityEntry>, name: string, capable: string, j: nat)
    requires name in SERVICES && SERVICES[name].wsdl in files && name != "devicemgmt"
    requires services.Some? ==> forall i :: 0 <= i < |services.value| ==> !Usable(services.value[i])
    requires !Discovered(access, services, capabilities).raised
    requires LastCapability(SERVICES, capabilities, SERVICES[name].ns, capable, j)
    requires capabilities[j].capability.xaddr.Some? && capabilities[j].capability.xaddr.value != ""
    ensures var found := GetDefinition(access, files, Discovered(access, services, capabilities).xaddrs, name, None);
            found.Ok? && Some(found.value.xaddr) == Advertised(access, capabilities[j].capability.xaddr.value)
  {
    if services.Some? {
      NothingSet(Rewriting(access), map[], FromServices(services.value));
    }
    CapableAddress(Rewriting(access), SERVICES, capabilities, SERVICES[name].ns, capable, j);
    AdvertisedNonEmpty(access, capabilities[j].capability.xaddr.value);
    AddressIsDefined(access, files, Discovered(access, services, capabilities).xaddrs, name);
  }

  lemma AddressIsDefined(access: Access, files: set<string>, xaddrs: XAddrs, name: string)
    requires name in SERVICES && SERVICES[name].wsdl in files && name != "devicemgmt"
    requires AddressOf(xaddrs, SERVICES[name].ns) != ""
    ensures var found := GetDefinition(access, files, xaddrs, name, None);
            found.Ok? && found.value.xaddr == AddressOf(xaddrs, SERVICES[name].ns)
  {
    assert NamespaceOf(name, None) == SERVICES[name].ns;
  }

  // ------------------------------------------------------------------ what rewritten means

  /** Without NAT override an address is only normalised: returned verbatim unless its port is
      duplicated. */
  lemma AdvertisedVerbatim(access: Access, url: string, userinfo: string, hostport: string)
    requires !access.natOverride
    requires Parse(access.accepts, url).Some? && Parse(access.accepts, url).value.netloc == userinfo + hostport
    requires (userinfo == "" || userinfo[|userinfo| - 1] == '@') && '@' !in hostport
    requires '[' in hostport || Count(hostport, ':') <= 1
    ensures Advertised(access, url) == Some(url)
  {
    PlainUrlIsVerbatim(access.accepts, url, userinfo, hostport);
  }

  /** A duplicated port loses its last one. */
  lemma AdvertisedDropsExtraPort(access: Access, url: string, userinfo: string, name: string, port: string, extra: string)
    requires !access.natOverride && Absolute(access.accepts, url)
    requires Parse(access.accepts, url).value.netloc == userinfo + (name + ":" + port + (":" + extra))
    requires userinfo == "" || userinfo[|userinfo| - 1] == '@'
    requires Free(name + ":" + port + (":" + extra), {'[', '@'}) && ':' !in extra
    requires access.accepts(userinfo + (name + ":" + port))
    ensures var r := Advertised(access, url);
            && r.Some?
            && Parse(access.accepts, r.value)
               == Some(Parse(access.accepts, url).value.(netloc := userinfo + (name + ":" + port)))
  {
    ExtraPortIsDropped(access.accepts, url, userinfo, name, port, extra);
  }

  /** With it, the address leads to the host and port the camera object was given, and is otherwise
      kept: a name, an IPv4 address or a bracketed host as it is, a bare IPv6 literal in brackets. */
  lemma AdvertisedBehindNat(access: Access, url: string, netloc: string)
    requires access.natOverride && Absolute(access.accepts, url)
    requires access.accepts(NormalizedNetloc(Parse(access.accepts, url).value.netloc))
    requires Free(access.host, DELIMITERS + REMOVED) && access.accepts(netloc)
    requires netloc == (if "[" <= access.host || Count(access.host, ':') < 2 then access.host + ":" + Decimal(access.port)
                        else "[" + access.host + "]:" + Decimal(access.port))
    ensures var r := Advertised(access, url);
            r.Some? && Parse(access.accepts, r.value) == Some(Parse(access.accepts, url).value.(netloc := netloc))
  {
    RewrittenBehindNat(access, url);
    if "[" <= access.host || Count(access.host, ':') < 2 {
      HostIsSetAsItIs(access.accepts, url, access.host, access.port);
    } else {
      LiteralIsSetInBrackets(access.accepts, url, access.host, access.port, netloc);
    }
  }

  lemma RewrittenBehindNat(access: Access, url: string)
    requires access.natOverride && Absolute(access.accepts, url)
    requires access.accepts(NormalizedNetloc(Parse(access.accepts, url).value.netloc))
    ensures Advertised(access, url) == ReplaceHostPort(access.accepts, url, access.host, access.port)
  {
    ReplaceAbsorbsNormalize(access.accepts, url, access.host, access.port);
  }

  /** An address raises when it cannot be read, and behind NAT also when what normalising leaves of its
      authority is not accepted. */
  lemma AdvertisedRaisesExactlyWhen(access: Access, url: string)
    ensures Parse(access.accepts, url).None? ==> Advertised(access, url).None?
    ensures Absolute(access.accepts, url) ==>
              (Advertised(access, url).None? <==>
                 access.natOverride && !access.accepts(NormalizedNetloc(Parse(access.accepts, url).value.netloc)))
  {
    if Absolute(access.accepts, url) {
      RereadRaises(access.accepts, url, access.host, access.port);
    }
  }

  lemma RereadRaises(accepts: Accepts, url: string, host: string, port: int)
    requires Absolute(accepts, url)
    ensures var normal := Normalized(accepts, url);
            && normal.Some?
            && (ReplaceHostPort(accepts, normal.value, host, port).None? <==>
                  !accepts(NormalizedNetloc(Parse(accepts, url).value.netloc)))
  {
    NormalizeDropsOnlyTheExtraPort(accepts, url);
    NonEmpty(accepts, url);
    NonEmptyStaysNonEmpty(accepts, url, host, port);
    ReplaceRaises(accepts, Normalized(accepts, url).value, host, port);
  }

  lemma ReplaceRaises(accepts: Accepts, normal: string, host: string, port: int)
    requires normal != ""
    ensures ReplaceHostPort(accepts, normal, host, port).None? <==> Parse(accepts, normal).None?
  {
  }

  /** The address of the device management service, for each form of host. */
  lemma DevicemgmtAddress(access: Access)
    ensures var suffix := ":" + Decimal(access.port) + "/onvif/device_service";
            var schemed := "http://" <= access.host || "https://" <= access.host;
            var bare := Count(access.host, ':') >= 2 && !("[" <= access.host);
            && (schemed ==> DevicemgmtXAddr(access) == access.host + suffix)
            && (!schemed && !bare ==> DevicemgmtXAddr(access) == "http://" + access.host + suffix)
            && (!schemed && bare ==> DevicemgmtXAddr(access) == "http://[" + access.host + "]" + suffix)
  {
    var suffix := ":" + Decimal(access.port) + "/onvif/device_service";
    var base := if "http://" <= access.host || "https://" <= access.host then access.host
                else "http://" + BracketHost(access.host);
    assert DevicemgmtXAddr(access) == base + suffix;
    assert "http://" + ("[" + access.host + "]") == "http://[" + access.host + "]";
  }
}
