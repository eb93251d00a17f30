/** ONVIFCamera of onvif/client.py as an object that changes in place: the service cache, discovery
    and the clock handshake. What the camera or a session does is a parameter of each call. */
module Camera {
  import opened Wrappers
  import opened Urls
  import opened Discovery
  import opened Deadlines
  import opened Text
  import Calendar
  import ManagerModel

  type Key = (string, Option<string>)

  const DEVICEMGMT: Key := ("devicemgmt", None)

  /** ONVIFService, as far as its session goes. */
  class ONVIFService {
    const key: Key
    const xaddr: string
    const dtDiff: Option<int>
    ghost const id: nat
    var closed: bool

    constructor (key: Key, xaddr: string, dtDiff: Option<int>, ghost id: nat)
      ensures this.key == key && this.xaddr == xaddr && this.dtDiff == dtDiff && this.id == id && !closed
    {
      this.key, this.xaddr, this.dtDiff, this.id, closed := key, xaddr, dtDiff, id, false;
    }

    method Close()
      modifies this
      ensures closed
    {
      closed := true;
    }
  }

  function PortType(kind: ManagerModel.Kind): (portType: string)
    ensures portType != ""
  {
    if kind.PullPoint? then "PullPointSubscription" else "NotificationConsumer"
  }

  lemma PortTypeOf(kind: ManagerModel.Kind, portType: string)
    requires portType == "PullPointSubscription" || portType == "NotificationConsumer"
    ensures PortType(kind) == portType <==> (kind.PullPoint? <==> portType == "PullPointSubscription")
  {
    assert "PullPointSubscription"[0] != "NotificationConsumer"[0];
  }

  /** What goes wrong while a service is created: closing the old one, constructing or setting up
      the new one raises. */
  datatype Mishap = NoMishap | CloseRaises | ConstructorRaises | SetupRaises

  datatype Failure = Refused(refusal: Refusal) | Broken(mishap: Mishap) | CallRaised | UrlRaised

  /** GetSystemDateAndTime, with and then without the unauthenticated attempt: it raises, or reports
      a time the host compares with its own clock, in microseconds. */
  datatype ClockAnswer = ClockRaises | ClockReports(device: int, host: int)

  /** GetServices: an answer, an exception that means unsupported, or any other exception. */
  datatype ServicesAnswer = Services(entries: seq<ServiceEntry>) | Unsupported | ServicesRaises

  datatype CapabilitiesAnswer = Capabilities(entries: seq<CapabilityEntry>, readable: bool) | CapabilitiesRaises

  class ONVIFCamera {
    const access: Access
    const files: set<string>
    const adjustTime: bool
    var xaddrs: XAddrs
    var services: map<Key, ONVIFService>
    var dtDiff: Option<int>
    var brokenRelativeTimestamps: bool
    var capabilities: Option<seq<CapabilityEntry>>
    ghost var built: set<ONVIFService>
    ghost var nextService: nat
    ghost var leaked: seq<ONVIFService>
    ghost var stuck: set<Key>
    ghost var handshakes: nat
    ghost var updates: nat
    ghost var capabilityCalls: nat

    constructor (access: Access, files: set<string>, adjustTime: bool)
      ensures Valid() && Tidy() && built == {} && services == map[] && xaddrs == map[]
      ensures this.access == access && this.files == files && this.adjustTime == adjustTime
    {
      this.access, this.files, this.adjustTime := access, files, adjustTime;
      xaddrs, services, dtDiff, brokenRelativeTimestamps, capabilities := map[], map[], None, false, None;
      built, nextService, leaked, stuck, handshakes, updates, capabilityCalls := {}, 0, [], {}, 0, 0, 0;
    }

    /** The cache holds services built here, each under its own key. */
    ghost predicate Entries()
      reads this
    {
      forall k :: k in services ==> services[k] in built && services[k].key == k
    }

    /** And a known clock offset is the one the cached devicemgmt service signs with; handshakes
        were asked for. */
    ghost predicate Valid()
      reads this
    {
      && Entries()
      && (adjustTime && dtDiff.Some? && DEVICEMGMT in services ==> services[DEVICEMGMT].dtDiff == dtDiff)
      && handshakes + (if dtDiff.None? then 1 else 0) <= updates + 1
    }

    predicate IsEntry(s: ONVIFService)
      reads this
    {
      s.key in services && services[s.key] == s
    }

    /** The services left open outside the cache are those whose setup raised, and the entries left
        closed are those whose close raised. */
    ghost predicate Accounted()
      reads this, built
    {
      && (forall s :: s in leaked ==> s in built) && stuck <= services.Keys
      && (forall s :: s in built && IsEntry(s) ==> s !in leaked && (s.closed <==> s.key in stuck))
      && (forall s :: s in built && !IsEntry(s) ==> (!s.closed <==> s in leaked))
    }

    /** Nothing is left open outside the cache, or closed in it. */
    ghost predicate Tidy()
      reads this, built
    {
      Accounted() && leaked == [] && stuck == {}
    }

    /** Every service ever built is then open and its key's entry, or closed and in no entry. */
    lemma TidySessions()
      requires Tidy()
      ensures forall s :: s in built ==> (!s.closed <==> IsEntry(s))
    {
    }

    /** What a manager whose subscription service has this key, and whose reference address is
        this, sees of the camera. */
    ghost function View(key: Key, xaddr: string): ManagerModel.Device
      reads this, built
    {
      ManagerModel.Device(xaddr, Cached(key), brokenRelativeTimestamps, ClosedIds(), nextService)
    }

    ghost function Cached(key: Key): Option<ManagerModel.Service>
      reads this`services
    {
      if key in services then Some(ManagerModel.Service(services[key].id, services[key].xaddr)) else None
    }

    ghost function ClosedIds(): set<nat>
      reads this`built, built
    {
      set s | s in built && s.closed :: s.id
    }

    // ---------------------------------------------------------------- the service cache

    /** Nothing but the cache and the sessions changes. */
    twostate predicate OnlyCacheChanges()
      reads this
    {
      && xaddrs == old(xaddrs) && dtDiff == old(dtDiff) && handshakes == old(handshakes) && updates == old(updates)
      && capabilities == old(capabilities) && brokenRelativeTimestamps == old(brokenRelativeTimestamps)
      && capabilityCalls == old(capabilityCalls)
    }

    /** No entry and no session but those under this key change. */
    twostate predicate OnlyKeyChanges(key: Key)
      reads this, built
    {
      && old(built) <= built
      && (forall s :: s in old(built) && s.key != key ==> s.closed == old(s.closed))
      && (forall k :: k != key ==> (k in services <==> k in old(services)))
      && (forall k :: k != key && k in services ==> services[k] == old(services)[k])
    }

    /** Construct and set up a service for a key that has none. */
    method BuildService(key: Key, xaddr: string, mishap: Mishap) returns (r: Result<ONVIFService, Failure>)
      requires Entries() && key !in services
      modifies this
      ensures Entries() && OnlyCacheChanges() && OnlyKeyChanges(key) && fresh(built - old(built))
      ensures old(Valid()) ==> Valid()
      ensures old(Accounted()) ==> Accounted()
      ensures stuck == old(stuck) && old(leaked) <= leaked && |leaked| == |old(leaked)| + (if mishap.SetupRaises? then 1 else 0)
      ensures r.Err? <==> mishap.ConstructorRaises? || mishap.SetupRaises?
      ensures r.Ok? ==> fresh(r.value) && r.value.key == key && r.value.xaddr == xaddr
      ensures r.Ok? ==> r.value.dtDiff == dtDiff && !r.value.closed
      ensures r.Ok? ==> built == old(built) + {r.value} && services == old(services)[key := r.value]
      ensures r.Err? ==> services == old(services)
      ensures r.Ok? ==> r.value.id == old(nextService) && nextService == old(nextService) + 1 && ClosedIds() == old(ClosedIds())
    {
      if mishap.ConstructorRaises? {
        return Err(Broken(mishap));
      }
      var service := new ONVIFService(key, xaddr, dtDiff, nextService);
      built, nextService := built + {service}, nextService + 1;
      if mishap.SetupRaises? {
        leaked := leaked + [service];
        AccountedAfterBuild(service);
        return Err(Broken(mishap));
      }
      services := services[key := service];
      AccountedAfterBuild(service);
      r := Ok(service);
    }

    /** The new service is open, and either its key's entry or leaked. */
    twostate lemma AccountedAfterBuild(new service: ONVIFService)
      requires old(Entries()) && built == old(built) + {service} && service !in old(built) && !service.closed
      requires service.key !in old(services) && stuck == old(stuck)
      requires forall s :: s in old(built) ==> s.closed == old(s.closed)
      requires || (services == old(services)[service.key := service] && leaked == old(leaked))
               || (services == old(services) && leaked == old(leaked) + [service])
      ensures old(Accounted()) ==> Accounted()
      ensures ClosedIds() == old(ClosedIds())
    {
      forall i | i in old(ClosedIds())
        ensures i in ClosedIds()
      {
        var s :| s in old(built) && old(s.closed) && s.id == i;
        assert s in built && s.closed;
      }
    }

    twostate lemma ClosedIdsAfterClose(service: ONVIFService)
      requires service in built && built == old(built) && service.closed
      requires forall s :: s in built && s != service ==> s.closed == old(s.closed)
      ensures ClosedIds() == old(ClosedIds()) + {service.id}
    {
      forall i | i in old(ClosedIds())
        ensures i in ClosedIds()
      {
        var s :| s in built && old(s.closed) && s.id == i;
        assert s in built && s.closed;
      }
    }

    /** Close an entry and, unless that raises, drop it. */
    method CloseEntry(key: Key, mishap: Mishap)
      requires Entries() && key in services
      modifies this`services, this`stuck, services[key]
      ensures Entries() && old(services)[key].closed
      ensures old(Valid()) ==> Valid()
      ensures old(Accounted()) ==> Accounted()
      ensures leaked == old(leaked) && stuck == if mishap.CloseRaises? then old(stuck) + {key} else old(stuck) - {key}
      ensures services == if mishap.CloseRaises? then old(services) else old(services) - {key}
      ensures ClosedIds() == old(ClosedIds()) + {old(services)[key].id}
    {
      var existing := services[key];
      existing.Close();
      ClosedIdsAfterClose(existing);
      if mishap.CloseRaises? {
        stuck := stuck + {key};
      } else {
        services, stuck := services - {key}, stuck - {key};
      }
    }

    /** What one service creation may add to the sessions left open and the entries left closed. */
    twostate predicate MishapsCounted(key: Key, mishap: Mishap)
      reads this
    {
      && old(leaked) <= leaked && |leaked| <= |old(leaked)| + (if mishap.SetupRaises? then 1 else 0)
      && stuck <= old(stuck) + (if mishap.CloseRaises? then {key} else {})
    }

    /** create_onvif_service from where the entry, if there is one, is known to be out of date. */
    method ReplaceService(key: Key, xaddr: string, mishap: Mishap) returns (r: Result<ONVIFService, Failure>)
      requires Entries() && !(key in services && services[key].xaddr == xaddr)
      modifies this, built
      ensures Entries() && OnlyCacheChanges() && OnlyKeyChanges(key) && fresh(built - old(built))
      ensures MishapsCounted(key, mishap)
      ensures old(Valid()) ==> Valid()
      ensures old(Accounted()) ==> Accounted()
      ensures r.Ok? <==> mishap.NoMishap? || (mishap.CloseRaises? && key !in old(services))
      ensures r.Ok? ==> r.value in built && r.value.xaddr == xaddr && services == old(services)[key := r.value]
      ensures r.Ok? ==> fresh(r.value) && !r.value.closed && r.value.dtDiff == dtDiff
      ensures r.Ok? ==> r.value.id == old(nextService) && nextService == old(nextService) + 1
      ensures r.Ok? ==> ClosedIds() == if key in old(services) then old(ClosedIds()) + {old(services)[key].id} else old(ClosedIds())
      ensures old(Tidy()) ==> (Tidy() <==>
                mishap.NoMishap? || mishap.ConstructorRaises? || (mishap.CloseRaises? && key !in old(services)))
    {
      if key in services {
        CloseEntry(key, mishap);
        if mishap.CloseRaises? {
          return Err(Broken(mishap));
        }
      }
      r := BuildService(key, xaddr, mishap);
    }

    /** create_onvif_service once the definition is found: keep the entry while its address is the
        same, otherwise close it, drop it and build another. To a manager it does what opening the
        subscription service does in the machine. */
    method ObtainService(key: Key, xaddr: string, mishap: Mishap) returns (r: Result<ONVIFService, Failure>)
      requires Entries()
      modifies this, built
      ensures MishapsCounted(key, mishap)
      ensures Entries() && OnlyCacheChanges() && OnlyKeyChanges(key) && fresh(built - old(built))
      ensures old(Valid()) ==> Valid()
      ensures old(Accounted()) ==> Accounted()
      ensures r.Ok? ==> r.value in built && r.value.xaddr == xaddr && services == old(services)[key := r.value]
      ensures key in old(services) && old(services)[key].xaddr == xaddr ==>
                r == Ok(old(services)[key]) && built == old(built) && r.value.closed == old(services[key].closed)
      ensures !(key in old(services) && old(services)[key].xaddr == xaddr) ==>
                && (r.Ok? <==> mishap.NoMishap? || (mishap.CloseRaises? && key !in old(services)))
                && (r.Ok? ==> fresh(r.value) && !r.value.closed && r.value.dtDiff == dtDiff)
                && (old(Tidy()) ==> (Tidy() <==>
                      mishap.NoMishap? || mishap.ConstructorRaises? || (mishap.CloseRaises? && key !in old(services))))
      ensures old(Tidy()) && mishap.NoMishap? ==> Tidy() && !r.value.closed
      ensures r.Ok? ==>
                (ManagerModel.Service(r.value.id, xaddr), View(key, xaddr)) == ManagerModel.Obtained(old(View(key, xaddr)))
    {
      if key in services && services[key].xaddr == xaddr {
        return Ok(services[key]);
      }
      r := ReplaceService(key, xaddr, mishap);
    }

    /** create_onvif_service */
    method CreateOnvifService(anyCase: string, portType: Option<string>, mishap: Mishap)
      returns (r: Result<ONVIFService, Failure>)
      requires Entries()
      modifies this, built
      ensures MishapsCounted((Lower(anyCase), portType), mishap)
      ensures Entries() && OnlyCacheChanges() && OnlyKeyChanges((Lower(anyCase), portType)) && fresh(built - old(built))
      ensures old(Valid()) ==> Valid()
      ensures old(Accounted()) ==> Accounted()
      ensures var found := GetDefinition(access, files, old(xaddrs), Lower(anyCase), portType);
              && (found.Err? ==> r == Err(Refused(found.error)) && services == old(services) && built == old(built))
              && (r.Ok? ==> found.Ok? && r.value in built && r.value.xaddr == found.value.xaddr
                            && services == old(services)[(Lower(anyCase), portType) := r.value])
              && (found.Ok? && mishap.NoMishap? ==> r.Ok?)
      ensures old(Tidy()) && mishap.NoMishap? ==> Tidy() && (r.Ok? ==> !r.value.closed)
      ensures r.Ok? && (Lower(anyCase), portType) !in old(services) ==> fresh(r.value) && r.value.dtDiff == dtDiff
      ensures r.Ok? && (Lower(anyCase), portType) !in old(services) ==> r.value.id == old(nextService) == nextService - 1
    {
      var name := Lower(anyCase);
      var found := GetDefinition(access, files, xaddrs, name, portType);
      if found.Err? {
        return Err(Refused(found.error));
      }
      r := ObtainService((name, portType), found.value.xaddr, mishap);
    }

    /** create_devicemgmt_service */
    method CreateDevicemgmtService() returns (r: Result<ONVIFService, Failure>)
      requires Valid() && Tidy()
      modifies this, built
      ensures Valid() && Tidy() && OnlyCacheChanges() && OnlyKeyChanges(DEVICEMGMT) && fresh(built - old(built))
      ensures r.Ok? <==> DEVICEMGMT_WSDL in files
      ensures r.Ok? ==> r.value in built && r.value.xaddr == DevicemgmtXAddr(access)
      ensures r.Ok? ==> services == old(services)[DEVICEMGMT := r.value]
      ensures r.Ok? && DEVICEMGMT !in old(services) ==> r.value.dtDiff == dtDiff
    {
      LowerOf("devicemgmt");
      DevicemgmtDefinition(access, files, xaddrs);
      r := CreateOnvifService("devicemgmt", None, NoMishap);
    }

    /** create_events_service, create_notification_service, create_subscription_service and
        create_pullpoint_service: the address is the one recorded under the port type. */
    method CreateEventService(name: string, portType: Option<string>) returns (r: Result<ONVIFService, Failure>)
      requires Valid() && Tidy()
      requires name == "events" || name == "notification" || name == "subscription" || name == "pullpoint"
      requires portType.Some? ==> portType.value != ""
      modifies this, built
      ensures Valid() && Tidy() && OnlyCacheChanges() && OnlyKeyChanges((name, portType)) && fresh(built - old(built))
      ensures var address := AddressOf(xaddrs, if portType.None? then EVENTS_NS else EVENTS_NS + "/" + portType.value);
              && (r.Ok? <==> EVENTS_WSDL in files && address != "")
              && (r.Ok? ==> r.value.xaddr == address && !r.value.closed)
              && (r.Ok? ==> services == old(services)[(name, portType) := r.value])
      ensures r.Ok? && (name, portType) !in old(services) ==> r.value.id == old(nextService) == nextService - 1
    {
      LowerOf(name);
      EventDefinition(access, files, xaddrs, name, portType);
      r := CreateOnvifService(name, portType, NoMishap);
    }

    // ---------------------------------------------------------------- the clock handshake

    /** Set the clock offset, and close and forget the devicemgmt service. Where that close raises,
        the entry stays, signing with another offset. */
    method SetOffset(offset: int, mishap: Mishap)
      requires Entries() && Accounted()
      modifies this`dtDiff, this`services, this`stuck, built
      ensures Entries() && Accounted() && dtDiff == Some(offset)
      ensures services == if mishap.CloseRaises? then old(services) else old(services) - {DEVICEMGMT}
      ensures stuck <= old(stuck) + (if mishap.CloseRaises? then {DEVICEMGMT} else {})
    {
      dtDiff := Some(offset);
      if DEVICEMGMT in services {
        CloseEntry(DEVICEMGMT, mishap);
      }
    }

    /** _adjust_time */
    method AdjustTime(devicemgmt: ONVIFService, clock: ClockAnswer) returns (r: Result<ONVIFService, Failure>)
      requires Valid() && Tidy() && dtDiff.None? && DEVICEMGMT in services && services[DEVICEMGMT] == devicemgmt
      modifies this, built
      ensures Valid() && Tidy() && old(built) <= built && fresh(built - old(built))
      ensures xaddrs == old(xaddrs) && updates == old(updates) && capabilityCalls == old(capabilityCalls)
      ensures capabilities == old(capabilities)
      ensures adjustTime && clock.ClockReports? ==>
                dtDiff == Some(clock.device - clock.host) && handshakes == old(handshakes) + 1
      ensures !(adjustTime && clock.ClockReports?) ==> dtDiff.None? && handshakes == old(handshakes)
      ensures r.Ok? <==> !adjustTime || (clock.ClockReports? && DEVICEMGMT_WSDL in files)
      ensures adjustTime && r.Ok? ==> r.value.dtDiff == dtDiff
    {
      if !adjustTime {
        return Ok(devicemgmt);
      }
      if clock.ClockRaises? {
        return Err(CallRaised);
      }
      SetOffset(clock.device - clock.host, NoMishap);
      handshakes := handshakes + 1;
      r := CreateDevicemgmtService();
    }

    /** _devicemgmt_with_time: with adjust_time, the service handed back signs with the camera's
        current clock offset, asked for only while it is unknown. */
    method DevicemgmtWithTime(clock: ClockAnswer) returns (r: Result<ONVIFService, Failure>)
      requires Valid() && Tidy()
      modifies this, built
      ensures Valid() && Tidy() && old(built) <= built && fresh(built - old(built))
      ensures xaddrs == old(xaddrs) && updates == old(updates) && capabilityCalls == old(capabilityCalls)
      ensures capabilities == old(capabilities)
      ensures r.Ok? <==> DEVICEMGMT_WSDL in files && (old(dtDiff).Some? || !adjustTime || clock.ClockReports?)
      ensures r.Ok? && adjustTime ==> dtDiff.Some? && r.value.dtDiff == dtDiff
      ensures var shakes := old(dtDiff).None? && adjustTime && clock.ClockReports? && DEVICEMGMT_WSDL in files;
              && handshakes == old(handshakes) + (if shakes then 1 else 0)
              && dtDiff == if shakes then Some(clock.device - clock.host) else old(dtDiff)
    {
      r := CreateDevicemgmtService();
      if r.Ok? && dtDiff.None? {
        r := AdjustTime(r.value, clock);
      }
    }

    // ---------------------------------------------------------------- discovery

    /** The loop of _update_xaddrs_from_services. */
    method AssignFromServices(rewrite: Rewrite, entries: seq<ServiceEntry>) returns (found: bool, raised: bool)
      modifies this`xaddrs
      ensures Pass(xaddrs, found, raised) == Assigned(rewrite, old(xaddrs), FromServices(entries))
    {
      found := false;
      ghost var assignments := FromServices(entries);
      for i := 0 to |entries|
        invariant Pass(xaddrs, found, false) == Assigned(rewrite, old(xaddrs), assignments[..i])
      {
        assert assignments[..i + 1][..i] == assignments[..i];
        var entry := entries[i];
        if entry.ServiceEntry? && entry.ns != "" && entry.xaddr != "" {
          var address := rewrite(entry.xaddr);
          if address.None? {
            RaisedEndsThePass(rewrite, old(xaddrs), assignments, i + 1);
            return found, true;
          }
          xaddrs := xaddrs[entry.ns := address];
          found := true;
        }
      }
      assert assignments[..|entries|] == assignments;
      raised := false;
    }

    /** The loop of _update_xaddrs_from_capabilities, for the table of known services. */
    method AssignFromCapabilities(rewrite: Rewrite, table: map<string, Definition>, entries: seq<CapabilityEntry>)
      returns (raised: bool)
      modifies this`xaddrs
      ensures var pass := Assigned(rewrite, old(xaddrs), FromCapabilities(table, entries));
              xaddrs == pass.xaddrs && raised == pass.raised
    {
      ghost var assignments := FromCapabilities(table, entries);
      for i := 0 to |entries|
        invariant var pass := Assigned(rewrite, old(xaddrs), assignments[..i]); xaddrs == pass.xaddrs && !pass.raised
      {
        assert assignments[..i + 1][..i] == assignments[..i];
        var entry := entries[i];
        if entry.name.Some? && Lower(entry.name.value) in table && !entry.capability.Absent? {
          var ns := table[Lower(entry.name.value)].ns;
          if entry.capability.WithXAddr? {
            var address := Rewritten(rewrite, entry.capability.xaddr);
            if address.None? {
              RaisedEndsThePass(rewrite, old(xaddrs), assignments, i + 1);
              return true;
            }
            xaddrs := xaddrs[ns := address.value];
          }
        }
      }
      assert assignments[..|entries|] == assignments;
      raised := false;
    }

    /** _update_xaddrs_from_capabilities */
    method UpdateXaddrsFromCapabilities(answer: CapabilitiesAnswer) returns (r: Result<(), Failure>)
      modifies this`xaddrs, this`capabilities, this`capabilityCalls
      ensures capabilityCalls == old(capabilityCalls) + 1
      ensures answer.CapabilitiesRaises? ==>
                r == Err(CallRaised) && xaddrs == old(xaddrs) && capabilities == old(capabilities)
      ensures answer.Capabilities? ==>
                var pass := Assigned(Rewriting(access), old(xaddrs), FromCapabilities(SERVICES, answer.entries));
                && xaddrs == pass.xaddrs && (r.Ok? <==> !pass.raised)
                && capabilities == if r.Ok? && answer.readable then Some(answer.entries) else old(capabilities)
    {
      capabilityCalls := capabilityCalls + 1;
      if answer.CapabilitiesRaises? {
        return Err(CallRaised);
      }
      var raised := AssignFromCapabilities(Rewriting(access), SERVICES, answer.entries);
      if raised {
        return Err(UrlRaised);
      }
      if answer.readable {
        capabilities := Some(answer.entries);
      }
      r := Ok(());
    }

    /** _update_xaddrs_from_services */
    method UpdateXaddrsFromServices(listed: ServicesAnswer) returns (r: Result<bool, Failure>)
      modifies this`xaddrs
      ensures listed.ServicesRaises? ==> r == Err(CallRaised) && xaddrs == old(xaddrs)
      ensures listed.Unsupported? ==> r == Ok(false) && xaddrs == old(xaddrs)
      ensures listed.Services? ==>
                var pass := Assigned(Rewriting(access), old(xaddrs), FromServices(listed.entries));
                xaddrs == pass.xaddrs && r == if pass.raised then Err(UrlRaised) else Ok(pass.found)
    {
      match listed
      case Unsupported => return Ok(false);
      case ServicesRaises => return Err(CallRaised);
      case Services(entries) =>
        var found, raised := AssignFromServices(Rewriting(access), entries);
        r := if raised then Err(UrlRaised) else Ok(found);
    }

    /** The two questions of update_xaddrs, the second only if the first found nothing. */
    method Discover(listed: ServicesAnswer, capable: CapabilitiesAnswer) returns (r: Result<(), Failure>)
      modifies this`xaddrs, this`capabilities, this`capabilityCalls
      ensures r.Ok? ==> DiscoveryRecorded(listed, capable)
      ensures r.Ok? ==> capabilityCalls == old(capabilityCalls) + (if ListsSomething(listed) then 0 else 1)
      ensures r.Ok? <==> DiscoverySucceeds(listed, capable)
    {
      xaddrs := map[];
      var found := UpdateXaddrsFromServices(listed);
      if found.Err? {
        return Err(found.error);
      }
      if found.value {
        return Ok(());
      }
      r := UpdateXaddrsFromCapabilities(capable);
    }

    /** What the camera advertises is what is recorded. */
    predicate DiscoveryRecorded(listed: ServicesAnswer, capable: CapabilitiesAnswer)
      reads this
    {
      xaddrs == DiscoveredFrom(listed, capable).xaddrs
    }

    function DiscoveredFrom(listed: ServicesAnswer, capable: CapabilitiesAnswer): Pass {
      Discovered(access, if listed.Services? then Some(listed.entries) else None,
                 if capable.Capabilities? then capable.entries else [])
    }

    /** An answer decides, and every address it sets can be parsed. */
    predicate DiscoverySucceeds(listed: ServicesAnswer, capable: CapabilitiesAnswer) {
      && !listed.ServicesRaises? && (ListsSomething(listed) || capable.Capabilities?)
      && !DiscoveredFrom(listed, capable).raised
    }

    predicate ListsSomething(listed: ServicesAnswer) {
      listed.Services? && Assigned(Rewriting(access), map[], FromServices(listed.entries)).found
    }

    /** update_xaddrs: what is found is the last-wins fold of the GetServices answer if it lists
        anything usable, and GetCapabilities is then not called; otherwise the fold of the
        GetCapabilities answer. */
    method UpdateXaddrs(clock: ClockAnswer, listed: ServicesAnswer, capable: CapabilitiesAnswer)
      returns (r: Result<(), Failure>)
      requires Valid() && Tidy()
      modifies this, built
      ensures Valid() && Tidy() && old(built) <= built && fresh(built - old(built))
      ensures updates == old(updates) + 1 && handshakes <= old(handshakes) + 1
      ensures r.Ok? ==> DiscoveryRecorded(listed, capable)
      ensures r.Ok? ==> capabilityCalls == old(capabilityCalls) + (if ListsSomething(listed) then 0 else 1)
      ensures r.Ok? <==>
                DEVICEMGMT_WSDL in files && (!adjustTime || clock.ClockReports?) && DiscoverySucceeds(listed, capable)
    {
      dtDiff := None;
      updates := updates + 1;
      var devicemgmt := DevicemgmtWithTime(clock);
      if devicemgmt.Err? {
        return Err(devicemgmt.error);
      }
      r := Discover(listed, capable);
    }

    /** get_capabilities */
    method GetCapabilities(clock: ClockAnswer, capable: CapabilitiesAnswer)
      returns (r: Result<Option<seq<CapabilityEntry>>, Failure>)
      requires Valid() && Tidy()
      modifies this, built
      ensures Valid() && Tidy() && old(built) <= built && fresh(built - old(built))
      ensures updates == old(updates)
      ensures old(capabilities).Some? ==>
                r == Ok(old(capabilities)) && capabilityCalls == old(capabilityCalls) && handshakes == old(handshakes)
                && xaddrs == old(xaddrs)
      ensures old(dtDiff).Some? ==> dtDiff == old(dtDiff) && handshakes == old(handshakes)
      ensures old(capabilities).None? && r.Ok? ==>
                && capable.Capabilities? && capabilityCalls == old(capabilityCalls) + 1
                && r.value == (if capable.readable then Some(capable.entries) else None)
                && xaddrs == Assigned(Rewriting(access), old(xaddrs), FromCapabilities(SERVICES, capable.entries)).xaddrs
    {
      if capabilities.None? {
        var devicemgmt := DevicemgmtWithTime(clock);
        if devicemgmt.Err? {
          return Err(devicemgmt.error);
        }
        var updated := UpdateXaddrsFromCapabilities(capable);
        if updated.Err? {
          return Err(updated.error);
        }
      }
      r := Ok(capabilities);
    }

    // ---------------------------------------------------------------- termination times

    /** has_broken_relative_time: broken when both times carry a zone and the window between them is
        less than half of what was asked for; once found broken, it stays so. */
    method HasBrokenRelativeTime(expected: real, answer: ManagerModel.Response) returns (broken: bool)
      modifies this`brokenRelativeTimestamps
      ensures broken <==>
                && answer.currentTime.Some? && answer.terminationTime.Some?
                && answer.currentTime.value.aware && answer.terminationTime.value.aware
                && -expected < 2.0 * (answer.terminationTime.value.seconds - answer.currentTime.value.seconds) < expected
      ensures broken == ManagerModel.HasBrokenRelativeTime(expected, answer)
      ensures brokenRelativeTimestamps == (old(brokenRelativeTimestamps) || broken)
    {
      if answer.currentTime.None? {
        return false;
      }
      if answer.terminationTime.None? {
        return false;
      }
      if !answer.currentTime.value.aware {
        return false;
      }
      if !answer.terminationTime.value.aware {
        return false;
      }
      var actual := answer.terminationTime.value.seconds - answer.currentTime.value.seconds;
      if actual < 0.0 {
        actual := -actual;
      }
      if actual < expected / 2.0 {
        brokenRelativeTimestamps := true;
        return true;
      }
      broken := false;
    }

    /** get_next_termination_time */
    method GetNextTerminationTime(now: int, duration: int) returns (text: Option<string>)
      ensures text == NextTerminationTime(brokenRelativeTimestamps, now, duration, dtDiff)
    {
      if !brokenRelativeTimestamps {
        return Some("PT" + Decimal(Truncated(duration)) + "S");
      }
      var at := now + duration;
      if dtDiff.Some? {
        at := at + dtDiff.value;
      }
      if at < 0 || at / DAY >= Calendar.MAX_DAYS {
        return None;
      }
      text := Some(IsoSeconds(at));
    }

    // ---------------------------------------------------------------- manager restarts

    /** The open subscription service of this kind of manager, at this address. */
    ghost predicate IsSubscription(kind: ManagerModel.Kind, service: ONVIFService, address: string)
      reads this, service
    {
      IsOpenEntry(("subscription", Some(PortType(kind))), service, address)
    }

    ghost predicate IsOpenEntry(key: Key, service: ONVIFService, address: string)
      reads this, service
    {
      key in services && services[key] == service && !service.closed && service.xaddr == address
    }

    /** The entries without a port type are as they were. */
    twostate predicate OtherEntriesStay()
      reads this
    {
      forall k :: k in old(services) && k.1.None? ==> k in services && services[k] == old(services)[k]
    }

    /** The services `_start` of a manager sets up, once the camera has granted a subscription at
        `reference`: its address is recorded, and the subscription service handed back is the open
        entry for exactly that address. */
    method StartManager(kind: ManagerModel.Kind, reference: Option<string>) returns (r: Result<ONVIFService, Failure>)
      requires Valid() && Tidy()
      modifies this, built
      ensures Valid() && Tidy() && old(built) <= built && fresh(built - old(built))
      ensures updates == old(updates) && handshakes == old(handshakes)
      ensures var address := Rewritten(Rewriting(access), reference);
              && (r.Ok? <==>
                    && EVENTS_WSDL in files && AddressOf(old(xaddrs), EVENTS_NS) != ""
                    && address.Some? && address.value.Some? && address.value.value != "")
              && (r.Ok? ==> IsSubscription(kind, r.value, address.value.value))
              && (r.Ok? ==> xaddrs == old(xaddrs)[EVENTS_NS + "/" + PortType(kind) := address.value])
      ensures r.Ok? ==> (if kind.PullPoint? then "events" else "notification", None) in services
    {
      var entry := CreateEventService(if kind.PullPoint? then "events" else "notification", None);
      if entry.Err? {
        return entry;
      }
      r := OpenSubscription(kind, Rewritten(Rewriting(access), reference));
    }

    /** From the rewritten reference address on, unless rewriting it raised. */
    method OpenSubscription(kind: ManagerModel.Kind, address: Option<Option<string>>)
      returns (r: Result<ONVIFService, Failure>)
      requires Valid() && Tidy()
      modifies this, built
      ensures Valid() && Tidy() && old(built) <= built && fresh(built - old(built))
      ensures updates == old(updates) && handshakes == old(handshakes)
      ensures r.Ok? <==> EVENTS_WSDL in files && address.Some? && address.value.Some? && address.value.value != ""
      ensures r.Ok? ==> IsSubscription(kind, r.value, address.value.value)
      ensures r.Ok? ==> xaddrs == old(xaddrs)[EVENTS_NS + "/" + PortType(kind) := address.value]
      ensures OtherEntriesStay()
    {
      if address.None? {
        return Err(UrlRaised);
      }
      xaddrs := xaddrs[EVENTS_NS + "/" + PortType(kind) := address.value];
      r := CreateSubscriptionServices(kind);
    }

    /** The subscription service and the service that pulls messages, in the order of each `_start`. */
    method CreateSubscriptionServices(kind: ManagerModel.Kind) returns (r: Result<ONVIFService, Failure>)
      requires Valid() && Tidy()
      modifies this, built
      ensures Valid() && Tidy() && OnlyCacheChanges() && old(built) <= built && fresh(built - old(built))
      ensures var address := AddressOf(xaddrs, EVENTS_NS + "/" + PortType(kind));
              && (r.Ok? <==> EVENTS_WSDL in files && address != "")
              && (r.Ok? ==> IsSubscription(kind, r.value, address))
      ensures OtherEntriesStay()
      ensures r.Ok? && old(NoSubscription(PortType(kind))) ==>
                r.value.id == old(nextService) + (if kind.PullPoint? then 0 else 1)
    {
      if kind.PullPoint? {
        r := SubscriptionThenPuller(PortType(kind));
      } else {
        r := PullerThenSubscription(PortType(kind));
      }
    }

    predicate NoSubscription(portType: string)
      reads this
    {
      ("subscription", Some(portType)) !in services && ("pullpoint", Some(portType)) !in services
    }

    method SubscriptionThenPuller(portType: string) returns (r: Result<ONVIFService, Failure>)
      requires Valid() && Tidy() && portType != ""
      modifies this, built
      ensures Valid() && Tidy() && OnlyCacheChanges() && old(built) <= built && fresh(built - old(built))
      ensures var address := AddressOf(xaddrs, EVENTS_NS + "/" + portType);
              && (r.Ok? <==> EVENTS_WSDL in files && address != "")
              && (r.Ok? ==> IsOpenEntry(("subscription", Some(portType)), r.value, address))
      ensures OtherEntriesStay()
      ensures r.Ok? && old(NoSubscription(portType)) ==> r.value.id == old(nextService)
    {
      r := CreateEventService("subscription", Some(portType));
      if r.Ok? {
        var puller := CreateEventService("pullpoint", Some(portType));
      }
    }

    method PullerThenSubscription(portType: string) returns (r: Result<ONVIFService, Failure>)
      requires Valid() && Tidy() && portType != ""
      modifies this, built
      ensures Valid() && Tidy() && OnlyCacheChanges() && old(built) <= built && fresh(built - old(built))
      ensures var address := AddressOf(xaddrs, EVENTS_NS + "/" + portType);
              && (r.Ok? <==> EVENTS_WSDL in files && address != "")
              && (r.Ok? ==> IsOpenEntry(("subscription", Some(portType)), r.value, address))
      ensures OtherEntriesStay()
      ensures r.Ok? && old(NoSubscription(portType)) ==> r.value.id == old(nextService) + 1
    {
      var puller := CreateEventService("pullpoint", Some(portType));
      if puller.Err? {
        return puller;
      }
      r := CreateEventService("subscription", Some(portType));
    }

    // ---------------------------------------------------------------- whole runs

    /** A sequence of calls in which nothing fails to construct, set up or close, and only the
        camera object closes services. However it goes: no service is left open outside the cache
        or closed inside it, and there are at most as many handshakes as update_xaddrs calls, and
        one more. */
    method Play(calls: seq<Call>)
      requires Valid() && Tidy()
      modifies this, built
      ensures Valid() && Tidy()
      ensures updates == old(updates) + UpdateCalls(calls)
      ensures handshakes <= updates + 1
    {
      for i := 0 to |calls|
        invariant Valid() && Tidy() && old(built) <= built && fresh(built - old(built))
        invariant updates == old(updates) + UpdateCalls(calls[..i])
      {
        assert calls[..i + 1][..i] == calls[..i];
        match calls[i]
        case Create(name, portType) => var _ := CreateOnvifService(name, portType, NoMishap);
        case Update(clock, listed, capable) => var _ := UpdateXaddrs(clock, listed, capable);
        case AskCapabilities(clock, capable) => var _ := GetCapabilities(clock, capable);
        case Restart(kind, reference) => var _ := StartManager(kind, reference);
      }
      assert calls[..|calls|] == calls;
    }

    /** One such step. */
    method Make(attempt: Attempt)
      requires Entries() && Accounted()
      modifies this, built
      ensures Entries() && Accounted() && old(built) <= built && fresh(built - old(built))
      ensures old(leaked) <= leaked && |leaked| <= |old(leaked)| + SetupFailure(attempt)
      ensures stuck <= old(stuck) + CloseFailure(attempt)
    {
      match attempt
      case Attempt(name, portType, mishap) => var _ := CreateOnvifService(name, portType, mishap);
      case Handshake(offset, mishap) => SetOffset(offset, mishap);
      case ForgetOffset => dtDiff := None;
      case Readdress(addresses) => xaddrs := addresses;
    }

    /** A sequence of the steps all calls are made of, in which anything may fail. However it goes:
        the services left open outside the cache are those whose setup raised, at most one for each
        time that happened, and the entries left closed are those whose close raised. */
    method PlayAnyhow(attempts: seq<Attempt>)
      requires Entries() && Accounted()
      modifies this, built
      ensures Entries() && Accounted()
      ensures old(leaked) <= leaked && |leaked| <= |old(leaked)| + SetupFailures(attempts)
      ensures stuck <= old(stuck) + CloseFailures(attempts)
      ensures leaked == [] && stuck == {} ==> Tidy()
    {
      for i := 0 to |attempts|
        invariant Entries() && Accounted() && old(built) <= built && fresh(built - old(built))
        invariant old(leaked) <= leaked && |leaked| <= |old(leaked)| + SetupFailures(attempts[..i])
        invariant stuck <= old(stuck) + CloseFailures(attempts[..i])
      {
        assert attempts[..i + 1][..i] == attempts[..i];
        Make(attempts[i]);
      }
      assert attempts[..|attempts|] == attempts;
    }
  }

  /** A service creation, setting or forgetting the clock offset, and any change of the addresses. */
  datatype Attempt =
    | Attempt(name: string, portType: Option<string>, mishap: Mishap)
    | Handshake(offset: int, mishap: Mishap)
    | ForgetOffset
    | Readdress(addresses: XAddrs)

  function SetupFailure(attempt: Attempt): nat {
    if attempt.Attempt? && attempt.mishap.SetupRaises? then 1 else 0
  }

  function SetupFailures(attempts: seq<Attempt>): nat {
    if attempts == [] then 0 else SetupFailures(attempts[..|attempts| - 1]) + SetupFailure(attempts[|attempts| - 1])
  }

  function CloseFailure(attempt: Attempt): set<Key> {
    if attempt.Attempt? && attempt.mishap.CloseRaises? then {(Lower(attempt.name), attempt.portType)}
    else if attempt.Handshake? && attempt.mishap.CloseRaises? then {DEVICEMGMT} else {}
  }

  function CloseFailures(attempts: seq<Attempt>): set<Key> {
    if attempts == [] then {} else CloseFailures(attempts[..|attempts| - 1]) + CloseFailure(attempts[|attempts| - 1])
  }

  datatype Call =
    | Create(name: string, portType: Option<string>)
    | Update(clock: ClockAnswer, listed: ServicesAnswer, capable: CapabilitiesAnswer)
    | AskCapabilities(clock: ClockAnswer, capable: CapabilitiesAnswer)
    | Restart(kind: ManagerModel.Kind, reference: Option<string>)

  function UpdateCalls(calls: seq<Call>): nat {
    if calls == [] then 0
    else UpdateCalls(calls[..|calls| - 1]) + if calls[|calls| - 1].Update? then 1 else 0
  }
}
