/**
 * The Service and EndpointSlice manager (internal/service/manager.go).
 *
 * Every reconcile is a sequence of writes to a small object store, and it may be cut off after any
 * of them: `writes` is the number of writes that still succeed. A failed read stops a reconcile
 * like a failed next write does.
 */
module ServiceManager {
  import opened Api

  datatype ServiceType = ExternalName | ClusterIP | NodePort | LoadBalancer

  datatype ServicePort = ServicePort(name: string, port: int, targetPort: int, protocol: string)

  datatype EndpointPort = EndpointPort(name: string, port: int, protocol: string)

  datatype Service = Service(
    kind: ServiceType,
    externalName: string,
    ports: seq<ServicePort>,
    owners: seq<string>)

  datatype AddressType = FamilyIPv4 | FamilyIPv6

  datatype EndpointSlice = EndpointSlice(
    addressType: AddressType,
    endpoints: seq<Address>,
    ports: seq<EndpointPort>,
    owners: seq<string>)

  datatype Store = Store(service: Option<Service>, slice: Option<EndpointSlice>)

  /** What one (possibly cut-off) reconcile leaves behind, and whether it reported success. */
  datatype Attempt = Attempt(store: Store, writes: nat, ok: bool)

  // ----- Desired objects -----

  function Protocol(p: Port): string {
    if p.protocol == "" then "TCP" else p.protocol
  }

  function ServicePorts(ports: seq<Port>): (r: seq<ServicePort>)
    ensures |r| == |ports|
  {
    seq(|ports|, i requires 0 <= i < |ports| =>
      ServicePort(ports[i].name, ports[i].port, ports[i].port, Protocol(ports[i])))
  }

  function EndpointPorts(ports: seq<Port>): (r: seq<EndpointPort>)
    ensures |r| == |ports|
  {
    seq(|ports|, i requires 0 <= i < |ports| => EndpointPort(ports[i].name, ports[i].port, Protocol(ports[i])))
  }

  function DesiredExternalName(uid: string, dnsName: string): Service {
    Service(ExternalName, dnsName, [], [uid])
  }

  function DesiredClusterIP(uid: string, ports: seq<Port>): Service {
    Service(ClusterIP, "", ServicePorts(ports), [uid])
  }

  function DesiredSlice(uid: string, ports: seq<Port>, a: Address): EndpointSlice {
    EndpointSlice(if a.IPv6? then FamilyIPv6 else FamilyIPv4, [a], EndpointPorts(ports), [uid])
  }

  // ----- Specification of one reconcile -----

  function ReconcileWithAddress(uid: string, ports: seq<Port>, s: Store, a: Address, writes: nat): Attempt {
    if a.IsIP() then ReconcileClusterIP(uid, ports, s, a, writes)
    else ReconcileExternalName(uid, s, a.text, writes)
  }

  function ReconcileExternalName(uid: string, s: Store, dnsName: string, writes: nat): Attempt {
    match s.service
    case None => CreateService(s, DesiredExternalName(uid, dnsName), writes)
    case Some(existing) =>
      if uid !in existing.owners then Attempt(s, writes, false)
      else if existing.kind == ExternalName then
        if existing.externalName == dnsName then Attempt(s, writes, true)
        else if writes == 0 then Attempt(s, 0, false)
        else Attempt(s.(service := Some(existing.(externalName := dnsName, ports := []))), writes - 1, true)
      else
        var cleared := DeleteSlice(uid, s, writes);
        if !cleared.ok then cleared
        else if cleared.writes == 0 then Attempt(cleared.store, 0, false)
        else CreateService(cleared.store.(service := None), DesiredExternalName(uid, dnsName), cleared.writes - 1)
  }

  function ReconcileClusterIP(uid: string, ports: seq<Port>, s: Store, a: Address, writes: nat): Attempt {
    match s.service
    case None =>
      var created := CreateService(s, DesiredClusterIP(uid, ports), writes);
      if created.ok then ReconcileSlice(uid, ports, created.store, a, created.writes) else created
    case Some(existing) =>
      if uid !in existing.owners then Attempt(s, writes, false)
      else if writes == 0 then Attempt(s, 0, false)
      else if existing.kind == ExternalName then
        var created := CreateService(s.(service := None), DesiredClusterIP(uid, ports), writes - 1);
        if created.ok then ReconcileSlice(uid, ports, created.store, a, created.writes) else created
      else
        var updated := existing.(ports := ServicePorts(ports), owners := [uid]);
        ReconcileSlice(uid, ports, s.(service := Some(updated)), a, writes - 1)
  }

  function ReconcileSlice(uid: string, ports: seq<Port>, s: Store, a: Address, writes: nat): Attempt {
    if s.slice.Some? && uid !in s.slice.value.owners then Attempt(s, writes, false)
    else if writes == 0 then Attempt(s, 0, false)
    else Attempt(s.(slice := Some(DesiredSlice(uid, ports, a))), writes - 1, true)
  }

  function DeleteSlice(uid: string, s: Store, writes: nat): Attempt {
    if s.slice.None? then Attempt(s, writes, true)
    else if uid !in s.slice.value.owners then Attempt(s, writes, false)
    else if writes == 0 then Attempt(s, 0, false)
    else Attempt(s.(slice := None), writes - 1, true)
  }

  function CreateService(s: Store, desired: Service, writes: nat): Attempt {
    if writes == 0 then Attempt(s, 0, false)
    else Attempt(s.(service := Some(desired)), writes - 1, true)
  }

  // ----- What a store means -----

  /** Where traffic to the managed Service goes; `None` when it goes nowhere. */
  function PointsAt(uid: string, s: Store): Option<Address> {
    if s.service.None? || uid !in s.service.value.owners then None
    else if s.service.value.kind == ExternalName then Some(Hostname(s.service.value.externalName))
    else if s.slice.None? || uid !in s.slice.value.owners || |s.slice.value.endpoints| != 1 then None
    else Some(s.slice.value.endpoints[0])
  }

  /** An owned slice exists only beside an owned Service that is not an ExternalName one. */
  predicate WellShaped(uid: string, s: Store) {
    && (s.slice.Some? && uid in s.slice.value.owners ==>
          && s.service.Some? && uid in s.service.value.owners && s.service.value.kind != ExternalName
          && |s.slice.value.endpoints| == 1 && s.slice.value.endpoints[0].IsIP())
    && (s.service.Some? && uid in s.service.value.owners && s.service.value.kind == ExternalName ==>
          s.service.value.ports == [])
  }

  /** The exact objects the manager wants for an address. */
  predicate Settled(uid: string, ports: seq<Port>, s: Store, a: Address) {
    && s.service.Some? && uid in s.service.value.owners
    && if a.IsIP() then
         && s.service.value.kind != ExternalName
         && s.service.value.owners == [uid]
         && |s.service.value.ports| == |ports|
         && (forall i :: 0 <= i < |ports| ==> ServesPort(s.service.value.ports[i], ports[i]))
         && s.slice.Some?
         && SliceSettled(uid, ports, s.slice.value, a)
       else
         && s.service.value.kind == ExternalName
         && s.service.value.externalName == a.text
         && s.service.value.ports == []
         && (s.slice.Some? ==> uid !in s.slice.value.owners)
  }

  predicate SliceSettled(uid: string, ports: seq<Port>, slice: EndpointSlice, a: Address) {
    && slice.owners == [uid]
    && slice.endpoints == [a]
    && (slice.addressType == FamilyIPv4 <==> a.IPv4?)
    && |slice.ports| == |ports|
    && (forall i :: 0 <= i < |ports| ==>
          slice.ports[i] == EndpointPort(ports[i].name, ports[i].port, slice.ports[i].protocol)
          && slice.ports[i].protocol == if ports[i].protocol == "" then "TCP" else ports[i].protocol)
  }

  predicate ServesPort(sp: ServicePort, p: Port) {
    && sp.name == p.name
    && sp.port == p.port == sp.targetPort
    && sp.protocol == if p.protocol == "" then "TCP" else p.protocol
  }

  // ----- Properties of one reconcile -----

  lemma ReconcileKeepsShape(uid: string, ports: seq<Port>, s: Store, a: Address, writes: nat)
    requires WellShaped(uid, s)
    ensures WellShaped(uid, ReconcileWithAddress(uid, ports, s, a, writes).store)
  {
  }

  /** A reconcile that reports success leaves exactly the desired objects, and traffic goes to the address. */
  lemma SuccessSettles(uid: string, ports: seq<Port>, s: Store, a: Address, writes: nat)
    requires WellShaped(uid, s)
    requires ReconcileWithAddress(uid, ports, s, a, writes).ok
    ensures Settled(uid, ports, ReconcileWithAddress(uid, ports, s, a, writes).store, a)
    ensures PointsAt(uid, ReconcileWithAddress(uid, ports, s, a, writes).store) == Some(a)
  {
  }

  /** Wherever a reconcile is cut off, traffic goes where it went before, to the new address, or nowhere. */
  lemma CutOffPointsAt(uid: string, ports: seq<Port>, s: Store, a: Address, writes: nat)
    requires WellShaped(uid, s)
    ensures PointsAt(uid, ReconcileWithAddress(uid, ports, s, a, writes).store) in {PointsAt(uid, s), Some(a), None}
    ensures PointsAt(uid, s) == Some(a) ==>
              PointsAt(uid, ReconcileWithAddress(uid, ports, s, a, writes).store) == Some(a)
  {
  }

  /** A Service that already names a host is renamed in place and loses its ports, whatever they were. */
  lemma RenameInPlace(uid: string, s: Store, dnsName: string, writes: nat)
    requires s.service.Some? && uid in s.service.value.owners && s.service.value.kind == ExternalName
    requires s.service.value.externalName != dnsName && writes >= 1
    ensures var after := ReconcileExternalName(uid, s, dnsName, writes);
            && after.ok && after.writes == writes - 1 && after.store.slice == s.slice
            && after.store.service == Some(Service(ExternalName, dnsName, [], s.service.value.owners))
  {
  }

  /**
   * When a cut-off reconcile takes working traffic down: exactly when the Service has to be replaced by
   * one of the other kind and the cut falls inside the replacement, or a foreign slice blocks its end.
   */
  lemma GoesDark(uid: string, ports: seq<Port>, s: Store, a: Address, writes: nat)
    requires WellShaped(uid, s) && PointsAt(uid, s).Some?
    ensures PointsAt(uid, ReconcileWithAddress(uid, ports, s, a, writes).store).None? <==>
              && PointsAt(uid, s).value.IsIP() != a.IsIP()
              && (1 <= writes <= 2 || (writes > 2 && s.slice.Some? && uid !in s.slice.value.owners && a.IsIP()))
  {
  }

  // ----- Properties of every sequence of cut-off reconciles -----

  datatype Request = Request(ports: seq<Port>, address: Address, writes: nat)

  function After(uid: string, s: Store, requests: seq<Request>): Store
    decreases |requests|
  {
    if requests == [] then s
    else
      var last := requests[|requests| - 1];
      ReconcileWithAddress(uid, last.ports, After(uid, s, requests[..|requests| - 1]), last.address, last.writes).store
  }

  /**
   * After any sequence of reconciles to arbitrary addresses, each cut off anywhere: an owned slice
   * exists only beside an owned non-ExternalName Service, traffic goes to one of the requested
   * addresses (or where it went at the start, or nowhere), and objects owned by others are as they were.
   */
  lemma {:induction false} CutOffRuns(uid: string, s: Store, requests: seq<Request>)
    requires WellShaped(uid, s)
    ensures WellShaped(uid, After(uid, s, requests))
    ensures var at := PointsAt(uid, After(uid, s, requests));
            at in {None, PointsAt(uid, s)} || exists i :: 0 <= i < |requests| && at == Some(requests[i].address)
    ensures s.service.Some? && uid !in s.service.value.owners ==> After(uid, s, requests) == s
    ensures s.slice.Some? && uid !in s.slice.value.owners ==> After(uid, s, requests).slice == s.slice
    decreases |requests|
  {
    if requests != [] {
      var init := requests[..|requests| - 1];
      var last := requests[|requests| - 1];
      CutOffRuns(uid, s, init);
      var before := After(uid, s, init);
      ReconcileKeepsShape(uid, last.ports, before, last.address, last.writes);
      CutOffPointsAt(uid, last.ports, before, last.address, last.writes);
      var at := PointsAt(uid, before);
      if at !in {None, PointsAt(uid, s)} {
        var i :| 0 <= i < |init| && at == Some(init[i].address);
        assert requests[i] == init[i];
      }
    }
  }

  /**
   * Retrying converges: whatever a run of cut-off reconciles left behind, if nothing is owned by
   * others then one reconcile with four writes available succeeds, and doing it again changes nothing.
   */
  lemma RetryConverges(uid: string, s: Store, requests: seq<Request>, ports: seq<Port>, a: Address, writes: nat, again: nat)
    requires WellShaped(uid, s)
    requires s.service.Some? ==> uid in s.service.value.owners
    requires s.slice.Some? ==> uid in s.slice.value.owners
    requires writes >= 4
    ensures var done := ReconcileWithAddress(uid, ports, After(uid, s, requests), a, writes);
            && done.ok
            && Settled(uid, ports, done.store, a)
            && ReconcileWithAddress(uid, ports, done.store, a, again).store == done.store
  {
    OwnershipKept(uid, s, requests);
    CutOffRuns(uid, s, requests);
    SuccessSettles(uid, ports, After(uid, s, requests), a, writes);
  }

  lemma {:induction false} OwnershipKept(uid: string, s: Store, requests: seq<Request>)
    requires s.service.Some? ==> uid in s.service.value.owners
    requires s.slice.Some? ==> uid in s.slice.value.owners
    ensures var t := After(uid, s, requests);
            && (t.service.Some? ==> uid in t.service.value.owners)
            && (t.slice.Some? ==> uid in t.slice.value.owners)
    decreases |requests|
  {
    if requests != [] {
      OwnershipKept(uid, s, requests[..|requests| - 1]);
    }
  }

  // ----- The manager itself -----

  class Manager {
    const uid: string
    var store: Store
    var writes: nat

    constructor (uid: string, store: Store, writes: nat)
      ensures this.uid == uid && this.store == store && this.writes == writes
    {
      this.uid := uid;
      this.store := store;
      this.writes := writes;
    }

    /** One write to the API server: it succeeds unless the reconcile is cut off here. */
    method Write(next: Store) returns (ok: bool)
      modifies this
      ensures ok == (old(writes) > 0)
      ensures store == if ok then next else old(store)
      ensures writes == if ok then old(writes) - 1 else 0
    {
      ok := writes > 0;
      if ok {
        store := next;
        writes := writes - 1;
      }
    }

    method IsOwnedBy(owners: seq<string>) returns (owned: bool)
      ensures owned <==> uid in owners
    {
      for i := 0 to |owners|
        invariant uid !in owners[..i]
      {
        if owners[i] == uid {
          return true;
        }
      }
      return false;
    }

    method Reconcile(ports: seq<Port>, a: Address) returns (ok: bool)
      modifies this
      ensures Attempt(store, writes, ok) == ReconcileWithAddress(uid, ports, old(store), a, old(writes))
    {
      if a.IsIP() {
        ok := ReconcileClusterIPService(ports, a);
      } else {
        ok := ReconcileExternalNameService(a.text);
      }
    }

    method ReconcileExternalNameService(dnsName: string) returns (ok: bool)
      modifies this
      ensures Attempt(store, writes, ok) == ReconcileExternalName(uid, old(store), dnsName, old(writes))
    {
      if store.service.None? {
        ok := Write(store.(service := Some(DesiredExternalName(uid, dnsName))));
        return;
      }
      var existing := store.service.value;
      var owned := IsOwnedBy(existing.owners);
      if !owned {
        return false;
      }
      if existing.kind == ExternalName {
        if existing.externalName == dnsName {
          return true;
        }
        existing := existing.(externalName := dnsName);
        existing := existing.(ports := []);
        ok := Write(store.(service := Some(existing)));
        return;
      }
      ok := DeleteEndpointSlice();
      if !ok {
        return;
      }
      ok := Write(store.(service := None));
      if !ok {
        return;
      }
      ok := Write(store.(service := Some(DesiredExternalName(uid, dnsName))));
    }

    method ReconcileClusterIPService(ports: seq<Port>, a: Address) returns (ok: bool)
      modifies this
      ensures Attempt(store, writes, ok) == ReconcileClusterIP(uid, ports, old(store), a, old(writes))
    {
      var desired := DesiredClusterIP(uid, ports);
      if store.service.None? {
        ok := Write(store.(service := Some(desired)));
        if ok {
          ok := ReconcileEndpointSlice(ports, a);
        }
        return;
      }
      var existing := store.service.value;
      var owned := IsOwnedBy(existing.owners);
      if !owned {
        return false;
      }
      if existing.kind == ExternalName {
        ok := Write(store.(service := None));
        if !ok {
          return;
        }
        ok := Write(store.(service := Some(desired)));
        if ok {
          ok := ReconcileEndpointSlice(ports, a);
        }
        return;
      }
      existing := existing.(ports := desired.ports);
      existing := existing.(owners := desired.owners);
      ok := Write(store.(service := Some(existing)));
      if ok {
        ok := ReconcileEndpointSlice(ports, a);
      }
    }

    method ReconcileEndpointSlice(ports: seq<Port>, a: Address) returns (ok: bool)
      modifies this
      ensures Attempt(store, writes, ok) == ReconcileSlice(uid, ports, old(store), a, old(writes))
    {
      var desired := DesiredSlice(uid, ports, a);
      if store.slice.None? {
        ok := Write(store.(slice := Some(desired)));
        return;
      }
      var existing := store.slice.value;
      var owned := IsOwnedBy(existing.owners);
      if !owned {
        return false;
      }
      existing := existing.(addressType := desired.addressType);
      existing := existing.(endpoints := desired.endpoints);
      existing := existing.(ports := desired.ports);
      existing := existing.(owners := desired.owners);
      ok := Write(store.(slice := Some(existing)));
    }

    method DeleteEndpointSlice() returns (ok: bool)
      modifies this
      ensures Attempt(store, writes, ok) == DeleteSlice(uid, old(store), old(writes))
    {
      if store.slice.None? {
        return true;
      }
      var owned := IsOwnedBy(store.slice.value.owners);
      if !owned {
        return false;
      }
      ok := Write(store.(slice := None));
    }
  }
}
