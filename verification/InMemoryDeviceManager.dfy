/** The in-memory device manager: dictionaries updated in place under one lock. */
module InMemoryDeviceManager {
  import opened Common
  import opened Devices

  class InMemoryDeviceManager {
    const config: Config
    var devices: map<nat, Device>
    var leases: map<nat, Lease>
    var names: map<string, nat>

    function St(): Fleet
      reads this
    {
      Fleet(devices, leases, names)
    }

    constructor (config: Config)
      requires config.offlineAfter >= SECOND
      ensures St() == EMPTY && this.config == config && Inv(config, St())
    {
      this.config := config;
      devices, leases, names := map[], map[], map[];
    }

    /** `_effective_status` */
    method StatusAt(d: Device, now: Time) returns (status: DeviceStatus)
      ensures status == EffectiveStatus(config, d, now)
    {
      if d.status.Maintenance? {
        return Maintenance;
      }
      if !d.enabled || d.lastHeartbeatAt.None? || d.lastHeartbeatAt.value + config.offlineAfter <= now {
        return Offline;
      }
      status := if d.activeLease.Some? then d.status else Idle;
    }

    /** `_available_status` */
    method StatusWhenFree(d: Device, now: Time) returns (status: DeviceStatus)
      ensures status == AvailableStatus(config, d, now)
    {
      status := Offline;
      if d.status.Maintenance? {
        status := Maintenance;
      } else if d.enabled && d.lastHeartbeatAt.Some? && now < d.lastHeartbeatAt.value + config.offlineAfter {
        status := Idle;
      }
    }

    /** A device whose lease has ended. */
    method Free(d: Device, now: Time) returns (free: Device)
      ensures free == Freed(config, d, now)
    {
      free := d.(activeLease := None);
      var status := StatusWhenFree(free, now);
      free := free.(status := status, version := d.version + 1, updatedAt := now);
    }

    method AgentKnown(agentId: string) returns (known: bool)
      ensures known <==> exists id :: id in devices && devices[id].agentId == agentId
    {
      var todo := devices.Keys;
      known := false;
      while todo != {} && !known
        invariant todo <= devices.Keys
        invariant known ==> exists id :: id in devices && devices[id].agentId == agentId
        invariant !known ==> forall id | id in devices && id !in todo :: devices[id].agentId != agentId
        decreases |todo|
      {
        var id :| id in todo;
        known := devices[id].agentId == agentId;
        todo := todo - {id};
      }
    }

    method Register(id: nat, name: string, agentId: string, kind: string, platform: string, capabilities: set<string>,
                    now: Time)
      returns (result: Result<Device, Error>)
      requires Inv(config, St()) && id !in devices
      modifies this`devices, this`names
      ensures Inv(config, St())
      ensures Next(config, old(St()), Call.Register(id, name, agentId, kind, platform, capabilities), now, St())
      ensures result.Err?
              <==> config.fold(name) in old(names)
                   || exists other :: other in old(devices) && old(devices)[other].agentId == agentId
      ensures result.Err? ==> St() == old(St())
      ensures result.Ok? ==> St() == Registered(config, old(St()), id, result.value) && result.value.status.Offline?
    {
      hide Inv;
      if config.fold(name) in names {
        return Err(Conflict);
      }
      var known := AgentKnown(agentId);
      if known {
        return Err(Conflict);
      }
      var d := Device(name := name, agentId := agentId, kind := kind, platform := platform,
                      capabilities := capabilities, enabled := true, status := Offline, lastHeartbeatAt := None,
                      activeLease := None, version := 0, updatedAt := now);
      RegisterKeeps(config, St(), id, d);
      devices := devices[id := d];
      names := names[config.fold(name) := id];
      result := Ok(d);
    }

    /** Returns the device as it looks at `now`. */
    method Heartbeat(id: nat, agentId: string, now: Time) returns (result: Result<Device, Error>)
      requires Inv(config, St())
      modifies this`devices
      ensures Inv(config, St())
      ensures Next(config, old(St()), Call.Heartbeat(id, agentId), now, St())
      ensures result.Ok? <==> id in old(devices) && old(devices)[id].agentId == agentId
      ensures result.Err? ==> St() == old(St())
      ensures result.Ok? ==> St() == old(St()).(devices := old(devices)[id := Beaten(old(devices)[id], now)])
      ensures result.Ok? ==> result.value == devices[id].(status := EffectiveStatus(config, devices[id], now))
    {
      hide Inv;
      if id !in devices {
        return Err(NotFound);
      }
      if devices[id].agentId != agentId {
        return Err(LeaseInvalid);
      }
      StatusFacts(config, St(), id);
      DeviceWriteKeeps(config, St(), id, Beaten(devices[id], now));
      var d := devices[id].(lastHeartbeatAt := Some(now), version := devices[id].version + 1, updatedAt := now);
      if !d.status.Maintenance? && d.activeLease.None? {
        d := d.(status := if d.enabled then Idle else Offline);
      }
      devices := devices[id := d];
      var shown := StatusAt(d, now);
      result := Ok(d.(status := shown));
    }

    /** An active lease that has run out ends. */
    method LapseOne(l: Lease, now: Time) returns (lapses: bool, after: Lease)
      ensures lapses == Lapses(l, now) && after == (if lapses then Lapsed(l, now) else l) && after.device == l.device
    {
      lapses := l.status.Active? && l.expiresAt <= now;
      after := if lapses then l.(status := Expired, releasedAt := Some(now), version := l.version + 1) else l;
    }

    lemma SameLease(leases: map<nat, Lease>, id: nat)
      requires id in leases
      ensures leases[id := leases[id]] == leases
    {
    }

    /** `_expire_locked`: one pass over all leases, each ended together with its device's reservation. */
    method ExpireLeases(now: Time) returns (expired: set<nat>)
      requires Inv(config, St())
      modifies this`devices, this`leases
      ensures Inv(config, St())
      ensures ExpiredAll(config, old(St()), now, St())
      ensures expired == set id | id in old(leases) && Lapses(old(leases)[id], now)
    {
      hide Inv, Lapses, Lapsed, Freed, PartlyExpired, ExpiredAll, LeaseOk, DeviceOk;
      ghost var before := St();
      var todo := leases.Keys;
      expired := {};
      LinkedOf(before);
      while todo != {}
        invariant Inv(config, St()) && PartlyExpired(config, before, now, St(), todo)
        invariant expired == set id | id in before.leases && id !in todo && Lapses(before.leases[id], now)
      {
        var id :| id in todo;
        ghost var mid := St();
        UntouchedSoFar(config, before, now, mid, todo, id);
        LapseKeeps(config, mid, id, now);
        ExpireOne(config, before, now, mid, todo, id);
        var lapses, l := LapseOne(leases[id], now);
        expired := if lapses then expired + {id} else expired;
        if lapses && devices[l.device].activeLease == Some(id) {
          var free := Free(devices[l.device], now);
          devices := devices[l.device := free];
        }
        leases := leases[id := l];
        SameLease(mid.leases, id);
        todo := todo - {id};
      }
      ExpiredEverything(config, before, now, St());
    }

    lemma LinkedOf(f: Fleet)
      requires Inv(config, f)
      ensures Linked(f) && PartlyExpired(config, f, 0, f, f.leases.Keys)
      ensures forall now :: PartlyExpired(config, f, now, f, f.leases.Keys)
    {
      hide NamesOk;
      forall now
        ensures PartlyExpired(config, f, now, f, f.leases.Keys)
      {
      }
    }

    lemma EligibleFields(c: Config, d: Device, required: set<string>, now: Time)
      ensures Eligible(c, d, required, now)
              <==> d.enabled && EffectiveStatus(c, d, now).Idle? && required <= d.capabilities
    {
    }

    /** `min` over the eligible devices. */
    method SelectDevice(required: set<string>, now: Time) returns (device: Option<nat>)
      requires Inv(config, St())
      ensures device.None? ==> forall id | id in devices :: !Eligible(config, devices[id], required, now)
      ensures device.Some? ==> FirstEligible(config, St(), required, now, device.value)
    {
      hide Inv, Eligible, StrLess;
      device := None;
      var todo := devices.Keys;
      while todo != {}
        invariant todo <= devices.Keys
        invariant device.Some? ==>
                    device.value in devices && device.value !in todo
                    && Eligible(config, devices[device.value], required, now)
        invariant forall id | id in devices && id !in todo && Eligible(config, devices[id], required, now) ::
                    device.Some? && (id == device.value || Sooner(config, St(), device.value, id))
      {
        var id :| id in todo;
        var d := devices[id];
        var status := StatusAt(d, now);
        SoonerIsTotal(config, St());
        if d.enabled && status.Idle? && required <= d.capabilities {
          EligibleFields(config, d, required, now);
          if device.None? {
            device := Some(id);
          } else {
            var x, y := config.fold(d.name), config.fold(devices[device.value].name);
            if StrLess(x, y) || (x == y && id < device.value) {
              device := Some(id);
            }
          }
        } else {
          EligibleFields(config, d, required, now);
        }
        todo := todo - {id};
      }
    }

    /** `acquire`: expiry first, then the first idle device with the capabilities, if any. */
    method Acquire(leaseId: nat, task: string, owner: string, required: set<string>, leaseSeconds: int, token: nat,
                   now: Time)
      returns (result: Result<Option<nat>, Error>)
      requires Inv(config, St()) && leaseId !in leases
      modifies this`devices, this`leases
      ensures Inv(config, St())
      ensures Next(config, old(St()), Call.Acquire(leaseId, task, owner, required, leaseSeconds, token), now, St())
      ensures result.Err? <==> task == "" || owner == "" || leaseSeconds < 1
      ensures result.Err? ==> St() == old(St())
      ensures result.Ok? && result.value.None? ==>
                ExpiredAll(config, old(St()), now, St())
                && forall id | id in devices :: !Eligible(config, devices[id], required, now)
      ensures result.Ok? && result.value.Some? ==>
                && exists e ::
                     ExpiredAll(config, old(St()), now, e)
                     && FirstEligible(config, e, required, now, result.value.value)
                               && St() == Leased(e, result.value.value, leaseId, task, owner, token, leaseSeconds, now)
      ensures result.Ok? && result.value.Some? ==> Holds(St(), leaseId, owner, token, now)
      ensures result.Ok? && result.value.None? ==>
                forall id | id in devices :: !OnOffer(config, devices[id], required, now)
      ensures result.Ok? && result.value.Some? ==>
                && TookFirst(config, St(), result.value.value, leaseId, required, now)
                && leases[leaseId].task == task && leases[leaseId].expiresAt == now + leaseSeconds * 1_000_000
    {
      hide Inv, ExpiredAll, Eligible, Sooner, TookFirst, OnOffer;
      if task == "" || owner == "" || leaseSeconds < 1 {
        return Err(Invalid);
      }
      ghost var before := St();
      var expired := ExpireLeases(now);
      ghost var e := St();
      SameLeaseIds(config, before, now, e);
      var device := SelectDevice(required, now);
      if device.None? {
        NoneOnOffer(config, e, required, now);
        return Ok(None);
      }
      var id := device.value;
      FirstIsTaken(config, e, id, leaseId, task, owner, token, leaseSeconds, required, now);
      EligibleIsFree(config, e, id, required, now);
      LeaseKeeps(config, e, id, leaseId, task, owner, token, leaseSeconds, now);
      leases := leases[leaseId := Lease(device := id, task := task, owner := owner, token := token, status := Active,
                                        acquiredAt := now, expiresAt := now + leaseSeconds * 1_000_000,
                                        releasedAt := None, version := 0)];
      devices := devices[id := devices[id].(activeLease := Some(leaseId), status := Reserved,
                                            version := devices[id].version + 1, updatedAt := now)];
      assert St() == Leased(e, id, leaseId, task, owner, token, leaseSeconds, now);
      result := Ok(device);
    }

    /** `_require_lease`: the error it raises, if any. */
    method LeaseError(id: nat, owner: string, token: nat, now: Time) returns (error: Option<Error>)
      requires Inv(config, St())
      ensures error == if id !in leases then Some(NotFound)
                       else if Holds(St(), id, owner, token, now) then None
                       else Some(LeaseInvalid)
    {
      if id !in leases {
        return Some(NotFound);
      }
      var l := leases[id];
      assert LeaseOk(St(), id);
      if !l.status.Active? || l.owner != owner || l.expiresAt <= now || l.token != token {
        return Some(LeaseInvalid);
      }
      error := if devices[l.device].activeLease == Some(id) then None else Some(LeaseInvalid);
    }

    method StartWork(id: nat, owner: string, token: nat, now: Time) returns (result: Result<Device, Error>)
      requires Inv(config, St())
      modifies this`devices
      ensures Inv(config, St())
      ensures Next(config, old(St()), Start(id, owner, token), now, St())
      ensures result.Ok? <==> Holds(old(St()), id, owner, token, now)
      ensures result.Ok? ==>
                St() == Started(old(St()), id, now) && result.value.status.Busy? && result.value.activeLease == Some(id)
      ensures result.Err? ==> St() == old(St())
    {
      hide Inv;
      var error := LeaseError(id, owner, token, now);
      if error.Some? {
        return Err(error.value);
      }
      var d := leases[id].device;
      HolderFacts(config, St(), id);
      DeviceWriteKeeps(config, St(), d, Touched(devices[d].(status := Busy), now));
      devices := devices[d := devices[d].(status := Busy, version := devices[d].version + 1, updatedAt := now)];
      result := Ok(devices[d]);
    }

    method Renew(id: nat, owner: string, token: nat, leaseSeconds: int, now: Time)
      returns (result: Result<Lease, Error>)
      requires Inv(config, St())
      modifies this`leases
      ensures Inv(config, St())
      ensures Next(config, old(St()), Call.Renew(id, owner, token, leaseSeconds), now, St())
      ensures result.Ok? <==> 1 <= leaseSeconds && Holds(old(St()), id, owner, token, now)
      ensures result.Ok? ==> St() == Renewed(old(St()), id, leaseSeconds, now)
      ensures result.Ok? ==> forall later | later < now + leaseSeconds * SECOND :: Holds(St(), id, owner, token, later)
      ensures result.Err? ==> St() == old(St())
    {
      hide Inv;
      if leaseSeconds < 1 {
        return Err(Invalid);
      }
      var error := LeaseError(id, owner, token, now);
      if error.Some? {
        return Err(error.value);
      }
      RenewKeeps(config, St(), id, leaseSeconds, now);
      leases := leases[id := leases[id].(expiresAt := now + leaseSeconds * 1_000_000,
                                         version := leases[id].version + 1)];
      result := Ok(leases[id]);
    }

    method Release(id: nat, owner: string, token: nat, now: Time) returns (result: Result<Lease, Error>)
      requires Inv(config, St())
      modifies this`devices, this`leases
      ensures Inv(config, St())
      ensures Next(config, old(St()), Call.Release(id, owner, token), now, St())
      ensures result.Ok? <==> Holds(old(St()), id, owner, token, now)
      ensures result.Ok? ==> St() == ReleasedBy(config, old(St()), id, now)
      ensures result.Ok? ==> result.value.device in devices && devices[result.value.device].activeLease.None?
      ensures result.Err? ==> St() == old(St())
    {
      hide Inv;
      var error := LeaseError(id, owner, token, now);
      if error.Some? {
        return Err(error.value);
      }
      var l := leases[id].(status := Released, releasedAt := Some(now), version := leases[id].version + 1);
      EndKeeps(config, St(), id, l, now);
      leases := leases[id := l];
      var free := Free(devices[l.device], now);
      devices := devices[l.device := free];
      result := Ok(l);
    }

    /** `set_maintenance`: keeps the leases in order exactly unless it marks a leased device idle. */
    method SetMaintenance(id: nat, enabled: bool, now: Time) returns (result: Result<Device, Error>)
      requires Inv(config, St())
      modifies this`devices
      ensures Next(config, old(St()), Call.SetMaintenance(id, enabled), now, St())
      ensures Inv(config, St()) <==> Careful(config, old(St()), Call.SetMaintenance(id, enabled), now)
      ensures result.Ok? <==> id in old(devices) && (enabled ==> old(devices)[id].activeLease.None?)
      ensures result.Err? ==> St() == old(St())
      ensures result.Ok? ==>
                St()
                == old(St()).(devices := old(devices)[id := MaintenanceSet(config, old(devices)[id], enabled, now)])
    {
      hide Inv;
      if id !in devices {
        return Err(NotFound);
      }
      if enabled && devices[id].activeLease.Some? {
        return Err(Conflict);
      }
      StatusFacts(config, St(), id);
      LeavingMaintenanceKeepsExactlyWhen(config, St(), id, now);
      if enabled {
        DeviceWriteKeeps(config, St(), id, MaintenanceSet(config, devices[id], true, now));
      }
      var status := StatusWhenFree(devices[id], now);
      if enabled {
        status := Maintenance;
      }
      devices := devices[id := devices[id].(status := status, version := devices[id].version + 1, updatedAt := now)];
      var shown := StatusAt(devices[id], now);
      result := Ok(devices[id].(status := shown));
    }
  }

  function LeaseSoFar(l: Lease, pending: bool, now: Time): Lease {
    if pending then l else LapsedIfDue(l, now)
  }

  function DeviceSoFar(c: Config, d: Device, leases: map<nat, Lease>, now: Time, todo: set<nat>): Device {
    if d.activeLease.Some? && d.activeLease.value in todo then d else FreedIfDue(c, d, leases, now)
  }

  /** The leases outside `todo` have been looked at. */
  ghost predicate PartlyExpired(c: Config, f: Fleet, now: Time, g: Fleet, todo: set<nat>) {
    && g.names == f.names && g.leases.Keys == f.leases.Keys && g.devices.Keys == f.devices.Keys && todo <= f.leases.Keys
    && (forall id {:trigger g.leases[id]} | id in f.leases :: g.leases[id] == LeaseSoFar(f.leases[id], id in todo, now))
    && (forall id {:trigger g.devices[id]} | id in f.devices ::
          g.devices[id] == DeviceSoFar(c, f.devices[id], f.leases, now, todo))
  }

  lemma UntouchedSoFar(c: Config, f: Fleet, now: Time, g: Fleet, todo: set<nat>, id: nat)
    requires Inv(c, f) && PartlyExpired(c, f, now, g, todo) && id in todo
    ensures id in f.leases && id in g.leases && g.leases[id] == f.leases[id] && g.leases[id].device in g.devices
    ensures f.leases[id].status.Active? ==> g.devices[g.leases[id].device] == f.devices[f.leases[id].device]
  {
    hide NamesOk;
    assert LeaseOk(f, id);
  }

  lemma ExpireOne(c: Config, f: Fleet, now: Time, g: Fleet, todo: set<nat>, id: nat)
    requires Inv(c, f) && PartlyExpired(c, f, now, g, todo) && id in todo
    ensures id in g.leases && g.leases[id].device in g.devices
    ensures PartlyExpired(c, f, now, WithLapse(c, g, id, now), todo - {id})
  {
    UntouchedSoFar(c, f, now, g, todo, id);
    hide NamesOk, Inv, DeviceSoFar, WithLapse, LapsedIfDue;
    var h := WithLapse(c, g, id, now);
    ShapeOfLapse(c, g, id, now);
    ExpireOneLease(c, f, now, g, todo, id);
    hide LeaseSoFar;
    forall other | other in f.devices
      ensures h.devices[other] == DeviceSoFar(c, f.devices[other], f.leases, now, todo - {id})
    {
      ExpireOneDevice(c, f, now, g, todo, id, other);
    }
  }

  lemma ExpireOneLease(c: Config, f: Fleet, now: Time, g: Fleet, todo: set<nat>, id: nat)
    requires PartlyExpired(c, f, now, g, todo) && id in todo && id in g.leases && g.leases[id] == f.leases[id]
    ensures var leases := g.leases[id := LapsedIfDue(g.leases[id], now)];
            forall other {:trigger leases[other]} | other in f.leases ::
              leases[other] == LeaseSoFar(f.leases[other], other in todo - {id}, now)
  {
    hide LapsedIfDue, DeviceSoFar;
  }

  lemma ShapeOfLapse(c: Config, g: Fleet, id: nat, now: Time)
    requires id in g.leases && g.leases[id].device in g.devices
    ensures var h := WithLapse(c, g, id, now);
            && h.names == g.names && h.leases == g.leases[id := LapsedIfDue(g.leases[id], now)]
            && h.devices.Keys == g.devices.Keys
  {
  }

  lemma ExpireOneDevice(c: Config, f: Fleet, now: Time, g: Fleet, todo: set<nat>, id: nat, other: nat)
    requires Inv(c, f) && PartlyExpired(c, f, now, g, todo) && id in todo && other in f.devices
    requires id in g.leases && g.leases[id] == f.leases[id] && g.leases[id].device in g.devices
    ensures WithLapse(c, g, id, now).devices[other] == DeviceSoFar(c, f.devices[other], f.leases, now, todo - {id})
  {
    hide NamesOk, Freed, Lapsed;
    assert LeaseOk(f, id) && DeviceOk(f, other);
    assert g.devices[other] == DeviceSoFar(c, f.devices[other], f.leases, now, todo);
    var holder := f.leases[id].device;
    assert DeviceOk(f, holder);
    assert g.devices[holder] == DeviceSoFar(c, f.devices[holder], f.leases, now, todo);
  }

  lemma ExpiredEverything(c: Config, f: Fleet, now: Time, g: Fleet)
    requires PartlyExpired(c, f, now, g, {})
    ensures ExpiredAll(c, f, now, g)
  {
  }

  lemma {:induction false} StrLessTransitive(a: string, b: string, d: string)
    requires StrLess(a, b) && StrLess(b, d)
    ensures StrLess(a, d)
  {
    if a != "" && a[0] == b[0] && b[0] == d[0] {
      StrLessTransitive(a[1..], b[1..], d[1..]);
    }
  }

  lemma {:induction false} StrLessTotal(a: string, b: string)
    ensures a == b || StrLess(a, b) || StrLess(b, a)
    ensures !(a == b && StrLess(a, b))
  {
    if a != "" && b != "" && a[0] == b[0] {
      StrLessTotal(a[1..], b[1..]);
      assert a == [a[0]] + a[1..] && b == [b[0]] + b[1..];
    }
  }

  /** The order of offers is a strict total order. */
  lemma SoonerIsTotal(c: Config, f: Fleet)
    ensures forall a, b | a in f.devices && b in f.devices && a != b :: Sooner(c, f, a, b) || Sooner(c, f, b, a)
    ensures forall a, b, d | a in f.devices && b in f.devices && d in f.devices
                             && Sooner(c, f, a, b) && Sooner(c, f, b, d) :: Sooner(c, f, a, d)
  {
    forall a, b | a in f.devices && b in f.devices && a != b
      ensures Sooner(c, f, a, b) || Sooner(c, f, b, a)
    {
      StrLessTotal(c.fold(f.devices[a].name), c.fold(f.devices[b].name));
    }
    forall a, b, d | a in f.devices && b in f.devices && d in f.devices && Sooner(c, f, a, b) && Sooner(c, f, b, d)
      ensures Sooner(c, f, a, d)
    {
      var x, y, z := c.fold(f.devices[a].name), c.fold(f.devices[b].name), c.fold(f.devices[d].name);
      if StrLess(x, y) && StrLess(y, z) {
        StrLessTransitive(x, y, z);
      }
    }
  }
}
