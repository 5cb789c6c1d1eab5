/** Device leases: capability matching, exclusive leases, expiry and maintenance. */
module Devices {
  import opened Common

  /** Microseconds. */
  type Time = int

  const SECOND := 1_000_000

  datatype DeviceStatus = Offline | Idle | Reserved | Busy | Maintenance

  datatype LeaseStatus = Active | Released | Expired

  datatype Device = Device(
    name: string,
    agentId: string,
    kind: string,
    platform: string,
    capabilities: set<string>,
    enabled: bool,
    status: DeviceStatus,
    lastHeartbeatAt: Option<Time>,
    activeLease: Option<nat>,
    version: nat,
    updatedAt: Time)

  datatype Lease = Lease(
    device: nat,
    task: string,
    owner: string,
    token: nat,
    status: LeaseStatus,
    acquiredAt: Time,
    expiresAt: Time,
    releasedAt: Option<Time>,
    version: nat)

  datatype Error = NotFound | Conflict | LeaseInvalid | Invalid

  /** `offlineAfter` is the heartbeat threshold; `fold` is the case folding that makes names unique. */
  datatype Config = Config(offlineAfter: Time, fold: string -> string)

  datatype Fleet = Fleet(devices: map<nat, Device>, leases: map<nat, Lease>, names: map<string, nat>)

  const EMPTY := Fleet(map[], map[], map[])

  /** `_effective_status` */
  function EffectiveStatus(c: Config, d: Device, now: Time): DeviceStatus {
    if d.status.Maintenance? then Maintenance
    else if !d.enabled || d.lastHeartbeatAt.None? then Offline
    else if d.lastHeartbeatAt.value + c.offlineAfter <= now then Offline
    else if d.activeLease.Some? then d.status
    else Idle
  }

  /** `_available_status` */
  function AvailableStatus(c: Config, d: Device, now: Time): DeviceStatus {
    if d.status.Maintenance? then Maintenance
    else if !d.enabled || d.lastHeartbeatAt.None? then Offline
    else if d.lastHeartbeatAt.value + c.offlineAfter > now then Idle
    else Offline
  }

  function NewDevice(name: string, agentId: string, kind: string, platform: string, capabilities: set<string>,
                     now: Time): Device
  {
    Device(name, agentId, kind, platform, capabilities, true, Offline, None, None, 0, now)
  }

  function Touched(d: Device, now: Time): Device {
    d.(version := d.version + 1, updatedAt := now)
  }

  function Beaten(d: Device, now: Time): Device {
    var b := Touched(d.(lastHeartbeatAt := Some(now)), now);
    if d.status.Maintenance? || d.activeLease.Some? then b
    else b.(status := if d.enabled then Idle else Offline)
  }

  function Freed(c: Config, d: Device, now: Time): Device {
    Touched(d.(activeLease := None, status := AvailableStatus(c, d.(activeLease := None), now)), now)
  }

  /** The writes of `set_maintenance`. */
  function MaintenanceSet(c: Config, d: Device, enabled: bool, now: Time): Device {
    Touched(d.(status := if enabled then Maintenance else AvailableStatus(c, d, now)), now)
  }

  predicate Lapses(l: Lease, now: Time) {
    l.status.Active? && l.expiresAt <= now
  }

  function Lapsed(l: Lease, now: Time): Lease {
    l.(status := Expired, releasedAt := Some(now), version := l.version + 1)
  }

  function WithLapse(c: Config, f: Fleet, id: nat, now: Time): Fleet
    requires id in f.leases && f.leases[id].device in f.devices
  {
    var l := f.leases[id];
    if !Lapses(l, now) then f
    else
      var d := f.devices[l.device];
      f.(leases := f.leases[id := Lapsed(l, now)],
         devices := if d.activeLease == Some(id) then f.devices[l.device := Freed(c, d, now)] else f.devices)
  }

  /** `_require_lease` */
  predicate Holds(f: Fleet, id: nat, owner: string, token: nat, now: Time) {
    && id in f.leases
    && f.leases[id].status.Active? && f.leases[id].owner == owner && now < f.leases[id].expiresAt
    && f.leases[id].token == token
    && f.leases[id].device in f.devices && f.devices[f.leases[id].device].activeLease == Some(id)
  }

  predicate Eligible(c: Config, d: Device, required: set<string>, now: Time) {
    d.enabled && EffectiveStatus(c, d, now).Idle? && required <= d.capabilities
  }

  function Leased(f: Fleet, device: nat, id: nat, task: string, owner: string, token: nat, leaseSeconds: int,
                  now: Time): Fleet
    requires device in f.devices
  {
    f.(leases := f.leases[id := Lease(device, task, owner, token, Active, now, now + leaseSeconds * SECOND, None, 0)],
       devices := f.devices[device := Touched(f.devices[device].(activeLease := Some(id), status := Reserved), now)])
  }

  function Started(f: Fleet, id: nat, now: Time): Fleet
    requires id in f.leases && f.leases[id].device in f.devices
  {
    f.(devices := f.devices[f.leases[id].device := Touched(f.devices[f.leases[id].device].(status := Busy), now)])
  }

  function Renewed(f: Fleet, id: nat, leaseSeconds: int, now: Time): Fleet
    requires id in f.leases
  {
    f.(leases := f.leases[id := f.leases[id].(expiresAt := now + leaseSeconds * SECOND,
                                              version := f.leases[id].version + 1)])
  }

  function ReleasedBy(c: Config, f: Fleet, id: nat, now: Time): Fleet
    requires id in f.leases && f.leases[id].device in f.devices
  {
    var l := f.leases[id];
    f.(leases := f.leases[id := l.(status := Released, releasedAt := Some(now), version := l.version + 1)],
       devices := f.devices[l.device := Freed(c, f.devices[l.device], now)])
  }

  // ---------------------------------------------------------------------
  // The invariant
  // ---------------------------------------------------------------------

  /** A lease is active exactly if its device names it. */
  predicate LeaseOk(f: Fleet, id: nat)
    requires id in f.leases
  {
    var l := f.leases[id];
    && l.device in f.devices
    && (l.status.Active? <==> f.devices[l.device].activeLease == Some(id))
    && (l.releasedAt.Some? <==> !l.status.Active?)
  }

  /** What status a device may have: a leased one neither idle nor maintenance, any other neither reserved nor busy. */
  predicate StatusOk(d: Device) {
    if d.activeLease.Some? then !d.status.Idle? && !d.status.Maintenance? else !d.status.Reserved? && !d.status.Busy?
  }

  /** The status fits, and a leased device's lease is its own. */
  predicate DeviceOk(f: Fleet, id: nat)
    requires id in f.devices
  {
    var d := f.devices[id];
    && StatusOk(d)
    && (d.activeLease.Some? ==> d.activeLease.value in f.leases && f.leases[d.activeLease.value].device == id)
  }

  predicate NamesOk(c: Config, f: Fleet) {
    && (forall n | n in f.names :: f.names[n] in f.devices && c.fold(f.devices[f.names[n]].name) == n)
    && (forall id | id in f.devices ::
          c.fold(f.devices[id].name) in f.names && f.names[c.fold(f.devices[id].name)] == id)
    && (forall a, b | a in f.devices && b in f.devices && f.devices[a].agentId == f.devices[b].agentId :: a == b)
  }

  predicate Linked(f: Fleet) {
    && (forall id | id in f.leases :: LeaseOk(f, id))
    && (forall id | id in f.devices :: DeviceOk(f, id))
  }

  predicate Inv(c: Config, f: Fleet) {
    Linked(f) && NamesOk(c, f)
  }

  /** No device is leased twice. */
  predicate Exclusive(f: Fleet) {
    forall a, b | a in f.leases && b in f.leases && f.leases[a].status.Active? && f.leases[b].status.Active?
                  && f.leases[a].device == f.leases[b].device :: a == b
  }

  lemma LinkedIsExclusive(f: Fleet)
    requires Linked(f)
    ensures Exclusive(f)
    ensures forall id | id in f.leases && f.leases[id].status.Active? ::
              f.leases[id].device in f.devices && !f.devices[f.leases[id].device].status.Maintenance?
  {
    forall a, b | a in f.leases && b in f.leases && f.leases[a].status.Active? && f.leases[b].status.Active?
                  && f.leases[a].device == f.leases[b].device
      ensures a == b
    {
      assert LeaseOk(f, a) && LeaseOk(f, b);
    }
    forall id | id in f.leases && f.leases[id].status.Active?
      ensures f.leases[id].device in f.devices && !f.devices[f.leases[id].device].status.Maintenance?
    {
      assert LeaseOk(f, id) && DeviceOk(f, f.leases[id].device);
    }
  }

  /** Device updates that leave name, agent and membership alone. */
  lemma SameNames(c: Config, f: Fleet, g: Fleet)
    requires NamesOk(c, f) && g.names == f.names && g.devices.Keys == f.devices.Keys
    requires forall id {:trigger g.devices[id]} | id in f.devices ::
               g.devices[id].name == f.devices[id].name && g.devices[id].agentId == f.devices[id].agentId
    ensures NamesOk(c, g)
  {
  }

  /** Writing a device without touching its lease. */
  lemma DeviceWriteKeeps(c: Config, f: Fleet, device: nat, d: Device)
    requires Inv(c, f) && device in f.devices
    requires d.name == f.devices[device].name && d.agentId == f.devices[device].agentId
             && d.activeLease == f.devices[device].activeLease
    requires StatusOk(d)
    ensures Inv(c, f.(devices := f.devices[device := d]))
  {
    hide NamesOk;
    var g := f.(devices := f.devices[device := d]);
    SameNames(c, f, g);
    forall id | id in g.leases
      ensures LeaseOk(g, id)
    {
      assert LeaseOk(f, id);
    }
    forall id | id in g.devices
      ensures DeviceOk(g, id)
    {
      assert DeviceOk(f, id);
    }
  }

  lemma FreedFacts(c: Config, d: Device, now: Time)
    requires StatusOk(d) && d.activeLease.Some?
    ensures var e := Freed(c, d, now);
            StatusOk(e) && e.activeLease.None? && e.name == d.name && e.agentId == d.agentId
  {
  }

  /** The links after lease `id` has ended and its device was freed. */
  lemma EndLinks(f: Fleet, id: nat, l: Lease, d: Device)
    requires Linked(f) && id in f.leases && f.leases[id].status.Active?
    requires l.device == f.leases[id].device && !l.status.Active? && l.releasedAt.Some?
    requires StatusOk(d) && d.activeLease.None?
    ensures Linked(f.(leases := f.leases[id := l], devices := f.devices[l.device := d]))
  {
    hide StatusOk;
    var g := f.(leases := f.leases[id := l], devices := f.devices[l.device := d]);
    assert LeaseOk(f, id);
    forall other | other in g.leases
      ensures LeaseOk(g, other)
    {
      assert LeaseOk(f, other);
    }
    forall other | other in g.devices
      ensures DeviceOk(g, other)
    {
      if other != l.device {
        assert DeviceOk(f, other);
      }
    }
  }

  /** Ending an active lease together with freeing its device. */
  lemma EndKeeps(c: Config, f: Fleet, id: nat, l: Lease, now: Time)
    requires Inv(c, f) && id in f.leases && f.leases[id].status.Active?
    requires l.device == f.leases[id].device && !l.status.Active? && l.releasedAt.Some?
    ensures l.device in f.devices && f.devices[l.device].activeLease == Some(id)
    ensures Inv(c, f.(leases := f.leases[id := l],
                      devices := f.devices[l.device := Freed(c, f.devices[l.device], now)]))
  {
    assert LeaseOk(f, id) && DeviceOk(f, l.device);
    hide NamesOk, Linked, Freed, StatusOk;
    var d := Freed(c, f.devices[l.device], now);
    FreedFacts(c, f.devices[l.device], now);
    EndLinks(f, id, l, d);
    SameNames(c, f, f.(leases := f.leases[id := l], devices := f.devices[l.device := d]));
  }

  lemma LapseKeeps(c: Config, f: Fleet, id: nat, now: Time)
    requires Inv(c, f) && id in f.leases
    ensures f.leases[id].device in f.devices && Inv(c, WithLapse(c, f, id, now))
    ensures WithLapse(c, f, id, now).leases.Keys == f.leases.Keys
  {
    hide NamesOk;
    assert LeaseOk(f, id);
    if Lapses(f.leases[id], now) {
      EndKeeps(c, f, id, Lapsed(f.leases[id], now), now);
    }
  }

  lemma LeaseKeeps(c: Config, f: Fleet, device: nat, id: nat, task: string, owner: string, token: nat,
                   leaseSeconds: int, now: Time)
    requires Inv(c, f) && device in f.devices && id !in f.leases && f.devices[device].activeLease.None?
    ensures Inv(c, Leased(f, device, id, task, owner, token, leaseSeconds, now))
  {
    var g := Leased(f, device, id, task, owner, token, leaseSeconds, now);
    hide NamesOk, Linked;
    LeaseLinks(f, device, id, g.leases[id], g.devices[device]);
    SameNames(c, f, g);
  }

  /** The links after a new lease `id` was entered in a free device. */
  lemma LeaseLinks(f: Fleet, device: nat, id: nat, l: Lease, d: Device)
    requires Linked(f) && device in f.devices && id !in f.leases && f.devices[device].activeLease.None?
    requires l.device == device && l.status.Active? && l.releasedAt.None? && d.activeLease == Some(id) && StatusOk(d)
    ensures Linked(f.(leases := f.leases[id := l], devices := f.devices[device := d]))
  {
    hide StatusOk;
    var g := f.(leases := f.leases[id := l], devices := f.devices[device := d]);
    forall other | other in g.leases
      ensures LeaseOk(g, other)
    {
      assert other != id ==> LeaseOk(f, other);
    }
    forall other | other in g.devices
      ensures DeviceOk(g, other)
    {
      assert DeviceOk(f, other);
    }
  }

  lemma RenewKeeps(c: Config, f: Fleet, id: nat, leaseSeconds: int, now: Time)
    requires Inv(c, f) && id in f.leases
    ensures Inv(c, Renewed(f, id, leaseSeconds, now))
  {
    hide NamesOk;
    var g := Renewed(f, id, leaseSeconds, now);
    SameNames(c, f, g);
    forall other | other in g.leases
      ensures LeaseOk(g, other)
    {
      assert LeaseOk(f, other);
    }
    forall other | other in g.devices
      ensures DeviceOk(g, other)
    {
      assert DeviceOk(f, other);
    }
  }

  /** An idle-looking device without a maintenance flag is free. */
  lemma EligibleIsFree(c: Config, f: Fleet, device: nat, required: set<string>, now: Time)
    requires Inv(c, f) && device in f.devices && Eligible(c, f.devices[device], required, now)
    ensures f.devices[device].activeLease.None?
  {
    hide NamesOk;
    assert DeviceOk(f, device);
  }

  /** Enabled, heard of recently, not in maintenance, not leased and capable. */
  predicate OnOffer(c: Config, d: Device, required: set<string>, now: Time) {
    && d.enabled && d.lastHeartbeatAt.Some? && now < d.lastHeartbeatAt.value + c.offlineAfter
    && !d.status.Maintenance? && d.activeLease.None? && required <= d.capabilities
  }

  /** A device is eligible exactly if it is on offer. */
  lemma EligibleExactlyWhen(c: Config, f: Fleet, device: nat, required: set<string>, now: Time)
    requires Inv(c, f) && device in f.devices
    ensures Eligible(c, f.devices[device], required, now) <==> OnOffer(c, f.devices[device], required, now)
  {
    hide NamesOk;
    assert DeviceOk(f, device);
  }

  function Registered(c: Config, f: Fleet, id: nat, d: Device): Fleet {
    f.(devices := f.devices[id := d], names := f.names[c.fold(d.name) := id])
  }

  lemma RegisterKeeps(c: Config, f: Fleet, id: nat, d: Device)
    requires Inv(c, f) && id !in f.devices && c.fold(d.name) !in f.names
    requires d.activeLease.None? && !d.status.Reserved? && !d.status.Busy?
    requires forall other | other in f.devices :: f.devices[other].agentId != d.agentId
    ensures Inv(c, Registered(c, f, id, d))
  {
    var g := Registered(c, f, id, d);
    forall other | other in g.leases
      ensures LeaseOk(g, other)
    {
      assert LeaseOk(f, other);
    }
    forall other | other in g.devices
      ensures DeviceOk(g, other)
    {
      assert other != id ==> DeviceOk(f, other);
    }
  }

  // ---------------------------------------------------------------------
  // Maintenance
  // ---------------------------------------------------------------------

  /** The fleet after `set_maintenance(device, False)`. */
  function LeftMaintenance(c: Config, f: Fleet, device: nat, now: Time): Fleet
    requires device in f.devices
  {
    f.(devices := f.devices[device := MaintenanceSet(c, f.devices[device], false, now)])
  }

  /** Leaving maintenance does harm to a leased device that is heard of: it is marked idle. */
  predicate MarksLeasedIdle(c: Config, d: Device, now: Time) {
    d.activeLease.Some? && AvailableStatus(c, d, now).Idle?
  }

  /** Leaving maintenance keeps the leases in order exactly unless it marks a leased device idle. */
  lemma LeavingMaintenanceKeepsExactlyWhen(c: Config, f: Fleet, device: nat, now: Time)
    requires Inv(c, f) && device in f.devices
    ensures Inv(c, LeftMaintenance(c, f, device, now)) <==> !MarksLeasedIdle(c, f.devices[device], now)
  {
    hide NamesOk;
    var d := f.devices[device];
    var e := MaintenanceSet(c, d, false, now);
    assert DeviceOk(f, device);
    if MarksLeasedIdle(c, d, now) {
      assert !DeviceOk(LeftMaintenance(c, f, device, now), device);
    } else {
      DeviceWriteKeeps(c, f, device, e);
    }
  }

  /** The flaw on a concrete run: lease, leave maintenance, lease again; two leases of one device are active. */
  lemma LeavingMaintenanceOnALeasedDevice()
    ensures var c := Config(90 * SECOND, (s: string) => s);
            var d := Beaten(NewDevice("phone", "agent", "device", "android", {}, 0), 0);
            var f0 := Registered(c, EMPTY, 7, d);
            var f1 := Leased(f0, 7, 1, "t1", "a", 11, 60, 0);
            var f2 := LeftMaintenance(c, f1, 7, 0);
            var f3 := Leased(f2, 7, 2, "t2", "b", 12, 60, 0);
            && Inv(c, f1) && Eligible(c, f0.devices[7], {}, 0) && Eligible(c, f2.devices[7], {}, 0)
            && !Exclusive(f3) && f3.leases[1].status.Active? && f3.leases[2].status.Active?
  {
    var c := Config(90 * SECOND, (s: string) => s);
    var d := Beaten(NewDevice("phone", "agent", "device", "android", {}, 0), 0);
    var f0 := Registered(c, EMPTY, 7, d);
    assert Inv(c, EMPTY);
    hide Inv;
    RegisterKeeps(c, EMPTY, 7, d);
    LeaseKeeps(c, f0, 7, 1, "t1", "a", 11, 60, 0);
    var f1 := Leased(f0, 7, 1, "t1", "a", 11, 60, 0);
    var f2 := LeftMaintenance(c, f1, 7, 0);
    var f3 := Leased(f2, 7, 2, "t2", "b", 12, 60, 0);
    assert f3.leases[1].device == f3.leases[2].device;
  }

  // ---------------------------------------------------------------------
  // Whole histories
  // ---------------------------------------------------------------------

  datatype Call =
    | Register(id: nat, name: string, agentId: string, kind: string, platform: string, capabilities: set<string>)
    | Heartbeat(device: nat, agentId: string)
    | Expire
    | Acquire(leaseId: nat, task: string, owner: string, required: set<string>, leaseSeconds: int, token: nat)
    | Start(lease: nat, owner: string, token: nat)
    | Renew(lease: nat, owner: string, token: nat, leaseSeconds: int)
    | Release(lease: nat, owner: string, token: nat)
    | SetMaintenance(device: nat, enabled: bool)

  function LapsedIfDue(l: Lease, now: Time): Lease {
    if Lapses(l, now) then Lapsed(l, now) else l
  }

  function FreedIfDue(c: Config, d: Device, leases: map<nat, Lease>, now: Time): Device {
    if d.activeLease.Some? && d.activeLease.value in leases && Lapses(leases[d.activeLease.value], now)
    then Freed(c, d, now) else d
  }

  /** All active leases that have run out are ended and their devices freed. */
  ghost predicate ExpiredAll(c: Config, f: Fleet, now: Time, g: Fleet) {
    && g.names == f.names && g.leases.Keys == f.leases.Keys && g.devices.Keys == f.devices.Keys
    && (forall id | id in f.leases :: g.leases[id] == LapsedIfDue(f.leases[id], now))
    && (forall id | id in f.devices :: g.devices[id] == FreedIfDue(c, f.devices[id], f.leases, now))
  }

  predicate StrLess(a: string, b: string) {
    b != "" && (a == "" || a[0] < b[0] || (a[0] == b[0] && StrLess(a[1..], b[1..])))
  }

  /** The first place where the texts differ decides; a text comes before its continuations. */
  lemma {:induction false} StrLessExactlyWhen(a: string, b: string)
    ensures StrLess(a, b) <==>
            exists n {:trigger a[..n]} | 0 <= n <= |a| && n < |b| :: a[..n] == b[..n] && (n == |a| || a[n] < b[n])
  {
    if a != "" && b != "" && a[0] == b[0] {
      StrLessExactlyWhen(a[1..], b[1..]);
      if n :| 0 <= n <= |a[1..]| && n < |b[1..]| && a[1..][..n] == b[1..][..n]
              && (n == |a[1..]| || a[1..][n] < b[1..][n]) {
        assert a[..n + 1] == [a[0]] + a[1..][..n] && b[..n + 1] == [b[0]] + b[1..][..n];
      }
      if n :| 0 <= n <= |a| && n < |b| && a[..n] == b[..n] && (n == |a| || a[n] < b[n]) {
        assert a[1..][..n - 1] == a[..n][1..] == b[..n][1..] == b[1..][..n - 1];
      }
    } else if b != "" {
      assert a[..0] == b[..0];
      if n :| 0 <= n <= |a| && n < |b| && a[..n] == b[..n] && (n == |a| || a[n] < b[n]) {
        if n > 0 {
          assert a[..n][0] == b[..n][0];
        }
      }
    }
  }

  /** The order in which devices are offered: by folded name, then by identifier. */
  predicate Sooner(c: Config, f: Fleet, a: nat, b: nat)
    requires a in f.devices && b in f.devices
  {
    var x, y := c.fold(f.devices[a].name), c.fold(f.devices[b].name);
    StrLess(x, y) || (x == y && a < b)
  }

  ghost predicate FirstEligible(c: Config, f: Fleet, required: set<string>, now: Time, device: nat) {
    && device in f.devices && Eligible(c, f.devices[device], required, now)
    && forall other | other in f.devices && Eligible(c, f.devices[other], required, now) && other != device ::
         Sooner(c, f, device, other)
  }

  /** The device is reserved under the lease; among those still on offer, none has the smaller name or identifier. */
  ghost predicate TookFirst(c: Config, g: Fleet, device: nat, id: nat, required: set<string>, now: Time) {
    && device in g.devices && id in g.leases && g.leases[id].device == device
    && var d := g.devices[device];
       && d.activeLease == Some(id) && d.status.Reserved?
       && d.enabled && d.lastHeartbeatAt.Some? && now < d.lastHeartbeatAt.value + c.offlineAfter
       && required <= d.capabilities
       && forall other | other in g.devices && OnOffer(c, g.devices[other], required, now) ::
            var e := g.devices[other];
            StrLess(c.fold(d.name), c.fold(e.name)) || (c.fold(d.name) == c.fold(e.name) && device < other)
  }

  lemma FirstIsTaken(c: Config, f: Fleet, device: nat, id: nat, task: string, owner: string, token: nat,
                     leaseSeconds: int, required: set<string>, now: Time)
    requires Inv(c, f) && FirstEligible(c, f, required, now, device)
    ensures TookFirst(c, Leased(f, device, id, task, owner, token, leaseSeconds, now), device, id, required, now)
  {
    hide Inv, StrLess;
    EligibleExactlyWhen(c, f, device, required, now);
    forall other | other in f.devices
      ensures Eligible(c, f.devices[other], required, now) <==> OnOffer(c, f.devices[other], required, now)
    {
      EligibleExactlyWhen(c, f, other, required, now);
    }
  }

  lemma NoneOnOffer(c: Config, f: Fleet, required: set<string>, now: Time)
    requires Inv(c, f) && forall id | id in f.devices :: !Eligible(c, f.devices[id], required, now)
    ensures forall id | id in f.devices :: !OnOffer(c, f.devices[id], required, now)
  {
    hide Inv, Eligible, OnOffer;
    forall id | id in f.devices
      ensures !OnOffer(c, f.devices[id], required, now)
    {
      EligibleExactlyWhen(c, f, id, required, now);
    }
  }

  /** One call that took effect; calls that raise leave the fleet alone. */
  ghost predicate Next(c: Config, f: Fleet, call: Call, now: Time, g: Fleet) {
    || g == f
    || match call
       case Register(id, name, agentId, kind, platform, capabilities) =>
         && id !in f.devices && c.fold(name) !in f.names
         && (forall other | other in f.devices :: f.devices[other].agentId != agentId)
         && g == Registered(c, f, id, NewDevice(name, agentId, kind, platform, capabilities, now))
       case Heartbeat(device, agentId) =>
         && device in f.devices && f.devices[device].agentId == agentId
         && g == f.(devices := f.devices[device := Beaten(f.devices[device], now)])
       case Expire => ExpiredAll(c, f, now, g)
       case Acquire(leaseId, task, owner, required, leaseSeconds, token) =>
         && leaseId !in f.leases && 1 <= leaseSeconds
         && exists e :: ExpiredAll(c, f, now, e)
              && (g == e || exists device :: FirstEligible(c, e, required, now, device)
                                         && g == Leased(e, device, leaseId, task, owner, token, leaseSeconds, now))
       case Start(lease, owner, token) => Holds(f, lease, owner, token, now) && g == Started(f, lease, now)
       case Renew(lease, owner, token, leaseSeconds) =>
         Holds(f, lease, owner, token, now) && 1 <= leaseSeconds && g == Renewed(f, lease, leaseSeconds, now)
       case Release(lease, owner, token) => Holds(f, lease, owner, token, now) && g == ReleasedBy(c, f, lease, now)
       case SetMaintenance(device, enabled) =>
         && device in f.devices && (enabled ==> f.devices[device].activeLease.None?)
         && g == f.(devices := f.devices[device := MaintenanceSet(c, f.devices[device], enabled, now)])
  }

  /** The one kind of call to stay away from: leaving maintenance on a leased device that is heard of. */
  predicate Careful(c: Config, f: Fleet, call: Call, now: Time) {
    call.SetMaintenance? && !call.enabled && call.device in f.devices ==>
      !MarksLeasedIdle(c, f.devices[call.device], now)
  }

  /** The call expires what has run out and then leases the device, which comes first. */
  ghost predicate LeasesTo(c: Config, g: Fleet, device: nat, call: Call, now: Time, h: Fleet)
    requires call.Acquire?
  {
    exists e :: ExpiredAll(c, g, now, e) && FirstEligible(c, e, call.required, now, device)
             && h == Leased(e, device, call.leaseId, call.task, call.owner, call.token, call.leaseSeconds, now)
  }

  lemma LeasesToIsNext(c: Config, g: Fleet, device: nat, call: Call, now: Time, h: Fleet)
    requires call.Acquire? && call.leaseId !in g.leases && 1 <= call.leaseSeconds
             && LeasesTo(c, g, device, call, now, h)
    ensures Next(c, g, call, now, h)
  {
    hide FirstEligible, ExpiredAll, Leased;
  }

  lemma SecondLease(c: Config, g: Fleet, device: nat, id: nat, call: Call, now: Time, h: Fleet)
    requires call.Acquire? && call.leaseId !in g.leases && LeasesTo(c, g, device, call, now, h)
    requires device in g.devices && g.devices[device].activeLease == Some(id)
    requires id in g.leases && g.leases[id].status.Active? && g.leases[id].device == device
             && !Lapses(g.leases[id], now)
    ensures Eligible(c, g.devices[device], {}, now) && !Exclusive(h)
  {
    hide Sooner, Freed;
    var e :| ExpiredAll(c, g, now, e) && FirstEligible(c, e, call.required, now, device)
          && h == Leased(e, device, call.leaseId, call.task, call.owner, call.token, call.leaseSeconds, now);
    assert e.leases[id] == LapsedIfDue(g.leases[id], now);
    assert e.devices[device] == FreedIfDue(c, g.devices[device], g.leases, now);
    assert h.leases[id].status.Active? && h.leases[call.leaseId].status.Active?
           && h.leases[id].device == h.leases[call.leaseId].device;
  }

  /**
    In the bad case, and only then, the leased device is on offer at once: as soon as it comes first, the next
    acquisition leases it a second time, unless its lease has run out by then.
   */
  lemma LeavingMaintenanceOffersExactlyWhen(c: Config, f: Fleet, device: nat, now: Time, g: Fleet, call: Call, h: Fleet)
    requires Inv(c, f) && device in f.devices && f.devices[device].activeLease.Some?
    requires g == LeftMaintenance(c, f, device, now)
    ensures Eligible(c, g.devices[device], {}, now) <==> MarksLeasedIdle(c, f.devices[device], now)
    ensures f.devices[device].activeLease.value in f.leases
    ensures && call.Acquire? && call.leaseId !in g.leases && 1 <= call.leaseSeconds
            && !Lapses(f.leases[f.devices[device].activeLease.value], now) && LeasesTo(c, g, device, call, now, h) ==>
              && MarksLeasedIdle(c, f.devices[device], now)
              && Next(c, g, call, now, h) && !Exclusive(h)
  {
    hide NamesOk;
    assert DeviceOk(f, device);
    var id := f.devices[device].activeLease.value;
    assert LeaseOk(f, id);
    if call.Acquire? && call.leaseId !in g.leases && 1 <= call.leaseSeconds && !Lapses(f.leases[id], now)
       && LeasesTo(c, g, device, call, now, h) {
      LeasesToIsNext(c, g, device, call, now, h);
      SecondLease(c, g, device, id, call, now, h);
    }
  }

  lemma ExpiredLeaseOk(c: Config, f: Fleet, now: Time, g: Fleet, id: nat)
    requires Linked(f) && ExpiredAll(c, f, now, g) && id in f.leases
    ensures LeaseOk(g, id) && !Lapses(g.leases[id], now)
  {
    assert LeaseOk(f, id) && DeviceOk(f, f.leases[id].device);
    assert g.leases[id] == LapsedIfDue(f.leases[id], now);
    var d := f.leases[id].device;
    assert g.devices[d] == FreedIfDue(c, f.devices[d], f.leases, now);
  }

  lemma ExpiredDeviceOk(c: Config, f: Fleet, now: Time, g: Fleet, id: nat)
    requires Linked(f) && ExpiredAll(c, f, now, g) && id in f.devices
    ensures DeviceOk(g, id)
  {
    assert DeviceOk(f, id);
    assert g.devices[id] == FreedIfDue(c, f.devices[id], f.leases, now);
    if f.devices[id].activeLease.Some? {
      var l := f.devices[id].activeLease.value;
      assert LeaseOk(f, l);
      assert g.leases[l] == LapsedIfDue(f.leases[l], now);
    }
  }

  lemma ExpireKeeps(c: Config, f: Fleet, now: Time, g: Fleet)
    requires Inv(c, f) && ExpiredAll(c, f, now, g)
    ensures Inv(c, g) && forall id | id in g.leases :: !Lapses(g.leases[id], now)
  {
    hide NamesOk, LeaseOk, DeviceOk, LapsedIfDue, Lapses;
    SameNames(c, f, g);
    forall id | id in g.leases
      ensures LeaseOk(g, id) && !Lapses(g.leases[id], now)
    {
      ExpiredLeaseOk(c, f, now, g, id);
    }
    forall id | id in g.devices
      ensures DeviceOk(g, id)
    {
      ExpiredDeviceOk(c, f, now, g, id);
    }
  }

  lemma AcquireKeeps(c: Config, f: Fleet, call: Call, now: Time, g: Fleet)
    requires Inv(c, f) && call.Acquire? && Next(c, f, call, now, g)
    ensures Inv(c, g)
  {
    hide Inv, ExpiredAll, Eligible;
    if g != f {
      var e :| ExpiredAll(c, f, now, e)
            && (g == e || exists device :: FirstEligible(c, e, call.required, now, device)
                                       && g == Leased(e, device, call.leaseId, call.task, call.owner, call.token,
                                                      call.leaseSeconds, now));
      ExpireKeeps(c, f, now, e);
      SameLeaseIds(c, f, now, e);
      if g != e {
        var device :| FirstEligible(c, e, call.required, now, device)
                   && g == Leased(e, device, call.leaseId, call.task, call.owner, call.token, call.leaseSeconds, now);
        EligibleIsFree(c, e, device, call.required, now);
        LeaseKeeps(c, e, device, call.leaseId, call.task, call.owner, call.token, call.leaseSeconds, now);
      }
    }
  }

  lemma SameLeaseIds(c: Config, f: Fleet, now: Time, g: Fleet)
    requires ExpiredAll(c, f, now, g)
    ensures g.leases.Keys == f.leases.Keys
  {
  }

  lemma HolderFacts(c: Config, f: Fleet, id: nat)
    requires Inv(c, f) && id in f.leases && f.leases[id].status.Active?
    ensures var d := f.leases[id].device;
            d in f.devices && StatusOk(f.devices[d]) && f.devices[d].activeLease == Some(id)
  {
    hide NamesOk;
    assert LeaseOk(f, id) && DeviceOk(f, f.leases[id].device);
  }

  lemma StatusFacts(c: Config, f: Fleet, device: nat)
    requires Inv(c, f) && device in f.devices
    ensures StatusOk(f.devices[device])
  {
    hide NamesOk;
    assert DeviceOk(f, device);
  }

  /** Every careful call keeps the invariant. */
  lemma NextKeeps(c: Config, f: Fleet, call: Call, now: Time, g: Fleet)
    requires Inv(c, f) && Next(c, f, call, now, g) && Careful(c, f, call, now)
    ensures Inv(c, g)
  {
    hide Inv, ExpiredAll, FirstEligible;
    if g != f {
      match call
      case Register(id, name, agentId, kind, platform, capabilities) =>
        RegisterKeeps(c, f, id, NewDevice(name, agentId, kind, platform, capabilities, now));
      case Heartbeat(device, agentId) =>
        StatusFacts(c, f, device);
        DeviceWriteKeeps(c, f, device, Beaten(f.devices[device], now));
      case Expire => ExpireKeeps(c, f, now, g);
      case Acquire(_, _, _, _, _, _) => AcquireKeeps(c, f, call, now, g);
      case Start(lease, owner, token) =>
        HolderFacts(c, f, lease);
        DeviceWriteKeeps(c, f, f.leases[lease].device,
                         Touched(f.devices[f.leases[lease].device].(status := Busy), now));
      case Renew(lease, owner, token, leaseSeconds) => RenewKeeps(c, f, lease, leaseSeconds, now);
      case Release(lease, owner, token) =>
        var l := f.leases[lease];
        EndKeeps(c, f, lease, l.(status := Released, releasedAt := Some(now), version := l.version + 1), now);
      case SetMaintenance(device, enabled) =>
        StatusFacts(c, f, device);
        if enabled {
          DeviceWriteKeeps(c, f, device, MaintenanceSet(c, f.devices[device], true, now));
        } else {
          LeavingMaintenanceKeepsExactlyWhen(c, f, device, now);
        }
    }
  }

  datatype Issued = Issued(call: Call, now: Time)

  ghost predicate History(c: Config, states: seq<Fleet>, calls: seq<Issued>) {
    && |states| == |calls| + 1 && states[0] == EMPTY
    && forall i {:trigger calls[i]} | 0 <= i < |calls| :: Next(c, states[i], calls[i].call, calls[i].now, states[i + 1])
  }

  /**
    Without a call that leaves maintenance on a leased device that is heard of, no device is ever leased twice, and
    none in maintenance is leased.
   */
  lemma {:induction false} LeasesStayExclusive(c: Config, states: seq<Fleet>, calls: seq<Issued>, j: nat)
    requires History(c, states, calls) && j < |states|
    requires forall i {:trigger calls[i]} | 0 <= i < j :: Careful(c, states[i], calls[i].call, calls[i].now)
    ensures Inv(c, states[j]) && Exclusive(states[j])
    ensures forall id | id in states[j].leases && states[j].leases[id].status.Active? ::
              && states[j].leases[id].device in states[j].devices
              && states[j].devices[states[j].leases[id].device].activeLease == Some(id)
              && !states[j].devices[states[j].leases[id].device].status.Maintenance?
    decreases j
  {
    hide Next, NamesOk, Careful;
    if j > 0 {
      LeasesStayExclusive(c, states, calls, j - 1);
      var step := calls[j - 1];
      NextKeeps(c, states[j - 1], step.call, step.now, states[j]);
    } else {
      assert NamesOk(c, EMPTY) by {
        NoNames(c);
      }
    }
    LinkedIsExclusive(states[j]);
    assert forall id | id in states[j].leases :: LeaseOk(states[j], id);
  }

  lemma NoNames(c: Config)
    ensures NamesOk(c, EMPTY)
  {
  }

  /** A device in maintenance stays there: asking to leave has no effect either. */
  lemma MaintenanceIsForever(c: Config, f: Fleet, call: Call, now: Time, g: Fleet, device: nat)
    requires Inv(c, f) && Next(c, f, call, now, g) && device in f.devices && f.devices[device].status.Maintenance?
    ensures device in g.devices && g.devices[device].status.Maintenance?
  {
    hide NamesOk;
    assert DeviceOk(f, device);
    if g != f {
      match call
      case Register(_, _, _, _, _, _) =>
      case Heartbeat(_, _) =>
      case Expire =>
      case Acquire(_, _, _, _, _, _) => AcquireSparesMaintenance(c, f, call, now, g, device);
      case Start(lease, _, _) => assert LeaseOk(f, lease);
      case Renew(_, _, _, _) =>
      case Release(lease, _, _) => assert LeaseOk(f, lease);
      case SetMaintenance(_, _) =>
    }
  }

  lemma AcquireSparesMaintenance(c: Config, f: Fleet, call: Call, now: Time, g: Fleet, device: nat)
    requires Inv(c, f) && call.Acquire? && Next(c, f, call, now, g) && g != f
    requires device in f.devices && f.devices[device].status.Maintenance?
    ensures device in g.devices && g.devices[device].status.Maintenance?
  {
    hide NamesOk, Sooner, Inv, ExpiredAll;
    StatusFacts(c, f, device);
    var e :| ExpiredAll(c, f, now, e)
          && (g == e || exists d :: FirstEligible(c, e, call.required, now, d)
                                && g == Leased(e, d, call.leaseId, call.task, call.owner, call.token,
                                               call.leaseSeconds, now));
    ExpirySpares(c, f, now, e, device);
    if g != e {
      var d :| FirstEligible(c, e, call.required, now, d)
            && g == Leased(e, d, call.leaseId, call.task, call.owner, call.token, call.leaseSeconds, now);
      NotInMaintenance(c, e, call.required, now, d);
    }
  }

  lemma ExpirySpares(c: Config, f: Fleet, now: Time, g: Fleet, device: nat)
    requires ExpiredAll(c, f, now, g) && device in f.devices && f.devices[device].activeLease.None?
    ensures device in g.devices && g.devices[device] == f.devices[device]
  {
  }

  lemma NotInMaintenance(c: Config, f: Fleet, required: set<string>, now: Time, device: nat)
    requires FirstEligible(c, f, required, now, device)
    ensures device in f.devices && !f.devices[device].status.Maintenance?
  {
    hide Sooner;
  }
}
