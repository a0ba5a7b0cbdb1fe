/**
  The tenant registry: tenant records with status, quota, usage and process list, the mapping from
  pids to tenants, and two running counters. Every operation holds the registry lock throughout.
 */
module Tenants {
  import opened Common
  import opened Sums

  datatype Status = Inactive | Active | Suspended

  datatype Quota = Quota(qp: nat, mr: nat, mem: nat, cq: nat, pd: nat)
  const DEFAULT_QUOTA := Quota(100, 1000, 1024 * 1024 * 1024, 100, 100)

  datatype Usage = Usage(qp: int, mr: int, cq: int, pd: int, mem: nat,
                         creates: nat, destroys: nat, regs: nat, deregs: nat)
  const NO_USAGE := Usage(0, 0, 0, 0, 0, 0, 0, 0, 0)

  /** count and procs are process_count and processes[] of the record. */
  datatype Tenant = Tenant(status: Status, quota: Quota, usage: Usage, count: nat, procs: seq<int>)

  datatype Mapping = Mapping(pid: int, tenant: nat)
  const UNMAPPED := Mapping(0, 0)

  datatype Registry = Registry(tenants: seq<Tenant>, maps: seq<Mapping>, active: int, total: int)

  /** The first position of x, or -1. */
  function Find(s: seq<int>, x: int): (r: int)
    ensures -1 <= r < |s|
    ensures r >= 0 ==> s[r] == x && forall j :: 0 <= j < r ==> s[j] != x
    ensures r < 0 ==> x !in s
  {
    First(s, (y: int) => y, x)
  }

  function PidsOf(maps: seq<Mapping>): (s: seq<int>)
    ensures |s| == |maps|
    ensures forall i :: 0 <= i < |s| ==> s[i] == maps[i].pid
  {
    seq(|maps|, i requires 0 <= i < |maps| => maps[i].pid)
  }

  /** The mapping slot of a pid (0 asks for a free one), or -1. */
  function SlotOf(maps: seq<Mapping>, pid: int): int { Find(PidsOf(maps), pid) }

  function IsLive(m: Mapping): int { if m.pid != 0 then 1 else 0 }
  function IsPresent(t: Tenant): int { if t.status != Inactive then 1 else 0 }
  function IsOf(id: nat): Mapping -> int { (m: Mapping) => if m.tenant == id then 1 else 0 }

  /** How many mappings point to the tenant. */
  function BoundTo(maps: seq<Mapping>, id: nat): int { Sum(maps, IsOf(id)) }

  // ----- The operations -----

  /** tenant_create; no quota means the default one. */
  function Create(r: Registry, id: nat, quota: Option<Quota>): (bool, Registry) {
    if id == 0 || id >= |r.tenants| || r.tenants[id].status != Inactive then (false, r)
    else
      var q := if quota.Some? then quota.value else DEFAULT_QUOTA;
      var t := Tenant(Active, q, NO_USAGE, 0, seq(|r.maps|, _ => 0));
      (true, r.(tenants := r.tenants[id := t], active := r.active + 1))
  }

  /** The mappings after every one to the tenant is dropped. */
  function Unmap(maps: seq<Mapping>, id: nat): (s: seq<Mapping>)
    ensures |s| == |maps|
    ensures forall i :: 0 <= i < |s| ==> s[i] == if maps[i].tenant == id then UNMAPPED else maps[i]
  {
    seq(|maps|, i requires 0 <= i < |maps| => if maps[i].tenant == id then UNMAPPED else maps[i])
  }

  /** tenant_delete. */
  function Delete(r: Registry, id: nat): (bool, Registry) {
    if id == 0 || id >= |r.tenants| || r.tenants[id].status == Inactive then (false, r)
    else
      var t := r.tenants[id].(status := Inactive, count := 0);
      (true, Registry(r.tenants[id := t], Unmap(r.maps, id), r.active - 1, r.total - BoundTo(r.maps, id)))
  }

  /** tenant_set_status. */
  function SetStatus(r: Registry, id: nat, status: Status): (bool, Registry) {
    if id >= |r.tenants| || r.tenants[id].status == Inactive then (false, r)
    else (true, r.(tenants := r.tenants[id := r.tenants[id].(status := status)]))
  }

  /** Puts a pid in the first free entry of a process list, if there is one. */
  function Listed(procs: seq<int>, pid: int): seq<int> {
    var z := Find(procs, 0);
    if z < 0 then procs else procs[z := pid]
  }

  function Unlisted(procs: seq<int>, pid: int): seq<int> {
    var j := Find(procs, pid);
    if j < 0 then procs else procs[j := 0]
  }

  /** tenant_bind_process. */
  function Bind(r: Registry, pid: int, id: nat): (bool, Registry) {
    if id >= |r.tenants| || r.tenants[id].status != Active then (false, r) else
    var found, empty := SlotOf(r.maps, pid), SlotOf(r.maps, 0);
    var t := r.tenants[id];
    if found >= 0 then (true, r.(maps := r.maps[found := Mapping(pid, id)]))
    else if empty >= 0 then
      (true, Registry(r.tenants[id := t.(count := t.count + 1, procs := Listed(t.procs, pid))],
                      r.maps[empty := Mapping(pid, id)], r.active, r.total + 1))
    else (false, r)
  }

  /** tenant_unbind_process; the counters are guarded against going below zero. */
  function Unbind(r: Registry, pid: int): (bool, Registry) {
    var i := SlotOf(r.maps, pid);
    if i < 0 then (false, r) else
    var id := r.maps[i].tenant;
    var tenants :=
      if id >= |r.tenants| then r.tenants
      else
        var t := r.tenants[id];
        r.tenants[id := t.(count := if t.count > 0 then t.count - 1 else 0, procs := Unlisted(t.procs, pid))];
    (true, Registry(tenants, r.maps[i := UNMAPPED], r.active, if r.total > 0 then r.total - 1 else r.total))
  }

  /** tenant_get_process_tenant. */
  function TenantOf(r: Registry, pid: int): Option<nat> {
    var i := SlotOf(r.maps, pid);
    if i < 0 then None else Some(r.maps[i].tenant)
  }

  /** tenant_update_quota. */
  function SetQuota(r: Registry, id: nat, quota: Quota): (bool, Registry) {
    if id >= |r.tenants| || r.tenants[id].status == Inactive then (false, r)
    else (true, r.(tenants := r.tenants[id := r.tenants[id].(quota := quota)]))
  }

  /** tenant_try_allocate_qp on the tenant's record: check and increment under one lock. */
  function Allocated(t: Tenant): (bool, Tenant) {
    if t.status != Active then (false, t) else
    var u := t.usage.(qp := if t.usage.qp < 0 then 0 else t.usage.qp);
    if u.qp >= t.quota.qp then (false, t.(usage := u))
    else (true, t.(usage := u.(qp := u.qp + 1, creates := u.creates + 1)))
  }

  function TryAllocate(r: Registry, id: nat): (bool, Registry) {
    if id >= |r.tenants| then (false, r)
    else
      var (ok, t) := Allocated(r.tenants[id]);
      (ok, r.(tenants := r.tenants[id := t]))
  }

  /** tenant_get_resource_usage. */
  function GetUsage(r: Registry, id: nat): Option<Usage> {
    if id < |r.tenants| && r.tenants[id].status == Active then Some(r.tenants[id].usage) else None
  }

  /** tenant_update_resource_usage: overwrites the whole usage record. */
  function PutUsage(r: Registry, id: nat, usage: Usage): (bool, Registry) {
    if id < |r.tenants| && r.tenants[id].status == Active
    then (true, r.(tenants := r.tenants[id := r.tenants[id].(usage := usage)]))
    else (false, r)
  }

  // ----- The invariant -----

  ghost predicate UniquePids(maps: seq<Mapping>) {
    forall i, j :: 0 <= i < j < |maps| && maps[i].pid == maps[j].pid ==> maps[i].pid == 0
  }

  ghost predicate MappingsOk(maps: seq<Mapping>, tenants: seq<Tenant>) {
    forall i :: 0 <= i < |maps| ==>
      if maps[i].pid == 0 then maps[i].tenant == 0
      else 0 < maps[i].tenant < |tenants| && tenants[maps[i].tenant].status != Inactive
  }

  /** Mappings are unique and point to tenants that exist, tenant 0 never does, and the counters
      count. */
  ghost predicate Inv(r: Registry) {
    && UniquePids(r.maps) && MappingsOk(r.maps, r.tenants)
    && (|r.tenants| > 0 ==> r.tenants[0].status == Inactive)
    && r.total == Sum(r.maps, IsLive)
    && r.active == Sum(r.tenants, IsPresent)
  }

  lemma SlotUnique(maps: seq<Mapping>, i: nat)
    requires UniquePids(maps) && i < |maps| && maps[i].pid != 0
    ensures SlotOf(maps, maps[i].pid) == i
  {
    var r := SlotOf(maps, maps[i].pid);
    assert PidsOf(maps)[i] in PidsOf(maps);
    assert PidsOf(maps)[r] == PidsOf(maps)[i];
  }

  lemma {:induction false} UnmapCounts(maps: seq<Mapping>, id: nat)
    requires forall i :: 0 <= i < |maps| && maps[i].tenant == id ==> maps[i].pid != 0
    ensures Sum(Unmap(maps, id), IsLive) == Sum(maps, IsLive) - BoundTo(maps, id)
  {
    if maps != [] {
      var n := |maps| - 1;
      UnmapCounts(maps[..n], id);
      assert Unmap(maps, id)[..n] == Unmap(maps[..n], id);
    }
  }

  // ----- What the registry means -----

  /** The statuses, and who is bound to which tenant. */
  datatype Model = Model(status: seq<Status>, binding: map<int, nat>)

  function StatusOf(tenants: seq<Tenant>): (s: seq<Status>)
    ensures |s| == |tenants|
    ensures forall i :: 0 <= i < |s| ==> s[i] == tenants[i].status
  {
    seq(|tenants|, i requires 0 <= i < |tenants| => tenants[i].status)
  }

  function Bindings(maps: seq<Mapping>): map<int, nat> {
    if maps == [] then map[]
    else
      var b, m := Bindings(maps[..|maps| - 1]), maps[|maps| - 1];
      if m.pid == 0 then b else b[m.pid := m.tenant]
  }

  ghost function Abs(r: Registry): Model { Model(StatusOf(r.tenants), Bindings(r.maps)) }

  datatype Op =
    | CreateOp(id: nat, quota: Option<Quota>)
    | DeleteOp(id: nat)
    | StatusOp(id: nat, status: Status)
    | BindOp(pid: int, id: nat)
    | UnbindOp(pid: int)

  function Apply(r: Registry, op: Op): (bool, Registry) {
    match op
    case CreateOp(id, quota) => Create(r, id, quota)
    case DeleteOp(id) => Delete(r, id)
    case StatusOp(id, status) => SetStatus(r, id, status)
    case BindOp(pid, id) => Bind(r, pid, id)
    case UnbindOp(pid) => Unbind(r, pid)
  }

  /** The same operations on the meaning, for a registry with room for n bindings. */
  ghost function Means(m: Model, n: nat, op: Op): (bool, Model) {
    match op
    case CreateOp(id, _) =>
      if 0 < id < |m.status| && m.status[id] == Inactive
      then (true, m.(status := m.status[id := Active])) else (false, m)
    case DeleteOp(id) =>
      if 0 < id < |m.status| && m.status[id] != Inactive
      then (true, Model(m.status[id := Inactive], Without(m.binding, id)))
      else (false, m)
    case StatusOp(id, status) =>
      if id < |m.status| && m.status[id] != Inactive
      then (true, m.(status := m.status[id := status])) else (false, m)
    case BindOp(pid, id) =>
      if id < |m.status| && m.status[id] == Active && (pid in m.binding || |m.binding| < n)
      then (true, m.(binding := m.binding[pid := id])) else (false, m)
    case UnbindOp(pid) =>
      if pid in m.binding then (true, m.(binding := m.binding - {pid})) else (false, m)
  }

  /** The callers' side of the contract: real pids, and deleting is done by tenant_delete. */
  predicate Proper(op: Op) {
    match op
    case StatusOp(_, status) => status != Inactive
    case BindOp(pid, _) => pid != 0
    case UnbindOp(pid) => pid != 0
    case _ => true
  }

  /** A pid is bound, to the tenant of its slot, exactly when it has a slot. */
  lemma {:induction false} InBindings(maps: seq<Mapping>, p: int)
    requires UniquePids(maps)
    ensures p in Bindings(maps) ==> p != 0 && SlotOf(maps, p) >= 0 && Bindings(maps)[p] == maps[SlotOf(maps, p)].tenant
    ensures p != 0 && SlotOf(maps, p) >= 0 ==> p in Bindings(maps)
  {
    if maps != [] {
      var n := |maps| - 1;
      InBindings(maps[..n], p);
      if maps[n].pid != p {
        SlotInPrefix(maps, p);
      } else if p != 0 {
        SlotUnique(maps, n);
      }
    }
  }

  lemma SlotInPrefix(maps: seq<Mapping>, p: int)
    requires maps != [] && maps[|maps| - 1].pid != p
    ensures SlotOf(maps, p) == SlotOf(maps[..|maps| - 1], p)
  {
    var a, b := PidsOf(maps), PidsOf(maps[..|maps| - 1]);
    assert a == b + [maps[|maps| - 1].pid];
  }

  lemma {:induction false} LiveIsSize(maps: seq<Mapping>)
    requires UniquePids(maps)
    ensures Sum(maps, IsLive) == |Bindings(maps)|
  {
    if maps != [] {
      var n := |maps| - 1;
      LiveIsSize(maps[..n]);
      InBindings(maps[..n], maps[n].pid);
      assert maps[n].pid != 0 ==> maps[n].pid !in Bindings(maps[..n]) by {
        assert forall i :: 0 <= i < n ==> PidsOf(maps[..n])[i] == maps[i].pid;
      }
    }
  }

  /** There is a free mapping slot exactly when fewer pids are bound than there are slots. */
  lemma {:induction false} FreeSlotIff(maps: seq<Mapping>)
    ensures Sum(maps, IsLive) <= |maps|
    ensures SlotOf(maps, 0) >= 0 <==> Sum(maps, IsLive) < |maps|
  {
    if maps == [] {
    } else {
      var n := |maps| - 1;
      FreeSlotIff(maps[..n]);
      assert PidsOf(maps)[..n] == PidsOf(maps[..n]);
      assert forall i :: 0 <= i < n ==> PidsOf(maps)[i] == PidsOf(maps[..n])[i];
      assert 0 in PidsOf(maps) <==> 0 in PidsOf(maps[..n]) || maps[n].pid == 0;
    }
  }

  /** What writing one mapping slot does to the bindings. */
  function Rebound(b: map<int, nat>, was: Mapping, now: Mapping): map<int, nat> {
    if now.pid != 0 then b[now.pid := now.tenant] else b - {was.pid}
  }

  lemma BindingsUpdateAt(maps: seq<Mapping>, i: nat, m: Mapping, p: int)
    requires UniquePids(maps) && i < |maps| && UniquePids(maps[i := m])
    requires m.pid == 0 || maps[i].pid in {0, m.pid}
    ensures var b, b' := Rebound(Bindings(maps), maps[i], m), Bindings(maps[i := m]);
      (p in b' <==> p in b) && (p in b ==> b'[p] == b[p])
  {
    var maps' := maps[i := m];
    InBindings(maps, p);
    InBindings(maps', p);
    if p != 0 {
      if m.pid == p {
        SlotUnique(maps', i);
      } else {
        SlotElsewhere(maps, i, m, p);
        var j := SlotOf(maps, p);
        if j >= 0 {
          assert PidsOf(maps)[j] == maps[j].pid;
        }
      }
    }
  }

  lemma BindingsUpdate(maps: seq<Mapping>, i: nat, m: Mapping)
    requires UniquePids(maps) && i < |maps| && UniquePids(maps[i := m])
    requires m.pid == 0 || maps[i].pid in {0, m.pid}
    ensures Bindings(maps[i := m]) == Rebound(Bindings(maps), maps[i], m)
  {
    var b, b' := Rebound(Bindings(maps), maps[i], m), Bindings(maps[i := m]);
    forall p
      ensures (p in b' <==> p in b) && (p in b ==> b'[p] == b[p])
    {
      BindingsUpdateAt(maps, i, m, p);
    }
    assert b'.Keys == b.Keys;
  }

  /** A pid that slot i does not get keeps its slot, unless slot i was it. */
  lemma SlotElsewhere(maps: seq<Mapping>, i: nat, m: Mapping, p: int)
    requires UniquePids(maps) && i < |maps| && UniquePids(maps[i := m]) && p != 0 && m.pid != p
    ensures maps[i].pid == p ==> SlotOf(maps[i := m], p) < 0
    ensures maps[i].pid != p ==> SlotOf(maps[i := m], p) == SlotOf(maps, p)
  {
    var maps' := maps[i := m];
    if maps[i].pid == p {
      assert forall j :: 0 <= j < |maps| ==> PidsOf(maps')[j] != p;
    } else {
      var j := SlotOf(maps, p);
      if j >= 0 {
        assert maps'[j].pid == p;
        SlotUnique(maps', j);
      } else {
        assert forall j :: 0 <= j < |maps| ==> PidsOf(maps)[j] != p;
        assert forall j :: 0 <= j < |maps| ==> PidsOf(maps')[j] != p;
      }
    }
  }

  function Without(b: map<int, nat>, id: nat): map<int, nat> {
    map p | p in b && b[p] != id :: b[p]
  }

  lemma UnmapAt(maps: seq<Mapping>, id: nat, p: int)
    requires UniquePids(maps) && UniquePids(Unmap(maps, id))
    ensures var b, b' := Bindings(maps), Bindings(Unmap(maps, id));
      (p in b' <==> p in b && b[p] != id) && (p in b' ==> b'[p] == b[p])
  {
    var maps' := Unmap(maps, id);
    InBindings(maps, p);
    InBindings(maps', p);
    var i, i' := SlotOf(maps, p), SlotOf(maps', p);
    if p != 0 && i' >= 0 {
      assert PidsOf(maps')[i'] == maps'[i'].pid;
      SlotUnique(maps, i');
    } else if p != 0 && i >= 0 {
      assert PidsOf(maps')[i] in PidsOf(maps') && PidsOf(maps)[i] == maps[i].pid;
    }
  }

  lemma UnmapBindings(maps: seq<Mapping>, id: nat)
    requires UniquePids(maps)
    ensures UniquePids(Unmap(maps, id))
    ensures Bindings(Unmap(maps, id)) == Without(Bindings(maps), id)
  {
    assert UniquePids(Unmap(maps, id));
    forall p
      ensures var b, b' := Bindings(maps), Bindings(Unmap(maps, id));
        (p in b' <==> p in b && b[p] != id) && (p in b' ==> b'[p] == b[p])
    {
      UnmapAt(maps, id, p);
    }
    assert Bindings(Unmap(maps, id)).Keys == Without(Bindings(maps), id).Keys;
  }

  lemma CreateRefines(r: Registry, id: nat, quota: Option<Quota>)
    requires Inv(r)
    ensures var (ok, r') := Create(r, id, quota);
      Inv(r') && (ok, Abs(r')) == Means(Abs(r), |r.maps|, CreateOp(id, quota))
  {
    var (ok, r') := Create(r, id, quota);
    if ok {
      SumUpdate(r.tenants, IsPresent, id, r'.tenants[id]);
      assert StatusOf(r'.tenants) == StatusOf(r.tenants)[id := Active];
    }
  }

  lemma StatusRefines(r: Registry, id: nat, status: Status)
    requires Inv(r) && status != Inactive
    ensures var (ok, r') := SetStatus(r, id, status);
      Inv(r') && (ok, Abs(r')) == Means(Abs(r), |r.maps|, StatusOp(id, status))
  {
    var (ok, r') := SetStatus(r, id, status);
    if ok {
      SumUpdate(r.tenants, IsPresent, id, r'.tenants[id]);
      assert StatusOf(r'.tenants) == StatusOf(r.tenants)[id := status];
    }
  }

  lemma DeleteRefines(r: Registry, id: nat)
    requires Inv(r)
    ensures var (ok, r') := Delete(r, id);
      Inv(r') && (ok, Abs(r')) == Means(Abs(r), |r.maps|, DeleteOp(id))
  {
    var (ok, r') := Delete(r, id);
    if ok {
      SumUpdate(r.tenants, IsPresent, id, r'.tenants[id]);
      UnmapCounts(r.maps, id);
      UnmapBindings(r.maps, id);
      assert StatusOf(r'.tenants) == StatusOf(r.tenants)[id := Inactive];
    }
  }

  /** Writing a mapping in the pid's own slot, or in a free one if it has none. */
  lemma WriteMapping(maps: seq<Mapping>, tenants: seq<Tenant>, pid: int, id: nat, i: nat)
    requires UniquePids(maps) && MappingsOk(maps, tenants) && pid != 0
    requires 0 < id < |tenants| && tenants[id].status != Inactive && i < |maps|
    requires SlotOf(maps, pid) == i || (SlotOf(maps, pid) < 0 && maps[i].pid == 0)
    ensures var maps' := maps[i := Mapping(pid, id)];
      && UniquePids(maps') && MappingsOk(maps', tenants)
      && Sum(maps', IsLive) == Sum(maps, IsLive) + (if SlotOf(maps, pid) < 0 then 1 else 0)
      && Bindings(maps') == Bindings(maps)[pid := id]
  {
    OnlySlot(maps, pid);
    if SlotOf(maps, pid) == i {
      assert PidsOf(maps)[i] == maps[i].pid;
    }
    assert forall j :: 0 <= j < |maps| && j != i ==> maps[j].pid != pid;
    SumUpdate(maps, IsLive, i, Mapping(pid, id));
    BindingsUpdate(maps, i, Mapping(pid, id));
  }

  /** Changing a tenant's own record but not its status. */
  lemma RewriteTenant(tenants: seq<Tenant>, maps: seq<Mapping>, id: nat, t: Tenant)
    requires id < |tenants| && t.status == tenants[id].status && MappingsOk(maps, tenants)
    ensures MappingsOk(maps, tenants[id := t]) && StatusOf(tenants[id := t]) == StatusOf(tenants)
    ensures Sum(tenants[id := t], IsPresent) == Sum(tenants, IsPresent)
  {
    SumUpdate(tenants, IsPresent, id, t);
  }

  lemma BindRefines(r: Registry, pid: int, id: nat)
    requires Inv(r) && pid != 0
    ensures var (ok, r') := Bind(r, pid, id);
      Inv(r') && (ok, Abs(r')) == Means(Abs(r), |r.maps|, BindOp(pid, id))
  {
    var (ok, r') := Bind(r, pid, id);
    BindAnswers(r, pid, id);
    if ok {
      var i := if SlotOf(r.maps, pid) >= 0 then SlotOf(r.maps, pid) else SlotOf(r.maps, 0);
      assert PidsOf(r.maps)[i] == r.maps[i].pid;
      WriteMapping(r.maps, r.tenants, pid, id, i);
      RewriteTenant(r.tenants, r'.maps, id, r'.tenants[id]);
    }
  }

  lemma BindAnswers(r: Registry, pid: int, id: nat)
    requires Inv(r) && pid != 0
    ensures Bind(r, pid, id).0 == Means(Abs(r), |r.maps|, BindOp(pid, id)).0
  {
    InBindings(r.maps, pid);
    FreeSlotIff(r.maps);
    LiveIsSize(r.maps);
  }

  lemma OnlySlot(maps: seq<Mapping>, pid: int)
    requires UniquePids(maps) && pid != 0
    ensures forall j :: 0 <= j < |maps| && maps[j].pid == pid ==> j == SlotOf(maps, pid)
  {
    forall j | 0 <= j < |maps| && maps[j].pid == pid
      ensures j == SlotOf(maps, pid)
    {
      SlotUnique(maps, j);
    }
  }

  /** Blanking a mapping slot. */
  lemma BlankMapping(maps: seq<Mapping>, tenants: seq<Tenant>, i: nat)
    requires UniquePids(maps) && MappingsOk(maps, tenants) && i < |maps| && maps[i].pid != 0
    ensures var maps' := maps[i := UNMAPPED];
      && UniquePids(maps') && MappingsOk(maps', tenants)
      && Sum(maps, IsLive) > 0 && Sum(maps', IsLive) == Sum(maps, IsLive) - 1
      && Bindings(maps') == Bindings(maps) - {maps[i].pid}
  {
    SumUpdate(maps, IsLive, i, UNMAPPED);
    SumBoundsTerms(maps, IsLive);
    assert IsLive(maps[i]) <= Sum(maps, IsLive);
    BindingsUpdate(maps, i, UNMAPPED);
  }

  lemma UnbindFound(r: Registry, i: nat)
    requires Inv(r) && i < |r.maps| && r.maps[i].pid != 0 && SlotOf(r.maps, r.maps[i].pid) == i
    ensures var r' := Unbind(r, r.maps[i].pid).1;
      Inv(r') && Abs(r') == Abs(r).(binding := Abs(r).binding - {r.maps[i].pid})
  {
    var r' := Unbind(r, r.maps[i].pid).1;
    BlankMapping(r.maps, r.tenants, i);
    var id := r.maps[i].tenant;
    RewriteTenant(r.tenants, r'.maps, id, r'.tenants[id]);
  }

  lemma UnbindRefines(r: Registry, pid: int)
    requires Inv(r) && pid != 0
    ensures var (ok, r') := Unbind(r, pid);
      Inv(r') && (ok, Abs(r')) == Means(Abs(r), |r.maps|, UnbindOp(pid))
  {
    InBindings(r.maps, pid);
    var i := SlotOf(r.maps, pid);
    if i >= 0 {
      assert PidsOf(r.maps)[i] == r.maps[i].pid;
      UnbindFound(r, i);
    }
  }

  lemma ApplyRefines(r: Registry, op: Op)
    requires Inv(r) && Proper(op)
    ensures var (ok, r') := Apply(r, op);
      && Inv(r') && |r'.maps| == |r.maps|
      && (ok, Abs(r')) == Means(Abs(r), |r.maps|, op)
  {
    match op
    case CreateOp(id, quota) => CreateRefines(r, id, quota);
    case DeleteOp(id) => DeleteRefines(r, id);
    case StatusOp(id, status) => StatusRefines(r, id, status);
    case BindOp(pid, id) => BindRefines(r, pid, id);
    case UnbindOp(pid) => UnbindRefines(r, pid);
  }

  // ----- Runs -----

  function Run(r: Registry, ops: seq<Op>): (seq<bool>, Registry) {
    if ops == [] then ([], r)
    else
      var (oks, mid) := Run(r, ops[..|ops| - 1]);
      var (ok, last) := Apply(mid, ops[|ops| - 1]);
      (oks + [ok], last)
  }

  ghost function MeansRun(m: Model, n: nat, ops: seq<Op>): (seq<bool>, Model) {
    if ops == [] then ([], m)
    else
      var (oks, mid) := MeansRun(m, n, ops[..|ops| - 1]);
      var (ok, last) := Means(mid, n, ops[|ops| - 1]);
      (oks + [ok], last)
  }

  /**
    Registry refinement: over every run of creates, deletes, binds, rebinds, unbinds and status
    changes, each operation answers as the meaning does, and afterwards the tenant found for a pid
    is the one of its last successful bind not undone by an unbind or a delete; mappings point only
    to tenants that exist, tenant 0 never does, and both counters are exact, hence never negative.
   */
  lemma {:induction false} RegistryRefinement(r: Registry, ops: seq<Op>, pid: int)
    requires Inv(r) && pid != 0 && forall i :: 0 <= i < |ops| ==> Proper(ops[i])
    ensures var (oks, r') := Run(r, ops);
      && Inv(r') && |r'.maps| == |r.maps|
      && (oks, Abs(r')) == MeansRun(Abs(r), |r.maps|, ops)
      && (TenantOf(r', pid) == if pid in Abs(r').binding then Some(Abs(r').binding[pid]) else None)
      && 0 <= r'.total == |Abs(r').binding| && 0 <= r'.active
  {
    if ops != [] {
      RegistryRefinement(r, ops[..|ops| - 1], pid);
      ApplyRefines(Run(r, ops[..|ops| - 1]).1, ops[|ops| - 1]);
    }
    var r' := Run(r, ops).1;
    InBindings(r'.maps, pid);
    LiveIsSize(r'.maps);
    SumBoundsTerms(r'.tenants, IsPresent);
  }

  /** The calls outside that contract keep the invariant exactly when they are refused, or, for an
      unbind of pid 0, when nothing was bound: otherwise a counter or a mapping goes wrong. */
  lemma ImproperOps(r: Registry, op: Op)
    requires Inv(r) && !Proper(op)
    ensures var (ok, r') := Apply(r, op);
      Inv(r') <==> !ok || (op.UnbindOp? && r.total == 0)
  {
    var (ok, r') := Apply(r, op);
    if ok {
      match op
      case StatusOp(id, status) =>
        SumUpdate(r.tenants, IsPresent, id, r'.tenants[id]);
      case BindOp(pid, id) =>
        var i := SlotOf(r.maps, 0);
        assert r'.maps[i] == Mapping(0, id) && id != 0;
      case UnbindOp(pid) =>
        var i := SlotOf(r.maps, 0);
        assert PidsOf(r.maps)[i] == r.maps[i].pid;
        assert r'.maps == r.maps;
        SumBoundsTerms(r.maps, IsLive);
        if |r.tenants| > 0 {
          SumUpdate(r.tenants, IsPresent, 0, r'.tenants[0]);
        }
    }
  }

  // ----- Process lists -----

  ghost predicate NoRepeats(procs: seq<int>) {
    forall i, j :: 0 <= i < j < |procs| && procs[i] == procs[j] ==> procs[i] == 0
  }

  /** The tenant's own record of its processes agrees with the mappings. */
  ghost predicate ListOk(t: Tenant, maps: seq<Mapping>, id: nat) {
    && |t.procs| == |maps|
    && t.count == BoundTo(maps, id)
    && NoRepeats(t.procs)
    && forall p :: p != 0 ==> (p in t.procs <==> Mapping(p, id) in maps)
  }

  /** Every existing tenant's list and count agree with the mappings, and the others count nothing. */
  ghost predicate Agreement(r: Registry) {
    && (forall id :: 0 < id < |r.tenants| && r.tenants[id].status != Inactive ==> ListOk(r.tenants[id], r.maps, id))
    && (forall id :: 0 <= id < |r.tenants| && r.tenants[id].status == Inactive ==> r.tenants[id].count == 0)
  }

  /** The pid is bound to a tenant, and not to this one. */
  predicate BoundElsewhere(r: Registry, pid: int, id: nat) {
    TenantOf(r, pid).Some? && TenantOf(r, pid).value != id
  }

  lemma InUpdate<T>(s: seq<T>, i: nat, x: T, y: T)
    requires i < |s|
    ensures y in s[i := x] <==> y == x || exists j :: 0 <= j < |s| && j != i && s[j] == y
  {
    assert s[i := x][i] == x;
    if j :| 0 <= j < |s| && j != i && s[j] == y {
      assert s[i := x][j] == y;
    }
  }

  /** A mapping that neither came from nor goes to the tenant. */
  lemma ListFrame(t: Tenant, maps: seq<Mapping>, i: nat, m: Mapping, id: nat)
    requires ListOk(t, maps, id) && i < |maps| && maps[i].tenant != id && m.tenant != id
    ensures ListOk(t, maps[i := m], id)
  {
    SumUpdate(maps, IsOf(id), i, m);
    forall p | p != 0
      ensures p in t.procs <==> Mapping(p, id) in maps[i := m]
    {
      InUpdate(maps, i, m, Mapping(p, id));
    }
  }

  /** The values of a duplicate-free list of non-zero pids. */
  lemma {:induction false} ListSize(procs: seq<int>)
    requires NoRepeats(procs) && 0 !in procs
    ensures |set p | p in procs| == |procs|
  {
    if procs != [] {
      var n := |procs| - 1;
      assert forall x :: x in procs[..n] ==> x in procs;
      ListSize(procs[..n]);
      assert procs[n] in procs;
      assert (set p | p in procs) == (set p | p in procs[..n]) + {procs[n]};
    }
  }

  /** While some mapping slot is free, no tenant's process list is full: its pids are all mapped. */
  lemma RoomInList(t: Tenant, maps: seq<Mapping>, id: nat)
    requires UniquePids(maps) && ListOk(t, maps, id) && SlotOf(maps, 0) >= 0
    ensures Find(t.procs, 0) >= 0
  {
    if 0 !in t.procs {
      ListSize(t.procs);
      FreeSlotIff(maps);
      LiveIsSize(maps);
      forall p | p in t.procs
        ensures p in Bindings(maps).Keys
      {
        assert Mapping(p, id) in maps;
        var i :| 0 <= i < |maps| && maps[i] == Mapping(p, id);
        assert PidsOf(maps)[i] in PidsOf(maps);
        InBindings(maps, p);
      }
      SubsetSize((set p | p in t.procs), Bindings(maps).Keys);
    }
  }

  lemma BindNewListed(t: Tenant, maps: seq<Mapping>, id: nat, pid: int, i: nat)
    requires UniquePids(maps) && ListOk(t, maps, id) && pid != 0 && id != 0
    requires i == SlotOf(maps, 0) && SlotOf(maps, pid) < 0 && maps[i] == UNMAPPED
    ensures ListOk(t.(count := t.count + 1, procs := Listed(t.procs, pid)), maps[i := Mapping(pid, id)], id)
  {
    RoomInList(t, maps, id);
    var z := Find(t.procs, 0);
    SumUpdate(maps, IsOf(id), i, Mapping(pid, id));
    assert pid !in PidsOf(maps);
    assert forall k :: 0 <= k < |maps| ==> PidsOf(maps)[k] != pid;
    assert Mapping(pid, id) !in maps;
    forall p | p != 0
      ensures p in t.procs[z := pid] <==> Mapping(p, id) in maps[i := Mapping(pid, id)]
    {
      InUpdate(t.procs, z, pid, p);
      InUpdate(maps, i, Mapping(pid, id), Mapping(p, id));
    }
  }

  lemma UnbindListed(t: Tenant, maps: seq<Mapping>, id: nat, pid: int, i: nat)
    requires UniquePids(maps) && ListOk(t, maps, id) && pid != 0 && id != 0
    requires i < |maps| && maps[i] == Mapping(pid, id)
    ensures t.count > 0
    ensures ListOk(t.(count := t.count - 1, procs := Unlisted(t.procs, pid)), maps[i := UNMAPPED], id)
  {
    SumUpdate(maps, IsOf(id), i, UNMAPPED);
    SumBoundsTerms(maps, IsOf(id));
    assert IsOf(id)(maps[i]) == 1;
    assert Mapping(pid, id) in maps;
    var j := Find(t.procs, pid);
    forall p | p != 0
      ensures p in t.procs[j := 0] <==> Mapping(p, id) in maps[i := UNMAPPED]
    {
      InUpdate(t.procs, j, 0, p);
      InUpdate(maps, i, UNMAPPED, Mapping(p, id));
    }
  }

  lemma {:induction false} UnmapOthers(maps: seq<Mapping>, id: nat, other: nat)
    requires other != id && other != 0
    ensures BoundTo(Unmap(maps, id), other) == BoundTo(maps, other)
  {
    if maps != [] {
      var n := |maps| - 1;
      UnmapOthers(maps[..n], id, other);
      assert Unmap(maps, id)[..n] == Unmap(maps[..n], id);
    }
  }

  lemma DeleteAgreement(r: Registry, id: nat)
    requires Inv(r) && Agreement(r)
    ensures Agreement(Delete(r, id).1)
  {
    var (ok, r') := Delete(r, id);
    if ok {
      forall x | 0 < x < |r'.tenants| && r'.tenants[x].status != Inactive
        ensures ListOk(r'.tenants[x], r'.maps, x)
      {
        UnmapOthers(r.maps, id, x);
        forall p | p != 0
          ensures Mapping(p, x) in r'.maps <==> Mapping(p, x) in r.maps
        {
          if k :| 0 <= k < |r.maps| && r.maps[k] == Mapping(p, x) {
            assert r'.maps[k] == Mapping(p, x);
          }
        }
      }
    }
  }

  lemma CreateAgreement(r: Registry, id: nat, quota: Option<Quota>)
    requires Inv(r) && Agreement(r)
    ensures Agreement(Create(r, id, quota).1)
  {
    var (ok, r') := Create(r, id, quota);
    if ok {
      SumConstant(r.maps, IsOf(id), 0);
      assert ListOk(r'.tenants[id], r'.maps, id);
    }
  }

  lemma UnbindAgreement(r: Registry, pid: int)
    requires Inv(r) && Agreement(r) && pid != 0
    ensures Agreement(Unbind(r, pid).1)
  {
    var (ok, r') := Unbind(r, pid);
    if ok {
      var i := SlotOf(r.maps, pid);
      assert PidsOf(r.maps)[i] == r.maps[i].pid;
      var id := r.maps[i].tenant;
      UnbindListed(r.tenants[id], r.maps, id, pid, i);
      forall x | 0 < x < |r'.tenants| && r'.tenants[x].status != Inactive && x != id
        ensures ListOk(r'.tenants[x], r'.maps, x)
      {
        ListFrame(r.tenants[x], r.maps, i, UNMAPPED, x);
      }
    }
  }

  /** A mapping moved from one tenant to another leaves the old one's count behind. */
  lemma MovedDisagrees(r: Registry, pid: int, id: nat, found: nat)
    requires Inv(r) && Agreement(r) && pid != 0 && found < |r.maps| && r.maps[found].pid == pid
    requires r.maps[found].tenant != id
    ensures !Agreement(r.(maps := r.maps[found := Mapping(pid, id)]))
  {
    var was, r' := r.maps[found].tenant, r.(maps := r.maps[found := Mapping(pid, id)]);
    SumUpdate(r.maps, IsOf(was), found, Mapping(pid, id));
    assert ListOk(r.tenants[was], r.maps, was);
    assert !ListOk(r'.tenants[was], r'.maps, was);
  }

  lemma NewAgrees(r: Registry, pid: int, id: nat)
    requires Inv(r) && Agreement(r) && pid != 0 && Bind(r, pid, id).0 && SlotOf(r.maps, pid) < 0
    ensures Agreement(Bind(r, pid, id).1)
  {
    var r', empty := Bind(r, pid, id).1, SlotOf(r.maps, 0);
    assert PidsOf(r.maps)[empty] == r.maps[empty].pid;
    BindNewListed(r.tenants[id], r.maps, id, pid, empty);
    forall x | 0 < x < |r'.tenants| && r'.tenants[x].status != Inactive && x != id
      ensures ListOk(r'.tenants[x], r'.maps, x)
    {
      ListFrame(r.tenants[x], r.maps, empty, Mapping(pid, id), x);
    }
  }

  /**
    A bind keeps the process lists in agreement with the mappings if and only if it does not move a
    pid from one tenant to another: such a rebind leaves the pid in the old tenant's list and count.
   */
  lemma BindAgreement(r: Registry, pid: int, id: nat)
    requires Inv(r) && Agreement(r) && pid != 0
    ensures Agreement(Bind(r, pid, id).1) <==> !(Bind(r, pid, id).0 && BoundElsewhere(r, pid, id))
  {
    if Bind(r, pid, id).0 {
      var found := SlotOf(r.maps, pid);
      if found < 0 {
        NewAgrees(r, pid, id);
      } else {
        assert PidsOf(r.maps)[found] == r.maps[found].pid;
        if r.maps[found].tenant == id {
          assert r.maps[found := Mapping(pid, id)] == r.maps;
        } else {
          MovedDisagrees(r, pid, id, found);
        }
      }
    }
  }

  /** No bind of the run moves a bound pid to another tenant. */
  ghost predicate NoMoves(r: Registry, ops: seq<Op>) {
    forall i :: 0 <= i < |ops| && ops[i].BindOp? ==> !BoundElsewhere(Run(r, ops[..i]).1, ops[i].pid, ops[i].id)
  }

  /**
    Process-list agreement: over every run in which no bound pid is moved to another tenant, each
    existing tenant's process_count is the number of pids mapped to it, and the non-zero entries of
    its process list are exactly those pids, without repetition; a tenant that does not exist counts 0.
   */
  lemma {:induction false} ProcessListAgreement(r: Registry, ops: seq<Op>)
    requires Inv(r) && Agreement(r) && NoMoves(r, ops)
    requires forall i :: 0 <= i < |ops| ==> Proper(ops[i])
    ensures Inv(Run(r, ops).1) && Agreement(Run(r, ops).1)
  {
    if ops != [] {
      var before, op := ops[..|ops| - 1], ops[|ops| - 1];
      assert forall i :: 0 <= i < |before| ==> before[..i] == ops[..i];
      ProcessListAgreement(r, before);
      var mid := Run(r, before).1;
      ApplyRefines(mid, op);
      ApplyAgreement(mid, op);
    }
  }

  lemma ApplyAgreement(r: Registry, op: Op)
    requires Inv(r) && Agreement(r) && Proper(op) && (op.BindOp? ==> !BoundElsewhere(r, op.pid, op.id))
    ensures Agreement(Apply(r, op).1)
  {
    match op
    case CreateOp(id, quota) => CreateAgreement(r, id, quota);
    case DeleteOp(id) => DeleteAgreement(r, id);
    case StatusOp(id, status) =>
    case BindOp(pid, id) => BindAgreement(r, pid, id);
    case UnbindOp(pid) => UnbindAgreement(r, pid);
  }

  /** The zeroed registry is where runs start. */
  function Blank(tenants: nat, processes: nat): Registry {
    Registry(seq(tenants, _ => Tenant(Inactive, Quota(0, 0, 0, 0, 0), NO_USAGE, 0, seq(processes, _ => 0))),
             seq(processes, _ => UNMAPPED), 0, 0)
  }

  lemma BlankOk(tenants: nat, processes: nat)
    ensures Inv(Blank(tenants, processes)) && Agreement(Blank(tenants, processes))
  {
    var r := Blank(tenants, processes);
    SumConstant(r.maps, IsLive, 0);
    SumConstant(r.tenants, IsPresent, 0);
  }

  // ----- The registry in memory -----

  class TenantRegistry {
    const tenants: array<Tenant>
    const maps: array<Mapping>
    var active: int
    var total: int

    ghost function View(): Registry
      reads this, tenants, maps
    {
      Registry(tenants[..], maps[..], active, total)
    }

    /** Every process list has as many entries as there are mapping slots. */
    ghost predicate Valid()
      reads tenants
    {
      forall i :: 0 <= i < tenants.Length ==> |tenants[i].procs| == maps.Length
    }

    constructor (maxTenants: nat, maxProcesses: nat)
      ensures Valid() && fresh(tenants) && fresh(maps)
      ensures View() == Blank(maxTenants, maxProcesses)
    {
      tenants := new Tenant[maxTenants](_ =>
        Tenant(Inactive, Quota(0, 0, 0, 0, 0), NO_USAGE, 0, seq(maxProcesses, _ => 0)));
      maps := new Mapping[maxProcesses](_ => UNMAPPED);
      active, total := 0, 0;
    }

    /** tenant_create. */
    method CreateTenant(id: nat, quota: Option<Quota>) returns (ok: bool)
      requires Valid()
      modifies this`active, tenants
      ensures Valid() && (ok, View()) == Create(old(View()), id, quota)
    {
      if id == 0 || id >= tenants.Length || tenants[id].status != Inactive {
        return false;
      }
      var q := if quota.Some? then quota.value else DEFAULT_QUOTA;
      tenants[id] := Tenant(Active, q, NO_USAGE, 0, seq(maps.Length, _ => 0));
      active := active + 1;
      assert View().tenants == Create(old(View()), id, quota).1.tenants;
      return true;
    }

    /** The loop of tenant_delete over the mappings. */
    method UnmapAll(id: nat)
      modifies this`total, maps
      ensures maps[..] == Unmap(old(maps[..]), id)
      ensures total == old(total) - BoundTo(old(maps[..]), id)
    {
      ghost var was := maps[..];
      for i := 0 to maps.Length
        invariant forall j :: 0 <= j < i ==> maps[j] == if was[j].tenant == id then UNMAPPED else was[j]
        invariant forall j :: i <= j < maps.Length ==> maps[j] == was[j]
        invariant total == old(total) - BoundTo(was[..i], id)
      {
        assert was[..i + 1][..i] == was[..i] && was[..i + 1][i] == was[i];
        if maps[i].tenant == id {
          maps[i] := UNMAPPED;
          total := total - 1;
        }
      }
      assert was[..maps.Length] == was;
    }

    /** tenant_delete. */
    method DeleteTenant(id: nat) returns (ok: bool)
      requires Valid()
      modifies this`active, this`total, tenants, maps
      ensures Valid() && (ok, View()) == Delete(old(View()), id)
    {
      if id == 0 || id >= tenants.Length || tenants[id].status == Inactive {
        return false;
      }
      UnmapAll(id);
      tenants[id] := tenants[id].(status := Inactive, count := 0);
      active := active - 1;
      assert View().tenants == Delete(old(View()), id).1.tenants;
      return true;
    }

    /** tenant_set_status. */
    method SetTenantStatus(id: nat, status: Status) returns (ok: bool)
      requires Valid()
      modifies tenants
      ensures Valid() && (ok, View()) == SetStatus(old(View()), id, status)
    {
      if id >= tenants.Length || tenants[id].status == Inactive {
        return false;
      }
      tenants[id] := tenants[id].(status := status);
      return true;
    }

    /** The search loops over the mappings: the pid's slot, or else the first free one. */
    method Search(pid: int) returns (found: int, empty: int)
      ensures found == SlotOf(maps[..], pid)
      ensures found < 0 ==> empty == SlotOf(maps[..], 0)
    {
      found, empty := -1, -1;
      ghost var pids := PidsOf(maps[..]);
      for i := 0 to maps.Length
        invariant found == -1 && -1 <= empty < i
        invariant forall j :: 0 <= j < i ==> pids[j] != pid
        invariant empty < 0 ==> forall j :: 0 <= j < i ==> pids[j] != 0
        invariant empty >= 0 ==> pids[empty] == 0 && forall j :: 0 <= j < empty ==> pids[j] != 0
      {
        assert pids[i] == maps[i].pid;
        if maps[i].pid == pid {
          found := i;
          break;
        }
        if empty < 0 && maps[i].pid == 0 {
          empty := i;
        }
      }
    }

    /** tenant_bind_process. */
    method BindProcess(pid: int, id: nat) returns (ok: bool)
      requires Valid()
      modifies this`total, tenants, maps
      ensures Valid() && (ok, View()) == Bind(old(View()), pid, id)
    {
      if id >= tenants.Length || tenants[id].status != Active {
        return false;
      }
      var found, empty := Search(pid);
      var idx := if found >= 0 then found else empty;
      if idx < 0 {
        return false;
      }
      maps[idx] := Mapping(pid, id);
      if found < 0 {
        tenants[id] := tenants[id].(count := tenants[id].count + 1);
        total := total + 1;
        var i := 0;
        ghost var procs := tenants[id].procs;
        while i < maps.Length && tenants[id].procs[i] != 0
          invariant 0 <= i <= maps.Length && tenants[id].procs == procs
          invariant forall j :: 0 <= j < i ==> procs[j] != 0
        {
          i := i + 1;
        }
        if i < maps.Length {
          tenants[id] := tenants[id].(procs := tenants[id].procs[i := pid]);
        }
        assert tenants[id].procs == Listed(procs, pid);
        assert View().tenants == Bind(old(View()), pid, id).1.tenants;
      }
      return true;
    }

    /** tenant_unbind_process. */
    method UnbindProcess(pid: int) returns (ok: bool)
      requires Valid() && forall i :: 0 <= i < maps.Length ==> maps[i].tenant < tenants.Length
      modifies this`total, tenants, maps
      ensures Valid() && (ok, View()) == Unbind(old(View()), pid)
    {
      var found, _ := Search(pid);
      if found < 0 {
        return false;
      }
      Unlist(maps[found].tenant, pid);
      maps[found] := UNMAPPED;
      if total > 0 {
        total := total - 1;
      }
      return true;
    }

    /** Takes the pid off the tenant's process list and count. */
    method Unlist(id: nat, pid: int)
      requires Valid() && id < tenants.Length
      modifies tenants
      ensures Valid()
      ensures var t := old(tenants[id]);
        tenants[..] == old(tenants[..])[id := t.(count := if t.count > 0 then t.count - 1 else 0,
                                                 procs := Unlisted(t.procs, pid))]
    {
      var procs := tenants[id].procs;
      var j := 0;
      while j < maps.Length && procs[j] != pid
        invariant 0 <= j <= maps.Length
        invariant forall k :: 0 <= k < j ==> procs[k] != pid
      {
        j := j + 1;
      }
      if j < maps.Length {
        tenants[id] := tenants[id].(procs := procs[j := 0]);
      }
      assert tenants[id].procs == Unlisted(procs, pid);
      if tenants[id].count > 0 {
        tenants[id] := tenants[id].(count := tenants[id].count - 1);
      }
    }

    /** tenant_get_process_tenant; tenant 0 when there is none. */
    method GetProcessTenant(pid: int) returns (ok: bool, id: nat)
      ensures TenantOf(View(), pid) == if ok then Some(id) else None
      ensures !ok ==> id == 0
    {
      var found, _ := Search(pid);
      if found >= 0 {
        return true, maps[found].tenant;
      }
      return false, 0;
    }

    /** tenant_update_quota. */
    method SetTenantQuota(id: nat, quota: Quota) returns (ok: bool)
      requires Valid()
      modifies tenants
      ensures Valid() && (ok, View()) == SetQuota(old(View()), id, quota)
    {
      if id >= tenants.Length || tenants[id].status == Inactive {
        return false;
      }
      tenants[id] := tenants[id].(quota := quota);
      return true;
    }

    /** tenant_try_allocate_qp. */
    method TryAllocateQp(id: nat) returns (ok: bool)
      requires Valid()
      modifies tenants
      ensures Valid() && (ok, View()) == TryAllocate(old(View()), id)
    {
      if id >= tenants.Length || tenants[id].status != Active {
        assert View().tenants == TryAllocate(old(View()), id).1.tenants;
        return false;
      }
      if tenants[id].usage.qp < 0 {
        tenants[id] := tenants[id].(usage := tenants[id].usage.(qp := 0));
      }
      if tenants[id].usage.qp >= tenants[id].quota.qp {
        assert View().tenants == TryAllocate(old(View()), id).1.tenants;
        return false;
      }
      var u := tenants[id].usage;
      tenants[id] := tenants[id].(usage := u.(qp := u.qp + 1, creates := u.creates + 1));
      assert View().tenants == TryAllocate(old(View()), id).1.tenants;
      return true;
    }

    /** tenant_get_resource_usage. */
    method GetResourceUsage(id: nat) returns (usage: Option<Usage>)
      ensures usage == GetUsage(View(), id)
    {
      if id >= tenants.Length || tenants[id].status != Active {
        return None;
      }
      return Some(tenants[id].usage);
    }

    /** tenant_update_resource_usage. */
    method UpdateResourceUsage(id: nat, usage: Usage) returns (ok: bool)
      requires Valid()
      modifies tenants
      ensures Valid() && (ok, View()) == PutUsage(old(View()), id, usage)
    {
      if id >= tenants.Length || tenants[id].status != Active {
        return false;
      }
      tenants[id] := tenants[id].(usage := usage);
      return true;
    }
  }
}
