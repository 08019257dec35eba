/**
 Slot allocation and planning for an All-in-One node (app/aio_ports.go, app/aio.go,
 app/aio_layout.go, app/aio_mysql.go): from the list of declared instances to the list of
 daemons, each with its id, role and ports.
 */
module AioPlan {
  import opened Prelude
  import opened AioCatalog

  /** A declared instance; name is in its sanitised form, the only one planning uses. */
  datatype Instance = Instance(id: string, name: string, kind: Kind, members: int) {
    function Count(): int {
      MemberCount(kind, members)
    }
  }

  // ------------------------------------------------------------ slots

  /** The slots one family's instances take. */
  function SlotsUsed(ins: seq<Instance>, f: Family): nat {
    if ins == [] then 0
    else
      var last := ins[|ins| - 1];
      SlotsUsed(ins[..|ins| - 1], f) + (if Known(last.kind) && FamilyOf(last.kind) == f then last.Count() else 0)
  }

  /** The validator's count. */
  method CountSlots(ins: seq<Instance>, f: Family) returns (n: int)
    ensures n == SlotsUsed(ins, f)
  {
    n := 0;
    for i := 0 to |ins|
      invariant n == SlotsUsed(ins[..i], f)
    {
      assert ins[..i + 1][..i] == ins[..i];
      if Known(ins[i].kind) && FamilyOf(ins[i].kind) == f {
        n := n + ins[i].Count();
      }
    }
    assert ins[..|ins|] == ins;
  }

  /** A Go map read: a missing key reads as zero. */
  function Get<K>(m: map<K, int>, k: K): int {
    if k in m then m[k] else 0
  }

  /** Where each instance's slots begin. When an id is declared twice, the later one wins. */
  function SlotMap(ins: seq<Instance>): map<string, int> {
    if ins == [] then map[]
    else
      var before, last := ins[..|ins| - 1], ins[|ins| - 1];
      if Known(last.kind) then SlotMap(before)[last.id := SlotsUsed(before, FamilyOf(last.kind))]
      else SlotMap(before)
  }

  /** The allocator: its running counters end at exactly the counts the validator computes. */
  method AssignSlots(ins: seq<Instance>) returns (out: map<string, int>, next: map<Family, int>)
    ensures out == SlotMap(ins)
    ensures forall f: Family :: Get(next, f) == SlotsUsed(ins, f)
  {
    out, next := map[], map[];
    for i := 0 to |ins|
      invariant out == SlotMap(ins[..i])
      invariant forall f: Family :: Get(next, f) == SlotsUsed(ins[..i], f)
    {
      var it := ins[i];
      assert ins[..i + 1][..i] == ins[..i];
      if Known(it.kind) {
        var f := FamilyOf(it.kind);
        out := out[it.id := Get(next, f)];
        next := next[f := Get(next, f) + it.Count()];
      }
    }
    assert ins[..|ins|] == ins;
  }

  // ------------------------------------------------------------ roles and ids

  datatype Role = Standalone | Primary | Replica | Bootstrap | Plain | Mongos | Config | Shard

  const MONGO_SHARDS := 3

  datatype Topo = Topo(configs: int, shards: int, rsSize: int)

  function ShardedTopo(total: int): Topo {
    if total >= 13 then Topo(3, MONGO_SHARDS, 3) else Topo(1, MONGO_SHARDS, 1)
  }

  function RoleFor(k: Kind, member: int, total: int): Role {
    match MySQLShape(k)
    case Repl => if member == 0 then Primary else Replica
    case GR => if member == 0 then Bootstrap else Plain
    case Galera => if member == 0 then Bootstrap else Plain
    case _ =>
      match k
      case ValkeyCluster => if member == 0 then Bootstrap else Plain
      case Patroni | Repmgr | Spock | PSMRS => if member == 0 then Primary else Plain
      case PSMDBSharded =>
        if member == 0 then Mongos else if member <= ShardedTopo(total).configs then Config else Shard
      case ProxySQL => if total > 1 && member == 0 then Bootstrap else Plain
      case _ => Standalone
  }

  /** Decimal digits, as %d prints a number that is not negative. */
  function Itoa(n: nat): string {
    if n < 10 then [Digit(n)] else Itoa(n / 10) + [Digit(n % 10)]
  }

  function Digit(d: nat): char
    requires d < 10
  {
    "0123456789"[d]
  }

  function MemberInst(name: string, k: Kind, member: nat, total: int): string {
    if total <= 1 && !IsCluster(k) then name else name + "-n" + Itoa(member + 1)
  }

  // ------------------------------------------------------------ the plan

  datatype Member = Member(inst: string, kind: Kind, family: Family, group: string, role: Role, ports: Ports)

  function MemberOf(it: Instance, slot: int, m: nat): Member
    requires Known(it.kind)
  {
    Member(
      MemberInst(it.name, it.kind, m, it.Count()), it.kind, FamilyOf(it.kind),
      if IsCluster(it.kind) then it.name else "", RoleFor(it.kind, m, it.Count()), PortsFor(it.kind, slot, m))
  }

  /** One instance's daemons; an unknown kind has none. */
  function MembersOf(it: Instance, slots: map<string, int>): seq<Member> {
    if Known(it.kind) then seq(it.Count(), m requires 0 <= m => MemberOf(it, Get(slots, it.id), m)) else []
  }

  function PlanWith(ins: seq<Instance>, slots: map<string, int>): seq<Member> {
    if ins == [] then []
    else PlanWith(ins[..|ins| - 1], slots) + MembersOf(ins[|ins| - 1], slots)
  }

  function Planned(ins: seq<Instance>): seq<Member> {
    PlanWith(ins, SlotMap(ins))
  }

  method PlanInstance(it: Instance, slots: map<string, int>) returns (out: seq<Member>)
    requires Known(it.kind)
    ensures out == MembersOf(it, slots)
  {
    var total, slot := it.Count(), Get(slots, it.id);
    out := [];
    for m := 0 to total
      invariant |out| == m
      invariant forall j: nat | j < m :: out[j] == MemberOf(it, slot, j)
    {
      var inst := MemberInst(it.name, it.kind, m, total);
      var ports := PortsFor(it.kind, slot, m);
      var group := if IsCluster(it.kind) then it.name else "";
      out := out + [Member(inst, it.kind, FamilyOf(it.kind), group, RoleFor(it.kind, m, total), ports)];
    }
  }

  method Plan(ins: seq<Instance>) returns (out: seq<Member>)
    ensures out == Planned(ins)
  {
    var slots, _ := AssignSlots(ins);
    out := [];
    for i := 0 to |ins|
      invariant out == PlanWith(ins[..i], slots)
    {
      assert ins[..i + 1][..i] == ins[..i];
      if Known(ins[i].kind) {
        var members := PlanInstance(ins[i], slots);
        out := out + members;
      }
    }
    assert ins[..|ins|] == ins;
  }

  // ------------------------------------------------------------ peer lists

  /** The members of one group whose kind has the given shape, in plan order. */
  function OfGroup(plan: seq<Member>, shape: Shape, group: string): seq<Member> {
    if plan == [] then []
    else
      var last := plan[|plan| - 1];
      OfGroup(plan[..|plan| - 1], shape, group) +
      (if MySQLShape(last.kind) == shape && last.group == group then [last] else [])
  }

  /** Selects a Group Replication or Galera group out of a plan. */
  method SelectGroup(plan: seq<Member>, shape: Shape, group: string) returns (out: seq<Member>)
    ensures out == OfGroup(plan, shape, group)
  {
    out := [];
    for i := 0 to |plan|
      invariant out == OfGroup(plan[..i], shape, group)
    {
      assert plan[..i + 1][..i] == plan[..i];
      if MySQLShape(plan[i].kind) == shape && plan[i].group == group {
        out := out + [plan[i]];
      }
    }
    assert plan[..|plan|] == plan;
  }

  /** The last instance declared under a name, or -1. */
  function FindName(ins: seq<Instance>, name: string): (i: int)
    ensures -1 <= i < |ins| && (i >= 0 ==> ins[i].name == name)
    ensures forall j | i < j < |ins| :: ins[j].name != name
  {
    if ins == [] then -1
    else if ins[|ins| - 1].name == name then |ins| - 1
    else FindName(ins[..|ins| - 1], name)
  }

  /** The group port of a slot; an unknown kind has none. */
  function GroupPort(k: Kind, slot: int, m: int): int {
    if Known(k) then PortsFor(k, slot, m).group else 0
  }

  /** The seed list a Group Replication member's my.cnf recomputes from the design. */
  function Seeds(ins: seq<Instance>, group: string): Option<seq<int>> {
    var i := FindName(ins, group);
    if 0 <= i < |ins| then
      Some(seq(ins[i].Count(), m => GroupPort(ins[i].kind, Get(SlotMap(ins), ins[i].id), m)))
    else None
  }

  method ComputeSeeds(ins: seq<Instance>, group: string) returns (seeds: Option<seq<int>>)
    ensures seeds == Seeds(ins, group)
  {
    var found := -1;
    for i := 0 to |ins|
      invariant found == FindName(ins[..i], group) && found < i
    {
      assert ins[..i + 1][..i] == ins[..i];
      if ins[i].name == group {
        found := i;
      }
    }
    assert ins[..|ins|] == ins;
    if found < 0 {
      return None;
    }
    var it := ins[found];
    var total := it.Count();
    var slots, _ := AssignSlots(ins);
    var list: seq<int> := [];
    for m := 0 to total
      invariant |list| == m
      invariant forall j | 0 <= j < m :: list[j] == GroupPort(it.kind, Get(slots, it.id), j)
    {
      list := list + [GroupPort(it.kind, Get(slots, it.id), m)];
    }
    assert list == Seeds(ins, group).value;
    return Some(list);
  }
}
