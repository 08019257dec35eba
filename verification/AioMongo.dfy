/**
 The sharded MongoDB topology inside an All-in-One node (app/aio_mongo.go): shard
 membership is positional, recomputed from the member list each time it is needed.
 */
module AioMongo {
  import opened Prelude
  import opened AioCatalog
  import opened AioPlan
  import opened AioPlanProofs

  /** One group's members in one role, in order. */
  function OfRole(cfg: seq<Member>, role: Role, group: string): seq<Member> {
    if cfg == [] then []
    else
      var last := cfg[|cfg| - 1];
      OfRole(cfg[..|cfg| - 1], role, group) + if last.role == role && last.group == group then [last] else []
  }

  /** The last position an instance id has in a list, or -1. */
  function Position(s: seq<Member>, inst: string): int {
    if s == [] then -1
    else if s[|s| - 1].inst == inst then |s| - 1
    else Position(s[..|s| - 1], inst)
  }

  lemma OfRoleStep(cfg: seq<Member>, i: nat, role: Role, group: string)
    requires i < |cfg|
    ensures
      OfRole(cfg[..i + 1], role, group) ==
        if cfg[i].role == role && cfg[i].group == group then OfRole(cfg[..i], role, group) + [cfg[i]]
        else OfRole(cfg[..i], role, group)
  {
    assert cfg[..i + 1][..i] == cfg[..i];
    assert OfRole(cfg[..i], role, group) + [] == OfRole(cfg[..i], role, group);
  }

  lemma PositionStep(s: seq<Member>, x: Member, inst: string)
    ensures Position(s + [x], inst) == if x.inst == inst then |s| else Position(s, inst)
  {
    assert (s + [x])[..|s|] == s;
  }

  lemma {:induction false} PositionSound(s: seq<Member>, inst: string)
    ensures Position(s, inst) < |s|
    ensures Position(s, inst) >= 0 <==> exists x :: x in s && x.inst == inst
    ensures Position(s, inst) >= 0 ==> s[Position(s, inst)].inst == inst
  {
    if s != [] {
      var before, last := s[..|s| - 1], s[|s| - 1];
      PositionSound(before, inst);
      assert s == before + [last];
    }
  }

  function ReplicaSetSize(n: nat): nat {
    if n / MONGO_SHARDS < 1 then 1 else n / MONGO_SHARDS
  }

  /** The shard that position pos out of n belongs to. */
  function ShardAt(pos: int, n: nat): nat {
    if pos < 0 then 0
    else if pos / ReplicaSetSize(n) < MONGO_SHARDS then pos / ReplicaSetSize(n)
    else MONGO_SHARDS - 1
  }

  function ShardOf(shards: seq<Member>, inst: string): nat {
    ShardAt(Position(shards, inst), |shards|)
  }

  method ShardIndex(m: Member, cfg: seq<Member>) returns (index: int)
    ensures index == ShardOf(OfRole(cfg, Shard, m.group), m.inst)
    ensures (forall x | x in OfRole(cfg, Shard, m.group) :: x.inst != m.inst) ==> index == 0
  {
    var pos, n := -1, 0;
    for i := 0 to |cfg|
      invariant n == |OfRole(cfg[..i], Shard, m.group)|
      invariant pos == Position(OfRole(cfg[..i], Shard, m.group), m.inst)
    {
      OfRoleStep(cfg, i, Shard, m.group);
      var x := cfg[i];
      if x.group == m.group && x.role == Shard {
        PositionStep(OfRole(cfg[..i], Shard, m.group), x, m.inst);
        if x.inst == m.inst {
          pos := n;
        }
        n := n + 1;
      }
    }
    assert cfg[..|cfg|] == cfg;
    PositionSound(OfRole(cfg, Shard, m.group), m.inst);
    if pos < 0 {
      return 0;
    }
    var rsSize := n / MONGO_SHARDS;
    if rsSize < 1 {
      rsSize := 1;
    }
    var i := pos / rsSize;
    if i < MONGO_SHARDS {
      return i;
    }
    return MONGO_SHARDS - 1;
  }

  /** Those of the first k shard members that belong to shard i. */
  function OfShard(shards: seq<Member>, k: nat, i: nat): seq<Member>
    requires k <= |shards|
  {
    if k == 0 then []
    else OfShard(shards, k - 1, i) + if ShardOf(shards, shards[k - 1].inst) == i then [shards[k - 1]] else []
  }

  /** A map that groups the first k shard members by shard: no empty group, and no member left out. */
  ghost predicate Groups(out: map<nat, seq<Member>>, shards: seq<Member>, k: nat)
    requires k <= |shards|
  {
    && (forall i: nat :: i in out <==> OfShard(shards, k, i) != [])
    && (forall i | i in out :: out[i] == OfShard(shards, k, i))
  }

  lemma GroupsOneMore(out: map<nat, seq<Member>>, shards: seq<Member>, k: nat, j: nat)
    requires k < |shards| && Groups(out, shards, k) && j == ShardOf(shards, shards[k].inst)
    ensures Groups(out[j := (if j in out then out[j] else []) + [shards[k]]], shards, k + 1)
  {
  }

  method ShardGroups(group: string, cfg: seq<Member>) returns (out: map<nat, seq<Member>>)
    ensures Groups(out, OfRole(cfg, Shard, group), |OfRole(cfg, Shard, group)|)
  {
    out := map[];
    ghost var shards := OfRole(cfg, Shard, group);
    ghost var done := 0;
    for i := 0 to |cfg|
      invariant done <= |shards| && OfRole(cfg[..i], Shard, group) == shards[..done]
      invariant Groups(out, shards, done)
    {
      var m := cfg[i];
      NextOfRole(cfg, i, Shard, group, done);
      if m.group == group && m.role == Shard {
        var j := ShardIndex(m, cfg);
        GroupsOneMore(out, shards, done, j);
        out := out[j := (if j in out then out[j] else []) + [m]];
        done := done + 1;
      }
    }
    assert cfg[..|cfg|] == cfg;
    assert shards[..done] == shards;
  }

  /** Walking through the list, the next member of the role is the next of the selection. */
  lemma NextOfRole(cfg: seq<Member>, i: nat, role: Role, group: string, done: nat)
    requires i < |cfg| && done <= |OfRole(cfg, role, group)|
    requires OfRole(cfg[..i], role, group) == OfRole(cfg, role, group)[..done]
    ensures
      var all := OfRole(cfg, role, group);
      if cfg[i].role == role && cfg[i].group == group then
        done < |all| && all[done] == cfg[i] && OfRole(cfg[..i + 1], role, group) == all[..done + 1]
      else OfRole(cfg[..i + 1], role, group) == all[..done]
  {
    OfRoleStep(cfg, i, role, group);
    OfRolePrefix(cfg, i + 1, role, group);
    if cfg[i].role == role && cfg[i].group == group {
      PrefixGrows(OfRole(cfg, role, group), done, cfg[i]);
    }
  }

  lemma PrefixGrows(all: seq<Member>, done: nat, x: Member)
    requires done <= |all| && all[..done] + [x] <= all
    ensures done < |all| && all[done] == x && all[..done] + [x] == all[..done + 1]
  {
    assert (all[..done] + [x])[done] == x;
  }

  lemma {:induction false} OfRolePrefix(cfg: seq<Member>, k: nat, role: Role, group: string)
    requires k <= |cfg|
    ensures OfRole(cfg[..k], role, group) <= OfRole(cfg, role, group)
    decreases |cfg|
  {
    if k < |cfg| {
      OfRolePrefix(cfg[..|cfg| - 1], k, role, group);
      assert cfg[..|cfg| - 1][..k] == cfg[..k];
    } else {
      assert cfg[..k] == cfg;
    }
  }

  // ------------------------------------------------------------ the groups partition the members

  ghost predicate DistinctInsts(s: seq<Member>) {
    forall i, j | 0 <= i < j < |s| :: s[i].inst != s[j].inst
  }

  lemma {:induction false} PositionUnique(s: seq<Member>, k: nat)
    requires DistinctInsts(s) && k < |s|
    ensures Position(s, s[k].inst) == k
  {
    if k < |s| - 1 {
      PositionUnique(s[..|s| - 1], k);
    }
  }

  function ShardCount(n: nat): nat {
    if n < MONGO_SHARDS then n else MONGO_SHARDS
  }

  /** Where shard i begins among n members; the last shard takes what is left. */
  function ShardStart(i: nat, n: nat): nat
    requires i <= ShardCount(n)
  {
    if i >= ShardCount(n) then n else if i == 0 then 0 else if i == 1 then ReplicaSetSize(n) else 2 * ReplicaSetSize(n)
  }

  lemma ShardBounds(i: nat, n: nat)
    requires i < ShardCount(n)
    ensures ShardStart(i, n) < ShardStart(i + 1, n) <= n
    ensures forall pos: nat | pos < n :: ShardAt(pos, n) == i <==> ShardStart(i, n) <= pos < ShardStart(i + 1, n)
  {
    var size := ReplicaSetSize(n);
    assert n < 3 ==> size == 1;
    assert n >= 3 ==> 3 * size <= n;
    forall pos: nat | pos < n
      ensures ShardAt(pos, n) == i <==> ShardStart(i, n) <= pos < ShardStart(i + 1, n)
    {
      QuotientBounds(pos, size, 1);
      QuotientBounds(pos, size, 2);
      QuotientBounds(pos, size, 3);
    }
  }

  lemma QuotientBounds(pos: nat, size: nat, q: nat)
    requires size > 0
    ensures pos / size < q <==> pos < q * size
  {
    var d := pos / size;
    assert pos == d * size + pos % size;
    if d < q {
      MulMono(d + 1, q, size);
    } else {
      MulMono(q, d, size);
    }
  }

  lemma MulMono(a: nat, b: nat, c: nat)
    requires a <= b
    ensures a * c <= b * c
  {
  }

  lemma {:induction false} OfShardIsSlice(s: seq<Member>, k: nat, i: nat)
    requires DistinctInsts(s) && k <= |s| && i < ShardCount(|s|)
    ensures ShardStart(i, |s|) <= ShardStart(i + 1, |s|) <= |s|
    ensures OfShard(s, k, i) == s[Min(ShardStart(i, |s|), k)..Min(ShardStart(i + 1, |s|), k)]
  {
    ShardBounds(i, |s|);
    if k > 0 {
      OfShardIsSlice(s, k - 1, i);
      PositionUnique(s, k - 1);
    }
  }

  lemma {:induction false} OfShardNone(s: seq<Member>, k: nat, i: nat)
    requires DistinctInsts(s) && k <= |s| && i >= ShardCount(|s|)
    ensures OfShard(s, k, i) == []
  {
    if k > 0 {
      OfShardNone(s, k - 1, i);
      PositionUnique(s, k - 1);
      if |s| < MONGO_SHARDS {
        assert ShardAt(k - 1, |s|) == k - 1;
      }
    }
  }

  /** The first m shards, one after another. */
  ghost function Shards(s: seq<Member>, m: nat): seq<Member> {
    if m == 0 then [] else Shards(s, m - 1) + OfShard(s, |s|, m - 1)
  }

  /**
   For every number of shard members: the groups are keyed exactly 0 up to the smaller
   of that number and three, none is empty, and in key order they are the members in
   order.
   */
  lemma ShardPartition(s: seq<Member>)
    requires DistinctInsts(s)
    ensures forall i: nat :: OfShard(s, |s|, i) != [] <==> i < ShardCount(|s|)
    ensures Shards(s, ShardCount(|s|)) == s
    ensures forall i: nat | i < ShardCount(|s|) ::
      |OfShard(s, |s|, i)| == if |s| < 3 then 1 else if i < 2 then |s| / 3 else |s| - 2 * (|s| / 3)
  {
    forall i: nat | i < ShardCount(|s|)
      ensures |OfShard(s, |s|, i)| == if |s| < 3 then 1 else if i < 2 then |s| / 3 else |s| - 2 * (|s| / 3)
    {
      ShardIsSlice(s, i);
    }
    forall i: nat
      ensures OfShard(s, |s|, i) != [] <==> i < ShardCount(|s|)
    {
      if i < ShardCount(|s|) {
        ShardIsSlice(s, i);
        ShardBounds(i, |s|);
      } else {
        OfShardNone(s, |s|, i);
      }
    }
    ShardsArePrefix(s, ShardCount(|s|));
    assert s[..|s|] == s;
  }

  lemma ShardIsSlice(s: seq<Member>, i: nat)
    requires DistinctInsts(s) && i < ShardCount(|s|)
    ensures ShardStart(i, |s|) <= ShardStart(i + 1, |s|) <= |s|
    ensures OfShard(s, |s|, i) == s[ShardStart(i, |s|)..ShardStart(i + 1, |s|)]
  {
    OfShardIsSlice(s, |s|, i);
  }

  lemma {:induction false} ShardsArePrefix(s: seq<Member>, m: nat)
    requires DistinctInsts(s) && m <= ShardCount(|s|)
    ensures ShardStart(m, |s|) <= |s|
    ensures Shards(s, m) == s[..ShardStart(m, |s|)]
  {
    if m > 0 {
      ShardsArePrefix(s, m - 1);
      ShardIsSlice(s, m - 1);
      SlicesJoin(s, ShardStart(m - 1, |s|), ShardStart(m, |s|), Shards(s, m - 1), OfShard(s, |s|, m - 1));
    }
  }

  lemma SlicesJoin(s: seq<Member>, a: nat, b: nat, x: seq<Member>, y: seq<Member>)
    requires a <= b <= |s| && x == s[..a] && y == s[a..b]
    ensures x + y == s[..b]
  {
  }

  // ------------------------------------------------------------ the planned topologies

  lemma OfRoleSnoc(x: seq<Member>, z: Member, role: Role, group: string)
    ensures
      OfRole(x + [z], role, group) ==
        if z.role == role && z.group == group then OfRole(x, role, group) + [z] else OfRole(x, role, group)
  {
    assert (x + [z])[..|x|] == x;
    assert OfRole(x, role, group) + [] == OfRole(x, role, group);
  }

  lemma {:induction false} OfRoleJoins(x: seq<Member>, y: seq<Member>, role: Role, group: string)
    ensures OfRole(x + y, role, group) == OfRole(x, role, group) + OfRole(y, role, group)
    decreases |y|
  {
    if y == [] {
      assert x + y == x;
    } else {
      var before, last := y[..|y| - 1], y[|y| - 1];
      OfRoleJoins(x, before, role, group);
      assert y == before + [last] && x + y == x + before + [last];
      OfRoleSnoc(x + before, last, role, group);
      OfRoleSnoc(before, last, role, group);
      Assoc(OfRole(x, role, group), OfRole(before, role, group), [last]);
    }
  }

  /** Members that agree on role and group are selected together or not at all. */
  lemma {:induction false} OfRoleUniform(x: seq<Member>, r: Role, g: string, role: Role, group: string)
    requires forall l | 0 <= l < |x| :: x[l].role == r && x[l].group == g
    ensures OfRole(x, role, group) == if r == role && g == group then x else []
  {
    if x != [] {
      var before, last := x[..|x| - 1], x[|x| - 1];
      assert x == before + [last];
      OfRoleUniform(before, r, g, role, group);
      OfRoleSnoc(before, last, role, group);
    }
  }

  lemma {:induction false} OfRoleNone(x: seq<Member>, role: Role, group: string)
    requires forall l | 0 <= l < |x| :: x[l].role != role || x[l].group != group
    ensures OfRole(x, role, group) == []
  {
    if x != [] {
      OfRoleNone(x[..|x| - 1], role, group);
    }
  }

  /** The part of a sharded instance's members that has the given role. */
  function Stretch(it: Instance, slots: map<string, int>, role: Role): seq<Member>
    requires it.kind == PSMDBSharded
  {
    var ms, c := MembersOf(it, slots), ShardedTopo(it.Count()).configs;
    match role
    case Mongos => ms[..1]
    case Config => ms[1..1 + c]
    case Shard => ms[1 + c..]
    case _ => []
  }

  lemma {:induction false} RolesJoin(x: seq<Member>, y: seq<Member>, z: seq<Member>, role: Role, g: string)
    requires forall l | 0 <= l < |x| :: x[l].role == Mongos && x[l].group == g
    requires forall l | 0 <= l < |y| :: y[l].role == Config && y[l].group == g
    requires forall l | 0 <= l < |z| :: z[l].role == Shard && z[l].group == g
    ensures OfRole(x + y + z, role, g) == match role case Mongos => x case Config => y case Shard => z case _ => []
  {
    OfRoleJoins(x + y, z, role, g);
    OfRoleJoins(x, y, role, g);
    OfRoleUniform(x, Mongos, g, role, g);
    OfRoleUniform(y, Config, g, role, g);
    OfRoleUniform(z, Shard, g, role, g);
    Padded(OfRole(x, role, g), OfRole(y, role, g), OfRole(z, role, g));
  }

  lemma Padded(x: seq<Member>, y: seq<Member>, z: seq<Member>)
    ensures y == [] && z == [] ==> x + y + z == x
    ensures x == [] && z == [] ==> x + y + z == y
    ensures x == [] && y == [] ==> x + y + z == z
  {
  }

  /**
   A sharded instance is its router, its config servers and its shards, in that order; for
   both planned totals the three roles add up to the total, and the config replica set is
   as large as each of the three shards.
   */
  lemma ShardedLayout(it: Instance, slots: map<string, int>, role: Role)
    requires it.kind == PSMDBSharded
    ensures it.Count() == 1 + ShardedTopo(it.Count()).configs + MONGO_SHARDS * ShardedTopo(it.Count()).rsSize
    ensures ShardedTopo(it.Count()).configs == ShardedTopo(it.Count()).rsSize
    ensures ShardedTopo(it.Count()).shards == MONGO_SHARDS
    ensures OfRole(MembersOf(it, slots), role, it.name) == Stretch(it, slots, role)
  {
    var ms, c := MembersOf(it, slots), ShardedTopo(it.Count()).configs;
    LayoutRoles(it, slots);
    assert ms == ms[..1] + ms[1..1 + c] + ms[1 + c..];
    RolesJoin(ms[..1], ms[1..1 + c], ms[1 + c..], role, it.name);
  }

  lemma LayoutRoles(it: Instance, slots: map<string, int>)
    requires it.kind == PSMDBSharded
    ensures
      var ms, c := MembersOf(it, slots), ShardedTopo(it.Count()).configs;
      && 1 + c <= |ms|
      && forall l | 0 <= l < |ms| ::
           ms[l].group == it.name && ms[l].role == if l == 0 then Mongos else if l <= c then Config else Shard
  {
  }
  /** No other instance has a member of these roles in this group. */
  lemma ForeignMember(ins: seq<Instance>, slots: map<string, int>, i: nat, k: nat, role: Role)
    requires DistinctNames(ins) && i < |ins| && role in {Mongos, Config, Shard}
    requires k < |PlanWith(ins, slots)|
    requires k < |PlanWith(ins[..i], slots)| || k >= |PlanWith(ins[..i + 1], slots)|
    ensures PlanWith(ins, slots)[k].role != role || PlanWith(ins, slots)[k].group != ins[i].name
  {
    var j, m := Locate(ins, slots, k);
    PlanStep(ins, slots, i);
    if PlanWith(ins, slots)[k].role == role {
      RoleHasGroup(ins[j], Get(slots, ins[j].id), m);
    }
  }

  /** Only sharded instances have these roles, and their members carry the instance's name. */
  lemma RoleHasGroup(it: Instance, slot: int, m: nat)
    requires Known(it.kind) && MemberOf(it, slot, m).role in {Mongos, Config, Shard}
    ensures MemberOf(it, slot, m).group == it.name
  {
  }

  /** In the whole plan, a sharded group's members of a role are those of its own instance. */
  lemma RoleOfPlan(ins: seq<Instance>, slots: map<string, int>, i: nat, role: Role)
    requires DistinctNames(ins) && i < |ins| && role in {Mongos, Config, Shard}
    ensures OfRole(PlanWith(ins, slots), role, ins[i].name) == OfRole(MembersOf(ins[i], slots), role, ins[i].name)
  {
    var plan, a, b := PlanWith(ins, slots), |PlanWith(ins[..i], slots)|, |PlanWith(ins[..i + 1], slots)|;
    var own := MembersOf(ins[i], slots);
    PlanAround(ins, slots, i);
    forall k: nat | k < |plan| && (k < a || k >= b)
      ensures plan[k].role != role || plan[k].group != ins[i].name
    {
      ForeignMember(ins, slots, i, k, role);
    }
    RoleInMiddle(plan[..a], own, plan[b..], role, ins[i].name);
  }

  lemma RoleInMiddle(x: seq<Member>, y: seq<Member>, z: seq<Member>, role: Role, group: string)
    requires forall l | 0 <= l < |x| :: x[l].role != role || x[l].group != group
    requires forall l | 0 <= l < |z| :: z[l].role != role || z[l].group != group
    ensures OfRole(x + y + z, role, group) == OfRole(y, role, group)
  {
    OfRoleJoins(x + y, z, role, group);
    OfRoleJoins(x, y, role, group);
    OfRoleNone(x, role, group);
    OfRoleNone(z, role, group);
  }

  /** An instance's members stand together in the plan. */
  lemma PlanAround(ins: seq<Instance>, slots: map<string, int>, i: nat)
    requires i < |ins|
    ensures
      var plan, a, b := PlanWith(ins, slots), |PlanWith(ins[..i], slots)|, |PlanWith(ins[..i + 1], slots)|;
      a <= b <= |plan| && plan == plan[..a] + MembersOf(ins[i], slots) + plan[b..]
  {
    PlanStep(ins, slots, i);
    PlanPrefixAt(ins, slots, i + 1);
    Around(PlanWith(ins[..i], slots), MembersOf(ins[i], slots), PlanWith(ins, slots));
  }

  lemma PlanPrefixAt(ins: seq<Instance>, slots: map<string, int>, j: nat)
    requires j <= |ins|
    ensures PlanWith(ins[..j], slots) <= PlanWith(ins, slots)
  {
    var x, y := ins[..j], ins[j..];
    assert ins == x + y;
    PlanPrefix(x, y, slots);
  }

  lemma Around(before: seq<Member>, own: seq<Member>, plan: seq<Member>)
    requires before + own <= plan
    ensures plan == plan[..|before|] + own + plan[|before + own|..]
  {
    var head := before + own;
    assert plan[..|head|] == head && plan[..|before|] == before;
    assert plan == plan[..|head|] + plan[|head|..];
  }

  /**
   In every plan, a sharded cluster's routers, config servers and shard members are, in
   order, the first member, the next ones and the rest of its own instance.
   */
  lemma PlannedRoles(ins: seq<Instance>, i: nat, role: Role)
    requires DistinctNames(ins) && i < |ins| && ins[i].kind == PSMDBSharded && role in {Mongos, Config, Shard}
    ensures OfRole(Planned(ins), role, ins[i].name) == Stretch(ins[i], SlotMap(ins), role)
  {
    RoleOfPlan(ins, SlotMap(ins), i, role);
    ShardedLayout(ins[i], SlotMap(ins), role);
  }

  function ClientPorts(s: seq<Member>): seq<int> {
    seq(|s|, k requires 0 <= k < |s| => s[k].ports.client)
  }

  /** The config servers' client ports, as the router's configDB lists them. */
  method ConfigPorts(cfg: seq<Member>, group: string) returns (ports: seq<int>)
    ensures ports == ClientPorts(OfRole(cfg, Config, group))
  {
    ports := [];
    for i := 0 to |cfg|
      invariant ports == ClientPorts(OfRole(cfg[..i], Config, group))
    {
      OfRoleStep(cfg, i, Config, group);
      if cfg[i].group == group && cfg[i].role == Config {
        ClientPortsStep(OfRole(cfg[..i], Config, group), cfg[i]);
        ports := ports + [cfg[i].ports.client];
      }
    }
    assert cfg[..|cfg|] == cfg;
  }

  lemma ClientPortsStep(s: seq<Member>, x: Member)
    ensures ClientPorts(s + [x]) == ClientPorts(s) + [x.ports.client]
  {
  }

  lemma InstAt(it: Instance, slots: map<string, int>, l: nat)
    requires IsCluster(it.kind) && Known(it.kind) && l < it.Count()
    ensures MembersOf(it, slots)[l].inst == it.name + "-n" + Itoa(l + 1)
  {
  }

  lemma ShardInstsDistinct(it: Instance, slots: map<string, int>)
    requires it.kind == PSMDBSharded
    ensures DistinctInsts(MembersOf(it, slots)) && DistinctInsts(Stretch(it, slots, Shard))
  {
    var ms := MembersOf(it, slots);
    forall a, b | 0 <= a < b < |ms|
      ensures ms[a].inst != ms[b].inst
    {
      InstAt(it, slots, a);
      InstAt(it, slots, b);
      if ms[a].inst == ms[b].inst {
        SuffixUnique(it.name, a + 1, it.name, b + 1);
      }
    }
  }

  lemma EqualShards(s: seq<Member>, size: nat, shard: nat)
    requires DistinctInsts(s) && size > 0 && |s| == MONGO_SHARDS * size && shard < MONGO_SHARDS
    ensures OfShard(s, |s|, shard) == s[shard * size..(shard + 1) * size]
  {
    ShardIsSlice(s, shard);
    assert ReplicaSetSize(|s|) == size;
    assert shard == 0 || shard == 1 || shard == 2;
  }

  /** Every planned sharded cluster has exactly three shards, each of the planned replica-set size. */
  lemma PlannedShards(ins: seq<Instance>, i: nat, shard: nat)
    requires DistinctNames(ins) && i < |ins| && ins[i].kind == PSMDBSharded && shard < MONGO_SHARDS
    ensures
      var s := OfRole(Planned(ins), Shard, ins[i].name);
      var size := ShardedTopo(ins[i].Count()).rsSize;
      |s| == MONGO_SHARDS * size && OfShard(s, |s|, shard) == s[shard * size..(shard + 1) * size]
  {
    var slots := SlotMap(ins);
    RoleOfPlan(ins, slots, i, Shard);
    ShardedLayout(ins[i], slots, Shard);
    ShardInstsDistinct(ins[i], slots);
    StretchLength(ins[i], slots);
    EqualShards(OfRole(Planned(ins), Shard, ins[i].name), ShardedTopo(ins[i].Count()).rsSize, shard);
  }

  lemma StretchLength(it: Instance, slots: map<string, int>)
    requires it.kind == PSMDBSharded
    ensures |Stretch(it, slots, Shard)| == MONGO_SHARDS * ShardedTopo(it.Count()).rsSize
  {
  }
}
