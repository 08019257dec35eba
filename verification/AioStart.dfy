/**
 From the plan to the start order: the registry that aioctl reads is the plan row by row
 (app/aio.go), so what aioctl does with a planned cluster can be said of the plan itself.
 */
module AioStart {
  import opened Prelude
  import opened AioCatalog
  import opened AioPlan
  import opened AioPlanProofs
  import opened AioMongo
  import Ctl = AioCtl

  predicate Blank(s: string) {
    forall k | 0 <= k < |s| :: IsSpace(s[k])
  }

  /** An empty or blank field is written as a dash. */
  function Dash(s: string): string {
    if Blank(s) then "-" else s
  }

  function RowOf(m: Member): Ctl.Row {
    Ctl.Row(m.inst, Dash(m.group), m.role)
  }

  function RowsOf(ms: seq<Member>): seq<Ctl.Row> {
    seq(|ms|, k requires 0 <= k < |ms| => RowOf(ms[k]))
  }

  /** The registry lists the plan in order. */
  method WriteRegistry(plan: seq<Member>) returns (rows: seq<Ctl.Row>)
    ensures rows == RowsOf(plan)
    ensures forall k | 0 <= k < |plan| ::
      && rows[k].inst == plan[k].inst && rows[k].role == plan[k].role
      && rows[k].group == if forall c | c in plan[k].group :: IsSpace(c) then "-" else plan[k].group
  {
    rows := [];
    for i := 0 to |plan|
      invariant |rows| == i && forall k | 0 <= k < i :: rows[k] == RowOf(plan[k])
    {
      rows := rows + [Ctl.Row(plan[i].inst, Dash(plan[i].group), plan[i].role)];
    }
  }

  // ------------------------------------------------------------ a group's rows

  lemma GroupInMiddle(x: seq<Ctl.Row>, y: seq<Ctl.Row>, z: seq<Ctl.Row>, g: string)
    requires forall k | 0 <= k < |x| :: x[k].group != g
    requires forall k | 0 <= k < |y| :: y[k].group == g
    requires forall k | 0 <= k < |z| :: z[k].group != g
    ensures Ctl.RowsIn(x + y + z, g) == y
  {
    Ctl.RowsInJoins(x + y, z, g);
    Ctl.RowsInJoins(x, y, g);
    Ctl.RowsInNone(x, g);
    Ctl.RowsInAll(y, g);
    Ctl.RowsInNone(z, g);
  }

  /** A name that can be a group's: sanitised names are never blank once validated, nor a lone dash. */
  predicate GroupName(name: string) {
    !Blank(name) && name != "-"
  }

  lemma ForeignRow(ins: seq<Instance>, slots: map<string, int>, i: nat, k: nat)
    requires DistinctNames(ins) && i < |ins| && GroupName(ins[i].name)
    requires k < |PlanWith(ins, slots)|
    requires k < |PlanWith(ins[..i], slots)| || k >= |PlanWith(ins[..i + 1], slots)|
    ensures RowOf(PlanWith(ins, slots)[k]).group != ins[i].name
  {
    var j, m := Locate(ins, slots, k);
    PlanStep(ins, slots, i);
    MemberGroup(ins[j], Get(slots, ins[j].id), m);
  }

  lemma MemberGroup(it: Instance, slot: int, m: nat)
    requires Known(it.kind)
    ensures MemberOf(it, slot, m).group == GroupOf(it)
  {
  }

  lemma RowsOfJoin(x: seq<Member>, y: seq<Member>, z: seq<Member>)
    ensures RowsOf(x + y + z) == RowsOf(x) + RowsOf(y) + RowsOf(z)
  {
  }

  /** The rows of a planned cluster's group are its members', in order. */
  lemma GroupRows(ins: seq<Instance>, slots: map<string, int>, i: nat)
    requires DistinctNames(ins) && i < |ins| && IsCluster(ins[i].kind) && GroupName(ins[i].name)
    ensures Ctl.RowsIn(RowsOf(PlanWith(ins, slots)), ins[i].name) == RowsOf(MembersOf(ins[i], slots))
  {
    var plan, a, b := PlanWith(ins, slots), |PlanWith(ins[..i], slots)|, |PlanWith(ins[..i + 1], slots)|;
    var own := MembersOf(ins[i], slots);
    PlanAround(ins, slots, i);
    RowsOfJoin(plan[..a], own, plan[b..]);
    forall k: nat | k < |plan| && (k < a || k >= b)
      ensures RowOf(plan[k]).group != ins[i].name
    {
      ForeignRow(ins, slots, i, k);
    }
    MembersAgree(ins[i], slots);
    GroupInMiddle(RowsOf(plan[..a]), RowsOf(own), RowsOf(plan[b..]), ins[i].name);
  }

  // ------------------------------------------------------------ its start order

  /** Every cluster but a sharded one has its seed first, and only there. */
  lemma SeedFirst(it: Instance, slots: map<string, int>, k: nat)
    requires IsCluster(it.kind) && it.kind != PSMDBSharded && k < it.Count()
    ensures
      var rank := Ctl.Rank(MembersOf(it, slots)[k].role);
      rank == if k == 0 && it.Count() > 1 then 0 else 1
  {
  }

  lemma ShardedRanks(it: Instance, slots: map<string, int>, k: nat)
    requires it.kind == PSMDBSharded && k < it.Count()
    ensures
      Ctl.Rank(MembersOf(it, slots)[k].role) ==
        if k == 0 then 2 else if k <= ShardedTopo(it.Count()).configs then 0 else 1
  {
  }

  /** A router in front of sorted rows goes to the back. */
  lemma RouterGoesLast(l: Ctl.Row, rest: seq<Ctl.Row>)
    requires Ctl.Rank(l.role) == 2 && Ctl.SortedByRank(rest)
    requires forall k | 0 <= k < |rest| :: Ctl.Rank(rest[k].role) < 2
    ensures Ctl.Sorted([l] + rest) == rest + [l]
  {
    Ctl.SortedIsRanks(rest);
    Ctl.SortedCons(l, rest);
    Ctl.OfRankNone(rest, 2);
    var a, b := Ctl.OfRank(rest, 0), Ctl.OfRank(rest, 1);
    assert a + b + [] == a + b && a + b + [l] + [] == a + b + [l];
  }

  /**
   Starting a planned cluster: its members start in plan order, so its seed comes first;
   a sharded cluster starts with its config servers, then its shards, and its router
   comes last.
   */
  lemma ClusterStartOrder(ins: seq<Instance>, i: nat)
    requires DistinctNames(ins) && i < |ins| && IsCluster(ins[i].kind) && GroupName(ins[i].name)
    ensures
      var ms := MembersOf(ins[i], SlotMap(ins));
      Ctl.Sorted(Ctl.RowsIn(RowsOf(Planned(ins)), ins[i].name)) ==
        if ins[i].kind == PSMDBSharded then RowsOf(ms[1..]) + RowsOf(ms[..1]) else RowsOf(ms)
  {
    GroupRows(ins, SlotMap(ins), i);
    if ins[i].kind == PSMDBSharded {
      ShardedStart(ins[i], SlotMap(ins));
    } else {
      SeededStart(ins[i], SlotMap(ins));
    }
  }

  lemma SeededStart(it: Instance, slots: map<string, int>)
    requires IsCluster(it.kind) && it.kind != PSMDBSharded
    ensures Ctl.Sorted(RowsOf(MembersOf(it, slots))) == RowsOf(MembersOf(it, slots))
  {
    var rows := RowsOf(MembersOf(it, slots));
    forall k | 0 <= k < |rows|
      ensures Ctl.Rank(rows[k].role) == if k == 0 && it.Count() > 1 then 0 else 1
    {
      SeedFirst(it, slots, k);
    }
    Ctl.SortedIsRanks(rows);
  }

  lemma ShardedStart(it: Instance, slots: map<string, int>)
    requires it.kind == PSMDBSharded
    ensures
      var ms := MembersOf(it, slots);
      Ctl.Sorted(RowsOf(ms)) == RowsOf(ms[1..]) + RowsOf(ms[..1])
  {
    var ms := MembersOf(it, slots);
    var rest := RowsOf(ms[1..]);
    forall k | 0 <= k < |rest|
      ensures Ctl.Rank(rest[k].role) == if k < ShardedTopo(it.Count()).configs then 0 else 1
    {
      ShardedRanks(it, slots, k + 1);
    }
    ShardedRanks(it, slots, 0);
    assert RowsOf(ms) == [RowOf(ms[0])] + rest && RowsOf(ms[..1]) == [RowOf(ms[0])];
    RouterGoesLast(RowOf(ms[0]), rest);
  }
}
