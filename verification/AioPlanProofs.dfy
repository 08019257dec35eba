/**
 What every plan guarantees: no two daemons share a port, none takes a default one,
 adding instances moves nothing, ids are distinct, and peer lists computed from the
 design agree with the plan.
 */
module AioPlanProofs {
  import opened Prelude
  import opened AioCatalog
  import opened AioPlan

  ghost predicate DistinctIds(ins: seq<Instance>) {
    forall i, j | 0 <= i < j < |ins| && Known(ins[i].kind) && Known(ins[j].kind) :: ins[i].id != ins[j].id
  }

  ghost predicate DistinctNames(ins: seq<Instance>) {
    forall i, j | 0 <= i < j < |ins| :: ins[i].name != ins[j].name
  }

  /** What validation enforces per family. */
  ghost predicate Fits(ins: seq<Instance>) {
    forall f: Family :: SlotsUsed(ins, f) <= SLOTS_PER_FAMILY
  }

  /** The slots an instance takes out of a family. */
  function Takes(it: Instance, f: Family): nat {
    if Known(it.kind) && FamilyOf(it.kind) == f then it.Count() else 0
  }

  // ------------------------------------------------------------ slots

  /** Slots are handed out in declaration order and never reused. */
  lemma {:induction false} SlotsGrow(ins: seq<Instance>, i: nat, j: nat, f: Family)
    requires i < j <= |ins|
    ensures SlotsUsed(ins[..i], f) + Takes(ins[i], f) <= SlotsUsed(ins[..j], f)
    decreases j
  {
    assert ins[..j][..j - 1] == ins[..j - 1];
    if i < j - 1 {
      SlotsGrow(ins, i, j - 1, f);
    }
  }

  /** An instance's slots begin after those of the earlier ones, unless its id is declared again later. */
  lemma {:induction false} SlotMapAt(ins: seq<Instance>, i: nat)
    requires i < |ins| && Known(ins[i].kind)
    requires forall j | i < j < |ins| && Known(ins[j].kind) :: ins[j].id != ins[i].id
    ensures ins[i].id in SlotMap(ins)
    ensures SlotMap(ins)[ins[i].id] == SlotsUsed(ins[..i], FamilyOf(ins[i].kind))
    decreases |ins|
  {
    var before := ins[..|ins| - 1];
    if i < |ins| - 1 {
      SlotMapAt(before, i);
      assert before[..i] == ins[..i];
    }
  }

  // ------------------------------------------------------------ positions in the plan

  /** Daemon k of a plan is member m of instance i, and k is determined by the pair. */
  ghost predicate Stands(ins: seq<Instance>, slots: map<string, int>, k: nat, i: nat, m: nat) {
    && i < |ins| && k < |PlanWith(ins, slots)|
    && Known(ins[i].kind) && m < ins[i].Count()
    && k == |PlanWith(ins[..i], slots)| + m
    && PlanWith(ins, slots)[k] == MemberOf(ins[i], Get(slots, ins[i].id), m)
  }

  lemma StandsLater(ins: seq<Instance>, slots: map<string, int>, k: nat, i: nat, m: nat)
    requires ins != [] && Stands(ins[..|ins| - 1], slots, k, i, m)
    ensures Stands(ins, slots, k, i, m)
  {
    assert ins[..|ins| - 1][..i] == ins[..i];
  }

  lemma StandsLast(ins: seq<Instance>, slots: map<string, int>, m: nat)
    requires ins != []
    requires m < |MembersOf(ins[|ins| - 1], slots)|
    ensures Stands(ins, slots, |PlanWith(ins[..|ins| - 1], slots)| + m, |ins| - 1, m)
  {
    var before, own := PlanWith(ins[..|ins| - 1], slots), MembersOf(ins[|ins| - 1], slots);
    assert (before + own)[|before| + m] == own[m];
  }

  lemma {:induction false} Locate(ins: seq<Instance>, slots: map<string, int>, k: nat) returns (i: nat, m: nat)
    requires k < |PlanWith(ins, slots)|
    ensures Stands(ins, slots, k, i, m)
  {
    var start := |PlanWith(ins[..|ins| - 1], slots)|;
    if k < start {
      i, m := Locate(ins[..|ins| - 1], slots, k);
      StandsLater(ins, slots, k, i, m);
    } else {
      i, m := |ins| - 1, k - start;
      StandsLast(ins, slots, m);
    }
  }

  lemma {:induction false} Place(ins: seq<Instance>, slots: map<string, int>, i: nat, m: nat) returns (k: nat)
    requires i < |ins| && Known(ins[i].kind) && m < ins[i].Count()
    ensures Stands(ins, slots, k, i, m)
    decreases |ins|
  {
    if i < |ins| - 1 {
      k := Place(ins[..|ins| - 1], slots, i, m);
      StandsLater(ins, slots, k, i, m);
    } else {
      k := |PlanWith(ins[..i], slots)| + m;
      StandsLast(ins, slots, m);
    }
  }

  // ------------------------------------------------------------ ports

  /** The ports a daemon binds. */
  function PortSet(p: Ports): set<int> {
    set v | v in Fields(p) && v != 0
  }

  /** The slot a daemon occupies in its family. */
  lemma SlotOf(ins: seq<Instance>, k: nat) returns (i: nat, m: nat, slot: nat)
    requires DistinctIds(ins) && k < |Planned(ins)|
    ensures Stands(ins, SlotMap(ins), k, i, m)
    ensures slot == SlotsUsed(ins[..i], FamilyOf(ins[i].kind)) + m < SlotsUsed(ins, FamilyOf(ins[i].kind))
    ensures Planned(ins)[k].ports == PortsFor(ins[i].kind, slot, 0)
  {
    i, m := Locate(ins, SlotMap(ins), k);
    SlotMapAt(ins, i);
    SlotsGrow(ins, i, |ins|, FamilyOf(ins[i].kind));
    assert ins[..|ins|] == ins;
    slot := SlotsUsed(ins[..i], FamilyOf(ins[i].kind)) + m;
  }

  /** A slot's ports are six consecutive ones at most, all different. */
  lemma PortsInSlot(k: Kind, slot: nat)
    requires Known(k)
    ensures
      var p := PortsFor(k, slot, 0);
      && p.base == FamilyBase(FamilyOf(k)) + slot * SLOT_WIDTH
      && (forall v | v in PortSet(p) :: p.base <= v <= p.base + 5)
      && (forall a, b | 0 <= a < b < 9 && Fields(p)[a] != 0 && Fields(p)[b] != 0 :: Fields(p)[a] != Fields(p)[b])
  {
  }

  /** Two different daemons of one family stand in different slots. */
  lemma SlotsDiffer(ins: seq<Instance>, i: nat, m: nat, j: nat, n: nat)
    requires i <= j < |ins| && Known(ins[i].kind) && Known(ins[j].kind)
    requires FamilyOf(ins[i].kind) == FamilyOf(ins[j].kind)
    requires m < ins[i].Count() && (i == j ==> m != n)
    ensures SlotsUsed(ins[..i], FamilyOf(ins[i].kind)) + m != SlotsUsed(ins[..j], FamilyOf(ins[j].kind)) + n
  {
    if i < j {
      SlotsGrow(ins, i, j, FamilyOf(ins[i].kind));
    }
  }

  /** Different slots of one family, and any slots of two, have no port in common. */
  lemma SlotsApart(k: Kind, s: nat, l: Kind, t: nat)
    requires Known(k) && Known(l) && s < SLOTS_PER_FAMILY && t < SLOTS_PER_FAMILY
    requires FamilyOf(k) == FamilyOf(l) ==> s != t
    ensures PortSet(PortsFor(k, s, 0)) !! PortSet(PortsFor(l, t, 0))
  {
    PortsInSlot(k, s);
    PortsInSlot(l, t);
  }

  /** No two daemons of a plan share a port. */
  lemma PortsDisjoint(ins: seq<Instance>, a: nat, b: nat)
    requires DistinctIds(ins) && Fits(ins)
    requires a < |Planned(ins)| && b < |Planned(ins)| && a != b
    ensures PortSet(Planned(ins)[a].ports) !! PortSet(Planned(ins)[b].ports)
  {
    var i, m, s := SlotOf(ins, a);
    var j, n, t := SlotOf(ins, b);
    if FamilyOf(ins[i].kind) == FamilyOf(ins[j].kind) {
      if i <= j {
        SlotsDiffer(ins, i, m, j, n);
      } else {
        SlotsDiffer(ins, j, n, i, m);
      }
    }
    SlotsApart(ins[i].kind, s, ins[j].kind, t);
  }

  /** Every daemon's ports are distinct, inside its family's range, and none is a default port. */
  lemma PortsSound(ins: seq<Instance>, k: nat)
    requires DistinctIds(ins) && Fits(ins) && k < |Planned(ins)|
    ensures
      var x := Planned(ins)[k];
      && (forall v | v in PortSet(x.ports) :: FamilyBase(x.family) <= v < FamilyBase(x.family) + 1000)
      && (forall v, f | v in PortSet(x.ports) :: v !in DefaultPorts(f))
      && (forall a, b | 0 <= a < b < 9 && Fields(x.ports)[a] != 0 && Fields(x.ports)[b] != 0 ::
            Fields(x.ports)[a] != Fields(x.ports)[b])
  {
    var i, m, slot := SlotOf(ins, k);
    PortsInSlot(ins[i].kind, slot);
    forall v, f | v in PortSet(Planned(ins)[k].ports)
      ensures v !in DefaultPorts(f)
    {
      NotDefault(ins[i].kind, slot, v, f);
    }
  }

  /** Every port a plan hands out is from 13000 to 20999 and ends in a digit up to 5. */
  lemma PortShape(k: Kind, slot: nat, v: int)
    requires Known(k) && slot < SLOTS_PER_FAMILY && v in PortSet(PortsFor(k, slot, 0))
    ensures 13000 <= v < 21000 && v % 10 <= 5
  {
    PortsInSlot(k, slot);
    var base := FamilyBase(FamilyOf(k)) + slot * SLOT_WIDTH;
    assert base % 10 == 0;
    var d := v - base;
    assert v % 10 == d;
  }

  /** The only default port in that range is the Valkey bus, 16379, which ends in 9. */
  lemma DefaultShape(f: Family)
    ensures forall v | v in DefaultPorts(f) :: v < 13000 || v >= 21000 || v % 10 > 5
  {
  }

  lemma NotDefault(k: Kind, slot: nat, v: int, f: Family)
    requires Known(k) && slot < SLOTS_PER_FAMILY && v in PortSet(PortsFor(k, slot, 0))
    ensures v !in DefaultPorts(f)
  {
    PortShape(k, slot, v);
    DefaultShape(f);
  }

  /** Two instances of a family under one id always collide. */
  lemma SharedIdCollides(ins: seq<Instance>, i: nat, j: nat) returns (a: nat, b: nat)
    requires i < j < |ins| && ins[i].id == ins[j].id
    requires Known(ins[i].kind) && Known(ins[j].kind) && FamilyOf(ins[i].kind) == FamilyOf(ins[j].kind)
    ensures a < b < |Planned(ins)| && Planned(ins)[a].ports.client == Planned(ins)[b].ports.client
  {
    var slots := SlotMap(ins);
    a := Place(ins, slots, i, 0);
    b := Place(ins, slots, j, 0);
    PlanGrows(ins, slots, i, j);
  }

  lemma {:induction false} PlanGrows(ins: seq<Instance>, slots: map<string, int>, i: nat, j: nat)
    requires i < j <= |ins|
    ensures |PlanWith(ins[..i], slots)| + |MembersOf(ins[i], slots)| <= |PlanWith(ins[..j], slots)|
    decreases j
  {
    assert ins[..j][..j - 1] == ins[..j - 1];
    if i < j - 1 {
      PlanGrows(ins, slots, i, j - 1);
    }
  }

  // ------------------------------------------------------------ what a member is

  /** Every port has its fixed place in the slot, counted from the client port; a kind's other ports are unused. */
  lemma PortOffsets(k: Kind, slot: nat, m: nat)
    requires Known(k)
    ensures
      var p := PortsFor(k, slot, m);
      Fields(p) == match FamilyOf(k)
        case FamMySQL => [p.base, p.base + 1, p.base + 2, p.base + 3, p.base + 4, p.base + 5, 0, 0, 0]
        case FamPG => [p.base, 0, 0, 0, 0, 0, p.base + 1, p.base + 2, p.base + 3]
        case FamProxy => [p.base, p.base + 1, p.base + 2, 0, 0, 0, 0, 0, 0]
        case FamHAProxy => [p.base, p.base + 2, 0, 0, 0, p.base + 1, 0, 0, 0]
        case FamValkey => [p.base, 0, p.base + 1, 0, 0, 0, 0, 0, 0]
        case _ => [p.base, 0, 0, 0, 0, 0, 0, 0, 0]
  {
  }

  /**
   The first member of a cluster is its one seed or, when sharded, its router, and no later
   member is; the copies of a replicated server are replicas; and only what is no cluster
   is a standalone. A lone ProxySQL needs no seed.
   */
  lemma SeedIsFirst(it: Instance, slot: int, m: nat)
    requires Known(it.kind) && m < it.Count()
    ensures
      var role := MemberOf(it, slot, m).role;
      && (role == Standalone <==> !IsCluster(it.kind))
      && (role in {Primary, Bootstrap, Mongos} <==>
            IsCluster(it.kind) && m == 0 && !(it.kind == ProxySQL && it.Count() == 1))
      && (role == Primary ==> MySQLShape(it.kind) == Repl || it.kind in {Patroni, Repmgr, Spock, PSMRS})
      && (role == Bootstrap ==> MySQLShape(it.kind) in {GR, Galera} || it.kind in {ValkeyCluster, ProxySQL})
      && (role == Replica <==> MySQLShape(it.kind) == Repl && m > 0)
      && (role in {Mongos, Config, Shard} <==> it.kind == PSMDBSharded)
  {
  }

  /** What a string of digits stands for. */
  function Value(s: string): nat {
    if s == [] || !('0' <= s[|s| - 1] <= '9') then 0
    else 10 * Value(s[..|s| - 1]) + (s[|s| - 1] as int - '0' as int)
  }

  lemma {:induction false} ItoaIsDecimal(n: nat)
    ensures Value(Itoa(n)) == n
  {
    var s := Itoa(n);
    assert s[|s| - 1] == Digit(n % 10);
    DigitValue(n % 10);
    if n >= 10 {
      ItoaIsDecimal(n / 10);
      assert s[..|s| - 1] == Itoa(n / 10);
    } else {
      assert s[..|s| - 1] == [];
    }
  }

  lemma DigitValue(d: nat)
    requires d < 10
    ensures '0' <= Digit(d) <= '9' && Digit(d) as int - '0' as int == d
  {
  }

  /** A standalone goes by its name; a cluster's members by theirs with -n1, -n2 and so on in decimal. */
  lemma MemberNames(it: Instance, slot: int, m: nat)
    requires Known(it.kind) && m < it.Count()
    ensures
      var inst := MemberOf(it, slot, m).inst;
      if !IsCluster(it.kind) then inst == it.name
      else exists digits :: inst == it.name + "-n" + digits && AllDigits(digits) && Value(digits) == m + 1
  {
    ItoaDigits(m + 1);
    ItoaIsDecimal(m + 1);
  }

  // ------------------------------------------------------------ slots are daemons

  /** How many daemons of a family a plan has. */
  function InFamily(plan: seq<Member>, f: Family): nat {
    if plan == [] then 0
    else InFamily(plan[..|plan| - 1], f) + if plan[|plan| - 1].family == f then 1 else 0
  }

  lemma {:induction false} InFamilyJoins(x: seq<Member>, y: seq<Member>, f: Family)
    ensures InFamily(x + y, f) == InFamily(x, f) + InFamily(y, f)
    decreases |y|
  {
    if y == [] {
      assert x + y == x;
    } else {
      InFamilyJoins(x, y[..|y| - 1], f);
      assert (x + y)[..|x + y| - 1] == x + y[..|y| - 1];
    }
  }

  lemma {:induction false} InFamilyUniform(x: seq<Member>, f: Family, g: Family)
    requires forall l | 0 <= l < |x| :: x[l].family == g
    ensures InFamily(x, f) == if f == g then |x| else 0
  {
    if x != [] {
      InFamilyUniform(x[..|x| - 1], f, g);
    }
  }

  lemma MembersFamily(it: Instance, slots: map<string, int>, m: nat, f: Family)
    requires Known(it.kind) && m <= it.Count()
    ensures InFamily(MembersOf(it, slots)[..m], f) == if f == FamilyOf(it.kind) then m else 0
  {
    InFamilyUniform(MembersOf(it, slots)[..m], f, FamilyOf(it.kind));
  }

  /** A family uses exactly as many slots as the plan has daemons of it, whatever the slot map. */
  lemma {:induction false} SlotsAreDaemons(ins: seq<Instance>, slots: map<string, int>, f: Family)
    ensures SlotsUsed(ins, f) == InFamily(PlanWith(ins, slots), f)
  {
    if ins != [] {
      var before, last := ins[..|ins| - 1], ins[|ins| - 1];
      SlotsAreDaemons(before, slots, f);
      InFamilyJoins(PlanWith(before, slots), MembersOf(last, slots), f);
      if Known(last.kind) {
        MembersFamily(last, slots, last.Count(), f);
        assert MembersOf(last, slots)[..last.Count()] == MembersOf(last, slots);
      }
    }
  }

  lemma PlanUpTo(ins: seq<Instance>, slots: map<string, int>, k: nat, i: nat, m: nat)
    requires Stands(ins, slots, k, i, m)
    ensures PlanWith(ins, slots)[..k] == PlanWith(ins[..i], slots) + MembersOf(ins[i], slots)[..m]
  {
    var next := ins[..i + 1];
    assert ins == next + ins[i + 1..];
    PlanPrefix(next, ins[i + 1..], slots);
    PlanStep(ins, slots, i);
    UpTo(PlanWith(ins[..i], slots), MembersOf(ins[i], slots), PlanWith(ins, slots), m);
  }

  lemma UpTo(x: seq<Member>, y: seq<Member>, plan: seq<Member>, m: nat)
    requires x + y <= plan && m <= |y|
    ensures plan[..|x| + m] == x + y[..m]
  {
    assert plan[..|x| + m] == (x + y)[..|x| + m];
  }

  /**
   Slots are handed out without a gap: the first daemon of a family stands at the family's
   base, and every further one ten ports after the one before.
   */
  lemma SlotsInOrder(ins: seq<Instance>, k: nat)
    requires DistinctIds(ins) && k < |Planned(ins)|
    ensures
      var x := Planned(ins)[k];
      x.ports.base == FamilyBase(x.family) + SLOT_WIDTH * InFamily(Planned(ins)[..k], x.family)
  {
    var slots := SlotMap(ins);
    var i, m, slot := SlotOf(ins, k);
    var f := FamilyOf(ins[i].kind);
    PlanUpTo(ins, slots, k, i, m);
    InFamilyJoins(PlanWith(ins[..i], slots), MembersOf(ins[i], slots)[..m], f);
    SlotsAreDaemons(ins[..i], slots, f);
    MembersFamily(ins[i], slots, m, f);
    SlotBase(ins[i].kind, slot);
  }

  lemma SlotBase(k: Kind, slot: nat)
    requires Known(k)
    ensures PortsFor(k, slot, 0).base == FamilyBase(FamilyOf(k)) + SLOT_WIDTH * slot
  {
  }

  // ------------------------------------------------------------ exactly when ports are disjoint

  /** The ten-port block where an instance's first daemon stands, counted over all families. */
  function FirstBlock(ins: seq<Instance>, i: nat): int
    requires i < |ins| && Known(ins[i].kind)
  {
    FamilyBase(FamilyOf(ins[i].kind)) / SLOT_WIDTH + Get(SlotMap(ins), ins[i].id)
  }

  /** No two instances' blocks overlap, with the slots they end up with, shared ids or not. */
  ghost predicate BlocksApart(ins: seq<Instance>) {
    forall i, j | 0 <= i < j < |ins| && Known(ins[i].kind) && Known(ins[j].kind) ::
      || FirstBlock(ins, i) + ins[i].Count() <= FirstBlock(ins, j)
      || FirstBlock(ins, j) + ins[j].Count() <= FirstBlock(ins, i)
  }

  ghost predicate AllDisjoint(plan: seq<Member>) {
    forall a, b | 0 <= a < b < |plan| :: PortSet(plan[a].ports) !! PortSet(plan[b].ports)
  }

  lemma {:induction false} SlotMapNatural(ins: seq<Instance>, id: string)
    ensures Get(SlotMap(ins), id) >= 0
  {
    if ins != [] {
      SlotMapNatural(ins[..|ins| - 1], id);
    }
  }

  /** The ports are some of a block's first six, its very first among them. */
  ghost predicate Fills(ports: set<int>, block: int) {
    SLOT_WIDTH * block in ports &&
    forall v | v in ports :: SLOT_WIDTH * block <= v <= SLOT_WIDTH * block + 5
  }

  lemma SpreadFills(p: Ports, block: int)
    requires p.client == SLOT_WIDTH * block > 0
    requires forall v | v in PortSet(p) :: p.client <= v <= p.client + 5
    ensures Fills(PortSet(p), block)
  {
    assert Fields(p)[0] == p.client;
  }

  lemma FamilyAligned(f: Family)
    ensures FamilyBase(f) == SLOT_WIDTH * (FamilyBase(f) / SLOT_WIDTH) > 0
  {
  }

  lemma BlockIsFilled(k: Kind, slot: nat, ports: Ports, block: int)
    requires Known(k) && ports == PortsFor(k, slot, 0) && block == FamilyBase(FamilyOf(k)) / SLOT_WIDTH + slot
    ensures Fills(PortSet(ports), block)
  {
    FamilyAligned(FamilyOf(k));
    PortsInSlot(k, slot);
    SpreadFills(ports, block);
  }

  lemma MemberPorts(it: Instance, slot: nat, m: nat)
    requires Known(it.kind)
    ensures MemberOf(it, slot, m).ports == PortsFor(it.kind, slot + m, 0)
  {
  }

  lemma FilledApart(ps: set<int>, p: int, qs: set<int>, q: int)
    requires Fills(ps, p) && Fills(qs, q)
    ensures ps !! qs <==> p != q
  {
    if p == q {
      assert SLOT_WIDTH * p in ps && SLOT_WIDTH * p in qs;
    } else {
      assert forall v | v in ps :: v !in qs;
    }
  }

  /** Daemon k of a plan stands in the block of some member of some instance. */
  ghost predicate InBlock(ins: seq<Instance>, k: nat, i: nat, m: nat) {
    && k < |Planned(ins)| && i < |ins| && Known(ins[i].kind) && m < ins[i].Count()
    && k == |PlanWith(ins[..i], SlotMap(ins))| + m
    && Fills(PortSet(Planned(ins)[k].ports), FirstBlock(ins, i) + m)
  }

  lemma {:induction false} StandsInBlock(ins: seq<Instance>, k: nat, i: nat, m: nat)
    requires Stands(ins, SlotMap(ins), k, i, m)
    ensures InBlock(ins, k, i, m)
  {
    var slot := Get(SlotMap(ins), ins[i].id);
    SlotMapNatural(ins, ins[i].id);
    MemberPorts(ins[i], slot, m);
    BlockIsFilled(ins[i].kind, slot + m, Planned(ins)[k].ports, FirstBlock(ins, i) + m);
  }

  lemma FindBlock(ins: seq<Instance>, k: nat) returns (i: nat, m: nat)
    requires k < |Planned(ins)|
    ensures InBlock(ins, k, i, m)
  {
    i, m := Locate(ins, SlotMap(ins), k);
    StandsInBlock(ins, k, i, m);
  }

  lemma FillBlock(ins: seq<Instance>, i: nat, m: nat) returns (k: nat)
    requires i < |ins| && Known(ins[i].kind) && m < ins[i].Count()
    ensures InBlock(ins, k, i, m)
  {
    k := Place(ins, SlotMap(ins), i, m);
    StandsInBlock(ins, k, i, m);
  }

  lemma BlockOrder(ins: seq<Instance>, a: nat, i: nat, m: nat, b: nat, j: nat, n: nat)
    requires i < j < |ins| && Known(ins[i].kind) && m < ins[i].Count()
    requires a == |PlanWith(ins[..i], SlotMap(ins))| + m && b == |PlanWith(ins[..j], SlotMap(ins))| + n
    ensures a < b
  {
    PlanGrows(ins, SlotMap(ins), i, j);
  }

  lemma SameBlockCollides(ins: seq<Instance>, a: nat, i: nat, m: nat, b: nat, j: nat, n: nat)
    requires InBlock(ins, a, i, m) && InBlock(ins, b, j, n) && FirstBlock(ins, i) + m == FirstBlock(ins, j) + n
    ensures !(PortSet(Planned(ins)[a].ports) !! PortSet(Planned(ins)[b].ports))
  {
    FilledApart(
      PortSet(Planned(ins)[a].ports), FirstBlock(ins, i) + m, PortSet(Planned(ins)[b].ports), FirstBlock(ins, j) + n);
  }

  lemma OverlapCollides(ins: seq<Instance>, i: nat, m: nat, j: nat, n: nat) returns (a: nat, b: nat)
    requires i < j < |ins| && Known(ins[i].kind) && Known(ins[j].kind)
    requires m < ins[i].Count() && n < ins[j].Count() && FirstBlock(ins, i) + m == FirstBlock(ins, j) + n
    ensures a < b < |Planned(ins)| && !(PortSet(Planned(ins)[a].ports) !! PortSet(Planned(ins)[b].ports))
  {
    a := FillBlock(ins, i, m);
    b := FillBlock(ins, j, n);
    BlockOrder(ins, a, i, m, b, j, n);
    SameBlockCollides(ins, a, i, m, b, j, n);
  }

  lemma ApartIsDisjoint(ins: seq<Instance>, a: nat, b: nat)
    requires BlocksApart(ins) && a < b < |Planned(ins)|
    ensures PortSet(Planned(ins)[a].ports) !! PortSet(Planned(ins)[b].ports)
  {
    var i, m := FindBlock(ins, a);
    var j, n := FindBlock(ins, b);
    FilledApart(
      PortSet(Planned(ins)[a].ports), FirstBlock(ins, i) + m, PortSet(Planned(ins)[b].ports), FirstBlock(ins, j) + n);
  }

  /**
   For every list of instances, whatever ids they share and however many slots they take:
   no two daemons share a port if and only if no two instances' blocks overlap.
   */
  lemma DisjointExactly(ins: seq<Instance>)
    ensures AllDisjoint(Planned(ins)) <==> BlocksApart(ins)
  {
    if BlocksApart(ins) {
      forall a, b | 0 <= a < b < |Planned(ins)|
        ensures PortSet(Planned(ins)[a].ports) !! PortSet(Planned(ins)[b].ports)
      {
        ApartIsDisjoint(ins, a, b);
      }
    }
    if AllDisjoint(Planned(ins)) {
      forall i, j | 0 <= i < j < |ins| && Known(ins[i].kind) && Known(ins[j].kind)
        ensures
          || FirstBlock(ins, i) + ins[i].Count() <= FirstBlock(ins, j)
          || FirstBlock(ins, j) + ins[j].Count() <= FirstBlock(ins, i)
      {
        var p, q := FirstBlock(ins, i), FirstBlock(ins, j);
        if p < q + ins[j].Count() && q < p + ins[i].Count() {
          var a, b := OverlapCollides(ins, i, if q > p then q - p else 0, j, if p > q then p - q else 0);
        }
      }
    }
  }

  /**
   An id shared by two families can collide: here the second MySQL server is put at the
   slot of the PostgreSQL server, which is zero and taken.
   */
  lemma SharedAcrossCollides(a: Instance, b: Instance, c: Instance)
    requires a.kind == PS && b.kind == PS && c.kind == PG && a.id != b.id == c.id
    ensures !AllDisjoint(Planned([a, b, c]))
  {
    SlotsOfThree(a, b, c);
    DisjointExactly([a, b, c]);
    assert FirstBlock([a, b, c], 0) == FirstBlock([a, b, c], 1);
  }

  /** And it need not: one server of each family may share an id. */
  lemma SharedAcrossHarmless(a: Instance, b: Instance)
    requires a.kind == PS && b.kind == PG
    ensures AllDisjoint(Planned([a, b]))
  {
    SlotsOfTwo(a, b);
    DisjointExactly([a, b]);
  }

  lemma SlotsOfTwo(a: Instance, b: Instance)
    requires a.kind == PS && Known(b.kind)
    ensures SlotMap([a, b]) == map[a.id := 0][b.id := if FamilyOf(b.kind) == FamMySQL then 1 else 0]
  {
    assert [a, b][..1] == [a] && [a][..0] == [];
    assert SlotsUsed([], FamMySQL) == 0 && forall f: Family :: SlotsUsed([a], f) == Takes(a, f);
    assert SlotMap([a]) == map[a.id := 0];
  }

  lemma SlotsOfThree(a: Instance, b: Instance, c: Instance)
    requires a.kind == PS && b.kind == PS && c.kind == PG
    ensures SlotMap([a, b, c]) == map[a.id := 0][b.id := 1][c.id := 0]
  {
    SlotsOfTwo(a, b);
    assert [a, b, c][..2] == [a, b] && [a, b][..1] == [a] && [a][..0] == [];
    assert SlotsUsed([], FamPG) == 0 && SlotsUsed([a], FamPG) == 0 && SlotsUsed([a, b], FamPG) == 0;
  }

  // ------------------------------------------------------------ adding instances

  /** A plan depends on the slot map only at the ids of its own instances. */
  lemma {:induction false} PlanDepends(ins: seq<Instance>, s: map<string, int>, t: map<string, int>)
    requires forall i | 0 <= i < |ins| && Known(ins[i].kind) :: Get(s, ins[i].id) == Get(t, ins[i].id)
    ensures PlanWith(ins, s) == PlanWith(ins, t)
  {
    if ins != [] {
      PlanDepends(ins[..|ins| - 1], s, t);
      assert MembersOf(ins[|ins| - 1], s) == MembersOf(ins[|ins| - 1], t);
    }
  }

  lemma {:induction false} PlanPrefix(ins: seq<Instance>, more: seq<Instance>, slots: map<string, int>)
    ensures PlanWith(ins, slots) <= PlanWith(ins + more, slots)
    decreases |more|
  {
    if more == [] {
      assert ins + more == ins;
    } else {
      PlanPrefix(ins, more[..|more| - 1], slots);
      assert (ins + more)[..|ins + more| - 1] == ins + more[..|more| - 1];
    }
  }

  /** How many daemons an instance list plans does not depend on the slots. */
  lemma {:induction false} PlanLength(ins: seq<Instance>, s: map<string, int>, t: map<string, int>)
    ensures |PlanWith(ins, s)| == |PlanWith(ins, t)|
  {
    if ins != [] {
      PlanLength(ins[..|ins| - 1], s, t);
    }
  }

  /** Instance j of the added ones is the last to declare its id. */
  ghost predicate LastUse(more: seq<Instance>, j: nat) {
    j < |more| && Known(more[j].kind) && forall l | j < l < |more| && Known(more[l].kind) :: more[l].id != more[j].id
  }

  lemma {:induction false} SlotMapUntouched(ins: seq<Instance>, more: seq<Instance>, id: string)
    requires forall j | 0 <= j < |more| && Known(more[j].kind) :: more[j].id != id
    ensures Get(SlotMap(ins + more), id) == Get(SlotMap(ins), id)
    decreases |more|
  {
    if more == [] {
      assert ins + more == ins;
    } else {
      var before := more[..|more| - 1];
      SlotMapUntouched(ins, before, id);
      assert (ins + more)[..|ins + more| - 1] == ins + before;
    }
  }

  /** The slot map after adding instances: an id declared again moves to its last declaration. */
  lemma SlotMapReused(ins: seq<Instance>, more: seq<Instance>, j: nat)
    requires LastUse(more, j)
    ensures Get(SlotMap(ins + more), more[j].id) == SlotsUsed(ins + more[..j], FamilyOf(more[j].kind))
  {
    var all, i := ins + more, |ins| + j;
    assert all[..i] == ins + more[..j];
    forall l | i < l < |all| && Known(all[l].kind)
      ensures all[l].id != all[i].id
    {
      assert all[l] == more[l - |ins|];
    }
    SlotMapAt(all, i);
  }

  lemma {:induction false} FindLastUse(more: seq<Instance>, id: string) returns (j: int)
    ensures j < 0 ==> forall l | 0 <= l < |more| && Known(more[l].kind) :: more[l].id != id
    ensures j >= 0 ==> LastUse(more, j) && more[j].id == id
  {
    if more == [] {
      j := -1;
    } else if Known(more[|more| - 1].kind) && more[|more| - 1].id == id {
      j := |more| - 1;
    } else {
      j := FindLastUse(more[..|more| - 1], id);
    }
  }

  /** Every id declared again begins, at its last declaration, at the slot it already had. */
  ghost predicate ReusesInPlace(ins: seq<Instance>, more: seq<Instance>) {
    forall i: nat, j: nat | i < |ins| && Known(ins[i].kind) && LastUse(more, j) && more[j].id == ins[i].id ::
      SlotsUsed(ins + more[..j], FamilyOf(more[j].kind)) == Get(SlotMap(ins), ins[i].id)
  }

  /**
   Adding instances leaves the daemons already planned exactly as they were if and only
   if no id is declared again at another slot; in particular when the added ids are new.
   */
  lemma AddingMovesNothing(ins: seq<Instance>, more: seq<Instance>)
    ensures Planned(ins) <= Planned(ins + more) <==> ReusesInPlace(ins, more)
  {
    var s, t := SlotMap(ins), SlotMap(ins + more);
    PlanPrefix(ins, more, t);
    PlanLength(ins, s, t);
    if ReusesInPlace(ins, more) {
      forall i | 0 <= i < |ins| && Known(ins[i].kind)
        ensures Get(s, ins[i].id) == Get(t, ins[i].id)
      {
        var j := FindLastUse(more, ins[i].id);
        if j < 0 {
          SlotMapUntouched(ins, more, ins[i].id);
        } else {
          SlotMapReused(ins, more, j);
        }
      }
      PlanDepends(ins, s, t);
    }
    if Planned(ins) <= Planned(ins + more) {
      assert PlanWith(ins, s) == PlanWith(ins, t);
      forall i: nat, j: nat | i < |ins| && Known(ins[i].kind) && LastUse(more, j) && more[j].id == ins[i].id
        ensures SlotsUsed(ins + more[..j], FamilyOf(more[j].kind)) == Get(s, ins[i].id)
      {
        SamePlanSameSlot(ins, s, t, i);
        SlotMapReused(ins, more, j);
      }
    }
  }

  lemma MemberBase(it: Instance, slot: int, m: nat)
    requires Known(it.kind)
    ensures MemberOf(it, slot, m).ports.base == FamilyBase(FamilyOf(it.kind)) + (slot + m) * SLOT_WIDTH
  {
  }

  /** Equal plans put every instance at the same slot: each has at least one daemon to show it. */
  lemma SamePlanSameSlot(ins: seq<Instance>, s: map<string, int>, t: map<string, int>, i: nat)
    requires i < |ins| && Known(ins[i].kind) && PlanWith(ins, s) == PlanWith(ins, t)
    ensures Get(s, ins[i].id) == Get(t, ins[i].id)
  {
    var k := Place(ins, s, i, 0);
    var l := Place(ins, t, i, 0);
    PlanLength(ins[..i], s, t);
    SameBaseSameSlot(ins[i], Get(s, ins[i].id), Get(t, ins[i].id));
  }

  lemma SameBaseSameSlot(it: Instance, x: int, y: int)
    requires Known(it.kind) && MemberOf(it, x, 0) == MemberOf(it, y, 0)
    ensures x == y
  {
    MemberBase(it, x, 0);
    MemberBase(it, y, 0);
  }

  /** An id declared again in its own family does move the daemons planned under it. */
  lemma ReuseMoves()
    ensures
      var ins := [Instance("x", "a", PS, 1)];
      var more := [Instance("x", "b", PS, 1)];
      !(Planned(ins) <= Planned(ins + more))
  {
    var ins := [Instance("x", "a", PS, 1)];
    var more := [Instance("x", "b", PS, 1)];
    assert LastUse(more, 0);
    assert more[..0] == [] && ins + more[..0] == ins && ins[..0] == [];
    assert SlotsUsed(ins, FamMySQL) == 1 && Get(SlotMap(ins), "x") == 0;
    assert ins[0].id == more[0].id;
    AddingMovesNothing(ins, more);
  }
  // ------------------------------------------------------------ member ids

  predicate AllDigits(s: string) {
    forall i | 0 <= i < |s| :: '0' <= s[i] <= '9'
  }

  lemma {:induction false} ItoaDigits(n: nat)
    ensures Itoa(n) != [] && AllDigits(Itoa(n))
  {
    if n >= 10 {
      ItoaDigits(n / 10);
    }
  }

  lemma DigitInjective(c: nat, d: nat)
    requires c < 10 && d < 10 && Digit(c) == Digit(d)
    ensures c == d
  {
  }

  lemma {:induction false} ItoaInjective(a: nat, b: nat)
    requires Itoa(a) == Itoa(b)
    ensures a == b
  {
    var s, t := Itoa(a), Itoa(b);
    if a >= 10 {
      ItoaDigits(a / 10);
      assert s[..|s| - 1] == Itoa(a / 10);
    }
    if b >= 10 {
      ItoaDigits(b / 10);
      assert t[..|t| - 1] == Itoa(b / 10);
    }
    DigitInjective(a % 10, b % 10);
    if a >= 10 && b >= 10 {
      ItoaInjective(a / 10, b / 10);
    }
  }

  /** A number after -n can be read back: the digits end at the last letter. */
  lemma SuffixUnique(x: string, a: nat, y: string, b: nat)
    requires x + "-n" + Itoa(a) == y + "-n" + Itoa(b)
    ensures x == y && a == b
  {
    ItoaDigits(a);
    ItoaDigits(b);
    SuffixAligned(x, Itoa(a), y, Itoa(b));
    ItoaInjective(a, b);
  }

  lemma SuffixAligned(x: string, s: string, y: string, t: string)
    requires x + "-n" + s == y + "-n" + t && AllDigits(s) && AllDigits(t)
    ensures x == y && s == t
  {
    var z := x + "-n" + s;
    assert z[|x| + 1] == 'n' && z[|y| + 1] == 'n';
    assert forall i | |x| + 2 <= i < |z| :: z[i] == s[i - |x| - 2];
    assert forall i | |y| + 2 <= i < |z| :: z[i] == t[i - |y| - 2];
    assert |x| == |y|;
    assert x == z[..|x|] == y;
    assert s == z[|x| + 2..] == t;
  }

  /** A standalone instance carries the name that a cluster gives to one of its members. */
  ghost predicate NameClash(ins: seq<Instance>, i: nat, j: nat, m: nat) {
    && i < |ins| && j < |ins| && Known(ins[i].kind) && !IsCluster(ins[i].kind)
    && IsCluster(ins[j].kind) && m < ins[j].Count()
    && ins[i].name == ins[j].name + "-n" + Itoa(m + 1)
  }

  ghost predicate DistinctMemberIds(ins: seq<Instance>) {
    forall a, b | 0 <= a < b < |Planned(ins)| :: Planned(ins)[a].inst != Planned(ins)[b].inst
  }

  /** Two daemons under one id can only be a standalone and a cluster member named after it. */
  lemma SameIdIsClash(ins: seq<Instance>, i: nat, m: nat, j: nat, n: nat)
    requires DistinctNames(ins) && i < |ins| && j < |ins| && (i == j ==> m != n)
    requires Known(ins[i].kind) && Known(ins[j].kind) && m < ins[i].Count() && n < ins[j].Count()
    requires
      MemberInst(ins[i].name, ins[i].kind, m, ins[i].Count()) ==
      MemberInst(ins[j].name, ins[j].kind, n, ins[j].Count())
    ensures NameClash(ins, i, j, n) || NameClash(ins, j, i, m)
  {
    if IsCluster(ins[i].kind) && IsCluster(ins[j].kind) {
      SuffixUnique(ins[i].name, m + 1, ins[j].name, n + 1);
    }
  }

  lemma ClashIsSameId(ins: seq<Instance>, i: nat, j: nat, m: nat)
    requires NameClash(ins, i, j, m)
    ensures !DistinctMemberIds(ins)
  {
    var a := Place(ins, SlotMap(ins), i, 0);
    var b := Place(ins, SlotMap(ins), j, m);
    var x, y := Planned(ins)[a], Planned(ins)[b];
    assert x.inst == y.inst && x.kind == ins[i].kind && y.kind == ins[j].kind;
    assert a != b;
  }

  lemma SameIdHasClash(ins: seq<Instance>, a: nat, b: nat)
    requires DistinctNames(ins) && a < b < |Planned(ins)| && Planned(ins)[a].inst == Planned(ins)[b].inst
    ensures exists i, j, m :: NameClash(ins, i, j, m)
  {
    var i, m := Locate(ins, SlotMap(ins), a);
    var j, n := Locate(ins, SlotMap(ins), b);
    SameIdIsClash(ins, i, m, j, n);
  }

  /** With distinct names, the ids of all daemons are distinct exactly when no such name is taken. */
  lemma MemberIdsDistinct(ins: seq<Instance>)
    requires DistinctNames(ins)
    ensures DistinctMemberIds(ins) <==> !exists i, j, m :: NameClash(ins, i, j, m)
  {
    if i, j, m :| NameClash(ins, i, j, m) {
      ClashIsSameId(ins, i, j, m);
    } else if a, b :| 0 <= a < b < |Planned(ins)| && Planned(ins)[a].inst == Planned(ins)[b].inst {
      SameIdHasClash(ins, a, b);
    }
  }

  // ------------------------------------------------------------ peer lists

  lemma OfGroupSnoc(x: seq<Member>, z: Member, shape: Shape, group: string)
    ensures
      OfGroup(x + [z], shape, group) ==
        if MySQLShape(z.kind) == shape && z.group == group then OfGroup(x, shape, group) + [z]
        else OfGroup(x, shape, group)
  {
    assert (x + [z])[..|x|] == x;
    assert OfGroup(x, shape, group) + [] == OfGroup(x, shape, group);
  }

  lemma {:induction false} OfGroupJoins(x: seq<Member>, y: seq<Member>, shape: Shape, group: string)
    ensures OfGroup(x + y, shape, group) == OfGroup(x, shape, group) + OfGroup(y, shape, group)
    decreases |y|
  {
    if y == [] {
      assert x + y == x;
    } else {
      var before, last := y[..|y| - 1], y[|y| - 1];
      OfGroupJoins(x, before, shape, group);
      assert y == before + [last] && x + y == x + before + [last];
      OfGroupSnoc(x + before, last, shape, group);
      OfGroupSnoc(before, last, shape, group);
      Assoc(OfGroup(x, shape, group), OfGroup(before, shape, group), [last]);
    }
  }

  /** Members that agree on kind and group are selected together or not at all. */
  lemma {:induction false} OfGroupUniform(x: seq<Member>, k: Kind, g: string, shape: Shape, group: string)
    requires forall l | 0 <= l < |x| :: x[l].kind == k && x[l].group == g
    ensures OfGroup(x, shape, group) == if MySQLShape(k) == shape && g == group then x else []
  {
    if x != [] {
      var before, last := x[..|x| - 1], x[|x| - 1];
      assert x == before + [last];
      OfGroupUniform(before, k, g, shape, group);
      OfGroupSnoc(before, last, shape, group);
    }
  }

  function GroupOf(it: Instance): string {
    if IsCluster(it.kind) then it.name else ""
  }

  lemma MembersAgree(it: Instance, slots: map<string, int>)
    ensures forall l | 0 <= l < |MembersOf(it, slots)| ::
      MembersOf(it, slots)[l].kind == it.kind && MembersOf(it, slots)[l].group == GroupOf(it)
  {
  }

  lemma OwnMembers(it: Instance, slots: map<string, int>)
    requires MySQLShape(it.kind) in {Repl, GR, Galera}
    ensures OfGroup(MembersOf(it, slots), MySQLShape(it.kind), it.name) == MembersOf(it, slots)
  {
    MembersAgree(it, slots);
    OfGroupUniform(MembersOf(it, slots), it.kind, GroupOf(it), MySQLShape(it.kind), it.name);
  }

  lemma ForeignMembers(it: Instance, slots: map<string, int>, shape: Shape, name: string)
    requires shape in {Repl, GR, Galera} && it.name != name
    ensures OfGroup(MembersOf(it, slots), shape, name) == []
  {
    MembersAgree(it, slots);
    OfGroupUniform(MembersOf(it, slots), it.kind, GroupOf(it), shape, name);
  }

  lemma PlanStep(ins: seq<Instance>, slots: map<string, int>, j: nat)
    requires j < |ins|
    ensures PlanWith(ins[..j + 1], slots) == PlanWith(ins[..j], slots) + MembersOf(ins[j], slots)
  {
    assert ins[..j + 1][..j] == ins[..j];
  }

  lemma Units<T>(x: seq<T>, y: seq<T>)
    ensures x == [] ==> x + y == y
    ensures y == [] ==> x + y == x
  {
  }

  lemma GroupStep(ins: seq<Instance>, slots: map<string, int>, n: nat, shape: Shape, name: string)
    requires n < |ins|
    ensures
      var x, y := OfGroup(PlanWith(ins[..n], slots), shape, name), OfGroup(MembersOf(ins[n], slots), shape, name);
      var both := OfGroup(PlanWith(ins[..n + 1], slots), shape, name);
      (x == [] ==> both == y) && (y == [] ==> both == x)
  {
    PlanStep(ins, slots, n);
    OfGroupJoins(PlanWith(ins[..n], slots), MembersOf(ins[n], slots), shape, name);
    Units(OfGroup(PlanWith(ins[..n], slots), shape, name), OfGroup(MembersOf(ins[n], slots), shape, name));
  }

  /** Instances of other names add nothing to a group. */
  lemma {:induction false} NothingAdded(
    ins: seq<Instance>, slots: map<string, int>, i: nat, n: nat, shape: Shape, name: string)
    requires shape in {Repl, GR, Galera} && i <= n <= |ins| && forall j | i <= j < n :: ins[j].name != name
    ensures OfGroup(PlanWith(ins[..n], slots), shape, name) == OfGroup(PlanWith(ins[..i], slots), shape, name)
    decreases n
  {
    if i < n {
      NothingAdded(ins, slots, i, n - 1, shape, name);
      ForeignMembers(ins[n - 1], slots, shape, name);
      GroupStep(ins, slots, n - 1, shape, name);
    }
  }

  lemma OnlyAdded(ins: seq<Instance>, slots: map<string, int>, i: nat, shape: Shape, name: string)
    requires shape in {Repl, GR, Galera} && i < |ins| && forall j | 0 <= j < |ins| && j != i :: ins[j].name != name
    ensures OfGroup(PlanWith(ins, slots), shape, name) == OfGroup(MembersOf(ins[i], slots), shape, name)
  {
    NothingAdded(ins, slots, 0, i, shape, name);
    GroupStep(ins, slots, i, shape, name);
    NothingAdded(ins, slots, i + 1, |ins|, shape, name);
    assert ins[..0] == [] && ins[..|ins|] == ins;
  }

  /** Selecting a replicated, Group Replication or Galera group finds one instance's members, in order. */
  lemma GroupIsInstance(ins: seq<Instance>, slots: map<string, int>, i: nat)
    requires DistinctNames(ins) && i < |ins| && MySQLShape(ins[i].kind) in {Repl, GR, Galera}
    ensures OfGroup(PlanWith(ins, slots), MySQLShape(ins[i].kind), ins[i].name) == MembersOf(ins[i], slots)
  {
    OnlyAdded(ins, slots, i, MySQLShape(ins[i].kind), ins[i].name);
    OwnMembers(ins[i], slots);
  }

  lemma {:induction false} FindNameUnique(ins: seq<Instance>, i: nat)
    requires DistinctNames(ins) && i < |ins|
    ensures FindName(ins, ins[i].name) == i
    decreases |ins|
  {
    if i < |ins| - 1 {
      FindNameUnique(ins[..|ins| - 1], i);
    }
  }

  /**
   For every Group Replication member of a plan, the seed list its my.cnf recomputes is
   the group ports the plan gave to the members of its group, in order; so all members
   of a group write the same list, and each finds its own address in it.
   */
  lemma SeedsAgree(ins: seq<Instance>, k: nat)
    requires DistinctNames(ins) && k < |Planned(ins)| && MySQLShape(Planned(ins)[k].kind) == GR
    ensures
      var me := Planned(ins)[k];
      var peers := OfGroup(Planned(ins), GR, me.group);
      && Seeds(ins, me.group) == Some(seq(|peers|, j requires 0 <= j < |peers| => peers[j].ports.group))
      && me in peers && me.ports.group in Seeds(ins, me.group).value
  {
    var i, m := Locate(ins, SlotMap(ins), k);
    GroupIsInstance(ins, SlotMap(ins), i);
    SeedsOfInstance(ins, i);
    assert MembersOf(ins[i], SlotMap(ins))[m] == Planned(ins)[k];
    assert Seeds(ins, ins[i].name).value[m] == Planned(ins)[k].ports.group;
  }

  lemma SeedsOfInstance(ins: seq<Instance>, i: nat)
    requires DistinctNames(ins) && i < |ins| && Known(ins[i].kind)
    ensures
      var ms := MembersOf(ins[i], SlotMap(ins));
      Seeds(ins, ins[i].name) == Some(seq(|ms|, j requires 0 <= j < |ms| => ms[j].ports.group))
  {
    FindNameUnique(ins, i);
    var ms := MembersOf(ins[i], SlotMap(ins));
    assert Seeds(ins, ins[i].name).value == seq(|ms|, j requires 0 <= j < |ms| => ms[j].ports.group);
  }
}
