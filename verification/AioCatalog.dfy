/**
 The All-in-One node's feature catalog and port layout (app/aio_ports.go): which kinds
 exist, how many daemons each runs, and which ports one daemon gets out of its slot.
 */
module AioCatalog {
  datatype Kind =
    | PS | PSRepl | InnoDB | PXC
    | MySQLCE | MySQLCERepl | MySQLCEInnoDB
    | MariaDB | MariaDBRepl | MariaDBGalera
    | PG | Patroni | Repmgr | Spock
    | PSMDB | PSMRS | PSMDBSharded
    | Valkey | ValkeyCluster
    | ProxySQL | HAProxy | Orchestrator
    | Unknown(id: string)

  datatype Family = FamMySQL | FamPG | FamMongo | FamValkey | FamProxy | FamHAProxy | FamOrch

  predicate Known(k: Kind) {
    !k.Unknown?
  }

  function FamilyOf(k: Kind): Family
    requires Known(k)
  {
    match k
    case PG | Patroni | Repmgr | Spock => FamPG
    case PSMDB | PSMRS | PSMDBSharded => FamMongo
    case Valkey | ValkeyCluster => FamValkey
    case ProxySQL => FamProxy
    case HAProxy => FamHAProxy
    case Orchestrator => FamOrch
    case _ => FamMySQL
  }

  predicate IsCluster(k: Kind) {
    match k
    case PS | MySQLCE | MariaDB | PG | PSMDB | Valkey | HAProxy | Orchestrator | Unknown(_) => false
    case _ => true
  }

  datatype Bounds = Bounds(min: int, max: int, def: int)

  function BoundsOf(k: Kind): Bounds
    requires IsCluster(k)
  {
    match k
    case PSRepl | PXC | MySQLCERepl | MariaDBRepl | Patroni | Repmgr => Bounds(2, 5, 3)
    case InnoDB | MySQLCEInnoDB => Bounds(3, 9, 3)
    case MariaDBGalera => Bounds(3, 5, 3)
    case Spock => Bounds(2, 5, 2)
    case PSMRS | ValkeyCluster => Bounds(3, 7, 3)
    case PSMDBSharded => Bounds(5, 13, 5)
    case ProxySQL => Bounds(1, 3, 1)
  }

  /** The only member counts a fixed-topology kind accepts. */
  const SHARDED_CHOICES := [5, 13]

  /** How many daemons an instance runs: always at least one, and within its kind's bounds. */
  function MemberCount(k: Kind, members: int): (n: int)
    ensures n >= 1
    ensures !IsCluster(k) ==> n == 1
    ensures IsCluster(k) ==> BoundsOf(k).min <= n <= BoundsOf(k).max
    ensures k == PSMDBSharded ==> n in SHARDED_CHOICES
  {
    if !IsCluster(k) then 1
    else if k == PSMDBSharded then
      if members >= 13 then 13 else if members >= 5 then 5 else BoundsOf(k).def
    else if members < BoundsOf(k).min then BoundsOf(k).def
    else if members > BoundsOf(k).max then BoundsOf(k).max
    else members
  }

  /**
   A count the kind accepts is taken as it is; beyond the bounds it snaps to the largest,
   below them to the default, and between two fixed totals to the lower one.
   */
  lemma CountHonoured(k: Kind, members: int)
    requires IsCluster(k)
    ensures k == PSMDBSharded && members in SHARDED_CHOICES ==> MemberCount(k, members) == members
    ensures k != PSMDBSharded && BoundsOf(k).min <= members <= BoundsOf(k).max ==> MemberCount(k, members) == members
    ensures k == PSMDBSharded && members >= 5 ==>
      && MemberCount(k, members) <= members
      && forall c | c in SHARDED_CHOICES && c <= members :: c <= MemberCount(k, members)
    ensures members > BoundsOf(k).max ==> MemberCount(k, members) == BoundsOf(k).max
    ensures members < BoundsOf(k).min ==> MemberCount(k, members) == BoundsOf(k).def
    ensures MemberCount(k, MemberCount(k, members)) == MemberCount(k, members)
  {
  }

  datatype Shape = NoShape | Single | Repl | GR | Galera

  function MySQLShape(k: Kind): Shape {
    match k
    case PS | MariaDB | MySQLCE => Single
    case PSRepl | MariaDBRepl | MySQLCERepl => Repl
    case InnoDB | MySQLCEInnoDB => GR
    case PXC | MariaDBGalera => Galera
    case _ => NoShape
  }

  // ------------------------------------------------------------ ports

  const SLOT_WIDTH := 10
  const SLOTS_PER_FAMILY := 100

  function FamilyBase(f: Family): int {
    match f
    case FamMySQL => 13000
    case FamPG => 15000
    case FamProxy => 16000
    case FamMongo => 17000
    case FamHAProxy => 18000
    case FamValkey => 19000
    case FamOrch => 20000
  }

  /** One daemon's ports; 0 means "not used by this kind". */
  datatype Ports = Ports(base: int, client: int, admin: int, group: int, ist: int, sst: int,
                         check: int, rest: int, etcdCli: int, etcdPr: int)

  function PortsFor(k: Kind, slot: int, member: int): Ports
    requires Known(k)
  {
    var fam := FamilyOf(k);
    var base := FamilyBase(fam) + (slot + member) * SLOT_WIDTH;
    var p := Ports(base, base, 0, 0, 0, 0, 0, 0, 0, 0);
    match fam
    case FamMySQL => p.(admin := base + 1, group := base + 2, ist := base + 3, sst := base + 4, check := base + 5)
    case FamPG => p.(rest := base + 1, etcdCli := base + 2, etcdPr := base + 3)
    case FamMongo => p
    case FamValkey => p.(group := base + 1)
    case FamProxy => p.(admin := base + 1, group := base + 2)
    case FamHAProxy => p.(check := base + 1, admin := base + 2)
    case FamOrch => p
  }

  function Fields(p: Ports): seq<int> {
    [p.client, p.admin, p.group, p.ist, p.sst, p.check, p.rest, p.etcdCli, p.etcdPr]
  }

  /** Every port a daemon binds, in field order. */
  function NonZero(s: seq<int>): seq<int> {
    if s == [] then []
    else NonZero(s[..|s| - 1]) + (if s[|s| - 1] != 0 then [s[|s| - 1]] else [])
  }

  lemma {:induction false} NonZeroCount(s: seq<int>, v: int)
    ensures multiset(NonZero(s))[v] == if v == 0 then 0 else multiset(s)[v]
  {
    if s != [] {
      NonZeroCount(s[..|s| - 1], v);
      assert s == s[..|s| - 1] + [s[|s| - 1]];
    }
  }

  predicate Ascending(s: seq<int>) {
    forall i, j | 0 <= i < j < |s| :: s[i] <= s[j]
  }

  /** The sorted list of a daemon's ports: an ordering of exactly its non-zero fields. */
  method ListPorts(p: Ports) returns (out: seq<int>)
    ensures Ascending(out)
    ensures forall v :: multiset(out)[v] == if v == 0 then 0 else multiset(Fields(p))[v]
  {
    out := SortNonZero(Fields(p));
  }

  method SortNonZero(fields: seq<int>) returns (out: seq<int>)
    ensures Ascending(out)
    ensures forall v :: multiset(out)[v] == if v == 0 then 0 else multiset(fields)[v]
  {
    out := [];
    for i := 0 to |fields|
      invariant Ascending(out) && multiset(out) == multiset(NonZero(fields[..i]))
    {
      assert fields[..i + 1][..i] == fields[..i];
      if fields[i] != 0 {
        out := InsertSorted(out, fields[i]);
      }
    }
    assert fields[..|fields|] == fields;
    forall v
      ensures multiset(out)[v] == if v == 0 then 0 else multiset(fields)[v]
    {
      NonZeroCount(fields, v);
    }
  }

  method InsertSorted(s: seq<int>, v: int) returns (t: seq<int>)
    requires Ascending(s)
    ensures Ascending(t) && multiset(t) == multiset(s) + multiset{v}
  {
    var k := 0;
    while k < |s| && s[k] <= v
      invariant 0 <= k <= |s|
      invariant forall i | 0 <= i < k :: s[i] <= v
    {
      k := k + 1;
    }
    t := s[..k] + [v] + s[k..];
    assert s == s[..k] + s[k..];
  }

  /** The ports a classic single-product node of this family would use. */
  function DefaultPorts(f: Family): set<int> {
    match f
    case FamMySQL => {3306, 33060, 4567, 4568, 4444, 9200}
    case FamPG => {5432, 8008, 2379, 2380}
    case FamMongo => {27017}
    case FamValkey => {6379, 16379}
    case FamProxy => {6033, 6032, 6035}
    case FamHAProxy => {5000, 5001, 8404}
    case FamOrch => {3000}
  }
}
