/**
 The order in which aioctl starts and stops an All-in-One node's instances (the script
 in app/aio_ctl.go): groups one after another with their seeds first and their routers
 last, then the instances that belong to no group; stopping walks the list backwards.
 */
module AioCtl {
  import opened Prelude
  import opened AioPlan

  /** A registry row: the instance, its group ("-" for none) and its role. */
  datatype Row = Row(inst: string, group: string, role: Role)

  const NO_GROUP := "-"

  /** Seeds first, then plain members, and routers last. */
  function Rank(role: Role): nat {
    if role == Mongos then 2 else if role == Bootstrap || role == Primary || role == Config then 0 else 1
  }

  function RowsIn(rows: seq<Row>, g: string): seq<Row> {
    if rows == [] then [] else (if rows[0].group == g then [rows[0]] else []) + RowsIn(rows[1..], g)
  }

  function OfRank(rows: seq<Row>, r: nat): seq<Row> {
    if rows == [] then [] else (if Rank(rows[0].role) == r then [rows[0]] else []) + OfRank(rows[1..], r)
  }

  // ------------------------------------------------------------ a stable sort by rank

  predicate SortedByRank(s: seq<Row>) {
    forall i, j | 0 <= i < j < |s| :: Rank(s[i].role) <= Rank(s[j].role)
  }

  /** The stable sort: each rank in the order it came in. */
  function Sorted(rows: seq<Row>): seq<Row> {
    OfRank(rows, 0) + OfRank(rows, 1) + OfRank(rows, 2)
  }

  /** Puts a row after every row of its own rank or a lower one. */
  method InsertStable(s: seq<Row>, x: Row) returns (t: seq<Row>)
    requires SortedByRank(s)
    ensures SortedByRank(t)
    ensures forall r: nat :: OfRank(t, r) == OfRank(s + [x], r)
  {
    var k := |s|;
    while k > 0 && Rank(s[k - 1].role) > Rank(x.role)
      invariant 0 <= k <= |s|
      invariant forall i | k <= i < |s| :: Rank(s[i].role) > Rank(x.role)
    {
      k := k - 1;
    }
    t := s[..k] + [x] + s[k..];
    InsertedAt(s, k, x);
    InsertedSorted(s, k, x);
  }

  lemma InsertedSorted(s: seq<Row>, k: nat, x: Row)
    requires SortedByRank(s) && k <= |s| && (k > 0 ==> Rank(s[k - 1].role) <= Rank(x.role))
    requires forall i | k <= i < |s| :: Rank(s[i].role) > Rank(x.role)
    ensures SortedByRank(s[..k] + [x] + s[k..])
  {
    var t := s[..k] + [x] + s[k..];
    forall i, j | 0 <= i < j < |t|
      ensures Rank(t[i].role) <= Rank(t[j].role)
    {
      assert t[i] == (if i < k then s[i] else if i == k then x else s[i - 1]);
      assert t[j] == (if j < k then s[j] else if j == k then x else s[j - 1]);
    }
  }

  lemma InsertedAt(s: seq<Row>, k: nat, x: Row)
    requires k <= |s| && forall i | k <= i < |s| :: Rank(s[i].role) > Rank(x.role)
    ensures forall r: nat :: OfRank(s[..k] + [x] + s[k..], r) == OfRank(s + [x], r)
  {
    var a, b := s[..k], s[k..];
    assert s == a + b;
    forall r: nat
      ensures OfRank(a + [x] + b, r) == OfRank(s + [x], r)
    {
      MovePast(a, x, b, r);
    }
  }

  lemma {:induction false} OfRankJoins(x: seq<Row>, y: seq<Row>, r: nat)
    ensures OfRank(x + y, r) == OfRank(x, r) + OfRank(y, r)
  {
    if x == [] {
      assert x + y == y;
    } else {
      assert (x + y)[1..] == x[1..] + y;
      OfRankJoins(x[1..], y, r);
      Assoc(if Rank(x[0].role) == r then [x[0]] else [], OfRank(x[1..], r), OfRank(y, r));
    }
  }

  lemma {:induction false} OfRankNone(x: seq<Row>, r: nat)
    requires forall i | 0 <= i < |x| :: Rank(x[i].role) != r
    ensures OfRank(x, r) == []
  {
    if x != [] {
      OfRankNone(x[1..], r);
    }
  }

  lemma {:induction false} OfRankAll(x: seq<Row>, r: nat)
    requires forall i | 0 <= i < |x| :: Rank(x[i].role) == r
    ensures OfRank(x, r) == x
  {
    if x != [] {
      OfRankAll(x[1..], r);
    }
  }

  lemma MovePast(a: seq<Row>, x: Row, b: seq<Row>, r: nat)
    requires forall i | 0 <= i < |b| :: Rank(b[i].role) > Rank(x.role)
    ensures OfRank(a + [x] + b, r) == OfRank(a + b + [x], r)
  {
    OfRankJoins(a + [x], b, r);
    OfRankJoins(a, [x], r);
    OfRankJoins(a + b, [x], r);
    OfRankJoins(a, b, r);
    if r == Rank(x.role) {
      OfRankNone(b, r);
    } else {
      OfRankNone([x], r);
    }
  }

  /** Sorting row by row, each placed stably. */
  method SortStable(rows: seq<Row>) returns (t: seq<Row>)
    ensures t == Sorted(rows)
  {
    t := [];
    for i := 0 to |rows|
      invariant SortedByRank(t)
      invariant forall r: nat :: OfRank(t, r) == OfRank(rows[..i], r)
    {
      ghost var before := t;
      t := InsertStable(t, rows[i]);
      forall r: nat
        ensures OfRank(t, r) == OfRank(rows[..i + 1], r)
      {
        OfRankJoins(before, [rows[i]], r);
        OfRankJoins(rows[..i], [rows[i]], r);
        assert rows[..i + 1] == rows[..i] + [rows[i]];
      }
    }
    assert rows[..|rows|] == rows;
    StableSortUnique(rows, t);
  }

  lemma OfRankCons(l: Row, rest: seq<Row>, r: nat)
    ensures OfRank([l] + rest, r) == if Rank(l.role) == r then [l] + OfRank(rest, r) else OfRank(rest, r)
  {
    assert ([l] + rest)[1..] == rest;
  }

  lemma Weave(x: seq<Row>, a: seq<Row>, b: seq<Row>, c: seq<Row>)
    ensures x + a + b + c == x + (a + b + c)
    ensures a + (x + b) + c == a + x + (b + c)
    ensures a + b + (x + c) == a + b + x + c
  {
  }

  /** The front row joins its rank at the front of that rank. */
  lemma SortedCons(l: Row, rest: seq<Row>)
    ensures
      var a, b, c := OfRank(rest, 0), OfRank(rest, 1), OfRank(rest, 2);
      Sorted([l] + rest) ==
        if Rank(l.role) == 0 then [l] + (a + b + c)
        else if Rank(l.role) == 1 then a + [l] + (b + c)
        else a + b + [l] + c
  {
    OfRankCons(l, rest, 0);
    OfRankCons(l, rest, 1);
    OfRankCons(l, rest, 2);
    Weave([l], OfRank(rest, 0), OfRank(rest, 1), OfRank(rest, 2));
  }

  /** A sorted list is its ranks one after another. */
  lemma {:induction false} SortedIsRanks(s: seq<Row>)
    requires SortedByRank(s)
    ensures s == Sorted(s)
  {
    if s != [] {
      var l, rest := s[0], s[1..];
      assert s == [l] + rest;
      SortedIsRanks(rest);
      SortedCons(l, rest);
      NothingBefore(l, rest, OfRank(rest, 0), OfRank(rest, 1), OfRank(rest, 2));
    }
  }

  lemma NothingBefore(l: Row, rest: seq<Row>, a: seq<Row>, b: seq<Row>, c: seq<Row>)
    requires forall i | 0 <= i < |rest| :: Rank(l.role) <= Rank(rest[i].role)
    requires a == OfRank(rest, 0) && b == OfRank(rest, 1)
    ensures Rank(l.role) >= 1 ==> a + [l] + (b + c) == [l] + (a + b + c)
    ensures Rank(l.role) == 2 ==> a + b + [l] + c == [l] + (a + b + c)
  {
    if Rank(l.role) >= 1 {
      OfRankNone(rest, 0);
    }
    if Rank(l.role) == 2 {
      OfRankNone(rest, 1);
    }
    FrontOfEmpty([l], b, c);
  }

  lemma FrontOfEmpty(x: seq<Row>, b: seq<Row>, c: seq<Row>)
    ensures [] + x + (b + c) == x + ([] + b + c)
    ensures [] + [] + x + c == x + ([] + [] + c)
  {
  }

  /** Sorted by rank with every rank in registry order: there is only one such list. */
  lemma StableSortUnique(rows: seq<Row>, t: seq<Row>)
    requires SortedByRank(t) && forall r: nat :: OfRank(t, r) == OfRank(rows, r)
    ensures t == Sorted(rows)
  {
    SortedIsRanks(t);
  }

  // ------------------------------------------------------------ resolving

  method Select(rows: seq<Row>, g: string) returns (mine: seq<Row>)
    ensures mine == RowsIn(rows, g)
  {
    mine := [];
    for i := 0 to |rows|
      invariant mine + RowsIn(rows[i..], g) == RowsIn(rows, g)
    {
      assert rows[i..][1..] == rows[i + 1..];
      if rows[i].group == g {
        mine := mine + [rows[i]];
      }
    }
    assert rows[|rows|..] == [] && mine + [] == mine;
  }

  /** A group's instances in start order. */
  method InstsIn(rows: seq<Row>, g: string) returns (out: seq<Row>)
    ensures out == Sorted(RowsIn(rows, g))
  {
    var mine := Select(rows, g);
    out := SortStable(mine);
  }

  /** The groups in the order they first appear. */
  function Groups(rows: seq<Row>): seq<string> {
    if rows == [] then []
    else
      var before, g := Groups(rows[..|rows| - 1]), rows[|rows| - 1].group;
      if g == NO_GROUP || g in before then before else before + [g]
  }

  method AllGroups(rows: seq<Row>) returns (out: seq<string>)
    ensures out == Groups(rows)
  {
    out := [];
    var seen: set<string> := {};
    for i := 0 to |rows|
      invariant out == Groups(rows[..i]) && forall g :: g in seen <==> g in out
    {
      assert rows[..i + 1][..i] == rows[..i];
      var g := rows[i].group;
      if g != NO_GROUP && g !in seen {
        out, seen := out + [g], seen + {g};
      }
    }
    assert rows[..|rows|] == rows;
  }

  function InGroups(rows: seq<Row>, gs: seq<string>): seq<Row> {
    if gs == [] then [] else InGroups(rows, gs[..|gs| - 1]) + Sorted(RowsIn(rows, gs[|gs| - 1]))
  }

  /** Everything: group after group, then what belongs to none. */
  function StartAll(rows: seq<Row>): seq<Row> {
    InGroups(rows, Groups(rows)) + RowsIn(rows, NO_GROUP)
  }

  datatype Selector = All | Named(name: string)

  datatype Resolved = Start(list: seq<string>) | NotFound

  function Names(rows: seq<Row>): seq<string> {
    seq(|rows|, i requires 0 <= i < |rows| => rows[i].inst)
  }

  function Resolution(rows: seq<Row>, sel: Selector): Resolved {
    match sel
    case All => Start(Names(StartAll(rows)))
    case Named(name) =>
      if RowsIn(rows, name) != [] then Start(Names(Sorted(RowsIn(rows, name))))
      else if name in Names(rows) then Start([name])
      else NotFound
  }

  lemma InGroupsStep(rows: seq<Row>, gs: seq<string>, i: nat)
    requires i < |gs|
    ensures InGroups(rows, gs[..i + 1]) == InGroups(rows, gs[..i]) + Sorted(RowsIn(rows, gs[i]))
  {
    assert gs[..i + 1][..i] == gs[..i];
  }

  method ListAll(rows: seq<Row>) returns (list: seq<Row>)
    ensures list == StartAll(rows)
  {
    var groups := AllGroups(rows);
    list := [];
    for i := 0 to |groups|
      invariant list == InGroups(rows, groups[..i])
    {
      InGroupsStep(rows, groups, i);
      var insts := InstsIn(rows, groups[i]);
      list := list + insts;
    }
    assert groups[..|groups|] == groups;
    var alone := Select(rows, NO_GROUP);
    list := list + alone;
  }

  method Resolve(rows: seq<Row>, sel: Selector) returns (r: Resolved)
    ensures r == Resolution(rows, sel)
  {
    if sel.All? {
      var list := ListAll(rows);
      return Start(Names(list));
    }
    var mine := Select(rows, sel.name);
    if mine != [] {
      var insts := InstsIn(rows, sel.name);
      return Start(Names(insts));
    }
    if sel.name in Names(rows) {
      return Start([sel.name]);
    }
    return NotFound;
  }

  // ------------------------------------------------------------ every instance, exactly once

  lemma {:induction false} SortedIsPermutation(rows: seq<Row>)
    ensures multiset(Sorted(rows)) == multiset(rows)
  {
    if rows != [] {
      var l, rest := rows[0], rows[1..];
      assert rows == [l] + rest;
      SortedIsPermutation(rest);
      SortedCons(l, rest);
      SameRows(l, OfRank(rest, 0), OfRank(rest, 1), OfRank(rest, 2));
    }
  }

  lemma SameRows(l: Row, a: seq<Row>, b: seq<Row>, c: seq<Row>)
    ensures multiset([l] + (a + b + c)) == multiset{l} + multiset(a + b + c)
    ensures multiset(a + [l] + (b + c)) == multiset{l} + multiset(a + b + c)
    ensures multiset(a + b + [l] + c) == multiset{l} + multiset(a + b + c)
  {
  }

  lemma {:induction false} RowsInCount(rows: seq<Row>, g: string, x: Row)
    ensures multiset(RowsIn(rows, g))[x] == if x.group == g then multiset(rows)[x] else 0
  {
    if rows != [] {
      RowsInCount(rows[1..], g, x);
      assert rows == [rows[0]] + rows[1..];
    }
  }

  lemma {:induction false} GroupsDistinct(rows: seq<Row>)
    ensures forall i, j | 0 <= i < j < |Groups(rows)| :: Groups(rows)[i] != Groups(rows)[j]
    ensures forall g :: g in Groups(rows) <==> g != NO_GROUP && exists x :: x in rows && x.group == g
  {
    if rows != [] {
      var before, last := rows[..|rows| - 1], rows[|rows| - 1];
      GroupsDistinct(before);
      assert rows == before + [last];
    }
  }

  lemma {:induction false} InGroupsCount(rows: seq<Row>, gs: seq<string>, x: Row)
    requires forall i, j | 0 <= i < j < |gs| :: gs[i] != gs[j]
    ensures multiset(InGroups(rows, gs))[x] == if x.group in gs then multiset(rows)[x] else 0
  {
    if gs != [] {
      var before, g := gs[..|gs| - 1], gs[|gs| - 1];
      InGroupsCount(rows, before, x);
      SortedIsPermutation(RowsIn(rows, g));
      RowsInCount(rows, g, x);
      assert gs == before + [g];
    }
  }

  /** Starting everything starts every registered instance exactly as often as it is registered. */
  lemma StartAllIsEverything(rows: seq<Row>)
    ensures multiset(StartAll(rows)) == multiset(rows)
  {
    GroupsDistinct(rows);
    forall x: Row
      ensures multiset(StartAll(rows))[x] == multiset(rows)[x]
    {
      InGroupsCount(rows, Groups(rows), x);
      RowsInCount(rows, NO_GROUP, x);
      if x in rows && x.group != NO_GROUP {
        assert x.group in Groups(rows);
      }
    }
  }

  /** The roles that bring a group up, and the one that needs the rest of it to be up. */
  const SEEDS := {Bootstrap, Primary, Config}

  /** Within a group: seeds, then plain members, then routers, each in registry order. */
  lemma GroupOrder(rows: seq<Row>, g: string)
    ensures
      var s := Sorted(RowsIn(rows, g));
      && (forall i, j | 0 <= i < j < |s| && s[j].role in SEEDS :: s[i].role in SEEDS)
      && (forall i, j | 0 <= i < j < |s| && s[i].role == Mongos :: s[j].role == Mongos)
    ensures SortedByRank(Sorted(RowsIn(rows, g)))
    ensures forall r: nat | r < 3 :: OfRank(Sorted(RowsIn(rows, g)), r) == OfRank(RowsIn(rows, g), r)
  {
    SortedSound(RowsIn(rows, g));
  }

  // ------------------------------------------------------------ group after group

  lemma {:induction false} RowsInJoins(x: seq<Row>, y: seq<Row>, g: string)
    ensures RowsIn(x + y, g) == RowsIn(x, g) + RowsIn(y, g)
  {
    if x == [] {
      assert x + y == y;
    } else {
      assert (x + y)[1..] == x[1..] + y;
      RowsInJoins(x[1..], y, g);
      Assoc(if x[0].group == g then [x[0]] else [], RowsIn(x[1..], g), RowsIn(y, g));
    }
  }

  lemma {:induction false} RowsInNone(x: seq<Row>, g: string)
    requires forall k | 0 <= k < |x| :: x[k].group != g
    ensures RowsIn(x, g) == []
  {
    if x != [] {
      RowsInNone(x[1..], g);
    }
  }

  lemma {:induction false} RowsInAll(x: seq<Row>, g: string)
    requires forall k | 0 <= k < |x| :: x[k].group == g
    ensures RowsIn(x, g) == x
  {
    if x != [] {
      RowsInAll(x[1..], g);
    }
  }

  /** A group's sorted rows are rows of that group. */
  lemma SortedHasGroup(rows: seq<Row>, h: string, k: nat)
    requires k < |Sorted(RowsIn(rows, h))|
    ensures Sorted(RowsIn(rows, h))[k].group == h
  {
    var s := Sorted(RowsIn(rows, h));
    SortedIsPermutation(RowsIn(rows, h));
    assert s[k] in multiset(s);
    RowsInCount(rows, h, s[k]);
  }

  lemma GroupOfSorted(rows: seq<Row>, h: string, g: string)
    ensures RowsIn(Sorted(RowsIn(rows, h)), g) == if g == h then Sorted(RowsIn(rows, h)) else []
  {
    forall k: nat | k < |Sorted(RowsIn(rows, h))|
      ensures Sorted(RowsIn(rows, h))[k].group == h
    {
      SortedHasGroup(rows, h, k);
    }
    if g == h {
      RowsInAll(Sorted(RowsIn(rows, h)), g);
    } else {
      RowsInNone(Sorted(RowsIn(rows, h)), g);
    }
  }

  lemma Units(x: seq<Row>, y: seq<Row>)
    ensures x == [] ==> x + y == y
    ensures y == [] ==> x + y == x
  {
  }

  lemma {:induction false} GroupInGroups(rows: seq<Row>, gs: seq<string>, g: string)
    requires forall i, j | 0 <= i < j < |gs| :: gs[i] != gs[j]
    ensures RowsIn(InGroups(rows, gs), g) == if g in gs then Sorted(RowsIn(rows, g)) else []
  {
    if gs != [] {
      var before, h := gs[..|gs| - 1], gs[|gs| - 1];
      var x, y := InGroups(rows, before), Sorted(RowsIn(rows, h));
      GroupInGroups(rows, before, g);
      RowsInJoins(x, y, g);
      GroupOfSorted(rows, h, g);
      Units(RowsIn(x, g), RowsIn(y, g));
      assert gs == before + [h];
    }
  }

  /** Starting everything starts each group in its own order, and the instances of no group as registered. */
  lemma StartAllByGroup(rows: seq<Row>, g: string)
    ensures RowsIn(StartAll(rows), g) == if g == NO_GROUP then RowsIn(rows, g) else Sorted(RowsIn(rows, g))
  {
    GroupsDistinct(rows);
    var x, y := InGroups(rows, Groups(rows)), RowsIn(rows, NO_GROUP);
    RowsInJoins(x, y, g);
    GroupInGroups(rows, Groups(rows), g);
    forall k: nat | k < |y|
      ensures y[k].group == NO_GROUP
    {
      RowsInHasGroup(rows, NO_GROUP, k);
    }
    if g == NO_GROUP {
      RowsInAll(y, g);
    } else {
      RowsInNone(y, g);
      if g !in Groups(rows) {
        RowsInNone(rows, g);
      }
    }
    Units(RowsIn(x, g), RowsIn(y, g));
  }

  lemma RowsInHasGroup(rows: seq<Row>, g: string, k: nat)
    requires k < |RowsIn(rows, g)|
    ensures RowsIn(rows, g)[k].group == g
  {
    var y := RowsIn(rows, g);
    assert y[k] in multiset(y);
    RowsInCount(rows, g, y[k]);
  }

  /** Where a group first appears; the instances of no group come after every group. */
  function FirstRow(rows: seq<Row>, g: string): nat {
    if rows == [] then 0
    else if FirstRow(rows[..|rows| - 1], g) < |rows| - 1 || rows[|rows| - 1].group == g then
      FirstRow(rows[..|rows| - 1], g)
    else |rows|
  }

  function Turn(rows: seq<Row>, g: string): nat {
    if g == NO_GROUP then |rows| else FirstRow(rows, g)
  }

  lemma {:induction false} FirstRowSound(rows: seq<Row>, g: string)
    ensures FirstRow(rows, g) <= |rows|
    ensures FirstRow(rows, g) < |rows| ==> rows[FirstRow(rows, g)].group == g
    ensures forall k | 0 <= k < FirstRow(rows, g) :: rows[k].group != g
  {
    if rows != [] {
      FirstRowSound(rows[..|rows| - 1], g);
    }
  }

  lemma {:induction false} GroupsInOrder(rows: seq<Row>, i: nat, j: nat)
    requires i < j < |Groups(rows)|
    ensures FirstRow(rows, Groups(rows)[i]) < FirstRow(rows, Groups(rows)[j]) < |rows|
  {
    var before := rows[..|rows| - 1];
    if j < |Groups(before)| {
      GroupsInOrder(before, i, j);
    } else {
      var g := Groups(rows)[i];
      GroupsDistinct(before);
      FirstRowSound(before, g);
      FirstRowSound(before, Groups(rows)[j]);
      assert g in Groups(before);
      var x :| x in before && x.group == g;
    }
  }

  ghost predicate InTurn(rows: seq<Row>, s: seq<Row>) {
    forall k, l | 0 <= k < l < |s| :: Turn(rows, s[k].group) <= Turn(rows, s[l].group)
  }

  lemma InTurnJoins(rows: seq<Row>, x: seq<Row>, y: seq<Row>, g: string)
    requires InTurn(rows, x) && forall k | 0 <= k < |y| :: y[k].group == g
    requires forall k | 0 <= k < |x| :: Turn(rows, x[k].group) <= Turn(rows, g)
    ensures InTurn(rows, x + y)
  {
  }

  lemma {:induction false} GroupsInTurn(rows: seq<Row>, n: nat)
    requires n <= |Groups(rows)|
    ensures InTurn(rows, InGroups(rows, Groups(rows)[..n]))
    ensures forall x | x in InGroups(rows, Groups(rows)[..n]) :: x.group in Groups(rows)[..n]
  {
    if n > 0 {
      var gs := Groups(rows);
      GroupsInTurn(rows, n - 1);
      assert gs[..n][..n - 1] == gs[..n - 1];
      var x, g := InGroups(rows, gs[..n - 1]), gs[n - 1];
      var y := Sorted(RowsIn(rows, g));
      forall k: nat | k < |y|
        ensures y[k].group == g
      {
        SortedHasGroup(rows, g, k);
      }
      forall k | 0 <= k < |x|
        ensures Turn(rows, x[k].group) <= Turn(rows, g)
      {
        assert x[k] in x;
        var i :| 0 <= i < n - 1 && gs[i] == x[k].group;
        GroupsInOrder(rows, i, n - 1);
        GroupsDistinct(rows);
        assert gs[i] in gs && gs[n - 1] in gs;
      }
      InTurnJoins(rows, x, y, g);
    }
  }

  /**
   Starting everything takes the groups one after another, in the order in which they first
   appear in the registry, and then what belongs to none.
   */
  lemma StartAllInTurn(rows: seq<Row>)
    ensures InTurn(rows, StartAll(rows))
  {
    var gs := Groups(rows);
    GroupsInTurn(rows, |gs|);
    assert gs[..|gs|] == gs;
    var x, y := InGroups(rows, gs), RowsIn(rows, NO_GROUP);
    forall k: nat | k < |y|
      ensures y[k].group == NO_GROUP
    {
      RowsInHasGroup(rows, NO_GROUP, k);
    }
    forall k | 0 <= k < |x|
      ensures Turn(rows, x[k].group) <= |rows|
    {
      FirstRowSound(rows, x[k].group);
    }
    InTurnJoins(rows, x, y, NO_GROUP);
  }

  lemma {:induction false} RowsInMembers(rows: seq<Row>, g: string)
    ensures forall x :: x in RowsIn(rows, g) <==> x in rows && x.group == g
  {
    forall x
      ensures x in RowsIn(rows, g) <==> x in rows && x.group == g
    {
      RowsInCount(rows, g, x);
      assert x in rows <==> multiset(rows)[x] > 0;
      assert x in RowsIn(rows, g) <==> multiset(RowsIn(rows, g))[x] > 0;
    }
  }

  lemma SortedMembers(rows: seq<Row>)
    ensures forall x :: x in Sorted(rows) <==> x in rows
  {
    SortedIsPermutation(rows);
    assert forall x :: x in rows <==> x in multiset(rows);
    assert forall x :: x in Sorted(rows) <==> x in multiset(Sorted(rows));
  }

  /**
   What a selector stands for: "all" for every instance; a name for the instances of the
   group of that name if there are any, else for the instance of that name if there is one,
   and else for nothing.
   */
  lemma ResolutionMeans(rows: seq<Row>, sel: Selector, inst: string)
    ensures
      match Resolution(rows, sel)
      case NotFound => sel.Named? && forall x | x in rows :: x.group != sel.name && x.inst != sel.name
      case Start(list) =>
        match sel
        case All => inst in list <==> exists x :: x in rows && x.inst == inst
        case Named(name) =>
          if exists x :: x in rows && x.group == name then
            inst in list <==> exists x :: x in rows && x.group == name && x.inst == inst
          else list == [name] && exists x :: x in rows && x.inst == name
  {
    match sel
    case All =>
      StartAllIsEverything(rows);
      SameMembers(StartAll(rows), rows);
      NamesMembers(StartAll(rows), inst);
    case Named(name) =>
      RowsInMembers(rows, name);
      SortedMembers(RowsIn(rows, name));
      NamesMembers(Sorted(RowsIn(rows, name)), inst);
      NamesMembers(rows, name);
      if RowsIn(rows, name) != [] {
        var first := RowsIn(rows, name)[0];
        assert first in rows && first.group == name;
      }
  }

  lemma SameMembers(x: seq<Row>, y: seq<Row>)
    requires multiset(x) == multiset(y)
    ensures forall r :: r in x <==> r in y
  {
    assert forall r :: r in x <==> r in multiset(x);
    assert forall r :: r in y <==> r in multiset(y);
  }

  lemma NamesMembers(rows: seq<Row>, inst: string)
    ensures inst in Names(rows) <==> exists x :: x in rows && x.inst == inst
  {
    if inst in Names(rows) {
      var i :| 0 <= i < |rows| && Names(rows)[i] == inst;
      assert rows[i] in rows;
    }
    if x :| x in rows && x.inst == inst {
      var i :| 0 <= i < |rows| && rows[i] == x;
      assert Names(rows)[i] == inst;
    }
  }

  // ------------------------------------------------------------ ranks of a sorted group

  lemma {:induction false} OfRankHasRank(rows: seq<Row>, r: nat)
    ensures forall i | 0 <= i < |OfRank(rows, r)| :: Rank(OfRank(rows, r)[i].role) == r
  {
    if rows != [] {
      OfRankHasRank(rows[1..], r);
    }
  }

  lemma ThreeRanks(a: seq<Row>, b: seq<Row>, c: seq<Row>, r: nat)
    requires forall i | 0 <= i < |a| :: Rank(a[i].role) == 0
    requires forall i | 0 <= i < |b| :: Rank(b[i].role) == 1
    requires forall i | 0 <= i < |c| :: Rank(c[i].role) == 2
    ensures r < 3 ==> OfRank(a + b + c, r) == if r == 0 then a else if r == 1 then b else c
  {
    OfRankJoins(a + b, c, r);
    OfRankJoins(a, b, r);
    if r == 0 {
      OfRankAll(a, r);
      OfRankNone(b, r);
      OfRankNone(c, r);
    } else if r == 1 {
      OfRankNone(a, r);
      OfRankAll(b, r);
      OfRankNone(c, r);
    } else if r == 2 {
      OfRankNone(a, r);
      OfRankNone(b, r);
      OfRankAll(c, r);
    }
  }

  lemma SortedSound(rows: seq<Row>)
    ensures SortedByRank(Sorted(rows))
    ensures forall r: nat | r < 3 :: OfRank(Sorted(rows), r) == OfRank(rows, r)
  {
    var a, b, c := OfRank(rows, 0), OfRank(rows, 1), OfRank(rows, 2);
    OfRankHasRank(rows, 0);
    OfRankHasRank(rows, 1);
    OfRankHasRank(rows, 2);
    InOrder(a, b, c);
    forall r: nat | r < 3
      ensures OfRank(Sorted(rows), r) == OfRank(rows, r)
    {
      ThreeRanks(a, b, c, r);
    }
  }

  lemma InOrder(a: seq<Row>, b: seq<Row>, c: seq<Row>)
    requires forall i | 0 <= i < |a| :: Rank(a[i].role) == 0
    requires forall i | 0 <= i < |b| :: Rank(b[i].role) == 1
    requires forall i | 0 <= i < |c| :: Rank(c[i].role) == 2
    ensures SortedByRank(a + b + c)
  {
  }

  // ------------------------------------------------------------ applying a verb

  datatype Verb = StartVerb | StopVerb | RestartVerb

  /** How one unit took the verb: done, the unit failed, or the hook after the start did. */
  datatype UnitResult = UnitOk | UnitFailed | HookFailed

  function Reversed<T>(s: seq<T>): (r: seq<T>)
    ensures |r| == |s| && forall i | 0 <= i < |s| :: r[i] == s[|s| - 1 - i]
  {
    if s == [] then [] else Reversed(s[1..]) + [s[0]]
  }

  lemma ReversedSame<T>(s: seq<T>)
    ensures forall x :: x in Reversed(s) <==> x in s
  {
    forall x | x in s
      ensures x in Reversed(s)
    {
      var i :| 0 <= i < |s| && s[i] == x;
      assert Reversed(s)[|s| - 1 - i] == x;
    }
  }

  /** The hook only runs after a start or a restart. */
  predicate Succeeds(verb: Verb, result: UnitResult) {
    result == UnitOk || (verb == StopVerb && result == HookFailed)
  }

  /**
   Every resolved instance is attempted once, in start order, or backwards when
   stopping; one that fails does not keep the rest from their turn.
   */
  method DoUnits(rows: seq<Row>, verb: Verb, sel: Selector, results: string -> UnitResult)
    returns (attempted: seq<string>, rc: int)
    ensures
      match Resolution(rows, sel)
      case NotFound => attempted == [] && rc == 1
      case Start(list) =>
        && attempted == (if verb == StopVerb then Reversed(list) else list)
        && (rc == 0 <==> list != [] && forall inst | inst in list :: Succeeds(verb, results(inst)))
  {
    var r := Resolve(rows, sel);
    if r.NotFound? || r.list == [] {
      return [], 1;
    }
    var list := r.list;
    if verb == StopVerb {
      list := Reversed(list);
      ReversedSame(r.list);
    }
    attempted, rc := ApplyVerb(list, verb, results);
  }

  /** The verb on each unit of a list in turn. */
  method ApplyVerb(list: seq<string>, verb: Verb, results: string -> UnitResult)
    returns (attempted: seq<string>, rc: int)
    ensures attempted == list
    ensures rc == 0 <==> forall inst | inst in list :: Succeeds(verb, results(inst))
    ensures rc == 0 || rc == 1
  {
    attempted, rc := [], 0;
    for i := 0 to |list|
      invariant attempted == list[..i]
      invariant rc == 0 || rc == 1
      invariant rc == 0 <==> forall l | 0 <= l < i :: Succeeds(verb, results(list[l]))
    {
      attempted := attempted + [list[i]];
      var result := results(list[i]);
      if result == UnitFailed {
        rc := 1;
      } else if verb != StopVerb && result == HookFailed {
        rc := 1;
      }
    }
  }
}
