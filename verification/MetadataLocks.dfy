/**
 Who waits for whom on metadata locks (app/activity.go): the waits of contended tables
 are derived from the granted and pending lock rows of a snapshot.
 */
module MetadataLocks {
  import opened Prelude

  datatype Mode = Exclusive | SharedNoReadWrite | SharedNoWrite | OtherMode(name: string)

  datatype Status = Granted | Pending | OtherStatus(name: string)

  datatype Row = Row(thread: string, obj: string, mode: Mode, status: Status)

  datatype Lock = Lock(thread: string, mode: Mode)

  datatype Wait = Wait(waiter: string, blocker: string, obj: string, mode: Mode, blockerMode: Mode, queued: bool) {
    function Who(): Triple {
      Triple(waiter, blocker, obj)
    }
  }

  datatype Triple = Triple(waiter: string, blocker: string, obj: string) {
    /** The text the source remembers a wait by. */
    function Key(): string {
      waiter + ">" + blocker + obj
    }
  }

  /** The modes that conflict with the shared ones ordinary statements take. */
  predicate Strong(mode: Mode) {
    !mode.OtherMode?
  }

  /** The locks of one status on one table, in row order. */
  function LocksOn(rows: seq<Row>, status: Status, obj: string): seq<Lock> {
    if rows == [] then []
    else
      var last := rows[|rows| - 1];
      LocksOn(rows[..|rows| - 1], status, obj) +
      if last.status == status && last.obj == obj then [Lock(last.thread, last.mode)] else []
  }

  /** The locks come in row order. */
  lemma {:induction false} LocksJoin(x: seq<Row>, y: seq<Row>, status: Status, obj: string)
    ensures LocksOn(x + y, status, obj) == LocksOn(x, status, obj) + LocksOn(y, status, obj)
    decreases |y|
  {
    if y == [] {
      assert x + y == x;
    } else {
      var before, last := y[..|y| - 1], y[|y| - 1];
      LocksJoin(x, before, status, obj);
      assert (x + y)[..|x + y| - 1] == x + before;
      Assoc(
        LocksOn(x, status, obj), LocksOn(before, status, obj),
        if last.status == status && last.obj == obj then [Lock(last.thread, last.mode)] else []);
    }
  }

  // ------------------------------------------------------------ the stated relation

  predicate Conflicts(p: Lock, g: Lock) {
    g.thread != p.thread && (Strong(p.mode) || Strong(g.mode))
  }

  /**
   A pending request waits for every conflicting holder; a shared one that has none, for
   the strong requests queued with it.
   */
  ghost predicate BlockedBy(p: Lock, b: string, granted: seq<Lock>, pending: seq<Lock>) {
    || (exists g :: g in granted && g.thread == b && Conflicts(p, g))
    || (&& !Strong(p.mode)
        && (forall g | g in granted :: !Conflicts(p, g))
        && exists q :: q in pending && q.thread == b && q.thread != p.thread && Strong(q.mode))
  }

  ghost predicate WaitsFor(rows: seq<Row>, x: Triple) {
    exists p ::
      && p in LocksOn(rows, Pending, x.obj) && p.thread == x.waiter
      && BlockedBy(p, x.blocker, LocksOn(rows, Granted, x.obj), LocksOn(rows, Pending, x.obj))
  }

  /**
   A wait says why it is one: its mode is that of a pending lock of the waiter on its table,
   and the blocker's mode is that of a conflicting lock the blocker holds there or, if it
   says queued, of a strong request of the blocker there while nobody holds a conflicting lock.
   */
  ghost predicate ReasonedBy(w: Wait, p: Lock, obj: string, granted: seq<Lock>, pending: seq<Lock>) {
    && w.obj == obj && w.waiter == p.thread && w.mode == p.mode
    && var l := Lock(w.blocker, w.blockerMode);
       if w.queued then
         && !Strong(p.mode) && (forall g | g in granted :: !Conflicts(p, g))
         && l in pending && l.thread != p.thread && Strong(l.mode)
       else l in granted && Conflicts(p, l)
  }

  ghost predicate Reasoned(rows: seq<Row>, w: Wait) {
    exists p ::
      && p in LocksOn(rows, Pending, w.obj)
      && ReasonedBy(w, p, w.obj, LocksOn(rows, Granted, w.obj), LocksOn(rows, Pending, w.obj))
  }

  /**
   The pile-up behind an ALTER: it waits for the one that reads the table, and whoever comes
   to read the table later waits for the ALTER, and nobody waits for anyone else.
   */
  lemma PileUp(reader: string, alter: string, late: string, obj: string, mode: string, later: string)
    requires reader != alter && reader != late && alter != late
    ensures
      var rows := [Row(reader, obj, OtherMode(mode), Granted), Row(alter, obj, Exclusive, Pending),
                   Row(late, obj, OtherMode(later), Pending)];
      forall x :: WaitsFor(rows, x) <==> x == Triple(alter, reader, obj) || x == Triple(late, alter, obj)
  {
    var a, b := Row(reader, obj, OtherMode(mode), Granted), Row(alter, obj, Exclusive, Pending);
    var c := Row(late, obj, OtherMode(later), Pending);
    var held, wanted, queued := Lock(reader, OtherMode(mode)), Lock(alter, Exclusive), Lock(late, OtherMode(later));
    LocksOfThree(a, b, c, Granted, obj);
    LocksOfThree(a, b, c, Pending, obj);
    forall x
      ensures WaitsFor([a, b, c], x) <==> x == Triple(alter, reader, obj) || x == Triple(late, alter, obj)
    {
      LocksOfThree(a, b, c, Pending, x.obj);
      PileUpAt([a, b, c], held, wanted, queued, obj, x);
    }
  }

  lemma PileUpAt(rows: seq<Row>, held: Lock, wanted: Lock, queued: Lock, obj: string, x: Triple)
    requires LocksOn(rows, Granted, obj) == [held] && LocksOn(rows, Pending, obj) == [wanted, queued]
    requires x.obj != obj ==> LocksOn(rows, Pending, x.obj) == []
    requires held.thread != wanted.thread && held.thread != queued.thread && wanted.thread != queued.thread
    requires !Strong(held.mode) && Strong(wanted.mode) && !Strong(queued.mode)
    ensures
      WaitsFor(rows, x) <==>
        x == Triple(wanted.thread, held.thread, obj) || x == Triple(queued.thread, wanted.thread, obj)
  {
    var gs, ps := [held], [wanted, queued];
    assert held in gs && wanted in ps && queued in ps;
    assert BlockedBy(wanted, held.thread, gs, ps) && BlockedBy(queued, wanted.thread, gs, ps);
    if WaitsFor(rows, x) {
      var p :| p in LocksOn(rows, Pending, x.obj) && p.thread == x.waiter &&
        BlockedBy(p, x.blocker, LocksOn(rows, Granted, x.obj), LocksOn(rows, Pending, x.obj));
      assert p == wanted || p == queued;
    }
  }

  /** What one row adds to a table's locks. */
  function Adds(r: Row, status: Status, obj: string): seq<Lock> {
    if r.status == status && r.obj == obj then [Lock(r.thread, r.mode)] else []
  }

  lemma LocksOneMore(rows: seq<Row>, r: Row, status: Status, obj: string)
    ensures LocksOn(rows + [r], status, obj) == LocksOn(rows, status, obj) + Adds(r, status, obj)
  {
    assert (rows + [r])[..|rows|] == rows;
  }

  lemma LocksOfThree(a: Row, b: Row, c: Row, status: Status, obj: string)
    ensures LocksOn([a, b, c], status, obj) == Adds(a, status, obj) + Adds(b, status, obj) + Adds(c, status, obj)
  {
    LocksOneMore([], a, status, obj);
    LocksOneMore([] + [a], b, status, obj);
    LocksOneMore([] + [a] + [b], c, status, obj);
    assert [] + [a] + [b] + [c] == [a, b, c];
    assert LocksOn([], status, obj) == [];
    assert [] + Adds(a, status, obj) == Adds(a, status, obj);
  }

  // ------------------------------------------------------------ one pending request

  function WaitOn(p: Lock, l: Lock, obj: string, queued: bool): Wait {
    Wait(p.thread, l.thread, obj, p.mode, l.mode, queued)
  }

  /** A request's waits for conflicting holders, in row order. */
  function Held(p: Lock, obj: string, granted: seq<Lock>): seq<Wait> {
    if granted == [] then []
    else
      var g := granted[|granted| - 1];
      Held(p, obj, granted[..|granted| - 1]) + if Conflicts(p, g) then [WaitOn(p, g, obj, false)] else []
  }

  /** Its waits for strong requests queued on the same table, in row order. */
  function Ahead(p: Lock, obj: string, pending: seq<Lock>): seq<Wait> {
    if pending == [] then []
    else
      var q := pending[|pending| - 1];
      Ahead(p, obj, pending[..|pending| - 1]) +
      if q.thread != p.thread && Strong(q.mode) then [WaitOn(p, q, obj, true)] else []
  }

  function WaitsOf(p: Lock, obj: string, granted: seq<Lock>, pending: seq<Lock>): seq<Wait> {
    if Held(p, obj, granted) != [] || Strong(p.mode) then Held(p, obj, granted) else Ahead(p, obj, pending)
  }

  /** The waits of one pending request: its conflicting holders, else the strong requests queued with it. */
  method Blockers(p: Lock, obj: string, granted: seq<Lock>, pending: seq<Lock>) returns (list: seq<Wait>)
    ensures list == WaitsOf(p, obj, granted, pending)
    ensures forall w :: w in list <==> ReasonedBy(w, p, obj, granted, pending)
  {
    list := [];
    var found := false;
    for i := 0 to |granted|
      invariant list == Held(p, obj, granted[..i]) && (found <==> list != [])
    {
      assert granted[..i + 1][..i] == granted[..i];
      var g := granted[i];
      if g.thread == p.thread {
        assert list + [] == list;
        continue;
      }
      if Strong(p.mode) || Strong(g.mode) {
        list := list + [Wait(p.thread, g.thread, obj, p.mode, g.mode, false)];
        found := true;
      }
    }
    assert granted[..|granted|] == granted;
    forall w
      ensures w in WaitsOf(p, obj, granted, pending) <==> ReasonedBy(w, p, obj, granted, pending)
    {
      WaitsOfMembers(p, obj, granted, pending, w);
    }
    if found || Strong(p.mode) {
      return;
    }
    for i := 0 to |pending|
      invariant list == Ahead(p, obj, pending[..i])
    {
      assert pending[..i + 1][..i] == pending[..i];
      var q := pending[i];
      if q.thread != p.thread && Strong(q.mode) {
        list := list + [Wait(p.thread, q.thread, obj, p.mode, q.mode, true)];
      }
    }
    assert pending[..|pending|] == pending;
  }

  lemma {:induction false} HeldMembers(p: Lock, obj: string, granted: seq<Lock>, w: Wait)
    ensures w in Held(p, obj, granted) <==> exists g :: g in granted && Conflicts(p, g) && w == WaitOn(p, g, obj, false)
  {
    if granted != [] {
      var before, last := granted[..|granted| - 1], granted[|granted| - 1];
      HeldMembers(p, obj, before, w);
      assert granted == before + [last];
    }
  }

  lemma {:induction false} AheadMembers(p: Lock, obj: string, pending: seq<Lock>, w: Wait)
    ensures
      w in Ahead(p, obj, pending) <==>
        exists q :: q in pending && q.thread != p.thread && Strong(q.mode) && w == WaitOn(p, q, obj, true)
  {
    if pending != [] {
      var before, last := pending[..|pending| - 1], pending[|pending| - 1];
      AheadMembers(p, obj, before, w);
      assert pending == before + [last];
    }
  }

  /** A request's waits are exactly the reasoned ones. */
  lemma WaitsOfMembers(p: Lock, obj: string, granted: seq<Lock>, pending: seq<Lock>, w: Wait)
    ensures w in WaitsOf(p, obj, granted, pending) <==> ReasonedBy(w, p, obj, granted, pending)
  {
    HeldMembers(p, obj, granted, w);
    AheadMembers(p, obj, pending, w);
    NoneHeld(p, obj, granted);
  }

  lemma NoneHeld(p: Lock, obj: string, granted: seq<Lock>)
    ensures Held(p, obj, granted) == [] <==> forall g | g in granted :: !Conflicts(p, g)
  {
    if Held(p, obj, granted) != [] {
      HeldMembers(p, obj, granted, Held(p, obj, granted)[0]);
    }
    forall g | g in granted && Conflicts(p, g)
      ensures Held(p, obj, granted) != []
    {
      HeldMembers(p, obj, granted, WaitOn(p, g, obj, false));
    }
  }

  /** Holders and queued requests are listed in row order. */
  lemma {:induction false} HeldJoins(p: Lock, obj: string, x: seq<Lock>, y: seq<Lock>)
    ensures Held(p, obj, x + y) == Held(p, obj, x) + Held(p, obj, y)
    decreases |y|
  {
    if y == [] {
      assert x + y == x;
    } else {
      var before, last := y[..|y| - 1], y[|y| - 1];
      HeldJoins(p, obj, x, before);
      assert (x + y)[..|x + y| - 1] == x + before;
      Assoc(Held(p, obj, x), Held(p, obj, before), if Conflicts(p, last) then [WaitOn(p, last, obj, false)] else []);
    }
  }

  lemma {:induction false} AheadJoins(p: Lock, obj: string, x: seq<Lock>, y: seq<Lock>)
    ensures Ahead(p, obj, x + y) == Ahead(p, obj, x) + Ahead(p, obj, y)
    decreases |y|
  {
    if y == [] {
      assert x + y == x;
    } else {
      var before, last := y[..|y| - 1], y[|y| - 1];
      AheadJoins(p, obj, x, before);
      assert (x + y)[..|x + y| - 1] == x + before;
      Assoc(
        Ahead(p, obj, x), Ahead(p, obj, before),
        if last.thread != p.thread && Strong(last.mode) then [WaitOn(p, last, obj, true)] else []);
    }
  }

  // ------------------------------------------------------------ one wait for each key

  function Keys(out: seq<Wait>): seq<string> {
    seq(|out|, k requires 0 <= k < |out| => out[k].Who().Key())
  }

  /** Adding waits in turn: none of a thread for itself, none under a key that is there already. */
  function Added(out: seq<Wait>, list: seq<Wait>): seq<Wait> {
    if list == [] then out
    else
      var before, w := Added(out, list[..|list| - 1]), list[|list| - 1];
      if w.waiter == w.blocker || w.Who().Key() in Keys(before) then before else before + [w]
  }

  method AddAll(list: seq<Wait>, out: seq<Wait>, seen: set<string>) returns (out': seq<Wait>, seen': set<string>)
    requires forall k :: k in seen <==> k in Keys(out)
    ensures out' == Added(out, list)
    ensures forall k :: k in seen' <==> k in Keys(out')
  {
    out', seen' := out, seen;
    for i := 0 to |list|
      invariant out' == Added(out, list[..i])
      invariant forall k :: k in seen' <==> k in Keys(out')
    {
      assert list[..i + 1][..i] == list[..i];
      var w := list[i];
      var k := w.Who().Key();
      if w.waiter == w.blocker || k in seen' {
        continue;
      }
      assert Keys(out' + [w]) == Keys(out') + [k];
      out', seen' := out' + [w], seen' + {k};
    }
    assert list[..|list|] == list;
  }

  ghost predicate KeysDiffer(out: seq<Wait>) {
    forall k, l | 0 <= k < l < |out| :: Keys(out)[k] != Keys(out)[l]
  }

  lemma {:induction false} AddedJoins(out: seq<Wait>, x: seq<Wait>, y: seq<Wait>)
    ensures Added(out, x + y) == Added(Added(out, x), y)
    decreases |y|
  {
    if y == [] {
      assert x + y == x;
    } else {
      AddedJoins(out, x, y[..|y| - 1]);
      assert (x + y)[..|x + y| - 1] == x + y[..|y| - 1];
    }
  }

  lemma {:induction false} AddedSound(list: seq<Wait>)
    ensures KeysDiffer(Added([], list))
    ensures forall w | w in Added([], list) :: w in list && w.waiter != w.blocker
    ensures forall w | w in list && w.waiter != w.blocker :: w.Who().Key() in Keys(Added([], list))
  {
    if list != [] {
      var early, last := list[..|list| - 1], list[|list| - 1];
      assert list == early + [last];
      AddedSound(early);
      var out := Added([], early);
      assert Keys(out + [last]) == Keys(out) + [last.Who().Key()];
    }
  }

  lemma {:induction false} AddedGrows(out: seq<Wait>, list: seq<Wait>)
    ensures out <= Added(out, list)
  {
    if list != [] {
      AddedGrows(out, list[..|list| - 1]);
    }
  }

  lemma KeyFrom(early: seq<Wait>, key: string) returns (j: nat)
    requires key in Keys(Added([], early))
    ensures j < |early| && early[j].Who().Key() == key
  {
    AddedSound(early);
    var out := Added([], early);
    var l :| 0 <= l < |out| && Keys(out)[l] == key;
    assert out[l] in early;
    j :| 0 <= j < |early| && early[j] == out[l];
  }

  lemma KeptIfNew(early: seq<Wait>, w: Wait, later: seq<Wait>)
    requires w.waiter != w.blocker && w.Who().Key() !in Keys(Added([], early))
    ensures w in Added([], early + [w] + later)
  {
    var head := early + [w];
    assert head[..|head| - 1] == early;
    AddedJoins([], head, later);
    var kept := Added([], head);
    AddedGrows(kept, later);
    assert kept[|kept| - 1] == w && Added([], head + later)[|kept| - 1] == w;
  }

  /** Of the waits under one key the first is the one that is kept. */
  lemma FirstIsKept(early: seq<Wait>, w: Wait, later: seq<Wait>)
    requires w.waiter != w.blocker
    requires forall j | 0 <= j < |early| :: early[j].Who().Key() != w.Who().Key()
    ensures w in Added([], early + [w] + later)
  {
    if w.Who().Key() in Keys(Added([], early)) {
      var j := KeyFrom(early, w.Who().Key());
    }
    KeptIfNew(early, w, later);
  }

  // ------------------------------------------------------------ all tables

  /** The waits of every pending request of a table, request by request. */
  function Lists(obj: string, granted: seq<Lock>, pending: seq<Lock>): seq<seq<Wait>> {
    seq(|pending|, k requires 0 <= k < |pending| => WaitsOf(pending[k], obj, granted, pending))
  }

  function Flatten(lists: seq<seq<Wait>>): seq<Wait> {
    if lists == [] then [] else Flatten(lists[..|lists| - 1]) + lists[|lists| - 1]
  }

  function TableWaits(rows: seq<Row>, obj: string): seq<Wait> {
    Flatten(Lists(obj, LocksOn(rows, Granted, obj), LocksOn(rows, Pending, obj)))
  }

  function AllWaits(rows: seq<Row>, objs: seq<string>): seq<Wait> {
    if objs == [] then []
    else
      AllWaits(rows, objs[..|objs| - 1]) + TableWaits(rows, objs[|objs| - 1])
  }

  method VisitObject(obj: string, granted: seq<Lock>, pending: seq<Lock>, out: seq<Wait>, seen: set<string>)
    returns (out': seq<Wait>, seen': set<string>)
    requires forall k :: k in seen <==> k in Keys(out)
    ensures out' == Added(out, Flatten(Lists(obj, granted, pending)))
    ensures forall k :: k in seen' <==> k in Keys(out')
  {
    out', seen' := out, seen;
    ghost var lists := Lists(obj, granted, pending);
    for i := 0 to |pending|
      invariant out' == Added(out, Flatten(lists[..i]))
      invariant forall k :: k in seen' <==> k in Keys(out')
    {
      var list := Blockers(pending[i], obj, granted, pending);
      AddedFlatten(out, lists, i);
      out', seen' := AddAll(list, out', seen');
    }
    assert lists[..|pending|] == lists;
  }

  lemma AddedFlatten(out: seq<Wait>, lists: seq<seq<Wait>>, i: nat)
    requires i < |lists|
    ensures Added(out, Flatten(lists[..i + 1])) == Added(Added(out, Flatten(lists[..i])), lists[i])
  {
    assert lists[..i + 1][..i] == lists[..i];
    AddedJoins(out, Flatten(lists[..i]), lists[i]);
  }

  lemma {:induction false} FlattenHolds(lists: seq<seq<Wait>>, k: nat, w: Wait)
    requires k < |lists| && w in lists[k]
    ensures w in Flatten(lists)
  {
    if k < |lists| - 1 {
      FlattenHolds(lists[..|lists| - 1], k, w);
    }
  }

  lemma {:induction false} FlattenFrom(lists: seq<seq<Wait>>, w: Wait) returns (k: nat)
    requires w in Flatten(lists)
    ensures k < |lists| && w in lists[k]
  {
    if w in Flatten(lists[..|lists| - 1]) {
      k := FlattenFrom(lists[..|lists| - 1], w);
    } else {
      k := |lists| - 1;
    }
  }

  lemma TableMembers(rows: seq<Row>, obj: string, w: Wait)
    ensures w in TableWaits(rows, obj) <==> w.obj == obj && Reasoned(rows, w)
  {
    var granted, pending := LocksOn(rows, Granted, obj), LocksOn(rows, Pending, obj);
    var lists := Lists(obj, granted, pending);
    if w in Flatten(lists) {
      var k := FlattenFrom(lists, w);
      WaitsOfMembers(pending[k], obj, granted, pending, w);
      assert pending[k] in pending;
    }
    if w.obj == obj && Reasoned(rows, w) {
      var p :| p in pending && ReasonedBy(w, p, obj, granted, pending);
      var k :| 0 <= k < |pending| && pending[k] == p;
      WaitsOfMembers(p, obj, granted, pending, w);
      FlattenHolds(lists, k, w);
    }
  }

  lemma {:induction false} AllWaitsHold(rows: seq<Row>, objs: seq<string>, w: Wait, obj: string)
    requires obj in objs && w in TableWaits(rows, obj)
    ensures w in AllWaits(rows, objs)
  {
    if obj != objs[|objs| - 1] {
      AllWaitsHold(rows, objs[..|objs| - 1], w, obj);
    }
  }

  lemma {:induction false} AllWaitsFrom(rows: seq<Row>, objs: seq<string>, w: Wait) returns (obj: string)
    requires w in AllWaits(rows, objs)
    ensures obj in objs && w in TableWaits(rows, obj)
  {
    var before := objs[..|objs| - 1];
    if w in AllWaits(rows, before) {
      obj := AllWaitsFrom(rows, before, w);
    } else {
      obj := objs[|objs| - 1];
    }
  }

  /** Over all tables visited the waits are exactly the reasoned ones of these tables. */
  lemma AllWaitsMembers(rows: seq<Row>, objs: seq<string>, w: Wait)
    ensures w in AllWaits(rows, objs) <==> w.obj in objs && Reasoned(rows, w)
  {
    if w in AllWaits(rows, objs) {
      var obj := AllWaitsFrom(rows, objs, w);
      TableMembers(rows, obj, w);
    }
    if w.obj in objs && Reasoned(rows, w) {
      TableMembers(rows, w.obj, w);
      AllWaitsHold(rows, objs, w, w.obj);
    }
  }

  lemma AllWaitsStep(rows: seq<Row>, objs: seq<string>, obj: string, granted: seq<Lock>, pending: seq<Lock>)
    requires granted == LocksOn(rows, Granted, obj) && pending == LocksOn(rows, Pending, obj)
    ensures
      Added([], AllWaits(rows, objs + [obj])) ==
        Added(Added([], AllWaits(rows, objs)), Flatten(Lists(obj, granted, pending)))
  {
    assert (objs + [obj])[..|objs|] == objs;
    AddedJoins([], AllWaits(rows, objs), TableWaits(rows, obj));
  }

  /** A wait of the relation, and one that says why. */
  lemma RelationIsReasoned(rows: seq<Row>, x: Triple)
    ensures WaitsFor(rows, x) <==> exists w :: Reasoned(rows, w) && w.Who() == x
  {
    var granted, pending := LocksOn(rows, Granted, x.obj), LocksOn(rows, Pending, x.obj);
    if WaitsFor(rows, x) {
      var p :| p in pending && p.thread == x.waiter && BlockedBy(p, x.blocker, granted, pending);
      if g :| g in granted && g.thread == x.blocker && Conflicts(p, g) {
        assert ReasonedBy(WaitOn(p, g, x.obj, false), p, x.obj, granted, pending);
        assert Reasoned(rows, WaitOn(p, g, x.obj, false)) && WaitOn(p, g, x.obj, false).Who() == x;
      } else {
        var q :| q in pending && q.thread == x.blocker && q.thread != p.thread && Strong(q.mode);
        assert ReasonedBy(WaitOn(p, q, x.obj, true), p, x.obj, granted, pending);
        assert Reasoned(rows, WaitOn(p, q, x.obj, true)) && WaitOn(p, q, x.obj, true).Who() == x;
      }
    }
    if w :| Reasoned(rows, w) && w.Who() == x {
      var p :| p in pending && ReasonedBy(w, p, x.obj, granted, pending);
      assert BlockedBy(p, x.blocker, granted, pending);
    }
  }

  /** Every table somebody waits at, each once, in some order. */
  ghost predicate Visits(rows: seq<Row>, objs: seq<string>) {
    && (forall i, j | 0 <= i < j < |objs| :: objs[i] != objs[j])
    && (forall obj :: obj in objs <==> LocksOn(rows, Pending, obj) != [])
  }

  /**
   Everything emitted is a wait of the relation and says why it is one, no two under one
   key, and every wait of the relation has its key emitted.
   */
  ghost predicate Derived(rows: seq<Row>, out: seq<Wait>) {
    && (forall w | w in out :: WaitsFor(rows, w.Who()) && Reasoned(rows, w) && w.waiter != w.blocker)
    && KeysDiffer(out)
    && (forall x | WaitsFor(rows, x) :: x.Key() in Keys(out))
  }

  lemma AddedIsDerived(rows: seq<Row>, objs: seq<string>)
    requires Visits(rows, objs)
    ensures Derived(rows, Added([], AllWaits(rows, objs)))
  {
    var list := AllWaits(rows, objs);
    var out := Added([], list);
    AddedSound(list);
    forall w | w in out
      ensures WaitsFor(rows, w.Who()) && Reasoned(rows, w) && w.waiter != w.blocker
    {
      AllWaitsMembers(rows, objs, w);
      RelationIsReasoned(rows, w.Who());
    }
    forall x | WaitsFor(rows, x)
      ensures x.Key() in Keys(out)
    {
      RelationIsReasoned(rows, x);
      var w :| Reasoned(rows, w) && w.Who() == x;
      AllWaitsMembers(rows, objs, w);
    }
  }

  function LocksAt(m: map<string, seq<Lock>>, obj: string): seq<Lock> {
    if obj in m then m[obj] else []
  }

  /** The map lists every table's locks of the status, in row order, and no other table. */
  ghost predicate Tabulates(m: map<string, seq<Lock>>, rows: seq<Row>, status: Status) {
    && (forall obj :: LocksAt(m, obj) == LocksOn(rows, status, obj))
    && (forall obj | obj in m :: m[obj] != [])
  }

  lemma TabulatesStep(m: map<string, seq<Lock>>, rows: seq<Row>, i: nat, status: Status)
    requires i < |rows| && Tabulates(m, rows[..i], status)
    ensures
      var r := rows[i];
      var next := if r.status == status then m[r.obj := LocksAt(m, r.obj) + [Lock(r.thread, r.mode)]] else m;
      Tabulates(next, rows[..i + 1], status)
  {
    assert rows[..i + 1][..i] == rows[..i];
    var r := rows[i];
    var next := if r.status == status then m[r.obj := LocksAt(m, r.obj) + [Lock(r.thread, r.mode)]] else m;
    forall obj
      ensures LocksAt(next, obj) == LocksOn(rows[..i + 1], status, obj)
    {
      assert LocksAt(m, obj) == LocksOn(rows[..i], status, obj);
      assert LocksOn(rows[..i], status, obj) + [] == LocksOn(rows[..i], status, obj);
    }
  }

  /** Locks by table, granted and pending apart. */
  method Collect(rows: seq<Row>) returns (granted: map<string, seq<Lock>>, pending: map<string, seq<Lock>>)
    ensures Tabulates(granted, rows, Granted) && Tabulates(pending, rows, Pending)
  {
    granted, pending := map[], map[];
    for i := 0 to |rows|
      invariant Tabulates(granted, rows[..i], Granted) && Tabulates(pending, rows[..i], Pending)
    {
      var r := rows[i];
      TabulatesStep(granted, rows, i, Granted);
      TabulatesStep(pending, rows, i, Pending);
      if r.status == Granted {
        granted := granted[r.obj := LocksAt(granted, r.obj) + [Lock(r.thread, r.mode)]];
      } else if r.status == Pending {
        pending := pending[r.obj := LocksAt(pending, r.obj) + [Lock(r.thread, r.mode)]];
      }
    }
    assert rows[..|rows|] == rows;
  }

  /**
   The derivation, whatever order the tables come out of the map in: the waits of every
   pending request in turn, the first under each key.
   */
  method MdlWaits(rows: seq<Row>) returns (out: seq<Wait>, ghost objs: seq<string>)
    ensures Visits(rows, objs) && out == Added([], AllWaits(rows, objs))
    ensures Derived(rows, out)
  {
    var granted, pending := Collect(rows);
    out, objs := [], [];
    var seen: set<string> := {};
    var todo := pending.Keys;
    while todo != {}
      invariant Left(pending.Keys, todo, objs)
      invariant out == Added([], AllWaits(rows, objs))
      invariant forall k :: k in seen <==> k in Keys(out)
      decreases |todo|
    {
      var obj :| obj in todo;
      TabulatesAt(granted, rows, Granted, obj);
      TabulatesAt(pending, rows, Pending, obj);
      AllWaitsStep(rows, objs, obj, LocksAt(granted, obj), LocksAt(pending, obj));
      out, seen := VisitObject(obj, LocksAt(granted, obj), LocksAt(pending, obj), out, seen);
      LeftStep(pending.Keys, todo, objs, obj);
      todo, objs := todo - {obj}, objs + [obj];
    }
    AllVisited(rows, pending, objs);
    AddedIsDerived(rows, objs);
  }

  /** The tables visited so far, each once, and the ones still to do are all there are. */
  ghost predicate Left(all: set<string>, todo: set<string>, objs: seq<string>) {
    && (forall i, j | 0 <= i < j < |objs| :: objs[i] != objs[j])
    && (forall obj :: obj in all <==> obj in objs || obj in todo)
    && (forall obj | obj in objs :: obj !in todo)
  }

  lemma LeftStep(all: set<string>, todo: set<string>, objs: seq<string>, obj: string)
    requires Left(all, todo, objs) && obj in todo
    ensures Left(all, todo - {obj}, objs + [obj])
  {
  }

  lemma TabulatesAt(m: map<string, seq<Lock>>, rows: seq<Row>, status: Status, obj: string)
    requires Tabulates(m, rows, status)
    ensures LocksAt(m, obj) == LocksOn(rows, status, obj)
  {
  }

  lemma AllVisited(rows: seq<Row>, pending: map<string, seq<Lock>>, objs: seq<string>)
    requires Tabulates(pending, rows, Pending) && Left(pending.Keys, {}, objs)
    ensures Visits(rows, objs)
  {
    forall obj
      ensures obj in objs <==> LocksOn(rows, Pending, obj) != []
    {
      assert LocksAt(pending, obj) == LocksOn(rows, Pending, obj);
    }
  }

  // ------------------------------------------------------------ when the keys tell waits apart

  predicate IsDigit(c: char) {
    '0' <= c <= '9'
  }

  predicate Numeric(s: string) {
    forall i | 0 <= i < |s| :: IsDigit(s[i])
  }

  predicate StartsWithDigit(s: string) {
    s != [] && IsDigit(s[0])
  }

  /** Digits followed by something else can be read back. */
  lemma DigitsEnd(a: string, s: string, b: string, t: string)
    requires Numeric(a) && Numeric(b) && !StartsWithDigit(s) && !StartsWithDigit(t) && a + s == b + t
    ensures a == b && s == t
  {
    var z := a + s;
    assert |a| < |z| ==> z[|a|] == s[0];
    assert |b| < |z| ==> z[|b|] == t[0];
    assert forall i | 0 <= i < |a| :: z[i] == a[i] && IsDigit(z[i]);
    assert forall i | 0 <= i < |b| :: z[i] == b[i] && IsDigit(z[i]);
    assert |a| == |b|;
    assert a == z[..|a|] && b == z[..|b|] && s == z[|a|..] && t == z[|b|..];
  }

  /** One text split in two ways: the longer head extends the shorter one by what begins the other tail. */
  lemma SplitsShift(a: string, s: string, b: string, t: string)
    requires a + s == b + t && |a| <= |b|
    ensures b == a + b[|a|..] && s == b[|a|..] + t
  {
    var z := a + s;
    assert b == z[..|b|] && a == z[..|a|];
    assert s == z[|a|..] && t == z[|b|..];
    assert b == a + b[|a|..];
  }

  /** The blocker of y is the blocker of x with more digits, and those digits begin the object of x. */
  predicate Shifted(x: Triple, y: Triple) {
    x.waiter == y.waiter && x.blocker <= y.blocker && x.obj == y.blocker[|x.blocker|..] + y.obj
  }

  /**
   For numeric threads two waits share a key exactly if they have the same waiter and one
   blocker extends the other by digits that begin the other's object.
   */
  lemma KeysCollideExactly(x: Triple, y: Triple)
    requires Numeric(x.waiter) && Numeric(y.waiter)
    ensures x.Key() == y.Key() <==> Shifted(x, y) || Shifted(y, x)
  {
    var s, t := ">" + x.blocker + x.obj, ">" + y.blocker + y.obj;
    assert x.waiter + s == x.Key() && y.waiter + t == y.Key();
    assert s[1..] == x.blocker + x.obj && t[1..] == y.blocker + y.obj;
    if x.Key() == y.Key() {
      DigitsEnd(x.waiter, s, y.waiter, t);
      if |x.blocker| <= |y.blocker| {
        SplitsShift(x.blocker, x.obj, y.blocker, y.obj);
      } else {
        SplitsShift(y.blocker, y.obj, x.blocker, x.obj);
      }
    } else if Shifted(x, y) {
      ShiftedIsSame(x, y);
    } else if Shifted(y, x) {
      ShiftedIsSame(y, x);
    }
  }

  lemma ShiftedIsSame(x: Triple, y: Triple)
    requires Shifted(x, y)
    ensures x.Key() == y.Key()
  {
    var d := y.blocker[|x.blocker|..];
    assert y.blocker == x.blocker + d;
    assert x.blocker + (d + y.obj) == x.blocker + d + y.obj;
  }

  lemma KeyInjective(x: Triple, y: Triple)
    requires Numeric(x.waiter) && Numeric(y.waiter) && Numeric(x.blocker) && Numeric(y.blocker)
    requires !StartsWithDigit(x.obj) && !StartsWithDigit(y.obj) && x.Key() == y.Key()
    ensures x == y
  {
    KeysCollideExactly(x, y);
  }

  lemma {:induction false} LockHasRow(rows: seq<Row>, status: Status, obj: string, l: Lock)
    requires l in LocksOn(rows, status, obj)
    ensures exists r :: r in rows && r.thread == l.thread && r.obj == obj
  {
    var before, last := rows[..|rows| - 1], rows[|rows| - 1];
    if l in LocksOn(before, status, obj) {
      LockHasRow(before, status, obj, l);
    } else {
      assert last in rows;
    }
  }

  lemma WaitHasRows(rows: seq<Row>, x: Triple)
    requires WaitsFor(rows, x)
    ensures exists r :: r in rows && r.thread == x.waiter && r.obj == x.obj
    ensures exists r :: r in rows && r.thread == x.blocker
  {
    var gs, ps := LocksOn(rows, Granted, x.obj), LocksOn(rows, Pending, x.obj);
    var p :| p in ps && p.thread == x.waiter && BlockedBy(p, x.blocker, gs, ps);
    LockHasRow(rows, Pending, x.obj, p);
    if g :| g in gs && g.thread == x.blocker && Conflicts(p, g) {
      LockHasRow(rows, Granted, x.obj, g);
    } else {
      var q :| q in ps && q.thread == x.blocker && q.thread != p.thread && Strong(q.mode);
      LockHasRow(rows, Pending, x.obj, q);
    }
  }

  /** The waits emitted are exactly the stated relation. */
  ghost predicate Exact(rows: seq<Row>, out: seq<Wait>) {
    forall x :: WaitsFor(rows, x) <==> exists w :: w in out && w.Who() == x
  }

  /** No two waits of the relation are remembered under the same text. */
  ghost predicate KeysTellApart(rows: seq<Row>) {
    forall x, y | WaitsFor(rows, x) && WaitsFor(rows, y) && x.Key() == y.Key() :: x == y
  }

  lemma ApartIsExact(rows: seq<Row>, out: seq<Wait>)
    requires Derived(rows, out) && KeysTellApart(rows)
    ensures Exact(rows, out)
  {
    forall x | WaitsFor(rows, x)
      ensures exists w :: w in out && w.Who() == x
    {
      var k :| 0 <= k < |out| && Keys(out)[k] == x.Key();
      assert out[k] in out;
    }
  }

  lemma ExactIsApart(rows: seq<Row>, out: seq<Wait>, x: Triple, y: Triple)
    requires Derived(rows, out) && Exact(rows, out)
    requires WaitsFor(rows, x) && WaitsFor(rows, y) && x.Key() == y.Key()
    ensures x == y
  {
    var v :| v in out && v.Who() == x;
    var w :| w in out && w.Who() == y;
    OncePerKey(out, v, w);
  }

  lemma OncePerKey(out: seq<Wait>, v: Wait, w: Wait)
    requires forall k, l | 0 <= k < l < |out| :: Keys(out)[k] != Keys(out)[l]
    requires v in out && w in out && v.Who().Key() == w.Who().Key()
    ensures v == w
  {
    var k :| 0 <= k < |out| && out[k] == v;
    var l :| 0 <= l < |out| && out[l] == w;
    var keys := Keys(out);
    assert keys[k] == keys[l];
  }

  /** The derivation emits the relation, each wait once, if and only if the keys tell its waits apart. */
  lemma ExactlyWhen(rows: seq<Row>, out: seq<Wait>)
    requires Derived(rows, out)
    ensures Exact(rows, out) <==> KeysTellApart(rows)
  {
    if KeysTellApart(rows) {
      ApartIsExact(rows, out);
    }
    if Exact(rows, out) {
      forall x, y | WaitsFor(rows, x) && WaitsFor(rows, y) && x.Key() == y.Key()
        ensures x == y
      {
        ExactIsApart(rows, out, x, y);
      }
    }
  }

  /** For numeric thread ids and schema names that do not begin with a digit, the derivation is exact. */
  lemma PlainNamesAreExact(rows: seq<Row>, out: seq<Wait>)
    requires Derived(rows, out)
    requires forall r | r in rows :: Numeric(r.thread) && !StartsWithDigit(r.obj)
    ensures Exact(rows, out)
  {
    forall x, y | WaitsFor(rows, x) && WaitsFor(rows, y) && x.Key() == y.Key()
      ensures x == y
    {
      WaitHasRows(rows, x);
      WaitHasRows(rows, y);
      KeyInjective(x, y);
    }
    ExactlyWhen(rows, out);
  }

  /** A table of a database, exclusively locked by one thread, which another thread waits for. */
  function Contended(blocker: string, obj: string): seq<Row> {
    [Row(blocker, obj, Exclusive, Granted), Row("3", obj, Exclusive, Pending)]
  }

  lemma ContendedWaits(before: seq<Row>, blocker: string, obj: string, after: seq<Row>)
    requires blocker != "3"
    ensures WaitsFor(before + Contended(blocker, obj) + after, Triple("3", blocker, obj))
  {
    var rows := before + Contended(blocker, obj) + after;
    var held, wanted := Lock(blocker, Exclusive), Lock("3", Exclusive);
    RowHasLock(rows, |before|);
    RowHasLock(rows, |before| + 1);
    assert Conflicts(wanted, held);
  }

  lemma {:induction false} RowHasLock(rows: seq<Row>, i: nat)
    requires i < |rows|
    ensures Lock(rows[i].thread, rows[i].mode) in LocksOn(rows, rows[i].status, rows[i].obj)
    decreases |rows|
  {
    if i < |rows| - 1 {
      RowHasLock(rows[..|rows| - 1], i);
    }
  }

  /** Two waits whose blockers and objects are shifted against each other share a key: one of them is lost. */
  lemma ShiftedCollide(blocker: string, digits: string, obj: string)
    requires digits != [] && blocker != "3" && blocker + digits != "3"
    ensures
      var rows := Contended(blocker, digits + obj) + Contended(blocker + digits, obj);
      && WaitsFor(rows, Triple("3", blocker, digits + obj)) && WaitsFor(rows, Triple("3", blocker + digits, obj))
      && !KeysTellApart(rows)
  {
    var p, q := Contended(blocker, digits + obj), Contended(blocker + digits, obj);
    assert [] + p + q == p + q && p + q + [] == p + q;
    ContendedWaits([], blocker, digits + obj, q);
    ContendedWaits(p, blocker + digits, obj, []);
    var x, y := Triple("3", blocker, digits + obj), Triple("3", blocker + digits, obj);
    assert Shifted(x, y);
    ShiftedIsSame(x, y);
    assert |x.blocker| != |y.blocker|;
  }

  /** So it can be when a schema name begins with a digit. */
  lemma DigitNamesCollide()
    ensures
      var rows := Contended("1", "2x.t") + Contended("12", "x.t");
      && WaitsFor(rows, Triple("3", "1", "2x.t")) && WaitsFor(rows, Triple("3", "12", "x.t"))
      && !KeysTellApart(rows)
  {
    assert "1" + "2" == "12" && "2" + "x.t" == "2x.t";
    assert "1"[0] != "3"[0] && "12"[0] != "3"[0];
    ShiftedCollide("1", "2", "x.t");
  }
}
