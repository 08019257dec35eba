/**
 The promise of deep instrumentation over whole runs: whatever differs from the original
 setup is on record with its original setting, and a completed switch-off restores the
 original setup exactly. The code does not keep it in every run, so what is proved is
 exactly when it does: a step keeps the promise if and only if it is `Safe`, which is a
 check on the node and the request before the step is taken. `base` is the setup a server
 starts with. Four things are taken as given: requests for one node are serialised (each
 event below is one request), each UPDATE takes effect as a whole or not at all, a server
 that stops or restarts comes back with `base`, and nobody else changes the setup.
 */
module DeepProofs {
  import opened Prelude
  import opened DeepInstrumentation

  // ------------------------------------------------------------ what the record covers

  ghost predicate SameTables(base: Setup, s: Setup) {
    s.consumers.Keys == base.consumers.Keys && s.instruments.Keys == base.instruments.Keys
  }

  /** The record tells the truth about the original setup. */
  ghost predicate Truthful(base: Setup, r: Record) {
    && (forall c | c in r.consumers :: c in base.consumers && !base.consumers[c])
    && (forall v | v in r.instruments :: v.name in base.instruments && v.was == base.instruments[v.name])
  }

  /** Everything that differs from the original setup is on record, with its original setting. */
  ghost predicate Covers(base: Setup, s: Setup, r: Record) {
    && SameTables(base, s)
    && (forall c | c in base.consumers && s.consumers[c] != base.consumers[c] :: c in r.consumers)
    && (forall n | n in base.instruments && s.instruments[n] != base.instruments[n] ::
          Saved(n, base.instruments[n]) in r.instruments)
  }

  /** The promise: no record and nothing changed, or the record of the original setup and what it covers. */
  ghost predicate Inv(base: Setup, n: Node) {
    && (n.record.None? ==> n.setup == base)
    && (n.record.Some? ==> Probed(base, n.record.value) && Covers(base, n.setup, n.record.value))
    && (!n.running ==> n.setup == base)
  }

  // ------------------------------------------------------------ nothing owed

  /** Every row on record has its recorded setting: there would be nothing to put back. */
  predicate Quiet(s: Setup, r: Record) {
    && (forall c | c in r.consumers :: c in s.consumers && !s.consumers[c])
    && (forall v | v in r.instruments :: v.name in s.instruments && s.instruments[v.name] == v.was)
  }

  predicate NothingOwed(n: Node) {
    n.record.None? || Quiet(n.setup, n.record.value)
  }

  /** A row that differs from the original setup: a consumer, or else an instrument. */
  ghost predicate ConsumerDiffers(base: Setup, s: Setup, c: string) {
    c in base.consumers && (c in s.consumers ==> s.consumers[c] != base.consumers[c])
  }

  ghost predicate InstrumentDiffers(base: Setup, s: Setup, n: string) {
    n in base.instruments && (n in s.instruments ==> s.instruments[n] != base.instruments[n])
  }

  lemma SomethingDiffers(base: Setup, s: Setup)
    requires SameTables(base, s) && s != base
    ensures (exists c :: ConsumerDiffers(base, s, c)) || (exists n :: InstrumentDiffers(base, s, n))
  {
    if forall c | c in base.consumers :: s.consumers[c] == base.consumers[c] {
      assert s.consumers == base.consumers;
      assert s.instruments != base.instruments;
      var n :| n in base.instruments && s.instruments[n] != base.instruments[n];
      assert InstrumentDiffers(base, s, n);
    } else {
      var c :| c in base.consumers && s.consumers[c] != base.consumers[c];
      assert ConsumerDiffers(base, s, c);
    }
  }

  /** While the promise holds, the original setup is what the server has exactly if nothing is owed. */
  lemma OwedExactly(base: Setup, n: Node)
    requires Inv(base, n)
    ensures NothingOwed(n) <==> n.setup == base
  {
    if n.record.Some? && n.setup != base {
      SomethingDiffers(base, n.setup);
    }
  }

  // ------------------------------------------------------------ scripts stay on record

  /** A statement that touches only rows on record. */
  ghost predicate OnRecord(st: Stmt, r: Record) {
    match st
    case InstrumentsOn(names) => forall n | n in names :: exists v :: v in r.instruments && v.name == n
    case ConsumersOn(names) => forall c | c in names :: c in r.consumers
    case RestoreInstrument(saved) => saved in r.instruments
    case ConsumersOff(names) => forall c | c in names :: c in r.consumers
  }

  lemma ExecCovered(base: Setup, s: Setup, st: Stmt, r: Record)
    requires Truthful(base, r) && Covers(base, s, r) && OnRecord(st, r)
    ensures Covers(base, Exec(s, st), r)
  {
    var t := Exec(s, st);
    assert t.consumers.Keys == s.consumers.Keys && t.instruments.Keys == s.instruments.Keys;
    forall n | n in base.instruments && t.instruments[n] != base.instruments[n]
      ensures Saved(n, base.instruments[n]) in r.instruments
    {
      if st.InstrumentsOn? && n in st.names {
        var v :| v in r.instruments && v.name == n;
        assert v == Saved(n, base.instruments[n]);
      }
    }
  }

  lemma {:induction false} ExecSomeCovered(base: Setup, s: Setup, script: seq<Stmt>, k: nat, r: Record)
    requires k <= |script| && Truthful(base, r) && Covers(base, s, r)
    requires forall st | st in script :: OnRecord(st, r)
    ensures Covers(base, ExecSome(s, script, k), r)
  {
    if k > 0 {
      ExecSomeCovered(base, s, script, k - 1, r);
      ExecCovered(base, ExecSome(s, script, k - 1), script[k - 1], r);
    }
  }

  lemma {:induction false} NamesOnRecord(saved: seq<Saved>, n: string)
    ensures n in Names(saved) <==> exists v :: v in saved && v.name == n
  {
    if saved != [] {
      var before, last := saved[..|saved| - 1], saved[|saved| - 1];
      NamesOnRecord(before, n);
      assert saved == before + [last];
    }
  }

  lemma ApplyOnRecord(r: Record)
    ensures forall st | st in ApplyScript(r) :: OnRecord(st, r)
  {
    forall n | n in Names(r.instruments)
      ensures exists v :: v in r.instruments && v.name == n
    {
      NamesOnRecord(r.instruments, n);
    }
  }

  lemma {:induction false} RestoresOnRecord(saved: seq<Saved>, st: Stmt)
    requires st in Restores(saved)
    ensures st.RestoreInstrument? && st.saved in saved
  {
    if saved != [] && st != RestoreInstrument(saved[|saved| - 1]) {
      RestoresOnRecord(saved[..|saved| - 1], st);
    }
  }

  lemma RevertOnRecord(r: Record)
    ensures forall st | st in RevertScript(r) :: OnRecord(st, r)
  {
    forall st | st in RevertScript(r)
      ensures OnRecord(st, r)
    {
      if st in Restores(r.instruments) {
        RestoresOnRecord(r.instruments, st);
      }
    }
  }

  // ------------------------------------------------------------ a whole revert restores

  lemma {:induction false} ExecSomeJoins(s: Setup, x: seq<Stmt>, y: seq<Stmt>, k: nat)
    requires k <= |y|
    ensures ExecSome(s, x + y, |x| + k) == ExecSome(ExecSome(s, x, |x|), y, k)
    decreases k
  {
    if k > 0 {
      ExecSomeJoins(s, x, y, k - 1);
    } else {
      ExecSomePrefix(s, x, y, |x|);
    }
  }

  lemma {:induction false} ExecSomePrefix(s: Setup, x: seq<Stmt>, y: seq<Stmt>, k: nat)
    requires k <= |x|
    ensures ExecSome(s, x + y, k) == ExecSome(s, x, k)
  {
    if k > 0 {
      ExecSomePrefix(s, x, y, k - 1);
    }
  }

  /** The restoring statements put every listed instrument back and leave the rest alone. */
  lemma {:induction false} RestoresRestore(base: Setup, s: Setup, saved: seq<Saved>)
    requires SameTables(base, s)
    requires forall v | v in saved :: v.name in base.instruments && v.was == base.instruments[v.name]
    ensures
      var t := ExecSome(s, Restores(saved), |Restores(saved)|);
      && SameTables(base, t) && t.consumers == s.consumers
      && forall n | n in base.instruments ::
           t.instruments[n] == if n in Names(saved) then base.instruments[n] else s.instruments[n]
  {
    if saved != [] {
      var before, last := saved[..|saved| - 1], saved[|saved| - 1];
      RestoresRestore(base, s, before);
      var x := Restores(before);
      ExecSomeJoins(s, x, [RestoreInstrument(last)], 1);
      var t := ExecSome(s, x, |x|);
      var u := Exec(t, RestoreInstrument(last));
      assert ExecSome(t, [RestoreInstrument(last)], 1) == u by {
        assert ExecSome(t, [RestoreInstrument(last)], 0) == t;
      }
      assert u.instruments.Keys == t.instruments.Keys;
    }
  }

  /** Whatever a truthful record covers, its whole revert script restores. */
  lemma RevertRestores(base: Setup, s: Setup, r: Record)
    requires Truthful(base, r) && Covers(base, s, r)
    ensures ExecSome(s, RevertScript(r), |RevertScript(r)|) == base
  {
    RestoresRestore(base, s, r.instruments);
    var x := Restores(r.instruments);
    var t := ExecSome(s, x, |x|);
    forall n | n in base.instruments
      ensures t.instruments[n] == base.instruments[n]
    {
      NamesOnRecord(r.instruments, n);
      if s.instruments[n] != base.instruments[n] {
        assert Saved(n, base.instruments[n]) in r.instruments;
      }
    }
    assert t.instruments == base.instruments;
    if r.consumers == [] {
      assert RevertScript(r) == x;
      assert t.consumers == base.consumers;
    } else {
      var y := [ConsumersOff(r.consumers)];
      ExecSomeJoins(s, x, y, 1);
      assert ExecSome(t, y, 0) == t;
      assert Exec(t, y[0]).consumers == base.consumers;
    }
  }
  // ------------------------------------------------------------ switching on

  /** Part of a script to switch on has switched some of the listed rows on, and done nothing else. */
  ghost predicate PartlyOn(s: Setup, t: Setup) {
    && SameTables(s, t)
    && (forall c | c in s.consumers :: t.consumers[c] == s.consumers[c] || (ConsumerOff(s, c) && t.consumers[c]))
    && (forall n | n in s.instruments ::
          t.instruments[n] == s.instruments[n] || (InstrumentOff(s, n) && t.instruments[n] == Setting(true, true)))
  }

  lemma OnStep(s: Setup, t: Setup, st: Stmt, probe: Record)
    requires Probed(s, probe) && PartlyOn(s, t) && st in ApplyScript(probe)
    ensures PartlyOn(s, Exec(t, st))
  {
    var u := Exec(t, st);
    assert SameTables(t, u);
    if st.InstrumentsOn? {
      forall n | n in s.instruments
        ensures u.instruments[n] == t.instruments[n] || (InstrumentOff(s, n) && u.instruments[n] == Setting(true, true))
      {
        NamesOnRecord(probe.instruments, n);
      }
    }
  }

  lemma {:induction false} ApplyPartlyOn(s: Setup, probe: Record, k: nat)
    requires Probed(s, probe) && k <= |ApplyScript(probe)|
    ensures PartlyOn(s, ExecSome(s, ApplyScript(probe), k))
  {
    if k > 0 {
      ApplyPartlyOn(s, probe, k - 1);
      OnStep(s, ExecSome(s, ApplyScript(probe), k - 1), ApplyScript(probe)[k - 1], probe);
    }
  }

  lemma ApplyChanges(s: Setup, probe: Record, k: nat)
    requires Probed(s, probe) && 0 < k <= |ApplyScript(probe)|
    ensures ExecSome(s, ApplyScript(probe), k) != s
  {
    var script := ApplyScript(probe);
    var t := ExecSome(s, script, 1);
    assert t == Exec(s, script[0]) by { assert ExecSome(s, script, 0) == s; }
    if probe.instruments != [] {
      var v := probe.instruments[0];
      NamesOnRecord(probe.instruments, v.name);
      assert t.instruments[v.name] != s.instruments[v.name];
      if k == 2 {
        assert ExecSome(s, script, 2).instruments == t.instruments;
      }
    } else {
      var c := probe.consumers[0];
      assert ConsumerOff(s, c);
      assert t.consumers[c] != s.consumers[c];
    }
  }

  /** A row that is on although it was off at first is still on after any part of a script to switch on. */
  lemma StaysOwed(base: Setup, n: Node, t: Setup)
    requires Inv(base, n) && n.setup != base && PartlyOn(n.setup, t)
    ensures t != base
  {
    SomethingDiffers(base, n.setup);
    if c :| ConsumerDiffers(base, n.setup, c) {
      assert ConsumerOff(base, c);
      assert t.consumers[c];
    } else {
      var i :| InstrumentDiffers(base, n.setup, i);
      assert Saved(i, base.instruments[i]) in n.record.value.instruments;
      assert InstrumentOff(base, i);
      assert t.instruments[i] != base.instruments[i];
    }
  }

  /** A record taken while something is already on does not cover the original setup. */
  lemma LateProbe(base: Setup, n: Node, probe: Record)
    requires Inv(base, n) && n.setup != base && Probed(n.setup, probe)
    ensures !Probed(base, probe)
  {
    SomethingDiffers(base, n.setup);
    if c :| ConsumerDiffers(base, n.setup, c) {
      assert ConsumerOff(base, c) && !ConsumerOff(n.setup, c);
    } else {
      var i :| InstrumentDiffers(base, n.setup, i);
      var v := Saved(i, base.instruments[i]);
      assert v in n.record.value.instruments;
      assert v !in probe.instruments;
    }
  }

  /** A switch-on keeps the promise if nothing is owed and, when the record is deleted again, nothing was done. */
  predicate SafeOn(n: Node, readable: bool, probe: Record, fault: EnableFault) {
    SwitchesOn(n, readable, fault) ==>
      NothingOwed(n) && (fault.ApplyFails? && fault.deleted ==> fault.k == 0 || ApplyScript(probe) == [])
  }

  lemma EnableExactly(base: Setup, n: Node, readable: bool, probe: Record, until: int, fault: EnableFault)
    requires Inv(base, n) && (SwitchesOn(n, readable, fault) ==> Probed(n.setup, probe))
    ensures Inv(base, Enabled(n, readable, probe, until, fault)) <==> SafeOn(n, readable, probe, fault)
  {
    if SwitchesOn(n, readable, fault) {
      var script := ApplyScript(probe);
      var k := if fault.Done? then |script| else Min(fault.k, |script|);
      var t := ExecSome(n.setup, script, k);
      OwedExactly(base, n);
      ApplyPartlyOn(n.setup, probe, k);
      if n.setup != base {
        StaysOwed(base, n, t);
        LateProbe(base, n, probe);
      } else {
        ApplyOnRecord(probe);
        ExecSomeCovered(base, base, script, k, probe);
        if k > 0 {
          ApplyChanges(base, probe, k);
        }
      }
    }
  }

  /**
   The record is there before anything is changed: a switch-on that is refused or cannot
   store it changes nothing at all, and one that is cut short right after storing it has
   changed nothing else.
   */
  lemma RecordComesFirst(n: Node, readable: bool, probe: Record, until: int, fault: EnableFault)
    ensures fault.Refused? || fault.StoreFails? ==> Enabled(n, readable, probe, until, fault) == n
    ensures SwitchesOn(n, readable, fault) && fault == CrashesAfter(0) ==>
      Enabled(n, readable, probe, until, fault) == n.(record := Some(probe))
  {
    assert ExecSome(n.setup, ApplyScript(probe), 0) == n.setup;
  }

  // ------------------------------------------------------------ switching off

  /** A switch-off keeps the promise unless it drops the record without a connection while something is owed. */
  predicate SafeOff(n: Node, readable: bool, conn: bool, fault: DisableFault) {
    Found(n, readable).Some? && !conn && fault.Completes? ==> NothingOwed(n)
  }

  /** Dropping a record keeps the promise exactly if nothing is owed. */
  lemma DroppedExactly(base: Setup, n: Node)
    requires Inv(base, n)
    ensures Inv(base, n.(record := None)) <==> NothingOwed(n)
  {
    OwedExactly(base, n);
  }

  lemma RevertKeeps(base: Setup, n: Node, fault: DisableFault)
    requires Inv(base, n) && n.record.Some?
    ensures Inv(base, Disabled(n, true, true, fault))
    ensures n.running && fault.Completes? ==> Disabled(n, true, true, fault) == Node(base, true, None)
  {
    var r := n.record.value;
    var script := RevertScript(r);
    var k := if fault.StopsAfter? then Min(fault.k, |script|) else |script|;
    RevertRestores(base, n.setup, r);
    RevertOnRecord(r);
    ExecSomeCovered(base, n.setup, script, k, r);
    assert script == [] ==> ExecSome(n.setup, script, k) == n.setup;
  }

  lemma DisableExactly(base: Setup, n: Node, readable: bool, conn: bool, fault: DisableFault)
    requires Inv(base, n)
    ensures Inv(base, Disabled(n, readable, conn, fault)) <==> SafeOff(n, readable, conn, fault)
  {
    DroppedExactly(base, n);
    if Found(n, readable).Some? && conn {
      RevertKeeps(base, n, fault);
    }
  }

  /** A look of the timer keeps the promise unless a record is dropped for a stack that is not found. */
  predicate SafeSweep(n: Node, now: int, look: Look) {
    if !look.stack then look.fault.Completes? ==> NothingOwed(n)
    else if Found(n, look.readable).Some? && now < n.record.value.until then true
    else SafeOff(n, look.again, look.conn, look.fault)
  }

  lemma SweepExactly(base: Setup, n: Node, now: int, look: Look)
    requires Inv(base, n)
    ensures Inv(base, Swept(n, now, look)) <==> SafeSweep(n, now, look)
  {
    DroppedExactly(base, n);
    DisableExactly(base, n, look.again, look.conn, look.fault);
  }

  // ------------------------------------------------------------ runs

  datatype Event =
    | SwitchOn(readable: bool, probe: Record, until: int, onFault: EnableFault)
    | SwitchOff(readable: bool, conn: bool, fault: DisableFault)
    | TimerLook(now: int, look: Look)
    | ServerStops
    | ServerStarts

  function Next(base: Setup, n: Node, e: Event): Node {
    match e
    case SwitchOn(readable, probe, until, fault) => Enabled(n, readable, probe, until, fault)
    case SwitchOff(readable, conn, fault) => Disabled(n, readable, conn, fault)
    case TimerLook(now, look) => Swept(n, now, look)
    case ServerStops => n.(setup := base, running := false)
    case ServerStarts => n.(setup := base, running := true)
  }

  predicate Safe(n: Node, e: Event) {
    match e
    case SwitchOn(readable, probe, _, fault) => SafeOn(n, readable, probe, fault)
    case SwitchOff(readable, conn, fault) => SafeOff(n, readable, conn, fault)
    case TimerLook(now, look) => SafeSweep(n, now, look)
    case _ => true
  }

  /** A probe reports what the server has at that moment, and the record it becomes has the time asked for. */
  ghost predicate Honest(n: Node, e: Event) {
    e.SwitchOn? && SwitchesOn(n, e.readable, e.onFault) ==> Probed(n.setup, e.probe) && e.probe.until == e.until
  }

  /** One step keeps the promise if and only if it is safe. */
  lemma NextExactly(base: Setup, n: Node, e: Event)
    requires Inv(base, n) && Honest(n, e)
    ensures Inv(base, Next(base, n, e)) <==> Safe(n, e)
  {
    match e
    case SwitchOn(readable, probe, until, fault) => EnableExactly(base, n, readable, probe, until, fault);
    case SwitchOff(readable, conn, fault) => DisableExactly(base, n, readable, conn, fault);
    case TimerLook(now, look) => SweepExactly(base, n, now, look);
    case _ =>
  }

  ghost function After(base: Setup, n: Node, events: seq<Event>): Node {
    if events == [] then n
    else Next(base, After(base, n, events[..|events| - 1]), events[|events| - 1])
  }

  ghost function At(base: Setup, events: seq<Event>, i: nat): Node
    requires i <= |events|
  {
    After(base, Node(base, true, None), events[..i])
  }

  ghost predicate HonestRun(base: Setup, events: seq<Event>) {
    forall i | 0 <= i < |events| :: Honest(At(base, events, i), events[i])
  }

  ghost predicate SafeRun(base: Setup, events: seq<Event>) {
    forall i | 0 <= i < |events| :: Safe(At(base, events, i), events[i])
  }

  lemma AtNext(base: Setup, events: seq<Event>, i: nat)
    requires i < |events|
    ensures At(base, events, i + 1) == Next(base, At(base, events, i), events[i])
  {
    var upTo := events[..i + 1];
    assert upTo[..|upTo| - 1] == events[..i];
  }

  lemma {:induction false} SafeSoFar(base: Setup, events: seq<Event>, i: nat)
    requires i <= |events| && HonestRun(base, events)
    requires forall j | 0 <= j < i :: Safe(At(base, events, j), events[j])
    ensures Inv(base, At(base, events, i))
  {
    if i == 0 {
      assert events[..0] == [];
    } else {
      SafeSoFar(base, events, i - 1);
      AtNext(base, events, i - 1);
      NextExactly(base, At(base, events, i - 1), events[i - 1]);
    }
  }

  /** The promise holds all through a run if and only if every step of it is safe when it is taken. */
  lemma AlwaysOnRecord(base: Setup, events: seq<Event>)
    requires HonestRun(base, events)
    ensures (forall i: nat | i <= |events| :: Inv(base, At(base, events, i))) <==> SafeRun(base, events)
  {
    if SafeRun(base, events) {
      forall i: nat | i <= |events|
        ensures Inv(base, At(base, events, i))
      {
        SafeSoFar(base, events, i);
      }
    }
    if forall i: nat | i <= |events| :: Inv(base, At(base, events, i)) {
      forall i | 0 <= i < |events|
        ensures Safe(At(base, events, i), events[i])
      {
        var next := i + 1;
        AtNext(base, events, i);
        assert Inv(base, At(base, events, next));
        NextExactly(base, At(base, events, i), events[i]);
      }
    }
  }

  /**
   After any safe run, failed and interrupted reverts included: a completed switch-off that
   reads the record leaves the original setup and no record if it has a connection to a
   running server, and without a connection exactly if nothing was owed. A completed look of
   the timer does the same once the time is up.
   */
  lemma SwitchOffRestores(base: Setup, events: seq<Event>, now: int)
    requires HonestRun(base, events) && SafeRun(base, events)
    ensures
      var n := At(base, events, |events|);
      && (n.running ==> Disabled(n, true, true, Completes) == Node(base, true, None))
      && (Disabled(n, true, false, Completes) == Node(base, n.running, None) <==> NothingOwed(n))
      && (n.record.Some? && now >= n.record.value.until ==>
            forall look: Look | look.stack && look.again ::
              Swept(n, now, look) == Disabled(n, true, look.conn, look.fault))
  {
    var n := At(base, events, |events|);
    SafeSoFar(base, events, |events|);
    OwedExactly(base, n);
    if n.record.Some? {
      RevertKeeps(base, n, Completes);
    }
  }

  // ------------------------------------------------------------ on until its time

  /** A look of the timer that finds the stack and the record, before the record's time is up. */
  predicate Undue(e: Event, until: int) {
    e.TimerLook? && e.look.stack && e.look.readable && e.now < until
  }

  lemma {:induction false} LooksChangeNothing(base: Setup, n: Node, events: seq<Event>)
    requires n.record.Some? && forall e | e in events :: Undue(e, n.record.value.until)
    ensures After(base, n, events) == n
  {
    if events != [] {
      LooksChangeNothing(base, n, events[..|events| - 1]);
      assert Undue(events[|events| - 1], n.record.value.until);
    }
  }

  /**
   What a completed switch-on switches on is all on, and stays on, with its record, through
   any looks of the timer before its time; a completed look at that time or later puts the
   original setup back.
   */
  lemma OnUntilItsTime(base: Setup, on: Event, events: seq<Event>, now: int)
    requires on.SwitchOn? && on.onFault.Done? && Honest(Node(base, true, None), on)
    requires forall e | e in events :: Undue(e, on.until)
    ensures
      var n := Node(AllOn(base, on.probe), true, Some(on.probe));
      && After(base, Node(base, true, None), [on] + events) == n
      && (forall c | c in n.setup.consumers && c in DEEP_CONSUMERS :: n.setup.consumers[c])
      && (forall i | i in n.setup.instruments && DeepInstrument(i) :: n.setup.instruments[i] == Setting(true, true))
      && (now >= on.until ==> Swept(n, now, Look(true, true, true, true, Completes)) == Node(base, true, None))
  {
    var start, n := Node(base, true, None), Node(AllOn(base, on.probe), true, Some(on.probe));
    AfterOne(base, start, on);
    AfterJoins(base, start, [on], events);
    LooksChangeNothing(base, n, events);
    NothingLeftOff(base, on.probe);
    assert forall c | c in n.setup.consumers && c in DEEP_CONSUMERS :: !ConsumerOff(n.setup, c);
    assert forall i | i in n.setup.instruments && DeepInstrument(i) :: !InstrumentOff(n.setup, i);
    EnableExactly(base, start, on.readable, on.probe, on.until, Done);
    RevertKeeps(base, n, Completes);
  }

  /** Switching on again while on changes nothing but the time, and then the new time counts, sooner or later. */
  lemma ExtendedUntilItsTime(base: Setup, n: Node, probe: Record, until: int, events: seq<Event>, now: int)
    requires Inv(base, n) && n.running && n.record.Some?
    requires forall e | e in events :: Undue(e, until)
    ensures
      var again := SwitchOn(true, probe, until, Done);
      var m := After(base, n, [again] + events);
      && m.setup == n.setup && m.running && m.record == Some(n.record.value.(until := until))
      && (now >= until ==> Swept(m, now, Look(true, true, true, true, Completes)) == Node(base, true, None))
  {
    var again := SwitchOn(true, probe, until, Done);
    AfterOne(base, n, again);
    AfterJoins(base, n, [again], events);
    var m := Next(base, n, again);
    EnableExactly(base, n, true, probe, until, Done);
    LooksChangeNothing(base, m, events);
    RevertKeeps(base, m, Completes);
  }

  lemma {:induction false} AfterJoins(base: Setup, n: Node, x: seq<Event>, y: seq<Event>)
    ensures After(base, n, x + y) == After(base, After(base, n, x), y)
    decreases |y|
  {
    if y == [] {
      assert x + y == x;
    } else {
      AfterJoins(base, n, x, y[..|y| - 1]);
      assert (x + y)[..|x + y| - 1] == x + y[..|y| - 1];
    }
  }

  /**
   A switch-off that reads the record forgets it exactly if it completes, without a connection
   or with one to a server that is up (or that needs no statement); otherwise it keeps all of it.
   */
  lemma ForgottenExactly(n: Node, conn: bool, fault: DisableFault)
    requires n.record.Some?
    ensures
      var m := Disabled(n, true, conn, fault);
      && (m.record.None? <==> fault.Completes? && (conn ==> n.running || RevertScript(n.record.value) == []))
      && (m.record.Some? ==> m.record == n.record)
  {
  }

  lemma {:induction false} RestoresPrefix(saved: seq<Saved>, k: nat)
    requires k <= |saved|
    ensures |Restores(saved)| == |saved| && Restores(saved)[..k] == Restores(saved[..k])
  {
    if saved != [] {
      var before := saved[..|saved| - 1];
      if k < |saved| {
        RestoresPrefix(before, k);
        assert before[..k] == saved[..k];
        assert Restores(saved)[..k] == Restores(before)[..k];
      } else {
        RestoresPrefix(before, |before|);
        assert saved[..k] == saved && Restores(saved)[..k] == Restores(saved);
      }
    }
  }

  /** A revert that stops after k statements has put back the first k instruments on record and nothing else. */
  lemma StoppedRevert(base: Setup, n: Node, k: nat)
    requires Inv(base, n) && n.running && n.record.Some? && k <= |n.record.value.instruments|
    ensures
      var m := Disabled(n, true, true, StopsAfter(k));
      && m.setup.consumers == n.setup.consumers && m.record == n.record
      && m.setup.instruments.Keys == n.setup.instruments.Keys
      && forall i | i in base.instruments ::
           m.setup.instruments[i] ==
             if i in Names(n.record.value.instruments[..k]) then base.instruments[i] else n.setup.instruments[i]
  {
    var saved := n.record.value.instruments;
    var script := RevertScript(n.record.value);
    RestoresPrefix(saved, k);
    assert script[..k] == Restores(saved)[..k] && script == script[..k] + script[k..];
    ExecSomePrefix(n.setup, Restores(saved[..k]), script[k..], k);
    RestoresRestore(base, n.setup, saved[..k]);
    RestoresPrefix(saved[..k], k);
    assert ExecSome(n.setup, script, 0) == n.setup;
  }

  // ------------------------------------------------------------ the lists of a record

  ghost predicate SameLists(r: Record, q: Record) {
    && (forall c :: c in r.consumers <==> c in q.consumers)
    && (forall v :: v in r.instruments <==> v in q.instruments)
  }

  /** In a safe run every record there ever is lists the same: what the original setup had switched off. */
  lemma RecordsAlike(base: Setup, events: seq<Event>, i: nat, j: nat)
    requires HonestRun(base, events) && SafeRun(base, events) && i <= |events| && j <= |events|
    requires At(base, events, i).record.Some? && At(base, events, j).record.Some?
    ensures Probed(base, At(base, events, i).record.value)
    ensures SameLists(At(base, events, i).record.value, At(base, events, j).record.value)
  {
    SafeSoFar(base, events, i);
    SafeSoFar(base, events, j);
  }

  /** A step after which there is a record that a new probe has overwritten. */
  predicate Overwrites(n: Node, e: Event) {
    e.SwitchOn? && SwitchesOn(n, e.readable, e.onFault) && !(e.onFault.ApplyFails? && e.onFault.deleted)
  }

  /**
   While the promise holds, a step that leaves a record leaves what it lists, except exactly
   when a switch-on that could not read it overwrites it with something owed.
   */
  lemma ListsChangeExactly(base: Setup, n: Node, e: Event)
    requires Inv(base, n) && Honest(n, e) && n.record.Some? && Next(base, n, e).record.Some?
    ensures SameLists(n.record.value, Next(base, n, e).record.value) <==> !(Overwrites(n, e) && !NothingOwed(n))
  {
    var r := n.record.value;
    if Overwrites(n, e) {
      OwedExactly(base, n);
      if n.setup != base {
        LateProbe(base, n, e.probe);
      }
      if SameLists(r, e.probe) {
        assert Probed(base, e.probe);
      }
    } else {
      assert Next(base, n, e).record.value.(until := r.until) == r;
    }
  }

  // ------------------------------------------------------------ runs that break the promise

  /**
   If the script to switch on fails after k statements, with nothing owed before, the
   promise holds afterwards if and only if k is zero or the record was not deleted:
   otherwise nothing remembers what was changed.
   */
  lemma FailedApplyExactly(base: Setup, n: Node, probe: Record, until: int, k: nat, deleted: bool)
    requires Inv(base, n) && n.running && n.record.None? && Probed(n.setup, probe) && k <= |ApplyScript(probe)|
    ensures Inv(base, Enabled(n, true, probe, until, ApplyFails(k, deleted))) <==> k == 0 || !deleted
  {
    EnableExactly(base, n, true, probe, until, ApplyFails(k, deleted));
  }

  /** A switch-on that cannot read the record there is keeps the promise if and only if nothing is owed. */
  lemma OverwrittenExactly(base: Setup, n: Node, probe: Record, until: int)
    requires Inv(base, n) && n.running && n.record.Some? && Probed(n.setup, probe)
    ensures Inv(base, Enabled(n, false, probe, until, Done)) <==> Quiet(n.setup, n.record.value)
  {
    EnableExactly(base, n, false, probe, until, Done);
  }

  /** The server with everything on that a probe found switched off. */
  ghost function AllOn(base: Setup, probe: Record): Setup {
    ExecSome(base, ApplyScript(probe), |ApplyScript(probe)|)
  }

  lemma NothingLeftOff(base: Setup, probe: Record)
    requires Probed(base, probe)
    ensures forall c :: !ConsumerOff(AllOn(base, probe), c)
    ensures forall n :: !InstrumentOff(AllOn(base, probe), n)
  {
    var x := if probe.instruments != [] then [InstrumentsOn(Names(probe.instruments))] else [];
    var y := if probe.consumers != [] then [ConsumersOn(probe.consumers)] else [];
    var s := ExecSome(base, x, |x|);
    assert x != [] ==> ExecSome(base, x, 0) == base;
    forall n | n in base.instruments
      ensures !InstrumentOff(s, n)
    {
      NamesOnRecord(probe.instruments, n);
      assert InstrumentOff(base, n) ==> Saved(n, base.instruments[n]) in probe.instruments;
    }
    ExecSomeJoins(base, x, y, |y|);
    assert y != [] ==> ExecSome(s, y, 0) == s;
    assert s.consumers == base.consumers;
    assert ApplyScript(probe) == x + y;
    forall c | c in base.consumers
      ensures !ConsumerOff(AllOn(base, probe), c)
    {
      assert ConsumerOff(base, c) ==> c in probe.consumers;
    }
  }

  lemma ListedIsOff(s: Setup, r: Record)
    requires Probed(s, r)
    ensures r.consumers != [] ==> ConsumerOff(s, r.consumers[0])
    ensures r.instruments != [] ==> InstrumentOff(s, r.instruments[0].name)
  {
    assert r.consumers != [] ==> r.consumers[0] in r.consumers;
    assert r.instruments != [] ==> r.instruments[0] in r.instruments;
  }

  lemma AfterOne(base: Setup, n: Node, e: Event)
    ensures After(base, n, [e]) == Next(base, n, e)
  {
    assert After(base, n, [e][..0]) == n;
  }

  lemma AfterTwo(base: Setup, n: Node, d: Event, e: Event)
    ensures After(base, n, [d, e]) == Next(base, Next(base, n, d), e)
  {
    AfterOne(base, n, d);
    assert [d, e][..1] == [d];
  }

  lemma AfterThree(base: Setup, n: Node, c: Event, d: Event, e: Event)
    ensures After(base, n, [c, d, e]) == Next(base, Next(base, Next(base, n, c), d), e)
  {
    AfterTwo(base, n, c, d);
    assert [c, d, e][..2] == [c, d];
  }

  /**
   On every server with something to switch on, each of these leaves it on with no record:
   a switch-off, or a look of the timer once the time is up, that gets no connection; a look
   that does not find the stack; and a second switch-on that cannot read the record, after
   which a completed switch-off with a connection puts nothing back.
   */
  lemma RunsThatLeaveItOn(base: Setup, probe: Record, late: Record)
    requires Probed(base, probe) && ApplyScript(probe) != []
    requires Probed(AllOn(base, probe), late)
    ensures
      var start, left := Node(base, true, None), Node(AllOn(base, probe), true, None);
      var on := SwitchOn(true, probe, probe.until, Done);
      && left.setup != base
      && After(base, start, [on, SwitchOff(true, false, Completes)]) == left
      && After(base, start, [on, TimerLook(probe.until, Look(true, true, true, false, Completes))]) == left
      && After(base, start, [on, TimerLook(0, Look(true, false, true, true, Completes))]) == left
      && After(base, start, [on, SwitchOn(false, late, late.until, Done), SwitchOff(true, true, Completes)]) == left
  {
    var start, left := Node(base, true, None), Node(AllOn(base, probe), true, None);
    var on := SwitchOn(true, probe, probe.until, Done);
    ApplyChanges(base, probe, |ApplyScript(probe)|);
    AfterTwo(base, start, on, SwitchOff(true, false, Completes));
    AfterTwo(base, start, on, TimerLook(probe.until, Look(true, true, true, false, Completes)));
    AfterTwo(base, start, on, TimerLook(0, Look(true, false, true, true, Completes)));
    var again := SwitchOn(false, late, late.until, Done);
    AfterThree(base, start, on, again, SwitchOff(true, true, Completes));
    NothingLeftOff(base, probe);
    ListedIsOff(AllOn(base, probe), late);
  }

  /** Such a server: one consumer of the deep ones, switched off. */
  lemma LeftOnExample()
    ensures
      var c := "events_stages_current";
      var base, probe := Setup(map[c := false], map[]), Record(0, 10, [c], []);
      && Probed(base, probe) && ApplyScript(probe) != []
      && Probed(AllOn(base, probe), Record(1, 11, [], []))
  {
    var c := "events_stages_current";
    var base, probe := Setup(map[c := false], map[]), Record(0, 10, [c], []);
    assert probe.consumers[0] == c;
    NothingLeftOff(base, probe);
  }
}
