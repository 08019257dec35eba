/**
 Deep instrumentation (app/activitydeep.go): performance_schema consumers and
 instruments switched on for a set time and put back by themselves. The record of what
 was changed is stored before anything is changed, so that whatever happens in between
 (a failed statement, a crash of the application, a restart of the server) can be undone.
 What the application finds out from elsewhere is an input of each operation: whether the
 stored record could be read, whether `dbConnFor` handed out a connection (which depends
 on the stored state of the deployment, not on the server), whether the stack was found.
 */
module DeepInstrumentation {
  import opened Prelude

  /** One row of setup_instruments. */
  datatype Setting = Setting(enabled: bool, timed: bool)

  /** performance_schema's setup tables. */
  datatype Setup = Setup(consumers: map<string, bool>, instruments: map<string, Setting>)

  /** An instrument as it was before it was switched on. */
  datatype Saved = Saved(name: string, was: Setting)

  datatype Record = Record(since: int, until: int, consumers: seq<string>, instruments: seq<Saved>)

  const DEEP_CONSUMERS := {"events_stages_current", "events_waits_current", "events_transactions_current"}

  predicate DeepInstrument(name: string) {
    "stage/" <= name || "wait/io/socket/" <= name || name == "transaction"
  }

  // ------------------------------------------------------------ statements

  datatype Stmt =
    | InstrumentsOn(names: seq<string>)
    | ConsumersOn(names: seq<string>)
    | RestoreInstrument(saved: Saved)
    | ConsumersOff(names: seq<string>)

  /** An UPDATE changes the rows it names, and only rows that exist. */
  function Exec(s: Setup, st: Stmt): Setup {
    match st
    case InstrumentsOn(names) =>
      s.(instruments := map n | n in s.instruments :: if n in names then Setting(true, true) else s.instruments[n])
    case ConsumersOn(names) =>
      s.(consumers := map c | c in s.consumers :: if c in names then true else s.consumers[c])
    case RestoreInstrument(saved) =>
      s.(instruments := map n | n in s.instruments :: if n == saved.name then saved.was else s.instruments[n])
    case ConsumersOff(names) =>
      s.(consumers := map c | c in s.consumers :: if c in names then false else s.consumers[c])
  }

  /** A script that stops after its first k statements. */
  function ExecSome(s: Setup, script: seq<Stmt>, k: nat): Setup
    requires k <= |script|
  {
    if k == 0 then s else Exec(ExecSome(s, script, k - 1), script[k - 1])
  }

  function Names(saved: seq<Saved>): seq<string> {
    if saved == [] then [] else Names(saved[..|saved| - 1]) + [saved[|saved| - 1].name]
  }

  function ApplyScript(r: Record): seq<Stmt> {
    (if r.instruments != [] then [InstrumentsOn(Names(r.instruments))] else []) +
    (if r.consumers != [] then [ConsumersOn(r.consumers)] else [])
  }

  function Restores(saved: seq<Saved>): seq<Stmt> {
    if saved == [] then [] else Restores(saved[..|saved| - 1]) + [RestoreInstrument(saved[|saved| - 1])]
  }

  function RevertScript(r: Record): seq<Stmt> {
    Restores(r.instruments) + (if r.consumers != [] then [ConsumersOff(r.consumers)] else [])
  }

  /** Which consumers and instruments the probe finds switched off. */
  predicate ConsumerOff(s: Setup, c: string) {
    c in s.consumers && c in DEEP_CONSUMERS && !s.consumers[c]
  }

  predicate InstrumentOff(s: Setup, n: string) {
    n in s.instruments && DeepInstrument(n) && !(s.instruments[n].enabled && s.instruments[n].timed)
  }

  /** The record lists exactly what is switched off, with the settings it has now. */
  ghost predicate Probed(s: Setup, r: Record) {
    && (forall c :: c in r.consumers <==> ConsumerOff(s, c))
    && (forall v: Saved :: v in r.instruments <==> InstrumentOff(s, v.name) && v.was == s.instruments[v.name])
  }

  // ------------------------------------------------------------ one node

  /** A server (its setup lives only while it runs) and what the application has stored about it. */
  datatype Node = Node(setup: Setup, running: bool, record: Option<Record>)

  /** Where a request to switch on can end. */
  datatype EnableFault =
    | Done
    | Refused                            // no connection, not MySQL, or performance_schema not available
    | StoreFails                         // the record could not be written
    | CrashesAfter(k: nat)               // the application stops after k statements of the script
    | ApplyFails(k: nat, deleted: bool)  // the script fails after k statements; was the record deleted then?

  /** Where a request to switch off can end. */
  datatype DisableFault =
    | Completes
    | StopsAfter(k: nat)  // the script, or the application, stops after k statements
    | DeleteFails         // the record could not be deleted

  /** A record that cannot be read is taken for none. */
  function Found(n: Node, readable: bool): Option<Record> {
    if readable then n.record else None
  }

  /** A request to switch on that gets as far as storing a new record. */
  predicate SwitchesOn(n: Node, readable: bool, fault: EnableFault) {
    !fault.Refused? && Found(n, readable).None? && n.running && !fault.StoreFails?
  }

  function Enabled(n: Node, readable: bool, probe: Record, until: int, fault: EnableFault): Node {
    if SwitchesOn(n, readable, fault) then
      var script := ApplyScript(probe);
      var k := if fault.Done? then |script| else Min(fault.k, |script|);
      n.(setup := ExecSome(n.setup, script, k),
         record := if fault.ApplyFails? && fault.deleted then None else Some(probe))
    else if !fault.Refused? && !fault.StoreFails? && Found(n, readable).Some? then
      n.(record := Some(n.record.value.(until := until)))
    else n
  }

  function Disabled(n: Node, readable: bool, conn: bool, fault: DisableFault): Node {
    if Found(n, readable).None? then n
    else if !conn then if fault.Completes? then n.(record := None) else n
    else
      var script := RevertScript(n.record.value);
      if script != [] && !n.running then n
      else
        var k := if fault.StopsAfter? then Min(fault.k, |script|) else |script|;
        n.(setup := ExecSome(n.setup, script, k), record := if fault.Completes? then None else n.record)
  }

  /** What the timer meets at one node; it reads the record twice, once itself and once to switch off. */
  datatype Look = Look(readable: bool, stack: bool, again: bool, conn: bool, fault: DisableFault)

  /**
   The timer's look at one node: if the stack cannot be looked up the record is dropped,
   nothing else happens before the time is up, and then it is a request to switch off.
   */
  function Swept(n: Node, now: int, look: Look): Node {
    if !look.stack then if look.fault.Completes? then n.(record := None) else n
    else if Found(n, look.readable).Some? && now < n.record.value.until then n
    else Disabled(n, look.again, look.conn, look.fault)
  }

  // ------------------------------------------------------------ the application

  class Reverter {
    var nodes: map<string, Node>

    constructor (nodes: map<string, Node>)
      ensures this.nodes == nodes
    {
      this.nodes := nodes;
    }

    /** The statements one after another, until the one that fails. */
    method ExecSQL(key: string, script: seq<Stmt>, k: nat)
      requires key in nodes && k <= |script|
      modifies this
      ensures nodes == old(nodes)[key := old(nodes)[key].(setup := ExecSome(old(nodes)[key].setup, script, k))]
    {
      for i := 0 to k
        invariant nodes == old(nodes)[key := old(nodes)[key].(setup := ExecSome(old(nodes)[key].setup, script, i))]
      {
        nodes := nodes[key := nodes[key].(setup := Exec(nodes[key].setup, script[i]))];
      }
    }

    /** What is switched off now, listed in some order. */
    method Probe(key: string) returns (r: Record)
      requires key in nodes
      ensures Probed(nodes[key].setup, r)
    {
      var s := nodes[key].setup;
      var cs := set c | c in s.consumers && ConsumerOff(s, c);
      var ns := set n | n in s.instruments && InstrumentOff(s, n);
      var consumers: seq<string>, instruments: seq<Saved> := [], [];
      while cs != {}
        invariant forall c :: ConsumerOff(s, c) <==> c in consumers || c in cs
        invariant forall c | c in consumers :: ConsumerOff(s, c)
        decreases |cs|
      {
        var c :| c in cs;
        cs, consumers := cs - {c}, consumers + [c];
      }
      while ns != {}
        invariant forall n | n in ns :: InstrumentOff(s, n)
        invariant forall v | v in instruments :: InstrumentOff(s, v.name) && v.was == s.instruments[v.name]
        invariant forall n | InstrumentOff(s, n) :: n in ns || Saved(n, s.instruments[n]) in instruments
        decreases |ns|
      {
        var n :| n in ns;
        ns, instruments := ns - {n}, instruments + [Saved(n, s.instruments[n])];
      }
      r := Record(0, 0, consumers, instruments);
      forall v: Saved | InstrumentOff(s, v.name) && v.was == s.instruments[v.name]
        ensures v in instruments
      {
        assert v == Saved(v.name, s.instruments[v.name]);
      }
    }

    /** Switch on for a time: the record first, the change after. */
    method Enable(key: string, now: int, until: int, readable: bool, fault: EnableFault) returns (probe: Record)
      requires key in nodes
      modifies this
      ensures SwitchesOn(old(nodes)[key], readable, fault) ==>
        Probed(old(nodes)[key].setup, probe) && probe.since == now && probe.until == until
      ensures nodes == old(nodes)[key := Enabled(old(nodes)[key], readable, probe, until, fault)]
    {
      var n := nodes[key];
      probe := Record(now, until, [], []);
      if fault.Refused? {
        return;
      }
      if readable && n.record.Some? {
        // Already on: only the timer moves.
        if !fault.StoreFails? {
          nodes := nodes[key := n.(record := Some(n.record.value.(until := until)))];
        }
        return;
      }
      if !n.running {
        return;
      }
      probe := Probe(key);
      probe := probe.(since := now, until := until);
      if fault.StoreFails? {
        return;
      }
      var script := ApplyScript(probe);
      nodes := nodes[key := n.(record := Some(probe))];
      if fault.Done? {
        ExecSQL(key, script, |script|);
      } else {
        ExecSQL(key, script, Min(fault.k, |script|));
        if fault.ApplyFails? && fault.deleted {
          nodes := nodes[key := nodes[key].(record := None)];
        }
      }
    }

    /** Put back what the record lists, then forget the record; without a connection, only forget it. */
    method Disable(key: string, readable: bool, conn: bool, fault: DisableFault)
      requires key in nodes
      modifies this
      ensures nodes == old(nodes)[key := Disabled(old(nodes)[key], readable, conn, fault)]
    {
      var n := nodes[key];
      if !readable || n.record.None? {
        return;
      }
      if conn {
        var script := RevertScript(n.record.value);
        if script != [] && !n.running {
          return;
        }
        ExecSQL(key, script, if fault.StopsAfter? then Min(fault.k, |script|) else |script|);
      }
      if fault.Completes? {
        nodes := nodes[key := nodes[key].(record := None)];
      }
    }

    /** One round of the timer over the keys it could list; each is dealt with on its own. */
    method Sweep(now: int, keys: set<string>, looks: map<string, Look>)
      requires keys <= nodes.Keys && keys <= looks.Keys
      modifies this
      ensures nodes.Keys == old(nodes).Keys
      ensures forall key | key in nodes ::
        nodes[key] == if key in keys then Swept(old(nodes)[key], now, looks[key]) else old(nodes)[key]
      // Nothing is switched off before its time.
      ensures forall key | key in keys && looks[key].stack && looks[key].readable ::
        old(nodes)[key].record.Some? && now < old(nodes)[key].record.value.until ==> nodes[key] == old(nodes)[key]
    {
      var todo := keys;
      while todo != {}
        invariant todo <= keys && nodes.Keys == old(nodes).Keys
        invariant forall key | key in nodes && (key in todo || key !in keys) :: nodes[key] == old(nodes)[key]
        invariant forall key | key in keys && key !in todo :: nodes[key] == Swept(old(nodes)[key], now, looks[key])
        decreases |todo|
      {
        var key :| key in todo;
        todo := todo - {key};
        var look, n := looks[key], nodes[key];
        if !look.stack {
          if look.fault.Completes? {
            nodes := nodes[key := n.(record := None)];
          }
          continue;
        }
        if look.readable && n.record.Some? && now < n.record.value.until {
          continue;
        }
        Disable(key, look.again, look.conn, look.fault);
      }
    }
  }
}
