/**
 The view-only VNC filter (app/browsevnc.go): an incremental machine that sees the
 client's bytes in arbitrary pieces, forwards what a watcher may send and drops the
 rest. It is proved against the grammar in RfbProtocol.
 */
module ViewFilter {
  import opened RfbProtocol

  // ------------------------------------------------------------ sizing one message

  /** The two values the sizing routine returns without an error, or its error. */
  datatype Sizing = Sized(n: int, pass: bool) | Unsupported

  function Need(b: bytes, k: int): int {
    if |b| < k then 0 else k
  }

  /** A 32-bit field reinterpreted as Go's int32. */
  function Int32(u: int): (l: int)
    requires 0 <= u < 0x1_0000_0000
    ensures -0x8000_0000 <= l < 0x8000_0000
  {
    if u < 0x8000_0000 then u else u - 0x1_0000_0000
  }

  /** Go's negation of an int32: the least value is its own negation. */
  function NegInt32(l: int): int {
    if l == -0x8000_0000 then l else -l
  }

  function CutLength(b: bytes): int
    requires |b| >= 8
  {
    var l := Int32(U32(b[4], b[5], b[6], b[7]));
    if l < 0 then NegInt32(l) else l
  }

  /** Sizes the message at the head of b; 0 means that not all of it is here. */
  function SizeOf(b: bytes): Sizing
    requires b != []
  {
    match b[0]
    case 0 => Sized(Need(b, 20), true)
    case 2 => if |b| < 4 then Sized(0, false) else Sized(Need(b, 4 + 4 * U16(b[2], b[3])), true)
    case 3 => Sized(Need(b, 10), true)
    case 150 => Sized(Need(b, 10), true)
    case 248 => if |b| < 9 then Sized(0, false) else Sized(Need(b, 9 + b[8] as int), true)
    case 4 => Sized(Need(b, 8), false)
    case 5 => Sized(Need(b, 6), false)
    case 6 =>
      if |b| < 8 then Sized(0, false)
      else if CutLength(b) > MAX_CLIPBOARD then Unsupported
      else Sized(Need(b, 8 + CutLength(b)), false)
    case 251 => if |b| < 8 then Sized(0, false) else Sized(Need(b, 8 + 16 * b[6] as int), false)
    case 255 => Sized(Need(b, 12), false)
    case _ => Unsupported
  }

  // ------------------------------------------------------------ one step and a whole run

  /** What the filter does next with its buffer. Crash is the out-of-range slice of a negative size. */
  datatype Step = Wait | Reject | Crash | Take(n: nat, out: bytes, stage: nat)

  function StepOf(stage: nat, b: bytes): (s: Step)
    ensures s.Take? ==> 0 < s.n <= |b|
  {
    match stage
    case 0 =>
      if |b| < 12 then Wait
      else if !AcceptedVersion(b[..12]) then Reject
      else Take(12, b[..12], 1)
    case 1 =>
      if |b| < 1 then Wait
      else if b[0] == 1 then Take(1, b[..1], 3)
      else if b[0] == 2 then Take(1, b[..1], 2)
      else Reject
    case 2 => if |b| < 16 then Wait else Take(16, b[..16], 3)
    case 3 => if |b| < 1 then Wait else Take(1, [1], 4)
    case _ =>
      if |b| < 1 then Wait
      else
        match SizeOf(b)
        case Unsupported => Reject
        case Sized(n, pass) =>
          if n == 0 then Wait
          else if n < 0 then Crash
          else Take(n, if pass then b[..n] else [], stage)
  }

  datatype Verdict = Waiting | Rejected | Crashed

  /** Where a run stops: what it let through, why it stopped, and the filter's state then. */
  datatype Outcome = Outcome(out: bytes, verdict: Verdict, stage: nat, rest: bytes) {
    function After(sent: bytes): Outcome {
      this.(out := sent + out)
    }
  }

  /** The whole-stream meaning: take items off the front until nothing more can be taken. */
  function Run(stage: nat, b: bytes): Outcome
    decreases |b|
  {
    match StepOf(stage, b)
    case Wait => Outcome([], Waiting, stage, b)
    case Reject => Outcome([], Rejected, stage, b)
    case Crash => Outcome([], Crashed, stage, b)
    case Take(n, out, next) => Run(next, b[n..]).After(out)
  }

  /** Taking an item: its output joins what was already sent. */
  lemma RunUnfolds(stage: nat, b: bytes, sent: bytes)
    ensures
      match StepOf(stage, b)
      case Take(n, out, next) => Run(stage, b).After(sent) == Run(next, b[n..]).After(sent + out)
      case _ => Run(stage, b).out == []
  {
    var s := StepOf(stage, b);
    if s.Take? {
      assert sent + (s.out + Run(s.stage, b[s.n..]).out) == sent + s.out + Run(s.stage, b[s.n..]).out;
    }
  }

  // ------------------------------------------------------------ the machine

  class Filter {
    var buf: bytes
    var stage: nat

    constructor ()
      ensures buf == [] && stage == 0
    {
      buf, stage := [], 0;
    }

    /** One turn of the filter's loop: take a whole item off the front of the buffer, if there is one. */
    method Advance() returns (s: Step)
      modifies this
      ensures s == StepOf(old(stage), old(buf))
      ensures if s.Take? then stage == s.stage && buf == old(buf)[s.n..] else stage == old(stage) && buf == old(buf)
    {
      var n, out := 0, [];
      if stage == 0 {
        if |buf| < 12 { return Wait; }
        var v := buf[..12];
        if !(RFB_003 <= v) || RFB_003_003 <= v { return Reject; }
        n, out := 12, v;
        stage := 1;
      } else if stage == 1 {
        if |buf| < 1 { return Wait; }
        if buf[0] == 1 {
          stage := 3;
        } else if buf[0] == 2 {
          stage := 2;
        } else {
          return Reject;
        }
        n, out := 1, buf[..1];
      } else if stage == 2 {
        if |buf| < 16 { return Wait; }
        n, out := 16, buf[..16];
        stage := 3;
      } else if stage == 3 {
        if |buf| < 1 { return Wait; }
        n, out := 1, [1];
        stage := 4;
      } else {
        if |buf| < 1 { return Wait; }
        var size := SizeOf(buf);
        if size.Unsupported? { return Reject; }
        n := size.n;
        if n == 0 { return Wait; }
        if n < 0 { return Crash; }
        if size.pass {
          out := buf[..n];
        }
      }
      buf := buf[n..];
      return Take(n, out, stage);
    }

    /**
     Feeding bytes reaches exactly the state of the whole-stream run on everything
     buffered so far, and returns its output; a crash returns nothing, so whatever the
     same call had already let through is lost.
     */
    method Feed(input: bytes) returns (out: bytes, verdict: Verdict)
      modifies this
      ensures
        var r := Run(old(stage), old(buf) + input);
        && verdict == r.verdict && stage == r.stage && buf == r.rest
        && out == (if r.verdict.Crashed? then [] else r.out)
    {
      buf := buf + input;
      ghost var whole := Run(stage, buf);
      out := [];
      while true
        invariant Run(stage, buf).After(out) == whole
        decreases |buf|
      {
        RunUnfolds(stage, buf, out);
        var s := Advance();
        match s
        case Wait => return out, Waiting;
        case Reject => return out, Rejected;
        case Crash => return [], Crashed;
        case Take(_, o, _) => out := out + o;
      }
    }
  }
  // ------------------------------------------------------------ the relay

  /** A watcher's socket: pieces are fed in turn until the filter refuses one (or dies on it). */
  function Deliver(stage: nat, buf: bytes, pieces: seq<bytes>): Outcome
    decreases |pieces|
  {
    if pieces == [] then Outcome([], Waiting, stage, buf)
    else
      var r := Run(stage, buf + pieces[0]);
      match r.verdict
      case Waiting => Deliver(r.stage, r.rest, pieces[1..]).After(r.out)
      case Rejected => r
      case Crashed => r.(out := [])
  }

  lemma DeliverUnfolds(stage: nat, buf: bytes, pieces: seq<bytes>, sent: bytes)
    requires pieces != []
    ensures
      var r, d := Run(stage, buf + pieces[0]), Deliver(stage, buf, pieces);
      match r.verdict
      case Waiting => d.After(sent) == Deliver(r.stage, r.rest, pieces[1..]).After(sent + r.out)
      case Rejected => d == r
      case Crashed => d == r.(out := [])
  {
    var r := Run(stage, buf + pieces[0]);
    if r.verdict.Waiting? {
      var later := Deliver(r.stage, r.rest, pieces[1..]).out;
      assert sent + (r.out + later) == sent + r.out + later;
    }
  }

  method Relay(pieces: seq<bytes>) returns (sent: bytes, verdict: Verdict)
    ensures sent == Deliver(0, [], pieces).out
    ensures verdict == Deliver(0, [], pieces).verdict
  {
    var f := new Filter();
    sent := [];
    ghost var whole := Deliver(0, [], pieces);
    for i := 0 to |pieces|
      invariant Deliver(f.stage, f.buf, pieces[i..]).After(sent) == whole
    {
      DeliverUnfolds(f.stage, f.buf, pieces[i..], sent);
      assert pieces[i..][0] == pieces[i] && pieces[i..][1..] == pieces[i + 1..];
      var out, v := f.Feed(pieces[i]);
      sent := sent + out;
      if !v.Waiting? {
        return sent, v;
      }
    }
    verdict := Waiting;
  }
}
