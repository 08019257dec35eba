/**
 What the view-only filter guarantees of every session, however its bytes are cut up.
 */
module ViewFilterProofs {
  import opened Prelude
  import opened RfbProtocol
  import opened ViewFilter

  // ------------------------------------------------------------ sizing is the grammar's

  /** The length field that Go's int32 negation maps to itself. */
  predicate PoisonedCutText(b: bytes) {
    |b| >= 8 && b[0] == 6 && b[4..8] == [0x80, 0, 0, 0]
  }

  /** The message the sizing routine recognises at the head of b. */
  ghost function Recognised(b: bytes, n: nat): ClientMessage
    requires b != [] && SizeOf(b).Sized? && 0 < n == SizeOf(b).n
  {
    match b[0]
    case 0 => SetPixelFormat(b[1..n])
    case 2 => SetEncodings(b[1], b[2], b[3], b[4..n])
    case 3 => FramebufferUpdateRequest(b[1..n])
    case 150 => EnableContinuousUpdates(b[1..n])
    case 248 => ClientFence(b[1..8], b[8], b[9..n])
    case 4 => KeyEvent(b[1..n])
    case 5 => PointerEvent(b[1..n])
    case 6 => ClientCutText(b[1..4], b[4..8], b[8..n])
    case 251 => SetDesktopSize(b[1..6], b[6], b[7], b[8..n])
    case _ => QemuKeyEvent(b[1..n])
  }

  /** The types whose header carries a count or a length. */
  predicate VariableLength(kind: byte) {
    kind == 2 || kind == 6 || kind == 248 || kind == 251
  }

  /** The message recognised at the head of b is well formed, and its bytes are the n at the front. */
  ghost predicate Cuts(b: bytes)
    requires b != [] && SizeOf(b).Sized? && SizeOf(b).n > 0
  {
    var n, m := SizeOf(b).n, Recognised(b, SizeOf(b).n);
    n <= |b| && m.WellFormed() && m.Encode() == b[..n] && m.Harmless() == SizeOf(b).pass
  }

  lemma FixedIsMessage(b: bytes)
    requires b != [] && SizeOf(b).Sized? && SizeOf(b).n > 0 && !VariableLength(b[0])
    ensures Cuts(b)
  {
    assert b[..SizeOf(b).n] == [b[0]] + b[1..SizeOf(b).n];
  }

  lemma VariableIsMessage(b: bytes)
    requires b != [] && SizeOf(b).Sized? && SizeOf(b).n > 0 && VariableLength(b[0])
    ensures Cuts(b)
  {
    var n := SizeOf(b).n;
    if b[0] == 2 {
      assert b[..n] == [2, b[1], b[2], b[3]] + b[4..n];
    } else if b[0] == 248 {
      assert b[..n] == [248] + b[1..8] + [b[8]] + b[9..n];
    } else if b[0] == 6 {
      assert b[..n] == [6] + b[1..4] + b[4..8] + b[8..n];
    } else {
      assert b[..n] == [251] + b[1..6] + [b[6], b[7]] + b[8..n];
    }
  }

  /** A positive size cuts exactly one well-formed message off the front. */
  lemma SizedIsMessage(b: bytes)
    requires b != [] && SizeOf(b).Sized? && SizeOf(b).n > 0
    ensures Cuts(b)
  {
    if VariableLength(b[0]) {
      VariableIsMessage(b);
    } else {
      FixedIsMessage(b);
    }
  }

  lemma FixedIsSized(m: ClientMessage, tail: bytes)
    requires m.WellFormed() && !VariableLength(m.Encode()[0])
    ensures SizeOf(m.Encode() + tail) == Sized(|m.Encode()|, m.Harmless())
  {
  }

  lemma CutTextIsSized(m: ClientMessage, tail: bytes)
    requires m.WellFormed() && m.ClientCutText?
    ensures SizeOf(m.Encode() + tail) == Sized(|m.Encode()|, m.Harmless())
  {
    var b := m.Encode() + tail;
    assert b[4] == m.length[0] && b[5] == m.length[1] && b[6] == m.length[2] && b[7] == m.length[3];
  }

  /** Every well-formed message is sized exactly, whatever follows it. */
  lemma MessageIsSized(m: ClientMessage, tail: bytes)
    requires m.WellFormed()
    ensures SizeOf(m.Encode() + tail) == Sized(|m.Encode()|, m.Harmless())
  {
    var b := m.Encode() + tail;
    match m
    case SetEncodings(_, hi, lo, _) => assert b[2] == hi && b[3] == lo;
    case ClientFence(_, length1, _) => assert b[8] == length1;
    case ClientCutText(_, _, _) => CutTextIsSized(m, tail);
    case SetDesktopSize(_, count, _, _) => assert b[6] == count;
    case _ => FixedIsSized(m, tail);
  }

  /**
   Which clipboard length fields the filter can size: magnitudes up to 16 MiB of either
   sign are; 0x80000000, whose int32 negation is itself, slips past the limit with a
   negative size; every other field is refused.
   */
  lemma CutTextSizes(b: bytes)
    requires |b| >= 8 && b[0] == 6
    ensures
      var u := U32(b[4], b[5], b[6], b[7]);
      && (SizeOf(b).Sized? && SizeOf(b).n >= 0 <==> u <= MAX_CLIPBOARD || u >= 0x1_0000_0000 - MAX_CLIPBOARD)
      && (SizeOf(b).Sized? && SizeOf(b).n < 0 <==> u == 0x8000_0000)
      && (u == 0x8000_0000 <==> PoisonedCutText(b))
      && (u == 0x8000_0000 ==> SizeOf(b).n == -0x7fff_fff8)
  {
  }

  /** No other message has a negative size. */
  lemma NegativeSize(b: bytes)
    requires b != [] && SizeOf(b).Sized?
    ensures SizeOf(b).n < 0 <==> PoisonedCutText(b)
  {
    if |b| >= 8 && b[0] == 6 {
      CutTextSizes(b);
    }
  }

  // ------------------------------------------------------------ a step is one item

  /** The bytes an item contributes to the desktop's side. */
  ghost function Shown(item: Item): bytes {
    match item
    case ClientInit(_) => [1]
    case Message(message) => if message.Harmless() then item.Wire() else []
    case _ => item.Wire()
  }

  lemma {:induction false} VisibleWire(items: seq<Item>)
    requires items != []
    ensures WireAll(Visible(items)) == Shown(items[0]) + WireAll(Visible(items[1..]))
  {
    var v, rest := Visible(items), Visible(items[1..]);
    if items[0].Message? && !items[0].message.Harmless() {
      assert v == rest;
    } else {
      assert v[1..] == rest;
    }
  }

  /** What the filter takes off its buffer is one legal item, and it forwards what that item shows. */
  lemma TakeIsItem(stage: nat, b: bytes) returns (item: Item)
    requires stage <= 4 && StepOf(stage, b).Take?
    ensures item.WellFormed() && item.AllowedAt(stage)
    ensures b == item.Wire() + b[StepOf(stage, b).n..]
    ensures Shown(item) == StepOf(stage, b).out && item.NextStage() == StepOf(stage, b).stage
  {
    match stage
    case 0 => item := Version(b[..12]);
    case 1 => item := SecurityType(b[0]);
    case 2 => item := AuthResponse(b[..16]);
    case 3 => item := ClientInit(b[0]);
    case 4 =>
      SizedIsMessage(b);
      item := Message(Recognised(b, SizeOf(b).n));
  }

  /** A legal item at the front of the buffer is always taken, whatever follows it. */
  lemma ItemIsTaken(stage: nat, item: Item, tail: bytes)
    requires item.WellFormed() && item.AllowedAt(stage)
    ensures StepOf(stage, item.Wire() + tail) == Take(|item.Wire()|, Shown(item), item.NextStage())
  {
    var b := item.Wire() + tail;
    match item
    case Version(text) => assert b[..12] == text;
    case SecurityType(choice) => assert b[..1] == [choice];
    case AuthResponse(response) => assert b[..16] == response;
    case ClientInit(_) =>
    case Message(m) =>
      MessageIsSized(m, tail);
      assert b[..|m.Encode()|] == m.Encode();
  }

  // ------------------------------------------------------------ a run is a parse

  /**
   An outcome reports a parse of b: the bytes are a legal stretch of a session followed
   by what is left, and what went out is exactly the visible part of that stretch.
   */
  ghost predicate Reports(r: Outcome, stage: nat, b: bytes, items: seq<Item>) {
    && Legal(stage, items)
    && r.stage == EndStage(stage, items)
    && b == WireAll(items) + r.rest
    && r.out == WireAll(Visible(items))
  }

  lemma ReportsOneMore(r: Outcome, stage: nat, item: Item, more: seq<Item>, tail: bytes)
    requires item.WellFormed() && item.AllowedAt(stage)
    requires Reports(r, item.NextStage(), tail, more)
    ensures Reports(r.After(Shown(item)), stage, item.Wire() + tail, [item] + more)
  {
    var items := [item] + more;
    assert items[1..] == more;
    VisibleWire(items);
    Assoc(item.Wire(), WireAll(more), r.rest);
  }

  lemma ReportsNothing(r: Outcome, stage: nat, b: bytes)
    requires r.stage == stage && r.rest == b && r.out == []
    ensures Reports(r, stage, b, [])
  {
    assert WireAll([]) + b == b;
  }

  lemma {:induction false} RunStageBound(stage: nat, b: bytes)
    requires stage <= 4
    ensures Run(stage, b).stage <= 4
    decreases |b|
  {
    var s := StepOf(stage, b);
    if s.Take? {
      RunStageBound(s.stage, b[s.n..]);
    }
  }

  lemma {:induction false} RunIsParse(stage: nat, b: bytes) returns (items: seq<Item>)
    requires stage <= 4
    ensures Reports(Run(stage, b), stage, b, items)
    decreases |b|
  {
    RunUnfolds(stage, b, []);
    if StepOf(stage, b).Take? {
      var n := StepOf(stage, b).n;
      var item := TakeIsItem(stage, b);
      var tail := b[n..];
      var more := RunIsParse(item.NextStage(), tail);
      ReportsOneMore(Run(item.NextStage(), tail), stage, item, more, tail);
      items := [item] + more;
    } else {
      items := [];
      ReportsNothing(Run(stage, b), stage, b);
    }
  }

  /** Conversely every legal stretch is consumed whole, so the parse is the only one there is. */
  lemma {:induction false} ParseIsRun(stage: nat, items: seq<Item>, tail: bytes)
    requires Legal(stage, items)
    ensures Run(stage, WireAll(items) + tail) == Run(EndStage(stage, items), tail).After(WireAll(Visible(items)))
    decreases |items|
  {
    if items == [] {
      assert WireAll(items) + tail == tail;
      assert [] + Run(stage, tail).out == Run(stage, tail).out;
    } else {
      var item, more := items[0], items[1..];
      var last := Run(EndStage(stage, items), tail).out;
      Assoc(item.Wire(), WireAll(more), tail);
      ItemIsTaken(stage, item, WireAll(more) + tail);
      ParseIsRun(item.NextStage(), more, tail);
      VisibleWire(items);
      Assoc(Shown(item), WireAll(Visible(more)), last);
    }
  }

  /** Why a run stopped can be read off what is left: nothing more to take, or something not allowed. */
  lemma {:induction false} RunStops(stage: nat, b: bytes)
    ensures
      var r := Run(stage, b);
      && (r.verdict.Waiting? <==> StepOf(r.stage, r.rest).Wait?)
      && (r.verdict.Rejected? <==> StepOf(r.stage, r.rest).Reject?)
      && (r.verdict.Crashed? <==> StepOf(r.stage, r.rest).Crash?)
    decreases |b|
  {
    var s := StepOf(stage, b);
    if s.Take? {
      RunStops(s.stage, b[s.n..]);
    }
  }
  // ------------------------------------------------------------ pieces do not matter

  /** A decision is never revised by bytes that arrive later. */
  lemma StepStable(stage: nat, b: bytes, more: bytes)
    requires !StepOf(stage, b).Wait?
    ensures StepOf(stage, b + more) == StepOf(stage, b)
  {
    var s := StepOf(stage, b);
    if s.Take? {
      assert (b + more)[..s.n] == b[..s.n];
    }
    if stage == 0 {
      assert (b + more)[..12] == b[..12];
    }
    if stage == 1 {
      assert (b + more)[..1] == b[..1];
    }
  }

  /** A run over more bytes continues where the run over fewer stopped. */
  lemma {:induction false} RunContinues(stage: nat, b: bytes, more: bytes)
    ensures
      var r := Run(stage, b);
      Run(stage, b + more) ==
        if r.verdict.Waiting? then Run(r.stage, r.rest + more).After(r.out) else r.(rest := r.rest + more)
    decreases |b|
  {
    var s := StepOf(stage, b);
    if s.Wait? {
      assert [] + Run(stage, b + more).out == Run(stage, b + more).out;
    } else {
      StepStable(stage, b, more);
      if s.Take? {
        var tail := b[s.n..];
        assert (b + more)[s.n..] == tail + more;
        RunContinues(s.stage, tail, more);
        var r := Run(s.stage, tail);
        Assoc(s.out, r.out, Run(r.stage, r.rest + more).out);
      }
    }
  }

  ghost function Flatten(pieces: seq<bytes>): bytes {
    if pieces == [] then [] else pieces[0] + Flatten(pieces[1..])
  }

  lemma FlattenFew(x: bytes, y: bytes)
    ensures Flatten([x]) == x && Flatten([x, y]) == x + y
  {
    assert [x][1..] == [] && x + [] == x;
    assert [x, y][1..] == [y] && [y][1..] == [] && y + [] == y;
  }

  /**
   However the stream is cut up, the relay ends with the verdict, the stage and (while
   it is still waiting) the leftover of the whole-stream run, and it has sent the same
   bytes, unless the filter crashed, when it has sent the beginning of them.
   */
  lemma {:induction false} DeliverIsRun(stage: nat, buf: bytes, pieces: seq<bytes>)
    requires StepOf(stage, buf).Wait?
    ensures
      var d, w := Deliver(stage, buf, pieces), Run(stage, buf + Flatten(pieces));
      && d.verdict == w.verdict && d.stage == w.stage
      && (!w.verdict.Crashed? ==> d.out == w.out)
      && (w.verdict.Crashed? ==> d.out <= w.out)
      && (w.verdict.Waiting? ==> d.rest == w.rest)
    decreases |pieces|
  {
    if pieces == [] {
      assert buf + Flatten(pieces) == buf;
    } else {
      var b, later := buf + pieces[0], Flatten(pieces[1..]);
      assert buf + Flatten(pieces) == b + later;
      RunContinues(stage, b, later);
      RunStops(stage, b);
      var r := Run(stage, b);
      if r.verdict.Waiting? {
        DeliverIsRun(r.stage, r.rest, pieces[1..]);
      }
    }
  }
  // ------------------------------------------------------------ exactly when pieces do not matter

  /** The stream has a clipboard message with the length 0x80000000 where a message is expected. */
  ghost predicate ReachesPoison(stream: bytes) {
    exists items, tail :: PoisonAfter(stream, items, tail)
  }

  ghost predicate PoisonAfter(stream: bytes, items: seq<Item>, tail: bytes) {
    Legal(0, items) && EndStage(0, items) == 4 && stream == WireAll(items) + tail && PoisonedCutText(tail)
  }

  lemma CrashStep(stage: nat, b: bytes)
    requires stage <= 4
    ensures StepOf(stage, b).Crash? <==> stage == 4 && PoisonedCutText(b)
  {
    if stage == 4 && b != [] && SizeOf(b).Sized? {
      NegativeSize(b);
    }
    if PoisonedCutText(b) {
      CutTextSizes(b);
    }
  }

  lemma CrashIsPoison(stream: bytes)
    ensures Run(0, stream).verdict.Crashed? <==> ReachesPoison(stream)
  {
    var r := Run(0, stream);
    RunStops(0, stream);
    if r.verdict.Crashed? {
      var items := RunIsParse(0, stream);
      RunStageBound(0, stream);
      CrashStep(r.stage, r.rest);
      assert PoisonAfter(stream, items, r.rest);
    }
    if ReachesPoison(stream) {
      var items, tail :| PoisonAfter(stream, items, tail);
      ParseIsRun(0, items, tail);
      CrashStep(4, tail);
    }
  }

  /** Two ways to cut the same stream up send the same bytes and end the same way. */
  ghost predicate CutsAgree(stream: bytes) {
    forall p, q | Flatten(p) == stream && Flatten(q) == stream ::
      && Deliver(0, [], p).out == Deliver(0, [], q).out
      && Deliver(0, [], p).verdict == Deliver(0, [], q).verdict
  }

  /** A run that crashed had got through the handshake, so it had let something through. */
  lemma {:induction false} CrashHasOutput(stage: nat, b: bytes)
    requires stage < 4 && Run(stage, b).verdict.Crashed?
    ensures Run(stage, b).out != []
  {
    assert StepOf(stage, b).Take?;
  }

  lemma DeliverOne(stage: nat, b: bytes)
    requires Run(stage, b).verdict.Crashed?
    ensures Deliver(stage, [], [b]).out == []
  {
    assert [] + b == b;
    DeliverUnfolds(stage, [], [b], []);
  }

  lemma DeliverTwo(stage: nat, head: bytes, tail: bytes)
    requires Run(stage, head).verdict.Waiting? && Run(stage, head).rest == []
    requires Run(Run(stage, head).stage, tail).verdict.Crashed?
    ensures Deliver(stage, [], [head, tail]).out == Run(stage, head).out
  {
    var r := Run(stage, head);
    assert [] + head == head && [head, tail][1..] == [tail];
    DeliverUnfolds(stage, [], [head, tail], []);
    DeliverOne(r.stage, tail);
    assert [] + r.out + [] == r.out;
  }

  /**
   The fatal message loses what its own call had let through: in one piece the stream
   sends nothing, cut just before that message it sends everything visible so far.
   */
  lemma PoisonLosesOutput(items: seq<Item>, tail: bytes)
    requires PoisonAfter(WireAll(items) + tail, items, tail)
    ensures Deliver(0, [], [WireAll(items) + tail]).out == []
    ensures Deliver(0, [], [WireAll(items), tail]).out == WireAll(Visible(items)) != []
  {
    var head, shown := WireAll(items), WireAll(Visible(items));
    CrashStep(4, tail);
    ParseIsRun(0, items, tail);
    assert shown + [] == shown;
    CrashHasOutput(0, head + tail);
    DeliverOne(0, head + tail);
    ParseIsRun(0, items, []);
    assert head + [] == head;
    assert Run(4, []) == Outcome([], Waiting, 4, []);
    DeliverTwo(0, head, tail);
  }

  lemma PoisonDisagrees(items: seq<Item>, tail: bytes)
    requires PoisonAfter(WireAll(items) + tail, items, tail)
    ensures !CutsAgree(WireAll(items) + tail)
  {
    PoisonLosesOutput(items, tail);
    FlattenFew(WireAll(items), tail);
    FlattenFew(WireAll(items) + tail, []);
    var p, q := [WireAll(items) + tail], [WireAll(items), tail];
    assert Deliver(0, [], p).out != Deliver(0, [], q).out;
  }

  lemma DeliveredAlike(p: seq<bytes>, q: seq<bytes>)
    requires Flatten(p) == Flatten(q) && !Run(0, Flatten(p)).verdict.Crashed?
    ensures Deliver(0, [], p).out == Deliver(0, [], q).out && Deliver(0, [], p).verdict == Deliver(0, [], q).verdict
  {
    assert [] + Flatten(p) == Flatten(p);
    DeliverIsRun(0, [], p);
    DeliverIsRun(0, [], q);
  }

  lemma CutsAgreeExactly(stream: bytes)
    ensures CutsAgree(stream) <==> !ReachesPoison(stream)
  {
    CrashIsPoison(stream);
    if ReachesPoison(stream) {
      var items, tail :| PoisonAfter(stream, items, tail);
      PoisonDisagrees(items, tail);
    } else {
      forall p, q | Flatten(p) == stream && Flatten(q) == stream
        ensures Deliver(0, [], p).out == Deliver(0, [], q).out && Deliver(0, [], p).verdict == Deliver(0, [], q).verdict
      {
        DeliveredAlike(p, q);
      }
    }
  }
  // ------------------------------------------------------------ what reaches the desktop

  lemma {:induction false} SessionsJoin(stage: nat, x: seq<Item>, y: seq<Item>)
    requires Legal(stage, x) && Legal(EndStage(stage, x), y)
    ensures Legal(stage, x + y) && EndStage(stage, x + y) == EndStage(EndStage(stage, x), y)
    ensures WireAll(x + y) == WireAll(x) + WireAll(y)
    ensures WireAll(Visible(x + y)) == WireAll(Visible(x)) + WireAll(Visible(y))
    decreases |x|
  {
    if x == [] {
      assert x + y == y;
    } else {
      assert (x + y)[1..] == x[1..] + y;
      SessionsJoin(x[0].NextStage(), x[1..], y);
      VisibleWire(x);
      VisibleWire(x + y);
      Assoc(x[0].Wire(), WireAll(x[1..]), WireAll(y));
      Assoc(Shown(x[0]), WireAll(Visible(x[1..])), WireAll(Visible(y)));
    }
  }

  /**
   A run that did not crash lost nothing: what reached the desktop is the visible part of
   the whole legal stretch the client sent, and what is left over does not begin with an item.
   */
  lemma {:induction false} NoneLost(stage: nat, buf: bytes, pieces: seq<bytes>)
    returns (items: seq<Item>, rest: bytes)
    requires stage <= 4 && !Deliver(stage, buf, pieces).verdict.Crashed?
    ensures Legal(stage, items) && buf + Flatten(pieces) == WireAll(items) + rest
    ensures Deliver(stage, buf, pieces).out == WireAll(Visible(items))
    ensures pieces != [] || StepOf(stage, buf).Wait? ==> !StepOf(EndStage(stage, items), rest).Take?
    ensures Deliver(stage, buf, pieces).verdict.Waiting? ==>
      rest == Deliver(stage, buf, pieces).rest && EndStage(stage, items) == Deliver(stage, buf, pieces).stage
    decreases |pieces|
  {
    items, rest := [], buf;
    if pieces == [] {
      assert buf + Flatten(pieces) == buf == [] + buf;
    } else {
      var b, later := buf + pieces[0], Flatten(pieces[1..]);
      var r := Run(stage, b);
      var first := RunIsParse(stage, b);
      RunStops(stage, b);
      Assoc(buf, pieces[0], later);
      Assoc(WireAll(first), r.rest, later);
      if r.verdict.Waiting? {
        RunStageBound(stage, b);
        var more, last := NoneLost(r.stage, r.rest, pieces[1..]);
        SessionsJoin(stage, first, more);
        Assoc(WireAll(first), WireAll(more), last);
        items, rest := first + more, last;
      } else {
        StepStable(r.stage, r.rest, later);
        items, rest := first, r.rest + later;
      }
    }
  }

  lemma {:induction false} FlattenSplits(pieces: seq<bytes>, k: nat)
    requires k <= |pieces|
    ensures Flatten(pieces) == Flatten(pieces[..k]) + Flatten(pieces[k..])
  {
    if k > 0 {
      FlattenSplits(pieces[1..], k - 1);
      assert pieces[..k][1..] == pieces[1..][..k - 1] && pieces[1..][k - 1..] == pieces[k..];
      Assoc(pieces[0], Flatten(pieces[1..][..k - 1]), Flatten(pieces[k..]));
    }
  }

  /** A run that crashed did so on one piece, and sent what the pieces before that one let through. */
  lemma {:induction false} FatalPiece(stage: nat, buf: bytes, pieces: seq<bytes>) returns (k: nat)
    requires Deliver(stage, buf, pieces).verdict.Crashed?
    ensures k < |pieces|
    ensures
      var d := Deliver(stage, buf, pieces[..k]);
      && d.verdict.Waiting? && d.out == Deliver(stage, buf, pieces).out
      && Run(d.stage, d.rest + pieces[k]).verdict.Crashed?
    decreases |pieces|
  {
    var r := Run(stage, buf + pieces[0]);
    if r.verdict.Crashed? {
      k := 0;
    } else {
      var later := FatalPiece(r.stage, r.rest, pieces[1..]);
      k := later + 1;
      assert pieces[..k][1..] == pieces[1..][..later];
    }
  }

  /**
   For every stream in every number of pieces: what reached the desktop is the visible part
   of a legal session that the client really sent, item by item and in order. Unless the
   filter crashed it is all the client sent, up to a leftover that does not begin with an
   item; if it crashed it is all the client sent before the fatal piece.
   */
  lemma DesktopSeesSession(stage: nat, buf: bytes, pieces: seq<bytes>)
    returns (items: seq<Item>, rest: bytes, k: nat)
    requires stage <= 4
    ensures Legal(stage, items) && k <= |pieces|
    ensures Deliver(stage, buf, pieces).out == WireAll(Visible(items))
    ensures buf + Flatten(pieces[..k]) == WireAll(items) + rest
    ensures Flatten(pieces) == Flatten(pieces[..k]) + Flatten(pieces[k..])
    ensures k > 0 || StepOf(stage, buf).Wait? ==> !StepOf(EndStage(stage, items), rest).Take?
    ensures !Deliver(stage, buf, pieces).verdict.Crashed? ==> k == |pieces|
    ensures Deliver(stage, buf, pieces).verdict.Crashed? ==>
      k < |pieces| && Run(EndStage(stage, items), rest + pieces[k]).verdict.Crashed?
  {
    k := |pieces|;
    if Deliver(stage, buf, pieces).verdict.Crashed? {
      k := FatalPiece(stage, buf, pieces);
    } else {
      assert pieces[..k] == pieces;
    }
    items, rest := NoneLost(stage, buf, pieces[..k]);
    FlattenSplits(pieces, k);
  }

  /** The visible part of a session passes through untouched. */
  lemma VisiblePasses(items: seq<Item>)
    requires Legal(0, items)
    ensures
      var b := WireAll(Visible(items));
      Run(0, b) == Outcome(b, Waiting, EndStage(0, items), [])
  {
    var v := Visible(items);
    VisibleLegal(0, items);
    VisibleTwice(items);
    ParseIsRun(0, v, []);
    assert WireAll(v) + [] == WireAll(v);
    assert Run(EndStage(0, v), []) == Outcome([], Waiting, EndStage(0, v), []);
  }

  /** Filtering the filter's output again, in whatever pieces, changes nothing. */
  lemma FilterTwice(pieces: seq<bytes>, again: seq<bytes>)
    requires Flatten(again) == Deliver(0, [], pieces).out
    ensures
      var once, twice := Deliver(0, [], pieces), Deliver(0, [], again);
      twice.out == once.out && twice.verdict.Waiting? && twice.rest == []
  {
    var items, rest, k := DesktopSeesSession(0, [], pieces);
    VisiblePasses(items);
    assert [] + Flatten(again) == Flatten(again);
    DeliverIsRun(0, [], again);
  }

  // ------------------------------------------------------------ the fatal stream

  lemma OneItem(stage: nat, item: Item)
    requires item.WellFormed() && item.AllowedAt(stage)
    ensures Legal(stage, [item]) && EndStage(stage, [item]) == item.NextStage()
    ensures WireAll([item]) == item.Wire() && WireAll(Visible([item])) == Shown(item)
  {
    assert [item][1..] == [];
    VisibleWire([item]);
    assert item.Wire() + [] == item.Wire() && Shown(item) + [] == Shown(item);
  }

  lemma EndStageJoins(stage: nat, x: seq<Item>, item: Item)
    ensures EndStage(stage, x + [item]) == item.NextStage()
    decreases |x|
  {
    if x != [] {
      assert (x + [item])[1..] == x[1..] + [item];
      EndStageJoins(x[0].NextStage(), x[1..], item);
    } else {
      assert x + [item] == [item];
    }
  }

  const HELLO: bytes := RFB_003 + [48, 48, 56, 10] // "RFB 003.008\n"
  const FATAL: bytes := [6, 0, 0, 0, 0x80, 0, 0, 0]

  /** The shortest handshake, asking for an exclusive session. */
  lemma Handshake() returns (items: seq<Item>)
    ensures Legal(0, items) && EndStage(0, items) == 4
    ensures WireAll(items) == HELLO + [1] + [0] && WireAll(Visible(items)) == HELLO + [1] + [1]
  {
    assert HELLO[10] == 56 && RFB_003_003[10] == 51;
    OneItem(0, Version(HELLO));
    OneItem(1, SecurityType(1));
    OneItem(3, ClientInit(0));
    SessionsJoin(0, [Version(HELLO)], [SecurityType(1)]);
    EndStageJoins(0, [Version(HELLO)], SecurityType(1));
    items := [Version(HELLO)] + [SecurityType(1)];
    SessionsJoin(0, items, [ClientInit(0)]);
    EndStageJoins(0, items, ClientInit(0));
    items := items + [ClientInit(0)];
  }

  /**
   A handshake and then a clipboard message whose length field is 0x80000000: sent in
   one piece, nothing reaches the desktop; sent in two, the handshake does.
   */
  lemma PoisonExample()
    ensures
      var client := HELLO + [1] + [0];
      && Deliver(0, [], [client + FATAL]).out == []
      && Deliver(0, [], [client, FATAL]).out == HELLO + [1] + [1]
      && !CutsAgree(client + FATAL)
  {
    var items := Handshake();
    assert PoisonAfter(WireAll(items) + FATAL, items, FATAL);
    PoisonLosesOutput(items, FATAL);
    CutsAgreeExactly(WireAll(items) + FATAL);
  }

  // ------------------------------------------------------------ errors and leftovers

  /** After a refusal nothing more is ever let through. */
  lemma RefusalSticks(stage: nat, b: bytes, more: bytes)
    requires Run(stage, b).verdict.Rejected?
    ensures
      var r := Run(stage, b);
      Run(r.stage, r.rest + more) == Outcome([], Rejected, r.stage, r.rest + more)
  {
    RunStops(stage, b);
    StepStable(Run(stage, b).stage, Run(stage, b).rest, more);
  }

  /** A refusal is never premature: no continuation of the refused bytes starts with a legal item. */
  lemma RefusalIsFinal(stage: nat, b: bytes, more: bytes, item: Item)
    requires StepOf(stage, b).Reject? && item.WellFormed() && item.AllowedAt(stage)
    ensures !(item.Wire() <= b + more)
  {
    StepStable(stage, b, more);
    if item.Wire() <= b + more {
      var tail := (b + more)[|item.Wire()|..];
      assert b + more == item.Wire() + tail;
      ItemIsTaken(stage, item, tail);
    }
  }

  /** Bytes taken with one more byte, but not without it, are all the bytes there are. */
  lemma NothingSkipped(stage: nat, b: bytes, x: byte)
    requires stage <= 4 && StepOf(stage, b).Wait? && StepOf(stage, b + [x]).Take?
    ensures StepOf(stage, b + [x]).n == |b| + 1
  {
    var n := StepOf(stage, b + [x]).n;
    if n <= |b| {
      var item := TakeIsItem(stage, b + [x]);
      assert |item.Wire()| == n;
      assert b == item.Wire() + b[n..];
      ItemIsTaken(stage, item, b[n..]);
    }
  }

  /** Whatever continuation completes an item, the item is all of it: the take ends at its last byte. */
  lemma TakenWhole(stage: nat, b: bytes, ext: bytes)
    requires stage <= 4 && ext != []
    requires StepOf(stage, b + ext[..|ext| - 1]).Wait? && StepOf(stage, b + ext).Take?
    ensures StepOf(stage, b + ext).n == |b + ext|
  {
    var before, x := b + ext[..|ext| - 1], ext[|ext| - 1];
    assert b + ext == before + [x];
    NothingSkipped(stage, before, x);
  }

  /**
   Whether bytes that wait can still become an item: a version must agree with "RFB 003."
   and not be 3.3, and a clipboard message cut off inside its length must not already
   announce more than 16 MiB.
   */
  predicate CanBegin(stage: nat, b: bytes) {
    match stage
    case 0 => (b <= RFB_003 || RFB_003 <= b) && !(RFB_003_003 <= b)
    case 4 =>
      4 < |b| < 8 && b[0] == 6 ==>
        b[4] == 0 || b[4] == 255 || (b[4] == 1 && forall i | 5 <= i < |b| :: b[i] == 0)
    case _ => true
  }

  lemma BegunVersion(b: bytes, text: bytes)
    requires AcceptedVersion(text) && b < text
    ensures CanBegin(0, b)
  {
    if |b| <= 8 {
      assert b <= RFB_003 by { assert b == text[..|b|] && RFB_003 == text[..8]; }
    } else {
      assert RFB_003 <= b by { assert RFB_003 == text[..8] == b[..8]; }
    }
  }

  lemma BegunCutText(b: bytes, m: ClientMessage)
    requires m.WellFormed() && b < m.Encode() && 4 < |b| < 8 && b[0] == 6
    ensures CanBegin(4, b)
  {
    var e := m.Encode();
    assert e[0] == 6;
    assert m.ClientCutText?;
    assert e[4] == m.length[0] && e[5] == m.length[1] && e[6] == m.length[2] && e[7] == m.length[3];
    assert forall i | 0 <= i < |b| :: b[i] == e[i];
  }

  lemma BegunCanBegin(stage: nat, b: bytes, item: Item)
    requires item.WellFormed() && item.AllowedAt(stage) && b < item.Wire()
    ensures CanBegin(stage, b)
  {
    if item.Version? {
      BegunVersion(b, item.text);
    } else if item.Message? && 4 < |b| < 8 && b[0] == 6 {
      BegunCutText(b, item.message);
    }
  }

  /** A byte that brings waiting bytes closer to an item. */
  function NextByte(stage: nat, b: bytes): byte {
    match stage
    case 0 => if |b| < 8 then RFB_003[|b|] else 56
    case 1 => 1
    case _ => 0
  }

  lemma NextByteOfVersion(b: bytes)
    requires |b| < 12 && CanBegin(0, b)
    ensures
      var c := b + [NextByte(0, b)];
      if |c| < 12 then CanBegin(0, c) else AcceptedVersion(c)
  {
    var c := b + [NextByte(0, b)];
    if |b| < 8 {
      assert c == RFB_003[..|c|];
    } else {
      assert RFB_003 == b[..8] == c[..8];
      assert RFB_003_003[10] == 51;
    }
  }

  lemma NextByteOfMessage(b: bytes)
    requires StepOf(4, b).Wait? && CanBegin(4, b)
    ensures
      var s := StepOf(4, b + [0]);
      s.Take? || (s.Wait? && CanBegin(4, b + [0]))
  {
    var c := b + [0];
    if |c| >= 8 && c[0] == 6 {
      CutTextSizes(c);
    }
  }

  lemma NextByteHelps(stage: nat, b: bytes)
    requires stage <= 4 && StepOf(stage, b).Wait? && CanBegin(stage, b)
    ensures
      var c := b + [NextByte(stage, b)];
      StepOf(stage, c).Take? || (StepOf(stage, c).Wait? && CanBegin(stage, c))
  {
    if stage == 0 {
      NextByteOfVersion(b);
      var c := b + [NextByte(0, b)];
      assert |c| == 12 ==> c[..12] == c;
    } else if stage == 4 {
      NextByteOfMessage(b);
    }
  }

  lemma {:induction false} FinishItem(stage: nat, b: bytes) returns (item: Item)
    requires stage <= 4 && StepOf(stage, b).Wait? && CanBegin(stage, b)
    ensures item.WellFormed() && item.AllowedAt(stage) && b < item.Wire()
    decreases MAX_CLIPBOARD + 8 - |b|
  {
    var x := NextByte(stage, b);
    var c := b + [x];
    NextByteHelps(stage, b);
    if StepOf(stage, c).Take? {
      NothingSkipped(stage, b, x);
      item := TakeIsItem(stage, c);
      assert c == item.Wire();
    } else {
      item := FinishItem(stage, c);
    }
  }

  /** The bytes are the beginning of one legal item, and not all of it. */
  ghost predicate BeginsItem(stage: nat, b: bytes) {
    exists item: Item :: item.WellFormed() && item.AllowedAt(stage) && b < item.Wire()
  }

  /** What the filter holds back while waiting begins an item if and only if it can still become one. */
  lemma LeftoverIsUnfinished(stage: nat, b: bytes)
    requires stage <= 4 && StepOf(stage, b).Wait?
    ensures BeginsItem(stage, b) <==> CanBegin(stage, b)
  {
    if CanBegin(stage, b) {
      var item := FinishItem(stage, b);
    }
    if item: Item :| item.WellFormed() && item.AllowedAt(stage) && b < item.Wire() {
      BegunCanBegin(stage, b, item);
    }
  }

  /** Bytes that the filter waits on although no item begins with them. */
  lemma HopelessLeftovers()
    ensures StepOf(0, [88]).Wait? && !BeginsItem(0, [88])
    ensures StepOf(4, [6, 0, 0, 0, 0x7f]).Wait? && !BeginsItem(4, [6, 0, 0, 0, 0x7f])
  {
    assert RFB_003[0] == 82;
    LeftoverIsUnfinished(0, [88]);
    LeftoverIsUnfinished(4, [6, 0, 0, 0, 0x7f]);
  }

  // ------------------------------------------------------------ exactly what the filter does with its buffer

  /** The bytes begin with a legal item. */
  ghost predicate HoldsItem(stage: nat, b: bytes) {
    exists item: Item :: item.WellFormed() && item.AllowedAt(stage) && item.Wire() <= b
  }

  /** How many bytes it takes to say how long an item is, or that it is not one. */
  function HeaderLength(stage: nat, b: bytes): nat {
    match stage
    case 0 => 12
    case 1 => 1
    case 2 => 16
    case 3 => 1
    case _ =>
      if b == [] then 1
      else
        match b[0]
        case 2 => 4
        case 248 => 9
        case 6 => 8
        case 251 => 8
        case _ => 1
  }

  lemma TakesExactly(stage: nat, b: bytes)
    requires stage <= 4
    ensures StepOf(stage, b).Take? <==> HoldsItem(stage, b)
  {
    if StepOf(stage, b).Take? {
      var item := TakeIsItem(stage, b);
      assert item.Wire() <= b;
    }
    if item: Item :| item.WellFormed() && item.AllowedAt(stage) && item.Wire() <= b {
      var tail := b[|item.Wire()|..];
      assert b == item.Wire() + tail;
      ItemIsTaken(stage, item, tail);
    }
  }

  lemma BeginningWaits(stage: nat, b: bytes, item: Item)
    requires stage <= 4 && item.WellFormed() && item.AllowedAt(stage) && b < item.Wire()
    ensures StepOf(stage, b).Wait?
  {
    var more := item.Wire()[|b|..];
    assert b + more == item.Wire() == item.Wire() + [];
    ItemIsTaken(stage, item, []);
    if !StepOf(stage, b).Wait? {
      StepStable(stage, b, more);
    }
  }

  lemma ShortWaits(stage: nat, b: bytes)
    requires stage <= 4 && |b| < HeaderLength(stage, b)
    ensures StepOf(stage, b).Wait?
  {
  }

  lemma WaitsExactly(stage: nat, b: bytes)
    requires stage <= 4
    ensures StepOf(stage, b).Wait? <==> |b| < HeaderLength(stage, b) || BeginsItem(stage, b)
  {
    if item: Item :| item.WellFormed() && item.AllowedAt(stage) && b < item.Wire() {
      BeginningWaits(stage, b, item);
    }
    if |b| < HeaderLength(stage, b) {
      ShortWaits(stage, b);
    } else if StepOf(stage, b).Wait? {
      LeftoverIsUnfinished(stage, b);
    }
  }

  /** The bytes cannot be the client's next item: the header is here, and no item begins with them or in them. */
  ghost predicate Unreadable(stage: nat, b: bytes) {
    |b| >= HeaderLength(stage, b) && !BeginsItem(stage, b) && !HoldsItem(stage, b)
  }

  /**
   One turn of the loop, said of the grammar alone: it takes exactly when an item is here,
   waits exactly while the header is not all here or one item is still unfinished, crashes
   exactly on the fatal clipboard length, and refuses exactly what else is unreadable.
   */
  lemma StepExactly(stage: nat, b: bytes)
    requires stage <= 4
    ensures StepOf(stage, b).Take? <==> HoldsItem(stage, b)
    ensures StepOf(stage, b).Wait? <==> |b| < HeaderLength(stage, b) || BeginsItem(stage, b)
    ensures StepOf(stage, b).Crash? <==> stage == 4 && PoisonedCutText(b)
    ensures StepOf(stage, b).Reject? <==> Unreadable(stage, b) && !(stage == 4 && PoisonedCutText(b))
  {
    TakesExactly(stage, b);
    WaitsExactly(stage, b);
    CrashStep(stage, b);
  }

  /** A stream that comes, after a legal stretch of a session, to bytes that are refused. */
  ghost predicate ReachesRefusal(stage: nat, stream: bytes, items: seq<Item>, tail: bytes) {
    && Legal(stage, items) && stream == WireAll(items) + tail
    && Unreadable(EndStage(stage, items), tail)
    && !(EndStage(stage, items) == 4 && PoisonedCutText(tail))
  }

  lemma {:induction false} LegalStages(stage: nat, items: seq<Item>)
    requires stage <= 4 && Legal(stage, items)
    ensures EndStage(stage, items) <= 4
    decreases |items|
  {
    if items != [] {
      LegalStages(items[0].NextStage(), items[1..]);
    }
  }

  /** A stream is refused exactly when it comes to unreadable bytes after a legal stretch of a session. */
  lemma RefusedExactly(stage: nat, stream: bytes)
    requires stage <= 4
    ensures Run(stage, stream).verdict.Rejected? <==> exists items, tail :: ReachesRefusal(stage, stream, items, tail)
  {
    var r := Run(stage, stream);
    RunStops(stage, stream);
    RunStageBound(stage, stream);
    if r.verdict.Rejected? {
      var items := RunIsParse(stage, stream);
      StepExactly(r.stage, r.rest);
      assert ReachesRefusal(stage, stream, items, r.rest);
    }
    if items, tail :| ReachesRefusal(stage, stream, items, tail) {
      LegalStages(stage, items);
      StepExactly(EndStage(stage, items), tail);
      ParseIsRun(stage, items, tail);
    }
  }

  /** The relay closes on a watcher exactly when the watcher's stream comes to such bytes, however it is cut up. */
  lemma RelayClosesExactly(pieces: seq<bytes>)
    ensures
      Deliver(0, [], pieces).verdict.Rejected? <==>
        exists items, tail :: ReachesRefusal(0, Flatten(pieces), items, tail)
  {
    assert [] + Flatten(pieces) == Flatten(pieces);
    DeliverIsRun(0, [], pieces);
    RefusedExactly(0, Flatten(pieces));
  }

  /** At the start: twelve bytes of any other version are refused at once, and fewer always wait. */
  lemma VersionDecided(b: bytes)
    ensures |b| < 12 ==> Run(0, b) == Outcome([], Waiting, 0, b)
    ensures |b| >= 12 && !AcceptedVersion(b[..12]) ==> Run(0, b) == Outcome([], Rejected, 0, b)
    ensures Run(0, b).stage == 0 && |b| >= 12 ==> Run(0, b).verdict.Rejected?
  {
    RunNeverGoesBack(0, b);
  }

  /** Once past the version the session never returns to it. */
  lemma {:induction false} RunNeverGoesBack(stage: nat, b: bytes)
    ensures StepOf(stage, b).Take? ==> Run(stage, b).stage > 0
    decreases |b|
  {
    var s := StepOf(stage, b);
    if s.Take? {
      RunNeverGoesBack(s.stage, b[s.n..]);
    }
  }

  /** Of a whole message the desktop gets all the bytes or none, and the first byte alone says which. */
  lemma ForwardedExactly(b: bytes)
    requires StepOf(4, b).Take?
    ensures
      var s := StepOf(4, b);
      s.stage == 4 && s.out == if b[0] in {0, 2, 3, 150, 248} then b[..s.n] else []
  {
  }
}
