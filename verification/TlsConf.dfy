/**
 Writing the TLS block into a mongod.conf (the line rewriter in app/aio_tls.go): any
 block already under net: is dropped with its indented children, and a fresh one is put
 in. The configuration is a list of lines; white space is the ASCII kind.
 */
module TlsConf {
  import opened Prelude

  type Line = string

  /** The length of a line's leading white space. */
  function Indent(l: Line): (n: nat)
    ensures n <= |l|
  {
    if l == [] || !IsSpace(l[0]) then 0 else 1 + Indent(l[1..])
  }

  predicate Blank(l: Line) {
    Indent(l) == |l|
  }

  predicate IsNet(l: Line) {
    "net:" <= l
  }

  predicate IsTls(l: Line) {
    "tls:" <= l[Indent(l)..]
  }

  predicate StartsWithSpace(l: Line) {
    " " <= l
  }

  /** A line that belongs to a block opened at the given indent. */
  predicate Deeper(l: Line, indent: int) {
    !Blank(l) && Indent(l) > indent
  }

  /** No block is being dropped. */
  const NONE := -1

  /** Whether the section net: is still open when a line is reached. */
  predicate StillNet(inNet: bool, l: Line) {
    inNet && (l == [] || StartsWithSpace(l))
  }

  /** The lines the rewriter keeps, from a state in the middle of the file. */
  function Kept(lines: seq<Line>, inNet: bool, skip: int): seq<Line> {
    if lines == [] then []
    else
      var l, rest := lines[0], lines[1..];
      if skip != NONE && Deeper(l, skip) then Kept(rest, inNet, skip)
      else if StillNet(inNet, l) && IsTls(l) then Kept(rest, true, Indent(l))
      else [l] + Kept(rest, StillNet(inNet, l) || IsNet(l), NONE)
  }

  const TWO := "  "
  const FOUR := "    "

  function Block(d: string): seq<Line> {
    [TWO + "tls:", FOUR + "mode: preferTLS",
     FOUR + ("certificateKeyFile: " + d + "/server.pem"), FOUR + ("CAFile: " + d + "/ca.pem")]
  }

  /** A fresh block after every net: line. */
  function Insert(kept: seq<Line>, d: string): seq<Line> {
    if kept == [] then []
    else [kept[0]] + (if IsNet(kept[0]) then Block(d) else []) + Insert(kept[1..], d)
  }

  function Rewritten(lines: seq<Line>, d: string): seq<Line> {
    Insert(Kept(lines, false, NONE), d)
  }

  lemma InsertOne(out: seq<Line>, l: Line, rest: seq<Line>, d: string)
    ensures out + Insert([l] + rest, d) == out + [l] + (if IsNet(l) then Block(d) else []) + Insert(rest, d)
  {
    assert ([l] + rest)[1..] == rest;
  }

  lemma KeptStep(lines: seq<Line>, i: nat, inNet: bool, skip: int)
    requires i < |lines|
    ensures
      var l := lines[i];
      Kept(lines[i..], inNet, skip) ==
        if skip != NONE && Deeper(l, skip) then Kept(lines[i + 1..], inNet, skip)
        else if StillNet(inNet, l) && IsTls(l) then Kept(lines[i + 1..], true, Indent(l))
        else [l] + Kept(lines[i + 1..], StillNet(inNet, l) || IsNet(l), NONE)
  {
    assert lines[i..][1..] == lines[i + 1..];
  }

  /** One pass: what it writes is what it keeps, with the block for directory d put in. */
  method Rewrite(lines: seq<Line>, d: string) returns (out: seq<Line>)
    ensures out == Rewritten(lines, d)
  {
    out := [];
    var inNet, skip := false, NONE;
    ghost var whole := Rewritten(lines, d);
    assert lines[0..] == lines;
    for i := 0 to |lines|
      invariant out + Insert(Kept(lines[i..], inNet, skip), d) == whole
    {
      var l := lines[i];
      KeptStep(lines, i, inNet, skip);
      if skip != NONE {
        if !Blank(l) && Indent(l) > skip {
          continue;
        }
        skip := NONE;
      }
      if inNet && l != [] && !StartsWithSpace(l) {
        inNet := false;
      }
      if inNet && IsTls(l) {
        skip := Indent(l);
        continue;
      }
      InsertOne(out, l, Kept(lines[i + 1..], inNet || IsNet(l), NONE), d);
      out := out + [l];
      if IsNet(l) {
        inNet := true;
        out := out + Block(d);
      } else {
        assert out + [] == out;
      }
    }
    assert lines[|lines|..] == [] && out + [] == out;
  }

  // ------------------------------------------------------------ what is kept

  /** Lines none of which opens a TLS block are all kept. */
  lemma {:induction false} NothingDropped(lines: seq<Line>, inNet: bool)
    requires forall l | l in lines :: !IsTls(l)
    ensures Kept(lines, inNet, NONE) == lines
    decreases |lines|
  {
    if lines != [] {
      NothingDropped(lines[1..], StillNet(inNet, lines[0]) || IsNet(lines[0]));
    }
  }

  /** Dropping is done in one go: a second pass over what was kept drops nothing more. */
  lemma {:induction false} KeptTwice(lines: seq<Line>, inNet: bool, skip: int)
    ensures Kept(Kept(lines, inNet, skip), inNet, NONE) == Kept(lines, inNet, skip)
    decreases |lines|
  {
    if lines != [] {
      var l, rest := lines[0], lines[1..];
      if skip != NONE && Deeper(l, skip) {
        KeptTwice(rest, inNet, skip);
      } else if StillNet(inNet, l) && IsTls(l) {
        assert inNet;
        KeptTwice(rest, true, Indent(l));
      } else {
        var next := StillNet(inNet, l) || IsNet(l);
        KeptTwice(rest, next, NONE);
        var k := [l] + Kept(rest, next, NONE);
        assert k[0] == l && k[1..] == Kept(rest, next, NONE);
      }
    }
  }

  // ------------------------------------------------------------ reading a written block

  lemma {:induction false} IndentOf(l: Line, n: nat)
    requires n < |l| && (forall i | 0 <= i < n :: IsSpace(l[i])) && !IsSpace(l[n])
    ensures Indent(l) == n
    decreases n
  {
    if n > 0 {
      IndentOf(l[1..], n - 1);
    }
  }

  lemma FourDeep(text: string)
    requires text != [] && !IsSpace(text[0])
    ensures Deeper(FOUR + text, 2)
  {
    IndentOf(FOUR + text, 4);
  }

  lemma BlockLines(d: string)
    ensures
      var b := Block(d);
      && StartsWithSpace(b[0]) && IsTls(b[0]) && Indent(b[0]) == 2
      && Deeper(b[1], 2) && Deeper(b[2], 2) && Deeper(b[3], 2)
  {
    IndentOf(TWO + "tls:", 2);
    FourDeep("mode: preferTLS");
    FourDeep("certificateKeyFile: " + d + "/server.pem");
    FourDeep("CAFile: " + d + "/ca.pem");
  }

  /** A block written after net: is dropped whole, and dropping goes on for lines deeper than two. */
  lemma BlockIsDropped(d: string, rest: seq<Line>)
    ensures Kept(Block(d) + rest, true, NONE) == Kept(rest, true, 2)
  {
    BlockLines(d);
    var b := Block(d);
    var z := b + rest;
    assert z[1..] == b[1..] + rest;
    assert z[1..][1..] == b[2..] + rest;
    assert z[1..][1..][1..] == b[3..] + rest;
    assert z[1..][1..][1..][1..] == rest;
    assert Kept(z, true, NONE) == Kept(z[1..], true, 2);
    assert Kept(z[1..], true, 2) == Kept(z[1..][1..], true, 2);
    assert Kept(z[1..][1..], true, 2) == Kept(z[1..][1..][1..], true, 2);
  }
  // ------------------------------------------------------------ replacing, not stacking

  /** The first line kept under each net: is blank or indented by two at most. */
  ghost predicate FlatNet(kept: seq<Line>) {
    forall i | 0 <= i < |kept| - 1 && IsNet(kept[i]) :: !Deeper(kept[i + 1], 2)
  }

  lemma NetIsFlush(l: Line)
    requires IsNet(l)
    ensures Indent(l) == 0 && !Blank(l) && !IsTls(l) && !StillNet(true, l)
  {
    assert l[0] == 'n';
  }

  lemma FlatTail(kept: seq<Line>)
    requires kept != [] && FlatNet(kept)
    ensures FlatNet(kept[1..])
  {
    var rest := kept[1..];
    forall i | 0 <= i < |rest| - 1 && IsNet(rest[i])
      ensures !Deeper(rest[i + 1], 2)
    {
      assert kept[i + 1] == rest[i] && kept[i + 2] == rest[i + 1];
    }
  }

  /** Reading a line and the block written after it: the block goes, and the next line decides what goes with it. */
  lemma ReadBack(l: Line, rest: seq<Line>, d: string, inNet: bool)
    requires !(StillNet(inNet, l) && IsTls(l))
    ensures
      Kept(Insert([l] + rest, d), inNet, NONE) ==
        [l] + Kept(Insert(rest, d), StillNet(inNet, l) || IsNet(l), if IsNet(l) then 2 else NONE)
  {
    InsertOne([], l, rest, d);
    var z := Insert([l] + rest, d);
    if IsNet(l) {
      var tail := Block(d) + Insert(rest, d);
      assert z == [l] + tail && z[1..] == tail;
      BlockIsDropped(d, Insert(rest, d));
    } else {
      assert z == [l] + Insert(rest, d) && z[1..] == Insert(rest, d);
    }
  }

  /** When the next line is not deeper than two, it makes no difference that a block has just ended. */
  lemma SkipEnds(rest: seq<Line>, d: string, inNet: bool)
    requires rest == [] || !Deeper(rest[0], 2)
    ensures Kept(Insert(rest, d), inNet, 2) == Kept(Insert(rest, d), inNet, NONE)
  {
    if rest != [] {
      assert Insert(rest, d)[0] == rest[0];
    }
  }

  /** Writing a block and reading it back: everything that was kept is kept again. */
  lemma {:induction false} FlatIsKept(kept: seq<Line>, d: string, inNet: bool)
    requires Kept(kept, inNet, NONE) == kept && FlatNet(kept)
    ensures Kept(Insert(kept, d), inNet, NONE) == kept
    decreases |kept|
  {
    if kept != [] {
      var l, rest := kept[0], kept[1..];
      assert kept == [l] + rest;
      FirstIsKept(kept, inNet);
      ReadBack(l, rest, d, inNet);
      if IsNet(l) {
        assert rest != [] ==> kept[1] == rest[0];
        SkipEnds(rest, d, true);
      }
      FlatTail(kept);
      FlatIsKept(rest, d, StillNet(inNet, l) || IsNet(l));
    }
  }

  /** If nothing is dropped from a list then not its first line either, nor anything from the rest. */
  lemma FirstIsKept(kept: seq<Line>, inNet: bool)
    requires kept != [] && Kept(kept, inNet, NONE) == kept
    ensures !(StillNet(inNet, kept[0]) && IsTls(kept[0]))
    ensures Kept(kept[1..], StillNet(inNet, kept[0]) || IsNet(kept[0]), NONE) == kept[1..]
  {
    if StillNet(inNet, kept[0]) && IsTls(kept[0]) {
      KeptIsShorter(kept[1..], true, Indent(kept[0]));
    }
  }

  lemma {:induction false} KeptIsShorter(lines: seq<Line>, inNet: bool, skip: int)
    ensures |Kept(lines, inNet, skip)| <= |lines|
    decreases |lines|
  {
    if lines != [] {
      var l, rest := lines[0], lines[1..];
      KeptIsShorter(rest, inNet, skip);
      KeptIsShorter(rest, true, Indent(l));
      KeptIsShorter(rest, StillNet(inNet, l) || IsNet(l), NONE);
    }
  }
  /** Reading back never finds more lines than were kept: written blocks are always dropped. */
  lemma {:induction false} ReadBackBound(kept: seq<Line>, d: string, inNet: bool, skip: int)
    requires skip >= NONE
    ensures |Kept(Insert(kept, d), inNet, skip)| <= |kept|
    decreases |kept|
  {
    if kept != [] {
      var l, rest := kept[0], kept[1..];
      assert kept == [l] + rest;
      InsertOne([], l, rest, d);
      var z := Insert(kept, d);
      if IsNet(l) {
        NetIsFlush(l);
      } else {
        assert z == [l] + Insert(rest, d) && z[1..] == Insert(rest, d);
      }
      if skip != NONE && Deeper(l, skip) {
        ReadBackBound(rest, d, inNet, skip);
      } else if StillNet(inNet, l) && IsTls(l) {
        ReadBackBound(rest, d, true, Indent(l));
      } else {
        assert Kept(z, inNet, skip) == Kept(z, inNet, NONE);
        ReadBack(l, rest, d, inNet);
        ReadBackBound(rest, d, StillNet(inNet, l) || IsNet(l), if IsNet(l) then 2 else NONE);
      }
    }
  }

  /** A line deeper than two right under net: is taken for part of the block, and lost. */
  lemma {:induction false} DeepLineIsLost(kept: seq<Line>, d: string, inNet: bool)
    requires !FlatNet(kept)
    ensures |Kept(Insert(kept, d), inNet, NONE)| < |kept|
    decreases |kept|
  {
    var l, rest := kept[0], kept[1..];
    assert kept == [l] + rest;
    if StillNet(inNet, l) && IsTls(l) {
      assert !IsNet(l) by { if IsNet(l) { NetIsFlush(l); } }
      InsertOne([], l, rest, d);
      var z := Insert(kept, d);
      assert z == [l] + Insert(rest, d) && z[1..] == Insert(rest, d);
      ReadBackBound(rest, d, true, Indent(l));
    } else {
      ReadBack(l, rest, d, inNet);
      var next := StillNet(inNet, l) || IsNet(l);
      if IsNet(l) && rest != [] && Deeper(rest[0], 2) {
        DeepLineDropped(rest, d);
      } else {
        NotFlatTail(kept);
        if IsNet(l) {
          SkipEnds(rest, d, next);
        }
        DeepLineIsLost(rest, d, next);
      }
    }
  }

  lemma DeepLineDropped(rest: seq<Line>, d: string)
    requires rest != [] && Deeper(rest[0], 2)
    ensures |Kept(Insert(rest, d), true, 2)| < |rest|
  {
    var l, more := rest[0], rest[1..];
    assert rest == [l] + more;
    assert !IsNet(l) by { if IsNet(l) { NetIsFlush(l); } }
    InsertOne([], l, more, d);
    var z := Insert(rest, d);
    assert z == [l] + Insert(more, d) && z[1..] == Insert(more, d);
    ReadBackBound(more, d, true, 2);
  }

  lemma NotFlatTail(kept: seq<Line>)
    requires !FlatNet(kept) && (IsNet(kept[0]) && |kept| > 1 ==> !Deeper(kept[1], 2))
    ensures kept != [] && !FlatNet(kept[1..])
  {
    var i :| 0 <= i < |kept| - 1 && IsNet(kept[i]) && Deeper(kept[i + 1], 2);
    var rest := kept[1..];
    assert rest[i - 1] == kept[i] && rest[i] == kept[i + 1];
  }

  lemma {:induction false} InsertInjective(x: seq<Line>, y: seq<Line>, d: string)
    requires Insert(x, d) == Insert(y, d)
    ensures x == y
  {
    if x != [] && y != [] {
      var u, v := Insert(x, d), Insert(y, d);
      assert u[0] == x[0] && v[0] == y[0];
      var n := if IsNet(x[0]) then 5 else 1;
      assert u[n..] == Insert(x[1..], d) && v[n..] == Insert(y[1..], d);
      InsertInjective(x[1..], y[1..], d);
      assert x == [x[0]] + x[1..] && y == [y[0]] + y[1..];
    }
  }

  /**
   Writing directory d1 and then d2 gives what writing d2 alone gives, for every
   configuration, if and only if the first line kept under each net: is blank or
   indented by two at most.
   */
  lemma WritingReplaces(lines: seq<Line>, d1: string, d2: string)
    ensures
      Rewritten(Rewritten(lines, d1), d2) == Rewritten(lines, d2) <==> FlatNet(Kept(lines, false, NONE))
  {
    var kept := Kept(lines, false, NONE);
    KeptTwice(lines, false, NONE);
    if FlatNet(kept) {
      FlatIsKept(kept, d1, false);
    } else {
      DeepLineIsLost(kept, d1, false);
      if Rewritten(Rewritten(lines, d1), d2) == Rewritten(lines, d2) {
        InsertInjective(Kept(Rewritten(lines, d1), false, NONE), kept, d2);
      }
    }
  }

  /** A directory written after another, any number of times. */
  function RewrittenAll(lines: seq<Line>, ds: seq<string>): seq<Line> {
    if ds == [] then lines else Rewritten(RewrittenAll(lines, ds[..|ds| - 1]), ds[|ds| - 1])
  }

  /** What a line deeper than two under net: costs is never made good by writing again. */
  lemma {:induction false} LostForGood(lines: seq<Line>, ds: seq<string>)
    requires !FlatNet(Kept(lines, false, NONE)) && ds != []
    ensures |Kept(RewrittenAll(lines, ds), false, NONE)| < |Kept(lines, false, NONE)|
  {
    var before, d := ds[..|ds| - 1], ds[|ds| - 1];
    var kept := Kept(RewrittenAll(lines, before), false, NONE);
    if before == [] {
      DeepLineIsLost(kept, d, false);
    } else {
      LostForGood(lines, before);
      ReadBackBound(kept, d, false, NONE);
    }
  }

  /** The same for any number of writings, two at least: only the last one shows, under the same condition. */
  lemma {:induction false} WritingOften(lines: seq<Line>, ds: seq<string>)
    requires |ds| >= 2
    ensures RewrittenAll(lines, ds) == Rewritten(lines, ds[|ds| - 1]) <==> FlatNet(Kept(lines, false, NONE))
  {
    var before, d := ds[..|ds| - 1], ds[|ds| - 1];
    var last := before[|before| - 1];
    if FlatNet(Kept(lines, false, NONE)) {
      if |before| == 1 {
        assert RewrittenAll(lines, before[..0]) == lines;
      } else {
        WritingOften(lines, before);
      }
      WritingReplaces(lines, last, d);
    } else {
      LostForGood(lines, before);
      if RewrittenAll(lines, ds) == Rewritten(lines, d) {
        InsertInjective(Kept(RewrittenAll(lines, before), false, NONE), Kept(lines, false, NONE), d);
      }
    }
  }

  /** As rendered, a configuration has no TLS block and no line indented by more than two: nothing is lost, ever. */
  lemma RenderedIsSafe(lines: seq<Line>, ds: seq<string>)
    requires forall l | l in lines :: !IsTls(l) && Indent(l) <= 2
    ensures RewrittenAll(lines, ds) == if ds == [] then lines else Insert(lines, ds[|ds| - 1])
  {
    NothingDropped(lines, false);
    assert FlatNet(lines);
    if |ds| == 1 {
      assert RewrittenAll(lines, ds[..0]) == lines;
    } else if |ds| >= 2 {
      WritingOften(lines, ds);
    }
  }

  // ------------------------------------------------------------ what is written

  /** The value of the first setting of that name. */
  function Setting(lines: seq<Line>, key: string): Option<string> {
    if lines == [] then None
    else
      var text := lines[0][Indent(lines[0])..];
      if key + ": " <= text then Some(text[|key| + 2..]) else Setting(lines[1..], key)
  }

  lemma SettingHere(indent: Line, key: string, value: string, rest: seq<Line>)
    requires indent == FOUR && key != [] && !IsSpace(key[0])
    ensures Setting([indent + (key + ": " + value)] + rest, key) == Some(value)
  {
    var l := indent + (key + ": " + value);
    IndentOf(l, 4);
    assert l[4..] == key + ": " + value;
  }

  lemma SettingLater(l: Line, n: nat, rest: seq<Line>, key: string)
    requires n < |l| && (forall i | 0 <= i < n :: IsSpace(l[i])) && !IsSpace(l[n])
    requires key != [] && key[0] != l[n]
    ensures Setting([l] + rest, key) == Setting(rest, key)
  {
    IndentOf(l, n);
    assert l[n..][0] == l[n] && (key + ": ")[0] == key[0];
    assert ([l] + rest)[1..] == rest;
  }

  lemma SettingAfter(key: string, value: string, rest: seq<Line>, other: string)
    requires key != [] && !IsSpace(key[0]) && other != [] && key[0] != other[0]
    ensures Setting([FOUR + (key + ": " + value)] + rest, other) == Setting(rest, other)
  {
    SettingLater(FOUR + (key + ": " + value), 4, rest, other);
  }

  function SettingLine(key: string, value: string): Line {
    FOUR + (key + ": " + value)
  }

  /** A line that opens a block and three settings, whose names begin differently: each can be looked up. */
  lemma ThreeSettings(head: Line, k1: string, v1: string, k2: string, v2: string, k3: string, v3: string)
    requires |head| > 2 && IsSpace(head[0]) && IsSpace(head[1]) && !IsSpace(head[2])
    requires k1 != [] && k2 != [] && k3 != [] && !IsSpace(k1[0]) && !IsSpace(k2[0]) && !IsSpace(k3[0])
    requires head[2] !in {k1[0], k2[0], k3[0]} && k1[0] !in {k2[0], k3[0]} && k2[0] != k3[0]
    ensures
      var b := [head] + ([SettingLine(k1, v1)] + ([SettingLine(k2, v2)] + ([SettingLine(k3, v3)] + [])));
      Setting(b, k1) == Some(v1) && Setting(b, k2) == Some(v2) && Setting(b, k3) == Some(v3)
  {
    var c := [SettingLine(k3, v3)] + [];
    var b := [SettingLine(k2, v2)] + c;
    var a := [SettingLine(k1, v1)] + b;
    SettingHere(FOUR, k1, v1, b);
    SettingHere(FOUR, k2, v2, c);
    SettingHere(FOUR, k3, v3, []);
    SettingLater(head, 2, a, k1);
    SettingLater(head, 2, a, k2);
    SettingLater(head, 2, a, k3);
    SettingAfter(k1, v1, b, k2);
    SettingAfter(k1, v1, b, k3);
    SettingAfter(k2, v2, c, k3);
  }

  /** The block prefers TLS, and names the server's key file and the authority's certificate in the directory. */
  lemma BlockSettings(d: string)
    ensures Setting(Block(d), "mode") == Some("preferTLS")
    ensures Setting(Block(d), "certificateKeyFile") == Some(d + "/server.pem")
    ensures Setting(Block(d), "CAFile") == Some(d + "/ca.pem")
  {
    var server, ca := d + "/server.pem", d + "/ca.pem";
    ThreeSettings(TWO + "tls:", "mode", "preferTLS", "certificateKeyFile", server, "CAFile", ca);
    BlockIs(d, server, ca);
  }

  lemma BlockIs(d: string, server: string, ca: string)
    requires server == d + "/server.pem" && ca == d + "/ca.pem"
    ensures
      Block(d) ==
        [TWO + "tls:"] + ([SettingLine("mode", "preferTLS")] +
        ([SettingLine("certificateKeyFile", server)] + ([SettingLine("CAFile", ca)] + [])))
  {
    assert SettingLine("mode", "preferTLS") == FOUR + "mode: preferTLS";
    assert SettingLine("certificateKeyFile", server) == FOUR + ("certificateKeyFile: " + d + "/server.pem");
    assert SettingLine("CAFile", ca) == FOUR + ("CAFile: " + d + "/ca.pem");
  }

  function CountTls(lines: seq<Line>): nat {
    if lines == [] then 0 else (if IsTls(lines[0]) then 1 else 0) + CountTls(lines[1..])
  }

  function CountNet(lines: seq<Line>): nat {
    if lines == [] then 0 else (if IsNet(lines[0]) then 1 else 0) + CountNet(lines[1..])
  }

  lemma {:induction false} CountTlsJoins(x: seq<Line>, y: seq<Line>)
    ensures CountTls(x + y) == CountTls(x) + CountTls(y)
  {
    if x == [] {
      assert x + y == y;
    } else {
      CountTlsJoins(x[1..], y);
      assert (x + y)[1..] == x[1..] + y;
    }
  }

  lemma BlockOpensOnce(d: string)
    ensures CountTls(Block(d)) == 1
  {
    BlockLines(d);
    var b := Block(d);
    IndentOf(b[1], 4);
    IndentOf(b[2], 4);
    IndentOf(b[3], 4);
    assert b[1][4..][0] == 'm' && b[2][4..][0] == 'c' && b[3][4..][0] == 'C';
    assert b == [b[0]] + ([b[1]] + ([b[2]] + [b[3]]));
    CountTlsJoins([b[0]], [b[1]] + ([b[2]] + [b[3]]));
    CountTlsJoins([b[1]], [b[2]] + [b[3]]);
    CountTlsJoins([b[2]], [b[3]]);
  }

  /** Written into a rendered configuration any number of times, there is one block for every net: line. */
  lemma {:induction false} OneBlockForEachNet(lines: seq<Line>, d: string)
    requires forall l | l in lines :: !IsTls(l)
    ensures CountTls(Insert(lines, d)) == CountNet(lines)
  {
    if lines != [] {
      var l, rest := lines[0], lines[1..];
      OneBlockForEachNet(rest, d);
      BlockOpensOnce(d);
      var mid := if IsNet(l) then Block(d) else [];
      CountTlsJoins([l] + mid, Insert(rest, d));
      CountTlsJoins([l], mid);
    }
  }
}
