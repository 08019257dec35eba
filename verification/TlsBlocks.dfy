/**
 Which lines of a mongod.conf belong to an old TLS block, said without reference to how
 the rewriter walks through the file, and the proof that it drops exactly those.
 */
module TlsBlocks {
  import opened Prelude
  import opened TlsConf

  /** A line that leaves the section net: open. */
  predicate InSection(l: Line) {
    l == [] || StartsWithSpace(l)
  }

  /** A net: line has opened the section, and every line since stays in it or belongs to an old block. */
  ghost predicate NetOpen(lines: seq<Line>, i: nat)
    requires i <= |lines|
    decreases i, 0
  {
    exists n: nat :: n < i && IsNet(lines[n]) && forall k: nat | n < k < i :: InSection(lines[k]) || InBlock(lines, k)
  }

  /** Line j opens an old block. */
  ghost predicate Opens(lines: seq<Line>, j: nat)
    decreases j, 1
  {
    j < |lines| && IsTls(lines[j]) && StartsWithSpace(lines[j]) && NetOpen(lines, j)
  }

  /** The block opened at j takes in line i: every line after the opening is deeper than it. */
  ghost predicate TakesIn(lines: seq<Line>, j: nat, i: nat)
    decreases i, 2
  {
    j <= i < |lines| && Opens(lines, j) && forall k: nat | j < k <= i :: Deeper(lines[k], Indent(lines[j]))
  }

  ghost predicate InBlock(lines: seq<Line>, i: nat)
    decreases i, 3
  {
    exists j: nat :: j <= i && TakesIn(lines, j, i)
  }

  /** The lines from i on that belong to no old block. */
  ghost function Outside(lines: seq<Line>, i: nat): seq<Line>
    requires i <= |lines|
    decreases |lines| - i
  {
    if i == |lines| then []
    else if InBlock(lines, i) then Outside(lines, i + 1)
    else [lines[i]] + Outside(lines, i + 1)
  }

  // ------------------------------------------------------------ the rewriter's state

  /** The block opened at j takes in every line before i from there on. */
  ghost predicate Reaches(lines: seq<Line>, j: nat, i: nat) {
    j < i && TakesIn(lines, j, i - 1)
  }

  /** What the rewriter's two variables mean when it comes to line i. */
  ghost predicate StateAt(lines: seq<Line>, i: nat, inNet: bool, skip: int)
    requires i <= |lines|
  {
    && (inNet <==> NetOpen(lines, i))
    && skip >= NONE
    && (skip == NONE ==> forall j: nat :: !Reaches(lines, j, i))
    && (skip != NONE ==> exists j: nat :: Reaches(lines, j, i) && Indent(lines[j]) == skip)
    && (forall j: nat | Reaches(lines, j, i) :: Indent(lines[j]) >= skip)
  }

  lemma TakesInStep(lines: seq<Line>, j: nat, i: nat)
    requires i < |lines|
    ensures
      TakesIn(lines, j, i) <==>
        if j == i then Opens(lines, i) else Reaches(lines, j, i) && Deeper(lines[i], Indent(lines[j]))
  {
  }

  lemma NetOpenStep(lines: seq<Line>, i: nat)
    requires i < |lines|
    ensures
      NetOpen(lines, i + 1) <==>
        IsNet(lines[i]) || (NetOpen(lines, i) && (InSection(lines[i]) || InBlock(lines, i)))
  {
    if NetOpen(lines, i) && (InSection(lines[i]) || InBlock(lines, i)) {
      var n: nat :| n < i && IsNet(lines[n]) && forall k: nat | n < k < i :: InSection(lines[k]) || InBlock(lines, k);
      assert n < i + 1 && forall k: nat | n < k < i + 1 :: InSection(lines[k]) || InBlock(lines, k);
    }
    if NetOpen(lines, i + 1) && !IsNet(lines[i]) {
      var n: nat :| n < i + 1 && IsNet(lines[n]) &&
        forall k: nat | n < k < i + 1 :: InSection(lines[k]) || InBlock(lines, k);
      assert n < i && forall k: nat | n < k < i :: InSection(lines[k]) || InBlock(lines, k);
    }
  }

  /** A line deeper than the block being dropped belongs to it, and nothing else changes. */
  lemma ChildStep(lines: seq<Line>, i: nat, inNet: bool, skip: int)
    requires i < |lines| && StateAt(lines, i, inNet, skip) && skip != NONE && Deeper(lines[i], skip)
    ensures InBlock(lines, i) && StateAt(lines, i + 1, inNet, skip)
  {
    var j: nat :| Reaches(lines, j, i) && Indent(lines[j]) == skip;
    TakesInStep(lines, j, i);
    assert TakesIn(lines, j, i) && Reaches(lines, j, i + 1);
    NetOpenStep(lines, i);
    if IsNet(lines[i]) {
      NetIsFlush(lines[i]);
    }
    forall l: nat | Reaches(lines, l, i + 1)
      ensures Indent(lines[l]) >= skip
    {
      TakesInStep(lines, l, i);
    }
  }

  /** Any other line belongs to a block only if it opens one. */
  lemma OtherStep(lines: seq<Line>, i: nat, inNet: bool, skip: int)
    requires i < |lines| && StateAt(lines, i, inNet, skip) && !(skip != NONE && Deeper(lines[i], skip))
    ensures forall j: nat | TakesIn(lines, j, i) :: j == i
    ensures InBlock(lines, i) <==> Opens(lines, i)
    ensures Opens(lines, i) <==> StillNet(inNet, lines[i]) && IsTls(lines[i])
  {
    forall j: nat | TakesIn(lines, j, i)
      ensures j == i && Opens(lines, i)
    {
      TakesInStep(lines, j, i);
    }
    if Opens(lines, i) {
      TakesInStep(lines, i, i);
    }
    if IsTls(lines[i]) {
      assert lines[i] != [];
    }
  }

  lemma OpenStep(lines: seq<Line>, i: nat, inNet: bool, skip: int)
    requires i < |lines| && StateAt(lines, i, inNet, skip) && !(skip != NONE && Deeper(lines[i], skip))
    requires StillNet(inNet, lines[i]) && IsTls(lines[i])
    ensures InBlock(lines, i) && StateAt(lines, i + 1, true, Indent(lines[i]))
  {
    OtherStep(lines, i, inNet, skip);
    NetOpenStep(lines, i);
    TakesInStep(lines, i, i);
    assert Reaches(lines, i, i + 1);
  }

  lemma KeptLineStep(lines: seq<Line>, i: nat, inNet: bool, skip: int)
    requires i < |lines| && StateAt(lines, i, inNet, skip) && !(skip != NONE && Deeper(lines[i], skip))
    requires !(StillNet(inNet, lines[i]) && IsTls(lines[i]))
    ensures !InBlock(lines, i) && StateAt(lines, i + 1, StillNet(inNet, lines[i]) || IsNet(lines[i]), NONE)
  {
    OtherStep(lines, i, inNet, skip);
    NetOpenStep(lines, i);
    var next := i + 1;
    forall j: nat
      ensures !Reaches(lines, j, next)
    {
      TakesInStep(lines, j, i);
    }
  }

  lemma {:induction false} KeptFrom(lines: seq<Line>, i: nat, inNet: bool, skip: int)
    requires i <= |lines| && StateAt(lines, i, inNet, skip)
    ensures Kept(lines[i..], inNet, skip) == Outside(lines, i)
    decreases |lines| - i
  {
    if i < |lines| {
      var l := lines[i];
      KeptStep(lines, i, inNet, skip);
      if skip != NONE && Deeper(l, skip) {
        ChildStep(lines, i, inNet, skip);
        KeptFrom(lines, i + 1, inNet, skip);
      } else if StillNet(inNet, l) && IsTls(l) {
        OpenStep(lines, i, inNet, skip);
        KeptFrom(lines, i + 1, true, Indent(l));
      } else {
        KeptLineStep(lines, i, inNet, skip);
        KeptFrom(lines, i + 1, StillNet(inNet, l) || IsNet(l), NONE);
      }
    }
  }

  /** What the rewriter keeps is exactly the lines outside the old blocks, in order: no block survives. */
  lemma KeptIsOutside(lines: seq<Line>)
    ensures Kept(lines, false, NONE) == Outside(lines, 0)
  {
    assert lines[0..] == lines;
    KeptFrom(lines, 0, false, NONE);
  }

  /** Whatever the file looks like, no blank line is dropped, and no line that is not indented. */
  lemma NeverDropped(lines: seq<Line>, i: nat)
    requires i < |lines| && (Blank(lines[i]) || Indent(lines[i]) == 0)
    ensures !InBlock(lines, i)
  {
    forall j: nat
      ensures !TakesIn(lines, j, i)
    {
      TakesInStep(lines, j, i);
    }
  }

  /** A block opens only on a line that begins with a space, and any other text, a tab too, closes the section. */
  lemma OnlySpacesStay(lines: seq<Line>, i: nat)
    requires i < |lines| && lines[i] != [] && lines[i][0] != ' '
    ensures !Opens(lines, i)
    ensures !IsNet(lines[i]) && !InBlock(lines, i) ==> !NetOpen(lines, i + 1)
  {
    NetOpenStep(lines, i);
  }

  /** The lines the rewriter looks for, whatever follows on them. */
  lemma Recognised(indent: Line, text: string)
    requires forall i | 0 <= i < |indent| :: IsSpace(indent[i])
    ensures IsNet("net:" + text)
    ensures IsTls(indent + ("tls:" + text)) && Indent(indent + ("tls:" + text)) == |indent|
  {
    var rest := "tls:" + text;
    IndentBefore(indent, rest);
    assert "tls:" <= rest && "net:" <= "net:" + text;
  }

  lemma IndentBefore(indent: Line, rest: Line)
    requires rest != [] && !IsSpace(rest[0]) && forall i | 0 <= i < |indent| :: IsSpace(indent[i])
    ensures Indent(indent + rest) == |indent| && (indent + rest)[|indent|..] == rest
  {
    IndentOf(indent + rest, |indent|);
  }
}
