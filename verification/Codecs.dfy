/**
 Two decoders and the encoders they invert: MySQL's printed enum types
 (app/datagen_mysql.go, with the quoting of app/activitydeep.go) and the kernel's device
 numbers (app/blkio.go).
 */
module Codecs {
  import opened Prelude

  const QUOTE := '\''

  // ------------------------------------------------------------ printing

  /** A member with its quotes doubled. */
  function Escape(m: string): string {
    if m == [] then [] else (if m[0] == QUOTE then [QUOTE, QUOTE] else [m[0]]) + Escape(m[1..])
  }

  /** The members quoted and separated by commas. */
  function Printed(members: seq<string>): string {
    if members == [] then []
    else [QUOTE] + Escape(members[0]) + [QUOTE] + (if |members| == 1 then [] else "," + Printed(members[1..]))
  }

  // ------------------------------------------------------------ matching

  /**
   Where the body of '((?:[^']|'')*)' ends when it begins at the front of t: the position
   of the closing quote, or -1. A pair of quotes is taken as part of the body, unless
   that leaves no quote to close with.
   */
  function Close(t: string): (k: int)
    ensures -1 <= k < |t| && (k >= 0 ==> t[k] == QUOTE)
  {
    if t == [] then -1
    else if t[0] != QUOTE then
      var k := Close(t[1..]);
      if k < 0 then -1 else k + 1
    else if |t| > 1 && t[1] == QUOTE then
      var k := Close(t[2..]);
      if k < 0 then 0 else k + 2
    else 0
  }

  /** The bodies of all matches, leftmost first, none overlapping. */
  function Matches(t: string): seq<string>
    decreases |t|
  {
    if t == [] then []
    else if t[0] == QUOTE && Close(t[1..]) >= 0 then
      var k := Close(t[1..]);
      [t[1..1 + k]] + Matches(t[k + 2..])
    else Matches(t[1..])
  }

  /** Pairs of quotes read as one. */
  function Unquoted(s: string): string {
    if s == [] then []
    else if s[0] == QUOTE && |s| > 1 && s[1] == QUOTE then [QUOTE] + Unquoted(s[2..])
    else [s[0]] + Unquoted(s[1..])
  }

  method UnquoteSQL(s: string) returns (r: string)
    ensures r == Unquoted(s)
  {
    r := [];
    var i := 0;
    while i < |s|
      invariant 0 <= i <= |s|
      invariant r + Unquoted(s[i..]) == Unquoted(s)
    {
      ghost var rest := s[i..];
      if s[i] == QUOTE && i + 1 < |s| && s[i + 1] == QUOTE {
        assert rest[2..] == s[i + 2..];
        UnquoteStep(r, QUOTE, rest[2..]);
        r := r + [QUOTE];
        i := i + 2;
      } else {
        assert rest[1..] == s[i + 1..];
        UnquoteStep(r, s[i], rest[1..]);
        r := r + [s[i]];
        i := i + 1;
      }
    }
    assert s[i..] == [] && r + [] == r;
  }

  lemma UnquoteStep(r: string, c: char, rest: string)
    ensures r + ([c] + Unquoted(rest)) == r + [c] + Unquoted(rest)
  {
  }

  function UnquotedAll(s: seq<string>): seq<string> {
    seq(|s|, i requires 0 <= i < |s| => Unquoted(s[i]))
  }

  method ParseEnumType(colType: string) returns (out: seq<string>)
    ensures out == UnquotedAll(Matches(colType))
  {
    out := [];
    var matches := Matches(colType);
    for i := 0 to |matches|
      invariant |out| == i && forall j | 0 <= j < i :: out[j] == Unquoted(matches[j])
    {
      var m := UnquoteSQL(matches[i]);
      out := out + [m];
    }
  }

  // ------------------------------------------------------------ parsing inverts printing

  predicate QuoteFree(s: string) {
    forall i | 0 <= i < |s| :: s[i] != QUOTE
  }

  lemma {:induction false} UnquoteEscape(m: string)
    ensures Unquoted(Escape(m)) == m
  {
    if m != [] {
      UnquoteEscape(m[1..]);
      var e := Escape(m);
      if m[0] == QUOTE {
        assert e[2..] == Escape(m[1..]);
      } else {
        assert e[1..] == Escape(m[1..]);
      }
    }
  }

  lemma {:induction false} EscapePlain(m: string)
    requires QuoteFree(m)
    ensures Escape(m) == m
  {
    if m != [] {
      EscapePlain(m[1..]);
    }
  }

  /** Two members without quotes, as they are printed. */
  lemma PrintedTwo(a: string, b: string)
    requires QuoteFree(a) && QuoteFree(b)
    ensures Printed([a, b]) == "'" + a + "','" + b + "'"
  {
    EscapePlain(a);
    EscapePlain(b);
    assert [a, b][1..] == [b];
    assert Printed([b]) == "'" + b + "'";
  }

  predicate NoPairs(s: string) {
    |s| < 2 || (!(s[0] == QUOTE && s[1] == QUOTE) && NoPairs(s[1..]))
  }

  /** Quotes that stand alone are left as they are. */
  lemma {:induction false} LoneQuotesStay(s: string)
    requires NoPairs(s)
    ensures Unquoted(s) == s
  {
    if s != [] {
      LoneQuotesStay(s[1..]);
    }
  }

  lemma CloseSkips(c: char, t: string)
    ensures c != QUOTE ==> Close([c] + t) == if Close(t) < 0 then -1 else Close(t) + 1
    ensures Close([QUOTE, QUOTE] + t) == if Close(t) < 0 then 0 else Close(t) + 2
  {
    assert ([c] + t)[1..] == t && ([QUOTE, QUOTE] + t)[2..] == t;
  }

  /** The closing quote found is the one printed, as long as no quote follows it. */
  lemma {:induction false} CloseEscape(m: string, tail: string)
    requires tail == [] || tail[0] != QUOTE
    ensures Close(Escape(m) + ([QUOTE] + tail)) == |Escape(m)|
  {
    var rest := [QUOTE] + tail;
    if m == [] {
      assert Escape(m) + rest == rest;
    } else {
      var e := Escape(m[1..]);
      CloseEscape(m[1..], tail);
      CloseSkips(m[0], e + rest);
      Assoc(if m[0] == QUOTE then [QUOTE, QUOTE] else [m[0]], e, rest);
    }
  }

  lemma {:induction false} NoMatches(s: string)
    requires QuoteFree(s)
    ensures Matches(s) == []
  {
    if s != [] {
      NoMatches(s[1..]);
    }
  }

  lemma {:induction false} SkipPrefix(pre: string, t: string)
    requires QuoteFree(pre)
    ensures Matches(pre + t) == Matches(t)
  {
    if pre == [] {
      assert pre + t == t;
    } else {
      SkipPrefix(pre[1..], t);
      assert (pre + t)[1..] == pre[1..] + t;
    }
  }

  lemma Slices(e: string, tail: string)
    ensures
      var t := [QUOTE] + (e + ([QUOTE] + tail));
      t[1..] == e + ([QUOTE] + tail) && t[1..1 + |e|] == e && t[|e| + 2..] == tail
  {
  }

  lemma {:induction false} MatchFront(t: string, k: nat)
    requires t != [] && t[0] == QUOTE && Close(t[1..]) == k
    ensures Matches(t) == [t[1..1 + k]] + Matches(t[k + 2..])
  {
  }

  /** One printed member is matched whole, and matching goes on right after it. */
  lemma MatchOne(m: string, tail: string)
    requires tail == [] || tail[0] != QUOTE
    ensures Matches([QUOTE] + (Escape(m) + ([QUOTE] + tail))) == [Escape(m)] + Matches(tail)
  {
    Slices(Escape(m), tail);
    CloseEscape(m, tail);
    MatchFront([QUOTE] + (Escape(m) + ([QUOTE] + tail)), |Escape(m)|);
  }

  /** What follows the first printed member. */
  function Tail(members: seq<string>, post: string): string
    requires members != []
  {
    if |members| == 1 then post else "," + (Printed(members[1..]) + post)
  }

  lemma {:induction false} PrintedFront(members: seq<string>, post: string)
    requires members != []
    ensures Printed(members) + post == [QUOTE] + (Escape(members[0]) + ([QUOTE] + Tail(members, post)))
  {
  }

  lemma {:induction false} TailMatches(members: seq<string>, post: string)
    requires members != [] && QuoteFree(post)
    ensures Matches(Tail(members, post)) == Matches(Printed(members[1..]) + post)
  {
    if |members| == 1 {
      assert Printed(members[1..]) + post == post;
    } else {
      SkipPrefix(",", Printed(members[1..]) + post);
    }
  }

  lemma {:induction false} MatchPrinted(members: seq<string>, post: string)
    requires QuoteFree(post)
    ensures |Matches(Printed(members) + post)| == |members|
    ensures forall i | 0 <= i < |members| :: Matches(Printed(members) + post)[i] == Escape(members[i])
  {
    if members == [] {
      assert Printed(members) + post == post;
      NoMatches(post);
    } else {
      PrintedFront(members, post);
      MatchOne(members[0], Tail(members, post));
      MatchPrinted(members[1..], post);
      TailMatches(members, post);
    }
  }

  /**
   Parsing a printed enum or set type gives back its members, for every list of strings;
   what stands before and after the list may be anything without a quote.
   */
  lemma ParsePrinted(pre: string, members: seq<string>, post: string)
    requires QuoteFree(pre) && QuoteFree(post)
    ensures UnquotedAll(Matches(pre + (Printed(members) + post))) == members
  {
    SkipPrefix(pre, Printed(members) + post);
    MatchPrinted(members, post);
    forall i | 0 <= i < |members|
      ensures UnquotedAll(Matches(Printed(members) + post))[i] == members[i]
    {
      UnquoteEscape(members[i]);
    }
  }

  // ------------------------------------------------------------ device numbers

  /** The kernel's and glibc's encoding of a 32-bit major and minor. */
  function MakeDev(major: bv64, minor: bv64): bv64 {
    ((major & 0xfff) << 8) | ((major & 0xffff_f000) << 32) | (minor & 0xff) | ((minor & 0xffff_ff00) << 12)
  }

  function UnixMajor(dev: bv64): bv64 {
    ((dev >> 8) & 0xfff) | ((dev >> 32) & 0xffff_ffff_ffff_f000)
  }

  function UnixMinor(dev: bv64): bv64 {
    (dev & 0xff) | ((dev >> 12) & 0xffff_ffff_ffff_ff00)
  }

  /**
   Decoding recovers every 32-bit major, and the minor exactly when the major fits in
   twelve bits: the minor is not cut to 32 bits, so a larger major spills into it.
   */
  lemma DecodeDev(major: bv64, minor: bv64)
    requires major <= 0xffff_ffff && minor <= 0xffff_ffff
    ensures UnixMajor(MakeDev(major, minor)) == major
    ensures UnixMinor(MakeDev(major, minor)) == minor <==> major < 4096
  {
  }
}
