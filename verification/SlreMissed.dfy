/** Alternatives that the engine loses or confuses: concrete inputs just outside the conditions of the theorems. */
module SlreMissed {
  import opened Bytes
  import opened SlreTables
  import opened SlreScan
  import opened SlreMatcher
  import opened SlreSyntax
  import opened SlreRuns
  import opened SlreExactness
  import E = SlreEngine

  const A: Byte := 97
  const B: Byte := 98
  const C: Byte := 99
  const D: Byte := 100
  const X: Byte := 120
  const Y: Byte := 121
  const Z: Byte := 122

  function Literal(c: Byte): Alternative {
    Alternative([Single(Lit(c), Quant.One)])
  }

  lemma {:induction false} OneByte(c: Byte, t: Text, i: int)
    ensures RenderSeq(Literal(c).items) == [c]
    ensures 0 <= i < |t| && t[i] == c ==> Matches(Literal(c).items, t, false, i, i + 1)
    ensures forall s, e :: Matches(Literal(c).items, t, false, s, e) ==> 0 <= s < |t| && e == s + 1 && t[s] == c
  {
    var its := Literal(c).items;
    assert its[1..] == [] && RenderSeq(its[1..]) == [];
    assert RenderItem(its[0]) == [c] + [];
    assert RenderSeq(its) == [c] + [] + [];
    assert its[0] == Single(Lit(c), Quant.One);
    if 0 <= i < |t| && t[i] == c {
      assert MatchesBase(its[0], t, false, i, i + 1) && Matches(its[1..], t, false, i + 1, i + 1);
      assert MatchesItem(its[0], t, false, i, i + 1);
    }
    forall s, e | Matches(its, t, false, s, e) ensures 0 <= s < |t| && e == s + 1 && t[s] == c {
      var k := FirstMatch(its, t, false, s, e);
      assert MatchesBase(its[0], t, false, s, k);
    }
  }

  // ---- `(a|b|c)|d`: the sort is not stable --------------------------------------------------------

  const ROTATED: seq<Alternative> := [Alternative([Group([Literal(A), Literal(B), Literal(C)], Quant.One)]), Literal(D)]

  const ROTATED_PATTERN: Text := [LPAREN, A, PIPE, B, PIPE, C, RPAREN, PIPE, D]

  const ROTATED_BRANCHES: seq<Branch> := [Branch(0, 7), Branch(1, 4), Branch(1, 2)]

  function RotatedRun(spare: int): Env {
    Env(ROTATED_PATTERN, [A], false, Tables([Bracket(0, 9, 0, 1), Bracket(1, 5, 1, 2)], ROTATED_BRANCHES, spare))
  }

  /** The sort swaps the bars of the group, so that its alternatives are read as `a|b`, nothing and `b|c`; the
      text "a" is in the language, and is not found. */
  lemma {:induction false} RotatedMisses(numCaps: int, spare: int)
    requires numCaps <= 0
    ensures RenderAlts(ROTATED) == ROTATED_PATTERN
    ensures MatchesRegex(ROTATED, [A], false, 0, 1)
    ensures SortFrom([Branch(1, 2), Branch(1, 4), Branch(0, 7)], 0) == ROTATED_BRANCHES
    ensures E.MatchResult(ROTATED_PATTERN, [A], numCaps, false, spare) == Some(NO_MATCH)
  {
    hide Doh, Setup, Scan, SortFrom;
    RotatedLanguage();
    RotatedSort();
    RotatedScan(numCaps);
    RotatedTables(spare);
    var e := RotatedRun(spare);
    RotatedFails(e, 0, 1);
    RotatedFails(e, 1, 0);
    assert BazFrom(e, 1) == NO_MATCH;
  }

  lemma {:induction false} RotatedLanguage()
    ensures RenderAlts(ROTATED) == ROTATED_PATTERN
    ensures MatchesRegex(ROTATED, [A], false, 0, 1)
  {
    var t: Text := [A];
    OneByte(A, t, 0);
    OneByte(B, t, 0);
    OneByte(C, t, 0);
    OneByte(D, t, 0);
    var g := Group([Literal(A), Literal(B), Literal(C)], Quant.One);
    var its := [g];
    assert g.alts[1..] == [Literal(B), Literal(C)] && g.alts[1..][1..] == [Literal(C)];
    assert RenderAlts([Literal(C)]) == [C];
    assert RenderAlts([Literal(B), Literal(C)]) == [B] + [PIPE] + [C];
    assert RenderAlts(g.alts) == [A] + [PIPE] + ([B] + [PIPE] + [C]);
    assert its[1..] == [] && RenderSeq(its[1..]) == [];
    assert RenderItem(g) == [LPAREN] + RenderAlts(g.alts) + [RPAREN] + [];
    assert RenderSeq(its) == RenderItem(g) + [];
    assert ROTATED[1..] == [Literal(D)] && RenderAlts([Literal(D)]) == [D];
    assert RenderAlts(ROTATED) == RenderSeq(its) + [PIPE] + [D];
    assert Matches(g.alts[0].items, t, false, 0, 1);
    assert MatchesBase(g, t, false, 0, 1) && MatchesItem(g, t, false, 0, 1);
    assert Matches(its[1..], t, false, 1, 1);
    assert Matches(ROTATED[0].items, t, false, 0, 1);
  }

  lemma {:induction false} RotatedSort()
    ensures SortFrom([Branch(1, 2), Branch(1, 4), Branch(0, 7)], 0) == ROTATED_BRANCHES
  {
    var s := [Branch(1, 2), Branch(1, 4), Branch(0, 7)];
    var s' := ROTATED_BRANCHES;
    assert Exchange(s, 0, 1) == s && Exchange(s, 0, 2) == s' && Exchange(s', 1, 2) == s';
    assert InnerPass(s, 0, 1) == InnerPass(s, 0, 2) == InnerPass(s', 0, 3) == s';
    assert InnerPass(s', 1, 2) == InnerPass(s', 1, 3) == s';
    assert InnerPass(s', 2, 3) == s';
    assert SortFrom(s, 0) == SortFrom(s', 1) == SortFrom(s', 2) == SortFrom(s', 3) == s';
  }

  lemma {:induction false} RotatedScan(numCaps: int)
    requires numCaps <= 0
    ensures Compile(ROTATED_PATTERN, numCaps) ==
      Scanned(ScanState([Bracket(0, 9, 0, 0), Bracket(1, 5, 0, 0)], [Branch(1, 2), Branch(1, 4), Branch(0, 7)], 0))
  {
    hide Scan;
    var p := ROTATED_PATTERN;
    var b0, b1 := Bracket(0, 9, 0, 0), Bracket(1, -1, 0, 0);
    var s0 := ScanState([b0], [], 0);
    var s1 := ScanState([b0, b1], [], 1);
    var s2 := ScanState([b0, b1], [Branch(1, 2)], 1);
    var s3 := ScanState([b0, b1], [Branch(1, 2), Branch(1, 4)], 1);
    var s4 := ScanState([b0, Bracket(1, 5, 0, 0)], [Branch(1, 2), Branch(1, 4)], 0);
    var s5 := s4.(branches := [Branch(1, 2), Branch(1, 4), Branch(0, 7)]);
    ScansOpening(p, 0, s0, numCaps);
    assert s0.brackets + [b1] == s1.brackets;
    ScansOver(p, 1, s1, numCaps);
    ScansBar(p, 2, s1, numCaps);
    assert s1.branches + [Branch(1, 2)] == s2.branches;
    ScansOver(p, 3, s2, numCaps);
    ScansBar(p, 4, s2, numCaps);
    assert s2.branches + [Branch(1, 4)] == s3.branches;
    ScansOver(p, 5, s3, numCaps);
    ScansClosing(p, 6, s3, numCaps);
    assert s3.brackets[..1] + [Bracket(1, 5, 0, 0)] == s4.brackets;
    ScansBar(p, 7, s4, numCaps);
    assert s4.branches + [Branch(0, 7)] == s5.branches;
    ScansOver(p, 8, s5, numCaps);
    ScansEnd(p, s5, numCaps);
  }

  lemma {:induction false} RotatedTables(spare: int)
    ensures var branches := [Branch(1, 2), Branch(1, 4), Branch(0, 7)];
      var st := ScanState([Bracket(0, 9, 0, 0), Bracket(1, 5, 0, 0)], branches, 0);
      Setup(st, spare) == RotatedRun(spare).tb
  {
    hide SortFrom;
    RotatedSort();
    var s, bs := ROTATED_BRANCHES, [Bracket(0, 9, 0, 0), Bracket(1, 5, 0, 0)];
    assert RunEnd(s, 0, 0) == RunEnd(s, 0, 1) == 1;
    assert RunEnd(s, 1, 1) == RunEnd(s, 1, 2) == RunEnd(s, 1, 3) == 3;
    var bs1 := bs[0 := bs[0].(branches := 0, numBranches := 1)];
    var bs2 := bs1[1 := bs1[1].(branches := 1, numBranches := 2)];
    assert SliceFrom(bs, s, 0, 0) == SliceFrom(bs1, s, 1, 1) == SliceFrom(bs2, s, 2, 3) == bs2;
    assert bs2 == RotatedRun(spare).tb.brackets;
  }

  /** From neither start of the text any piece finds it. */
  lemma {:induction false} RotatedFails(e: Env, so: nat, m: nat)
    requires e == RotatedRun(e.tb.spare) && so + m == 1
    ensures Doh(e, so, m, 0) == NO_MATCH
  {
    hide Bar, DohFrom;
    RotatedGroup(e, so, m);
    AtGroup(e, 0, 7, so, m, 0, 0);
    AtByte(e, 8, 1, so, m, 0, 0);
    AtPiece(e, so, m, 0, 1);
    AtPiece(e, so, m, 0, 0);
  }

  lemma {:induction false} RotatedGroup(e: Env, so: nat, m: nat)
    requires e == RotatedRun(e.tb.spare) && so + m == 1
    ensures Doh(e, so, m, 1) == NO_MATCH
  {
    hide Bar, DohFrom;
    AtByte(e, 1, 3, so, m, 1, 0);
    if 0 < m {
      AtByte(e, 2, 2, so, m, 1, 1);
    }
    BarOver(e, 5, -3, so, m, 1, 0);
    AtByte(e, 3, 3, so, m, 1, 0);
    AtPiece(e, so, m, 1, 2);
    AtPiece(e, so, m, 1, 1);
    AtPiece(e, so, m, 1, 0);
  }

  // ---- `(a)x|(b)c`: groups in two alternatives ----------------------------------------------------

  const TWICE: seq<Alternative> :=
    [Alternative([Group([Literal(A)], Quant.One), Single(Lit(X), Quant.One)]),
     Alternative([Group([Literal(B)], Quant.One), Single(Lit(C), Quant.One)])]

  const TWICE_PATTERN: Text := [LPAREN, A, RPAREN, X, PIPE, LPAREN, B, RPAREN, C]

  function TwiceRun(spare: int): Env {
    var bs := [Bracket(0, 9, 0, 1), Bracket(1, 1, 1, 0), Bracket(6, 1, 1, 0)];
    Env(TWICE_PATTERN, [A, C], false, Tables(bs, [Branch(0, 4)], spare))
  }

  /** In the second alternative the group is looked up under the first one's number: "ac" matches. */
  lemma {:induction false} GroupsConfused(numCaps: int, spare: int)
    requires numCaps <= 0
    ensures RenderAlts(TWICE) == TWICE_PATTERN
    ensures forall s, e :: !MatchesRegex(TWICE, [A, C], false, s, e)
    ensures E.MatchResult(TWICE_PATTERN, [A, C], numCaps, false, spare) == Some(2)
  {
    hide Doh, Setup, Scan;
    TwiceWritten();
    TwiceLanguage();
    TwiceScan(numCaps);
    TwiceTables(spare);
    TwiceMatches(TwiceRun(spare));
  }

  lemma {:induction false} TwiceWritten()
    ensures RenderAlts(TWICE) == TWICE_PATTERN
  {
    TwoItems(A, X);
    TwoItems(B, C);
    assert TWICE[1..] == [TWICE[1]];
    assert RenderAlts(TWICE[1..]) == RenderSeq(TWICE[1].items);
    assert RenderAlts(TWICE) == RenderSeq(TWICE[0].items) + [PIPE] + RenderSeq(TWICE[1].items);
  }

  lemma {:induction false} TwoItems(g: Byte, c: Byte)
    ensures RenderSeq([Group([Literal(g)], Quant.One), Single(Lit(c), Quant.One)]) == [LPAREN, g, RPAREN, c]
  {
    OneByte(g, [], 0);
    OneByte(c, [], 0);
    var its := [Group([Literal(g)], Quant.One), Single(Lit(c), Quant.One)];
    assert RenderAlts(its[0].alts) == [g];
    assert RenderItem(its[0]) == [LPAREN] + [g] + [RPAREN] + [];
    assert its[1..] == Literal(c).items;
    assert RenderSeq(its) == RenderItem(its[0]) + RenderSeq(its[1..]);
  }

  lemma {:induction false} TwiceLanguage()
    ensures forall s, e :: !MatchesRegex(TWICE, [A, C], false, s, e)
  {
    forall s, e ensures !MatchesRegex(TWICE, [A, C], false, s, e) {
      if MatchesRegex(TWICE, [A, C], false, s, e) {
        var k :| 0 <= k < 2 && Matches(TWICE[k].items, [A, C], false, s, e);
        TwoBytes(if k == 0 then A else B, if k == 0 then X else C, [A, C], s, e);
      }
    }
  }

  lemma {:induction false} TwoBytes(g: Byte, c: Byte, t: Text, s: int, e: int)
    requires Matches([Group([Literal(g)], Quant.One), Single(Lit(c), Quant.One)], t, false, s, e)
    ensures 0 <= s && s + 1 < |t| && t[s] == g && t[s + 1] == c
  {
    var its := [Group([Literal(g)], Quant.One), Single(Lit(c), Quant.One)];
    var i := FirstMatch(its, t, false, s, e);
    OneByte(g, t, 0);
    OneByte(c, t, 0);
    assert MatchesBase(its[0], t, false, s, i);
    assert Matches(its[0].alts[0].items, t, false, s, i);
    assert its[1..] == Literal(c).items;
  }

  lemma {:induction false} TwiceScan(numCaps: int)
    requires numCaps <= 0
    ensures Compile(TWICE_PATTERN, numCaps) ==
      Scanned(ScanState([Bracket(0, 9, 0, 0), Bracket(1, 1, 0, 0), Bracket(6, 1, 0, 0)], [Branch(0, 4)], 0))
  {
    hide Scan;
    var p := TWICE_PATTERN;
    var b0, b1 := Bracket(0, 9, 0, 0), Bracket(1, 1, 0, 0);
    var s0 := ScanState([b0], [], 0);
    var s1 := ScanState([b0, Bracket(1, -1, 0, 0)], [], 1);
    var s2 := ScanState([b0, b1], [], 0);
    var s3 := ScanState([b0, b1], [Branch(0, 4)], 0);
    var s4 := ScanState([b0, b1, Bracket(6, -1, 0, 0)], [Branch(0, 4)], 1);
    var s5 := ScanState([b0, b1, Bracket(6, 1, 0, 0)], [Branch(0, 4)], 0);
    ScansOpening(p, 0, s0, numCaps);
    assert s0.brackets + [Bracket(1, -1, 0, 0)] == s1.brackets;
    ScansOver(p, 1, s1, numCaps);
    ScansClosing(p, 2, s1, numCaps);
    assert s1.brackets[..1] + [b1] == s2.brackets;
    ScansOver(p, 3, s2, numCaps);
    ScansBar(p, 4, s2, numCaps);
    assert s2.branches + [Branch(0, 4)] == s3.branches;
    ScansOpening(p, 5, s3, numCaps);
    assert s3.brackets + [Bracket(6, -1, 0, 0)] == s4.brackets;
    ScansOver(p, 6, s4, numCaps);
    ScansClosing(p, 7, s4, numCaps);
    assert s4.brackets[..2] + [Bracket(6, 1, 0, 0)] == s5.brackets;
    ScansOver(p, 8, s5, numCaps);
    ScansEnd(p, s5, numCaps);
  }

  lemma {:induction false} TwiceTables(spare: int)
    ensures var st := ScanState([Bracket(0, 9, 0, 0), Bracket(1, 1, 0, 0), Bracket(6, 1, 0, 0)], [Branch(0, 4)], 0);
      Setup(st, spare) == TwiceRun(spare).tb
  {
    var s, bs := [Branch(0, 4)], [Bracket(0, 9, 0, 0), Bracket(1, 1, 0, 0), Bracket(6, 1, 0, 0)];
    assert SortFrom(s, 0) == SortFrom(s, 1) == s;
    assert RunEnd(s, 0, 0) == RunEnd(s, 0, 1) == 1;
    var bs1 := bs[0 := bs[0].(branches := 0, numBranches := 1)];
    var bs2 := bs1[1 := bs1[1].(branches := 1, numBranches := 0)];
    var bs3 := bs2[2 := bs2[2].(branches := 1, numBranches := 0)];
    assert SliceFrom(bs, s, 0, 0) == SliceFrom(bs1, s, 1, 1) == SliceFrom(bs2, s, 2, 1) == SliceFrom(bs3, s, 3, 1) ==
      bs3;
    assert bs3 == TwiceRun(spare).tb.brackets;
  }

  lemma {:induction false} TwiceMatches(e: Env)
    requires e == TwiceRun(e.tb.spare)
    ensures BazFrom(e, 0) == 2
  {
    hide Bar, DohFrom, GroupLoop;
    forall m: nat | m <= 2 ensures Doh(e, 0, m, 1) == if 0 < m then 1 else NO_MATCH {
      AtBracket(e, 0, m, 1);
      AtByte(e, 1, 1, 0, m, 1, 0);
      AtEnd(e, 2, 0, m, 1, 1);
    }
    hide Doh;
    AtByte(e, 3, 1, 1, 1, 1, 0);
    AtLoop(e, 3, 1, 0, 2, 1, 0, 2);
    AtLoop(e, 3, 1, 0, 2, 1, 0, 1);
    AtLoop(e, 3, 1, 0, 2, 1, 0, 0);
    AtGroup(e, 0, 4, 0, 2, 0, 0);
    AtByte(e, 8, 1, 1, 1, 1, 0);
    AtEnd(e, 9, 1, 1, 1, 1);
    AtLoop(e, 8, 1, 0, 2, 1, 0, 0);
    AtByte(e, 8, 1, 0, 2, 1, 1);
    AtEnd(e, 9, 0, 2, 1, 2);
    AtGroup(e, 5, 4, 0, 2, 0, 0);
    AtPiece(e, 0, 2, 0, 1);
    AtPiece(e, 0, 2, 0, 0);
    DohIsFrom(e, 0, 2, 0);
  }

  lemma {:induction false} DohIsFrom(e: Env, so: int, m: int, bi: nat)
    requires e.tb.WellFormed() && bi < |e.tb.brackets| && 0 <= m
    ensures Doh(e, so, m, bi) == DohFrom(e, so, m, bi, 0)
  {
  }

  // ---- `a*|y`: an empty match is given up for the next alternative ----------------------------------

  const EMPTY: seq<Alternative> := [Alternative([Single(Lit(A), ZeroMore(false))]), Literal(Y)]

  const EMPTY_PATTERN: Text := [A, STAR, PIPE, Y]

  function EmptyRun(spare: int): Env {
    Env(EMPTY_PATTERN, [Z], false, Tables([Bracket(0, 4, 0, 1)], [Branch(0, 2)], spare))
  }

  /** The first alternative matches nothing at the start of "z", which `doh` takes for a failure. */
  lemma {:induction false} EmptyMatchLost(numCaps: int, spare: int)
    ensures RenderAlts(EMPTY) == EMPTY_PATTERN
    ensures MatchesRegex(EMPTY, [Z], false, 0, 0)
    ensures E.MatchResult(EMPTY_PATTERN, [Z], numCaps, false, spare) == Some(NO_MATCH)
  {
    hide Doh, Setup, Scan;
    EmptyLanguage();
    EmptyScan(numCaps);
    EmptyTables(spare);
    var e := EmptyRun(spare);
    EmptyFails(e, 0, 1);
    EmptyFails(e, 1, 0);
    assert BazFrom(e, 1) == NO_MATCH;
  }

  lemma {:induction false} EmptyLanguage()
    ensures RenderAlts(EMPTY) == EMPTY_PATTERN
    ensures MatchesRegex(EMPTY, [Z], false, 0, 0)
  {
    OneByte(Y, [Z], 0);
    var its := EMPTY[0].items;
    assert its[1..] == [] && RenderSeq(its[1..]) == [];
    assert RenderItem(its[0]) == [A] + [STAR];
    assert RenderSeq(its) == [A] + [STAR] + [];
    assert EMPTY[1..] == [Literal(Y)] && RenderAlts([Literal(Y)]) == [Y];
    assert RenderAlts(EMPTY) == RenderSeq(its) + [PIPE] + [Y];
    assert Iterates(its[0], 0, [Z], false, 0, 0) && MatchesItem(its[0], [Z], false, 0, 0);
    assert Matches(its[1..], [Z], false, 0, 0);
    assert Matches(EMPTY[0].items, [Z], false, 0, 0);
  }

  lemma {:induction false} EmptyScan(numCaps: int)
    ensures Compile(EMPTY_PATTERN, numCaps) == Scanned(ScanState([Bracket(0, 4, 0, 0)], [Branch(0, 2)], 0))
  {
    hide Scan;
    var p := EMPTY_PATTERN;
    var s0 := ScanState([Bracket(0, 4, 0, 0)], [], 0);
    var s1 := s0.(branches := [Branch(0, 2)]);
    ScansOver(p, 0, s0, numCaps);
    ScansOver(p, 1, s0, numCaps);
    ScansBar(p, 2, s0, numCaps);
    assert s0.branches + [Branch(0, 2)] == s1.branches;
    ScansOver(p, 3, s1, numCaps);
    ScansEnd(p, s1, numCaps);
  }

  lemma {:induction false} EmptyTables(spare: int)
    ensures Setup(ScanState([Bracket(0, 4, 0, 0)], [Branch(0, 2)], 0), spare) == EmptyRun(spare).tb
  {
    var s, bs := [Branch(0, 2)], [Bracket(0, 4, 0, 0)];
    assert SortFrom(s, 0) == SortFrom(s, 1) == s;
    assert RunEnd(s, 0, 0) == RunEnd(s, 0, 1) == 1;
    var bs1 := bs[0 := bs[0].(branches := 0, numBranches := 1)];
    assert SliceFrom(bs, s, 0, 0) == SliceFrom(bs1, s, 1, 1) == bs1;
    assert bs1 == EmptyRun(spare).tb.brackets;
  }

  lemma {:induction false} EmptyFails(e: Env, so: nat, m: nat)
    requires e == EmptyRun(e.tb.spare) && so + m == 1
    ensures Doh(e, so, m, 0) == NO_MATCH
  {
    hide Bar, DohFrom, Doh, RepeatLoop;
    AtByte(e, 0, 1, so, m, 0, 0);
    AtEnd(e, 2, so, m, 0, 0);
    RepeatLoopLap(e, 0, 2, so, m, 0, 0, 1, 0, 0, -1);
    assert RepeatLap(e, 0, 2, so, m, 0, 0, 1, 0, 0, -1) == Stop(Repeats(0, NO_MATCH, -1));
    BarRound(e, 0, 2, so, m, 0, 0);
    AtByte(e, 3, 1, so, m, 0, 0);
    AtPiece(e, so, m, 0, 1);
    AtPiece(e, so, m, 0, 0);
    DohIsFrom(e, so, m, 0);
  }
}
