/** Anchors, sets and nested groups that the engine reads differently: concrete inputs just outside the conditions. */
module SlreAstray {
  import opened Bytes
  import opened SlreTables
  import opened SlreScan
  import opened SlreMatcher
  import opened SlreSyntax
  import opened SlreRuns
  import opened SlreExactness
  import opened SlreMissed
  import E = SlreEngine

  // ---- Tables of the patterns below ---------------------------------------------------------------

  lemma {:induction false} OneBarTables(p: Text, k: int, spare: int)
    ensures Setup(ScanState([Bracket(0, |p|, 0, 0)], [Branch(0, k)], 0), spare) ==
      Tables([Bracket(0, |p|, 0, 1)], [Branch(0, k)], spare)
  {
    var s, bs := [Branch(0, k)], [Bracket(0, |p|, 0, 0)];
    assert SortFrom(s, 0) == SortFrom(s, 1) == s;
    assert RunEnd(s, 0, 0) == RunEnd(s, 0, 1) == 1;
    var bs1 := bs[0 := bs[0].(branches := 0, numBranches := 1)];
    assert SliceFrom(bs, s, 0, 0) == SliceFrom(bs1, s, 1, 1) == bs1;
  }

  lemma {:induction false} NoBarTables(bs: seq<Bracket>, spare: int)
    requires forall k :: 0 <= k < |bs| ==> bs[k].branches == 0 && bs[k].numBranches == 0
    ensures Setup(ScanState(bs, [], 0), spare) == Tables(bs, [], spare)
  {
    NoSlices(bs, 0);
  }

  lemma {:induction false} NoSlices(bs: seq<Bracket>, i: nat)
    requires i <= |bs| && forall k :: 0 <= k < |bs| ==> bs[k].branches == 0 && bs[k].numBranches == 0
    ensures SliceFrom(bs, [], i, 0) == bs
    decreases |bs| - i
  {
    if i < |bs| {
      assert bs[i := bs[i].(branches := 0, numBranches := 0)] == bs;
      NoSlices(bs, i + 1);
    }
  }

  // ---- `a|^b` and `^a|b`: an anchor in one of two alternatives -------------------------------------

  const START_ONE: Alternative := Alternative([Bol, Single(Lit(B), Quant.One)])
  const LATE: seq<Alternative> := [Literal(A), START_ONE]
  const LATE_PATTERN: Text := [A, PIPE, CARET, B]

  function LateRun(spare: int): Env {
    Env(LATE_PATTERN, [X, B], false, Tables([Bracket(0, 4, 0, 1)], [Branch(0, 1)], spare))
  }

  lemma {:induction false} AnchoredByte(c: Byte, t: Text)
    ensures var its := [Bol, Single(Lit(c), Quant.One)];
      && RenderSeq(its) == [CARET, c]
      && forall s, e :: Matches(its, t, false, s, e) ==> 0 < |t| && t[0] == c
  {
    var its := [Bol, Single(Lit(c), Quant.One)];
    OneByte(c, t, 0);
    assert its[1..] == Literal(c).items;
    assert RenderItem(its[0]) == [CARET] + [];
    assert RenderSeq(its) == [CARET] + [c];
    forall s, e | Matches(its, t, false, s, e) ensures 0 < |t| && t[0] == c {
      var k := FirstMatch(its, t, false, s, e);
      assert MatchesBase(its[0], t, false, s, k);
    }
  }

  /** A `^` in a later alternative holds at every start of the search: "xb" matches. */
  lemma {:induction false} LateAnchor(numCaps: int, spare: int)
    ensures RenderAlts(LATE) == LATE_PATTERN
    ensures forall s, e :: !MatchesRegex(LATE, [X, B], false, s, e)
    ensures E.MatchResult(LATE_PATTERN, [X, B], numCaps, false, spare) == Some(2)
  {
    hide Doh, Setup, Scan;
    LateLanguage();
    LateScan(numCaps);
    OneBarTables(LATE_PATTERN, 1, spare);
    LateFound(LateRun(spare));
  }

  lemma {:induction false} LateLanguage()
    ensures RenderAlts(LATE) == LATE_PATTERN
    ensures forall s, e :: !MatchesRegex(LATE, [X, B], false, s, e)
  {
    OneByte(A, [X, B], 0);
    AnchoredByte(B, [X, B]);
    assert LATE[1..] == [START_ONE] && RenderAlts([START_ONE]) == RenderSeq(START_ONE.items);
    assert RenderAlts(LATE) == RenderSeq(LATE[0].items) + [PIPE] + RenderAlts(LATE[1..]);
  }

  lemma {:induction false} LateScan(numCaps: int)
    ensures Compile(LATE_PATTERN, numCaps) == Scanned(ScanState([Bracket(0, 4, 0, 0)], [Branch(0, 1)], 0))
  {
    hide Scan;
    var p := LATE_PATTERN;
    var s0 := ScanState([Bracket(0, 4, 0, 0)], [], 0);
    var s1 := s0.(branches := [Branch(0, 1)]);
    ScansOver(p, 0, s0, numCaps);
    ScansBar(p, 1, s0, numCaps);
    assert s0.branches + [Branch(0, 1)] == s1.branches;
    ScansOver(p, 2, s1, numCaps);
    ScansOver(p, 3, s1, numCaps);
    ScansEnd(p, s1, numCaps);
  }

  lemma {:induction false} LateFound(e: Env)
    requires e == LateRun(e.tb.spare)
    ensures BazFrom(e, 0) == 2
  {
    hide Bar, DohFrom, Doh;
    forall so: nat, m: nat | so + m == 2 && 0 < m ensures Doh(e, so, m, 0) == if so == 1 then 1 else NO_MATCH {
      AtByte(e, 0, 1, so, m, 0, 0);
      AtStart(e, 2, 2, so, m, 0);
      AtByte(e, 3, 1, so, m, 0, 0);
      AtEnd(e, 4, so, m, 0, 1);
      AtPiece(e, so, m, 0, 1);
      AtPiece(e, so, m, 0, 0);
      DohIsFrom(e, so, m, 0);
    }
    assert Doh(e, 1, 1, 0) == 1 && Doh(e, 0, 2, 0) == NO_MATCH;
    assert BazFrom(e, 1) == 2;
  }

  const FIRST: seq<Alternative> := [Alternative([Bol, Single(Lit(A), Quant.One)]), Literal(B)]
  const FIRST_PATTERN: Text := [CARET, A, PIPE, B]

  function FirstRun(spare: int): Env {
    Env(FIRST_PATTERN, [X, B], false, Tables([Bracket(0, 4, 0, 1)], [Branch(0, 2)], spare))
  }

  /** A `^` in front of the first alternative anchors the others too: "b" in "xb" is missed. */
  lemma {:induction false} FirstAnchor(numCaps: int, spare: int)
    ensures RenderAlts(FIRST) == FIRST_PATTERN
    ensures MatchesRegex(FIRST, [X, B], false, 1, 2)
    ensures E.MatchResult(FIRST_PATTERN, [X, B], numCaps, false, spare) == Some(NO_MATCH)
  {
    hide Doh, Setup, Scan;
    FirstLanguage();
    FirstScan(numCaps);
    OneBarTables(FIRST_PATTERN, 2, spare);
    FirstMissed(FirstRun(spare));
  }

  lemma {:induction false} FirstLanguage()
    ensures RenderAlts(FIRST) == FIRST_PATTERN
    ensures MatchesRegex(FIRST, [X, B], false, 1, 2)
  {
    OneByte(B, [X, B], 1);
    AnchoredByte(A, [X, B]);
    assert FIRST[1..] == [Literal(B)] && RenderAlts([Literal(B)]) == [B];
    assert RenderAlts(FIRST) == RenderSeq(FIRST[0].items) + [PIPE] + [B];
    assert Matches(FIRST[1].items, [X, B], false, 1, 2);
  }

  lemma {:induction false} FirstScan(numCaps: int)
    ensures Compile(FIRST_PATTERN, numCaps) == Scanned(ScanState([Bracket(0, 4, 0, 0)], [Branch(0, 2)], 0))
  {
    hide Scan;
    var p := FIRST_PATTERN;
    var s0 := ScanState([Bracket(0, 4, 0, 0)], [], 0);
    var s1 := s0.(branches := [Branch(0, 2)]);
    ScansOver(p, 0, s0, numCaps);
    ScansOver(p, 1, s0, numCaps);
    ScansBar(p, 2, s0, numCaps);
    assert s0.branches + [Branch(0, 2)] == s1.branches;
    ScansOver(p, 3, s1, numCaps);
    ScansEnd(p, s1, numCaps);
  }

  lemma {:induction false} FirstMissed(e: Env)
    requires e == FirstRun(e.tb.spare)
    ensures BazFrom(e, 0) == NO_MATCH
  {
    hide Bar, DohFrom, Doh;
    AtStart(e, 0, 2, 0, 2, 0);
    AtByte(e, 1, 1, 0, 2, 0, 0);
    AtByte(e, 3, 1, 0, 2, 0, 0);
    AtPiece(e, 0, 2, 0, 1);
    AtPiece(e, 0, 2, 0, 0);
    DohIsFrom(e, 0, 2, 0);
  }

  // ---- `a*^b`: an anchor behind a repetition -------------------------------------------------------

  const MIDDLE: seq<Item> := [Single(Lit(A), ZeroMore(false)), Bol, Single(Lit(B), Quant.One)]
  const MIDDLE_PATTERN: Text := [A, STAR, CARET, B]

  function MiddleRun(spare: int): Env {
    Env(MIDDLE_PATTERN, [A, B], false, Tables([Bracket(0, 4, 0, 0)], [], spare))
  }

  /** Behind a repetition `^` holds wherever the rest is tried: "ab" matches. */
  lemma {:induction false} MiddleAnchor(numCaps: int, spare: int)
    ensures RenderSeq(MIDDLE) == MIDDLE_PATTERN
    ensures forall s, e :: !Matches(MIDDLE, [A, B], false, s, e)
    ensures E.MatchResult(MIDDLE_PATTERN, [A, B], numCaps, false, spare) == Some(2)
  {
    hide Doh, Setup, Scan;
    MiddleLanguage();
    MiddleScan(numCaps);
    NoBarTables([Bracket(0, 4, 0, 0)], spare);
    MiddleFound(MiddleRun(spare));
  }

  lemma {:induction false} MiddleLanguage()
    ensures RenderSeq(MIDDLE) == MIDDLE_PATTERN
    ensures forall s, e :: !Matches(MIDDLE, [A, B], false, s, e)
  {
    AnchoredByte(B, [A, B]);
    assert MIDDLE[1..] == [Bol, Single(Lit(B), Quant.One)];
    assert RenderItem(MIDDLE[0]) == [A] + [STAR];
    assert RenderSeq(MIDDLE) == [A] + [STAR] + [CARET, B];
    forall s, e ensures !Matches(MIDDLE, [A, B], false, s, e) {
      if Matches(MIDDLE, [A, B], false, s, e) {
        var k := FirstMatch(MIDDLE, [A, B], false, s, e);
      }
    }
  }

  lemma {:induction false} MiddleScan(numCaps: int)
    ensures Compile(MIDDLE_PATTERN, numCaps) == Scanned(ScanState([Bracket(0, 4, 0, 0)], [], 0))
  {
    hide Scan;
    var p := MIDDLE_PATTERN;
    var s0 := ScanState([Bracket(0, 4, 0, 0)], [], 0);
    ScansOver(p, 0, s0, numCaps);
    ScansOver(p, 1, s0, numCaps);
    ScansOver(p, 2, s0, numCaps);
    ScansOver(p, 3, s0, numCaps);
    ScansEnd(p, s0, numCaps);
  }

  lemma {:induction false} MiddleFound(e: Env)
    requires e == MiddleRun(e.tb.spare)
    ensures BazFrom(e, 0) == 2
  {
    hide Bar, Doh, RepeatLoop;
    AtByte(e, 0, 1, 0, 2, 0, 0);
    AtEnd(e, 1, 0, 2, 0, 1);
    AtByte(e, 0, 1, 1, 1, 0, 0);
    AtStart(e, 2, 2, 1, 1, 0);
    AtByte(e, 3, 1, 1, 1, 0, 0);
    AtEnd(e, 4, 1, 1, 0, 1);
    RepeatLoopLap(e, 0, 4, 0, 2, 0, 0, 1, 0, 0, -1);
    RepeatLoopLap(e, 0, 4, 0, 2, 0, 0, 1, 1, 2, 1);
    assert RepeatLap(e, 0, 4, 0, 2, 0, 0, 1, 0, 0, -1) == Again(1, 2, 1);
    assert RepeatLap(e, 0, 4, 0, 2, 0, 0, 1, 1, 2, 1) == Stop(Repeats(2, NO_MATCH, 1));
    BarRound(e, 0, 4, 0, 2, 0, 0);
    AtBracket(e, 0, 2, 0);
  }

  // ---- `(a$)b` and `x(^a)`: anchors in a group ------------------------------------------------------

  const ENDED: seq<Item> :=
    [Group([Alternative([Single(Lit(A), Quant.One), Eol])], Quant.One), Single(Lit(B), Quant.One)]
  const ENDED_PATTERN: Text := [LPAREN, A, DOLLAR, RPAREN, B]

  function EndedRun(spare: int): Env {
    Env(ENDED_PATTERN, [A, B], false, Tables([Bracket(0, 5, 0, 0), Bracket(1, 2, 0, 0)], [], spare))
  }

  /** In a group that is tried on shorter text `$` holds where that ends: "ab" matches. */
  lemma {:induction false} GroupEnd(numCaps: int, spare: int)
    requires numCaps <= 0
    ensures RenderSeq(ENDED) == ENDED_PATTERN
    ensures forall s, e :: !Matches(ENDED, [A, B], false, s, e)
    ensures E.MatchResult(ENDED_PATTERN, [A, B], numCaps, false, spare) == Some(2)
  {
    hide Doh, Setup, Scan;
    EndedLanguage();
    EndedScan(numCaps);
    NoBarTables([Bracket(0, 5, 0, 0), Bracket(1, 2, 0, 0)], spare);
    EndedFound(EndedRun(spare));
  }

  lemma {:induction false} EndedLanguage()
    ensures RenderSeq(ENDED) == ENDED_PATTERN
    ensures forall s, e :: !Matches(ENDED, [A, B], false, s, e)
  {
    var t: Text := [A, B];
    OneByte(B, t, 0);
    var inner := ENDED[0].alts[0].items;
    assert inner[1..] == [Eol] && inner[1..][1..] == [];
    assert RenderSeq([]) == [] && RenderItem(inner[0]) == [A] + [] && RenderItem(Eol) == [DOLLAR] + [];
    assert RenderSeq([Eol]) == [DOLLAR] + [];
    assert RenderSeq(inner) == [A] + [DOLLAR];
    assert RenderAlts(ENDED[0].alts) == [A, DOLLAR];
    assert RenderItem(ENDED[0]) == [LPAREN] + [A, DOLLAR] + [RPAREN] + [];
    assert ENDED[1..] == Literal(B).items;
    forall s, e ensures !Matches(ENDED, t, false, s, e) {
      if Matches(ENDED, t, false, s, e) {
        var k := FirstMatch(ENDED, t, false, s, e);
        EndedGroup(t, s, k);
      }
    }
  }

  lemma {:induction false} EndedGroup(t: Text, i: int, k: int)
    requires MatchesItem(ENDED[0], t, false, i, k)
    ensures k == |t|
  {
    var inner := ENDED[0].alts[0].items;
    assert inner[1..] == [Eol] && inner[1..][1..] == [];
    assert MatchesBase(ENDED[0], t, false, i, k) && Matches(inner, t, false, i, k);
    var l := FirstMatch(inner, t, false, i, k);
    var x := FirstMatch(inner[1..], t, false, l, k);
    assert MatchesBase(Eol, t, false, l, x) && Matches([], t, false, x, k);
  }

  lemma {:induction false} EndedScan(numCaps: int)
    requires numCaps <= 0
    ensures Compile(ENDED_PATTERN, numCaps) == Scanned(ScanState([Bracket(0, 5, 0, 0), Bracket(1, 2, 0, 0)], [], 0))
  {
    hide Scan;
    var p := ENDED_PATTERN;
    var b0 := Bracket(0, 5, 0, 0);
    var s0, s1 := ScanState([b0], [], 0), ScanState([b0, Bracket(1, -1, 0, 0)], [], 1);
    var s2 := ScanState([b0, Bracket(1, 2, 0, 0)], [], 0);
    ScansOpening(p, 0, s0, numCaps);
    assert s0.brackets + [Bracket(1, -1, 0, 0)] == s1.brackets;
    ScansOver(p, 1, s1, numCaps);
    ScansOver(p, 2, s1, numCaps);
    ScansClosing(p, 3, s1, numCaps);
    assert s1.brackets[..1] + [Bracket(1, 2, 0, 0)] == s2.brackets;
    ScansOver(p, 4, s2, numCaps);
    ScansEnd(p, s2, numCaps);
  }

  lemma {:induction false} EndedFound(e: Env)
    requires e == EndedRun(e.tb.spare)
    ensures BazFrom(e, 0) == 2
  {
    hide Bar, Doh, GroupLoop;
    forall m: nat | 1 <= m <= 2 ensures Doh(e, 0, m, 1) == if m == 1 then 1 else NO_MATCH {
      AtBracket(e, 0, m, 1);
      AtByte(e, 1, 2, 0, m, 1, 0);
      AtTextEnd(e, 2, 1, 0, m, 1, 1);
      AtEnd(e, 3, 0, m, 1, 1);
    }
    AtByte(e, 4, 1, 1, 1, 1, 0);
    AtEnd(e, 5, 1, 1, 1, 1);
    AtLoop(e, 4, 1, 0, 2, 1, 0, 1);
    AtLoop(e, 4, 1, 0, 2, 1, 0, 0);
    AtGroup(e, 0, 5, 0, 2, 0, 0);
    AtByte(e, 4, 1, 0, 2, 1, 1);
    AtEnd(e, 5, 0, 2, 1, 2);
    AtBracket(e, 0, 2, 0);
  }

  const BEGUN: seq<Item> :=
    [Single(Lit(X), Quant.One), Group([Alternative([Bol, Single(Lit(A), Quant.One)])], Quant.One)]
  const BEGUN_PATTERN: Text := [X, LPAREN, CARET, A, RPAREN]

  function BegunRun(spare: int): Env {
    Env(BEGUN_PATTERN, [X, A], false, Tables([Bracket(0, 5, 0, 0), Bracket(2, 2, 0, 0)], [], spare))
  }

  /** In a group `^` holds where the group starts: "xa" matches. */
  lemma {:induction false} GroupStart(numCaps: int, spare: int)
    requires numCaps <= 0
    ensures RenderSeq(BEGUN) == BEGUN_PATTERN
    ensures forall s, e :: !Matches(BEGUN, [X, A], false, s, e)
    ensures E.MatchResult(BEGUN_PATTERN, [X, A], numCaps, false, spare) == Some(2)
  {
    hide Doh, Setup, Scan;
    BegunLanguage();
    BegunScan(numCaps);
    NoBarTables([Bracket(0, 5, 0, 0), Bracket(2, 2, 0, 0)], spare);
    BegunFound(BegunRun(spare));
  }

  lemma {:induction false} BegunLanguage()
    ensures RenderSeq(BEGUN) == BEGUN_PATTERN
    ensures forall s, e :: !Matches(BEGUN, [X, A], false, s, e)
  {
    var t: Text := [X, A];
    AnchoredByte(A, []);
    var inner, rest := [Bol, Single(Lit(A), Quant.One)], BEGUN[1..];
    assert rest == [BEGUN[1]] && rest[1..] == [] && BEGUN[1].alts[0].items == inner;
    assert RenderAlts(BEGUN[1].alts) == RenderSeq(inner);
    assert RenderItem(BEGUN[1]) == [LPAREN] + [CARET, A] + [RPAREN] + [];
    assert RenderSeq(rest[1..]) == [] && RenderSeq(rest) == RenderItem(BEGUN[1]) + [];
    assert RenderItem(BEGUN[0]) == [X] + [];
    assert RenderSeq(BEGUN) == RenderItem(BEGUN[0]) + RenderSeq(rest);
    forall s, e ensures !Matches(BEGUN, t, false, s, e) {
      if Matches(BEGUN, t, false, s, e) {
        var k := FirstMatch(BEGUN, t, false, s, e);
        var l := FirstMatch(rest, t, false, k, e);
        BegunGroup(t, k, l);
      }
    }
  }

  lemma {:induction false} BegunGroup(t: Text, i: int, k: int)
    requires MatchesItem(BEGUN[1], t, false, i, k)
    ensures 0 < |t| && t[0] == A
  {
    AnchoredByte(A, t);
    assert MatchesBase(BEGUN[1], t, false, i, k);
    assert Matches(BEGUN[1].alts[0].items, t, false, i, k);
  }

  lemma {:induction false} BegunScan(numCaps: int)
    requires numCaps <= 0
    ensures Compile(BEGUN_PATTERN, numCaps) == Scanned(ScanState([Bracket(0, 5, 0, 0), Bracket(2, 2, 0, 0)], [], 0))
  {
    hide Scan;
    var p := BEGUN_PATTERN;
    var b0 := Bracket(0, 5, 0, 0);
    var s0, s1 := ScanState([b0], [], 0), ScanState([b0, Bracket(2, -1, 0, 0)], [], 1);
    var s2 := ScanState([b0, Bracket(2, 2, 0, 0)], [], 0);
    ScansOver(p, 0, s0, numCaps);
    ScansOpening(p, 1, s0, numCaps);
    assert s0.brackets + [Bracket(2, -1, 0, 0)] == s1.brackets;
    ScansOver(p, 2, s1, numCaps);
    ScansOver(p, 3, s1, numCaps);
    ScansClosing(p, 4, s1, numCaps);
    assert s1.brackets[..1] + [Bracket(2, 2, 0, 0)] == s2.brackets;
    ScansEnd(p, s2, numCaps);
  }

  lemma {:induction false} BegunFound(e: Env)
    requires e == BegunRun(e.tb.spare)
    ensures BazFrom(e, 0) == 2
  {
    hide Bar, Doh, GroupLoop;
    AtStart(e, 2, 2, 1, 1, 1);
    AtByte(e, 3, 1, 1, 1, 1, 0);
    AtEnd(e, 4, 1, 1, 1, 1);
    AtBracket(e, 1, 1, 1);
    AtByte(e, 0, 5, 0, 2, 0, 0);
    AtGroup(e, 1, 4, 0, 2, 0, 1);
    AtEnd(e, 5, 0, 2, 1, 2);
    AtBracket(e, 0, 2, 0);
  }

  // ---- `([b]c)x`: a set in a group with pattern behind it --------------------------------------------

  const CUT: seq<Item> :=
    [Group([Alternative([Single(Set(false, [Char(B)]), Quant.One), Single(Lit(C), Quant.One)])], Quant.One),
     Single(Lit(X), Quant.One)]
  const CUT_PATTERN: Text := [LPAREN, LBRACKET, B, RBRACKET, C, RPAREN, X]

  function CutRun(spare: int): Env {
    Env(CUT_PATTERN, [B, X], false, Tables([Bracket(0, 7, 0, 0), Bracket(1, 4, 0, 0)], [], spare))
  }

  /** The set takes a byte behind the shorter text that the group is tried on, and what follows the set is then not
      tried any more: "bx" matches. */
  lemma {:induction false} SetCutsGroup(numCaps: int, spare: int)
    requires numCaps <= 0
    ensures RenderSeq(CUT) == CUT_PATTERN
    ensures forall s, e :: !Matches(CUT, [B, X], false, s, e)
    ensures E.MatchResult(CUT_PATTERN, [B, X], numCaps, false, spare) == Some(2)
  {
    hide Doh, Setup, Scan;
    CutWritten();
    CutLanguage();
    CutScan(numCaps);
    NoBarTables([Bracket(0, 7, 0, 0), Bracket(1, 4, 0, 0)], spare);
    CutFound(CutRun(spare));
  }

  lemma {:induction false} CutWritten()
    ensures RenderSeq(CUT) == CUT_PATTERN
  {
    hide RenderAtom;
    OneByte(X, [], 0);
    CutInner();
    assert CUT[1..] == Literal(X).items;
    assert RenderAlts(CUT[0].alts) == [LBRACKET, B, RBRACKET, C];
    assert RenderItem(CUT[0]) == [LPAREN] + [LBRACKET, B, RBRACKET, C] + [RPAREN] + [];
    assert RenderSeq(CUT) == RenderItem(CUT[0]) + [X];
  }

  lemma {:induction false} CutInner()
    ensures RenderSeq(CUT[0].alts[0].items) == [LBRACKET, B, RBRACKET, C]
  {
    var inner := CUT[0].alts[0].items;
    SetOfB();
    hide RenderAtom;
    OneByte(C, [], 0);
    assert inner[1..] == Literal(C).items;
    assert RenderItem(inner[0]) == [LBRACKET, B, RBRACKET] + [];
    assert RenderSeq(inner) == [LBRACKET, B, RBRACKET] + [C];
  }

  lemma {:induction false} SetOfB()
    ensures RenderAtom(Set(false, [Char(B)])) == [LBRACKET, B, RBRACKET]
  {
    assert [Char(B)][1..] == [] && RenderElems([]) == [] && RenderElems([Char(B)]) == [B] + [];
    assert RenderAtom(Set(false, [Char(B)])) == [LBRACKET] + [] + [B] + [RBRACKET];
  }

  lemma {:induction false} CutLanguage()
    ensures forall s, e :: !Matches(CUT, [B, X], false, s, e)
  {
    var t: Text := [B, X];
    OneByte(X, t, 0);
    OneByte(C, t, 0);
    var inner := CUT[0].alts[0].items;
    assert inner[1..] == Literal(C).items && CUT[1..] == Literal(X).items;
    forall s, e ensures !Matches(CUT, t, false, s, e) {
      if Matches(CUT, t, false, s, e) {
        var k := FirstMatch(CUT, t, false, s, e);
        assert MatchesBase(CUT[0], t, false, s, k) && Matches(inner, t, false, s, k);
        var l := FirstMatch(inner, t, false, s, k);
      }
    }
  }

  lemma {:induction false} CutScan(numCaps: int)
    requires numCaps <= 0
    ensures Compile(CUT_PATTERN, numCaps) == Scanned(ScanState([Bracket(0, 7, 0, 0), Bracket(1, 4, 0, 0)], [], 0))
  {
    hide Scan;
    var p := CUT_PATTERN;
    var b0 := Bracket(0, 7, 0, 0);
    var s0, s1 := ScanState([b0], [], 0), ScanState([b0, Bracket(1, -1, 0, 0)], [], 1);
    var s2 := ScanState([b0, Bracket(1, 4, 0, 0)], [], 0);
    ScansOpening(p, 0, s0, numCaps);
    assert s0.brackets + [Bracket(1, -1, 0, 0)] == s1.brackets;
    assert SetLenFrom(p, 2, 5, 0) == SetLenFrom(p, 2, 5, 1) == 2;
    ScansSet(p, 1, s1, numCaps);
    ScansOver(p, 4, s1, numCaps);
    ScansClosing(p, 5, s1, numCaps);
    assert s1.brackets[..1] + [Bracket(1, 4, 0, 0)] == s2.brackets;
    ScansOver(p, 6, s2, numCaps);
    ScansEnd(p, s2, numCaps);
  }

  lemma {:induction false} CutFound(e: Env)
    requires e == CutRun(e.tb.spare)
    ensures BazFrom(e, 0) == 2
  {
    hide Bar, Doh, GroupLoop;
    CutGroup(e);
    AtByte(e, 6, 1, 1, 1, 1, 0);
    AtEnd(e, 7, 1, 1, 1, 1);
    AtLoop(e, 6, 1, 0, 2, 1, 0, 2);
    AtLoop(e, 6, 1, 0, 2, 1, 0, 1);
    AtLoop(e, 6, 1, 0, 2, 1, 0, 0);
    AtGroup(e, 0, 7, 0, 2, 0, 0);
    AtByte(e, 6, 1, 0, 2, 1, 1);
    AtEnd(e, 7, 0, 2, 1, 2);
    AtBracket(e, 0, 2, 0);
  }

  lemma {:induction false} CutGroup(e: Env)
    requires e == CutRun(e.tb.spare)
    ensures forall m: nat :: m <= 2 ==> Doh(e, 0, m, 1) == if m == 0 then 1 else NO_MATCH
  {
    hide Bar, Doh, SetResult;
    var p := CUT_PATTERN;
    assert SetResult(p, 2, 2, B, false) == 1 by { CutSet(); }
    assert SetLenFrom(p, 2, 3, 0) == SetLenFrom(p, 2, 3, 1) == 2;
    forall m: nat | m <= 2 ensures Doh(e, 0, m, 1) == if m == 0 then 1 else NO_MATCH {
      AtBracket(e, 0, m, 1);
      AtSet(e, 1, 4, 0, m, 1, 0);
      if m == 0 {
        BarOver(e, 4, 1, 0, 0, 1, 1);
      } else {
        AtByte(e, 4, 1, 0, m, 1, 1);
      }
    }
  }

  lemma {:induction false} CutSet()
    ensures SetResult(CUT_PATTERN, 2, 2, B, false) == 1
  {
    var p := CUT_PATTERN;
    assert MatchOp(p, 2, B, false) == 1;
    assert SetScan(p, 2, 2, B, false, 1, 1) == 1;
    assert SetScan(p, 2, 2, B, false, 0, -1) == SetScan(p, 2, 2, B, false, 1, 1);
  }

  // ---- `(a)((b)c)`: a nested group -----------------------------------------------------------------

  const NESTED: seq<Item> :=
    [Group([Literal(A)], Quant.One),
     Group([Alternative([Group([Literal(B)], Quant.One), Single(Lit(C), Quant.One)])], Quant.One)]
  const NESTED_PATTERN: Text := [LPAREN, A, RPAREN, LPAREN, LPAREN, B, RPAREN, C, RPAREN]
  const NESTED_BRACKETS: seq<Bracket> :=
    [Bracket(0, 9, 0, 0), Bracket(1, 7, 0, 0), Bracket(4, -1, 0, 0), Bracket(5, 1, 0, 0)]

  function NestedRun(spare: int): Env {
    Env(NESTED_PATTERN, [A, B, C], false, Tables(NESTED_BRACKETS, [], spare))
  }

  /** The outer parenthesis closes the first group again, which from then on holds the rest of the pattern. */
  lemma {:induction false} NestedMisses(numCaps: int, spare: int)
    requires numCaps <= 0
    ensures RenderSeq(NESTED) == NESTED_PATTERN
    ensures Matches(NESTED, [A, B, C], false, 0, 3)
    ensures E.MatchResult(NESTED_PATTERN, [A, B, C], numCaps, false, spare) == Some(NO_MATCH)
  {
    hide Doh, Setup, Scan;
    NestedWritten();
    NestedLanguage();
    NestedScan(numCaps);
    NoBarTables(NESTED_BRACKETS, spare);
    var e := NestedRun(spare);
    NestedFails(e, 0);
    NestedFails(e, 1);
    NestedFails(e, 2);
    NestedFails(e, 3);
    assert BazFrom(e, 3) == BazFrom(e, 2) == BazFrom(e, 1) == NO_MATCH;
  }

  lemma {:induction false} NestedWritten()
    ensures RenderSeq(NESTED) == NESTED_PATTERN
  {
    OneByte(A, [], 0);
    TwoItems(B, C);
    var inner, rest := NESTED[1].alts[0].items, NESTED[1..];
    assert rest == [NESTED[1]] && rest[1..] == [] && RenderSeq(rest[1..]) == [];
    assert RenderAlts(NESTED[0].alts) == [A] && RenderAlts(NESTED[1].alts) == RenderSeq(inner);
    assert RenderItem(NESTED[0]) == [LPAREN] + [A] + [RPAREN] + [];
    assert RenderItem(NESTED[1]) == [LPAREN] + [LPAREN, B, RPAREN, C] + [RPAREN] + [];
    assert RenderSeq(rest) == RenderItem(NESTED[1]) + [];
    assert RenderSeq(NESTED) == RenderItem(NESTED[0]) + RenderSeq(rest);
  }

  lemma {:induction false} NestedLanguage()
    ensures Matches(NESTED, [A, B, C], false, 0, 3)
  {
    var t: Text := [A, B, C];
    OneByte(A, t, 0);
    OneByte(B, t, 1);
    OneByte(C, t, 2);
    var inner, rest := NESTED[1].alts[0].items, NESTED[1..];
    assert inner[1..] == Literal(C).items;
    assert Matches(inner[0].alts[0].items, t, false, 1, 2);
    assert MatchesBase(inner[0], t, false, 1, 2) && MatchesItem(inner[0], t, false, 1, 2);
    assert Matches(inner, t, false, 1, 3);
    assert rest == [NESTED[1]] && Matches(rest[1..], t, false, 3, 3);
    assert MatchesBase(NESTED[1], t, false, 1, 3) && MatchesItem(rest[0], t, false, 1, 3);
    assert Matches(rest, t, false, 1, 3);
    assert Matches(NESTED[0].alts[0].items, t, false, 0, 1);
    assert MatchesBase(NESTED[0], t, false, 0, 1) && MatchesItem(NESTED[0], t, false, 0, 1);
  }

  lemma {:induction false} NestedScan(numCaps: int)
    requires numCaps <= 0
    ensures Compile(NESTED_PATTERN, numCaps) == Scanned(ScanState(NESTED_BRACKETS, [], 0))
  {
    hide Scan;
    var p := NESTED_PATTERN;
    var b0, b1 := Bracket(0, 9, 0, 0), Bracket(1, 1, 0, 0);
    var s0, s1 := ScanState([b0], [], 0), ScanState([b0, Bracket(1, -1, 0, 0)], [], 1);
    var s2 := ScanState([b0, b1], [], 0);
    var s3 := ScanState([b0, b1, Bracket(4, -1, 0, 0)], [], 1);
    var s4 := ScanState([b0, b1, Bracket(4, -1, 0, 0), Bracket(5, -1, 0, 0)], [], 2);
    var s5 := ScanState([b0, b1, Bracket(4, -1, 0, 0), Bracket(5, 1, 0, 0)], [], 1);
    ScansOpening(p, 0, s0, numCaps);
    assert s0.brackets + [Bracket(1, -1, 0, 0)] == s1.brackets;
    ScansOver(p, 1, s1, numCaps);
    ScansClosing(p, 2, s1, numCaps);
    assert s1.brackets[..1] + [b1] == s2.brackets;
    ScansOpening(p, 3, s2, numCaps);
    assert s2.brackets + [Bracket(4, -1, 0, 0)] == s3.brackets;
    ScansOpening(p, 4, s3, numCaps);
    assert s3.brackets + [Bracket(5, -1, 0, 0)] == s4.brackets;
    ScansOver(p, 5, s4, numCaps);
    ScansClosing(p, 6, s4, numCaps);
    assert s4.brackets[..3] + [Bracket(5, 1, 0, 0)] == s5.brackets;
    ScansOver(p, 7, s5, numCaps);
    NestedCloses(numCaps);
  }

  function NestedOpen(): ScanState {
    ScanState([Bracket(0, 9, 0, 0), Bracket(1, 1, 0, 0), Bracket(4, -1, 0, 0), Bracket(5, 1, 0, 0)], [], 1)
  }

  /** No bracket is open any more, so that the depth decides which one is closed: the first. */
  lemma {:induction false} NestedCloses(numCaps: int)
    ensures Scan(NESTED_PATTERN, 8, NestedOpen(), numCaps) == Scanned(ScanState(NESTED_BRACKETS, [], 0))
  {
    var st, p := NestedOpen(), NESTED_PATTERN;
    assert st.brackets[1 := Bracket(1, 7, 0, 0)] == NESTED_BRACKETS;
    assert ScanOp(p, 8, st, numCaps) == Scanned(ScanState(NESTED_BRACKETS, [], 0));
    assert Scan(p, 8, st, numCaps) == Scan(p, 9, ScanState(NESTED_BRACKETS, [], 0), numCaps);
  }

  lemma {:induction false} NestedFails(e: Env, so: nat)
    requires e == NestedRun(e.tb.spare) && so <= 3
    ensures Doh(e, so, 3 - so, 0) == NO_MATCH
  {
    hide Bar, Doh, GroupLoop;
    var m := 3 - so;
    AtBracket(e, so, m, 1);
    AtByte(e, 1, 7, so, m, 1, 0);
    if so == 0 {
      AtByte(e, 2, 6, so, m, 1, 1);
    }
    AtBracket(e, so, m, 0);
    AtGroup(e, 0, 9, so, m, 0, 0);
  }
}
