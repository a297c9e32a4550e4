/** Where the engine stops being exact: concrete inputs just outside the fragments of the theorems. */
module SlreLimits {
  import opened Bytes
  import opened SlreTables
  import opened SlreScan
  import opened SlreMatcher
  import opened SlreSyntax
  import opened SlreSoundness
  import opened SlreParsing
  import opened SlreExactness
  import opened SlreWalk
  import E = SlreEngine

  const A: Byte := 97
  const B: Byte := 98

  // ---- `a?a`: an option is never given back ---------------------------------------------------

  const OPTION: seq<Item> := [Single(Lit(A), Opt), Single(Lit(A), One)]

  /** The language of `a?a` holds "a", but the engine does not find it. */
  lemma {:induction false} OptionMisses(numCaps: int, spare: int)
    ensures FlatTop(OPTION) && RenderSeq(OPTION) == [A, QUESTION, A]
    ensures CanMatch(OPTION, [A], false, 0)
    ensures E.MatchResult([A, QUESTION, A], [A], numCaps, false, spare) == Some(NO_MATCH)
  {
    var p: Text := [A, QUESTION, A];
    var t: Text := [A];
    OptionInLanguage();
    assert !HasGroup(OPTION);
    assert p[0..0 + |p|] == p;
    ScanGroupless(p, 0, InitialScan(p), numCaps, OPTION);
    ScanEnd(p, InitialScan(p), numCaps);
    assert Compile(p, numCaps) == Scanned(InitialScan(p));
    OneBracket(p, spare);
    OptionRun(Env(p, t, false, PlainTables(p, spare)));
  }

  lemma {:induction false} OptionInLanguage()
    ensures RenderSeq(OPTION) == [A, QUESTION, A]
    ensures CanMatch(OPTION, [A], false, 0)
  {
    var t: Text := [A];
    assert OPTION[1..] == [Single(Lit(A), One)] && OPTION[1..][1..] == [];
    assert RenderItem(OPTION[0]) == [A, QUESTION] && RenderItem(OPTION[1]) == [A] + [];
    assert RenderSeq(OPTION[1..][1..]) == [];
    assert RenderSeq(OPTION[1..]) == [A] + [] + [];
    assert MatchesItem(OPTION[1], t, false, 0, 1) && Matches(OPTION[1..][1..], t, false, 1, 1);
    assert Matches(OPTION[1..], t, false, 0, 1);
    assert MatchesItem(OPTION[0], t, false, 0, 0);
    assert Matches(OPTION, t, false, 0, 1);
  }

  lemma {:induction false} OneBracket(p: Text, spare: int)
    ensures Setup(InitialScan(p), spare) == PlainTables(p, spare)
  {
    var bs := [Bracket(0, |p|, 0, 0)];
    assert bs[0 := bs[0].(branches := 0, numBranches := 0)] == bs;
    assert RunEnd([], 0, 0) == 0 && SliceFrom(bs, [], 1, 0) == bs;
    assert SliceFrom(bs, [], 0, 0) == SliceFrom(bs, [], 1, 0);
  }

  lemma {:induction false} OptionRun(e: Env)
    requires e.p == [A, QUESTION, A] && e.t == [A] && !e.fold && e.tb == PlainTables(e.p, e.tb.spare)
    ensures BazFrom(e, 0) == NO_MATCH
  {
    assert Bar(e, 0, 1, 0, 1, 0, 0) == Bar(e, 1, 0, 0, 1, 0, 1) == 1;
    assert Bar(e, 2, 1, 0, 1, 0, 1) == NO_MATCH;
    assert Bar(e, 0, 3, 0, 1, 0, 0) == Bar(e, 2, 1, 0, 1, 0, 1);
    assert DohFrom(e, 0, 1, 0, 0) == NO_MATCH;
    assert Bar(e, 0, 1, 1, 0, 0, 0) == NO_MATCH;
    assert Bar(e, 2, 1, 1, 0, 0, 0) == NO_MATCH;
    assert Bar(e, 0, 3, 1, 0, 0, 0) == Bar(e, 2, 1, 1, 0, 0, 0);
    assert DohFrom(e, 1, 0, 0, 0) == NO_MATCH;
    assert BazFrom(e, 1) == NO_MATCH;
  }

  // ---- `[^a]`: a set looks at the byte behind the text -----------------------------------------

  /** On the empty text `[^a]` reports a match that ends one byte behind the end. */
  lemma {:induction false} SetOverruns(numCaps: int, spare: int)
    ensures var p: Text := [LBRACKET, CARET, A, RBRACKET];
      E.MatchResult(p, [], numCaps, false, spare) == Some(1)
  {
    var p: Text := [LBRACKET, CARET, A, RBRACKET];
    assert SetLenFrom(p, 1, 3, 2) == 3;
    assert SetLenFrom(p, 1, 3, 1) == SetLenFrom(p, 1, 3, 2);
    assert SetLenFrom(p, 1, 3, 0) == SetLenFrom(p, 1, 3, 1);
    assert GetOpLen(p, 0, 4) == 4;
    assert ScanOp(p, 0, InitialScan(p), numCaps) == Scanned(InitialScan(p));
    assert Scan(p, 0, InitialScan(p), numCaps) == Scan(p, 4, InitialScan(p), numCaps) == Scanned(InitialScan(p));
    OneBracket(p, spare);
    var e := Env(p, [], false, PlainTables(p, spare));
    assert MatchOp(p, 2, 0, false) == NO_MATCH;
    assert SetScan(p, 2, 1, 0, false, 1, NO_MATCH) == NO_MATCH;
    assert SetScan(p, 2, 1, 0, false, 0, -1) == SetScan(p, 2, 1, 0, false, 1, NO_MATCH);
    assert SetResult(p, 1, 2, 0, false) == 1;
    assert Bar(e, 4, 0, 0, 0, 0, 1) == 1;
    assert Round(e, 0, 4, 0, 0, 0, 0) == MoveOn(4, 0, 1);
    assert Bar(e, 0, 4, 0, 0, 0, 0) == 1;
    assert DohFrom(e, 0, 0, 0, 0) == 1;
  }

  /** Does a set that is the whole pattern accept the byte? */
  predicate SetAccepts(p: Text, b: Byte, fold: bool) {
    SetResult(p, 1, |p| - 2, b, fold) > 0
  }

  /** The guard of the overrun: a pattern that is one set reports a match behind the end of a text if and only
      if it accepts 0 and no byte of the text, which the empty text has none of. */
  lemma {:induction false} OneSetOverruns(p: Text, t: Text, numCaps: int, fold: bool, spare: int)
    requires p != [] && p[0] == LBRACKET && |p| <= Ahead(p, 0)
    ensures var r := E.MatchResult(p, t, numCaps, fold, spare);
      && r.Some?
      && (r.value == |t| + 1 <==> SetAccepts(p, 0, fold) && forall k :: 0 <= k < |t| ==> !SetAccepts(p, t[k], fold))
  {
    hide Bar, GetOpLen, SetResult;
    OneSetScan(p, numCaps);
    OneBracket(p, spare);
    OneSetSearch(Env(p, t, fold, PlainTables(p, spare)), 0);
  }

  lemma {:induction false} OneSetScan(p: Text, numCaps: int)
    requires p != [] && p[0] == LBRACKET && |p| <= Ahead(p, 0)
    ensures Compile(p, numCaps) == Scanned(InitialScan(p))
  {
    hide GetOpLen;
    var st := InitialScan(p);
    assert ScanOp(p, 0, st, numCaps) == Scanned(st);
    assert Scan(p, 0, st, numCaps) == Scan(p, Ahead(p, 0), st, numCaps);
  }

  lemma {:induction false} OneSetSearch(e: Env, i: nat)
    requires e.p != [] && e.p[0] == LBRACKET && |e.p| <= Ahead(e.p, 0) && e.tb == PlainTables(e.p, e.tb.spare)
    requires i <= |e.t|
    ensures BazFrom(e, i) == |e.t| + 1 <==>
      SetAccepts(e.p, 0, e.fold) && forall k :: i <= k < |e.t| ==> !SetAccepts(e.p, e.t[k], e.fold)
    decreases |e.t| - i
  {
    hide Bar, GetOpLen, SetResult;
    var m := |e.t| - i;
    BarRound(e, 0, |e.p|, i, m, 0, 0);
    assert SetAccepts(e.p, At(e.t, i), e.fold) ==> Bar(e, 0, |e.p|, i, m, 0, 0) == 1 by {
      if SetAccepts(e.p, At(e.t, i), e.fold) {
        BarOver(e, Ahead(e.p, 0), |e.p| - Ahead(e.p, 0), i, m, 0, 1);
      }
    }
    assert DohFrom(e, i, m, 0, 0) == Bar(e, 0, |e.p|, i, m, 0, 0);
    if i < |e.t| {
      OneSetSearch(e, i + 1);
    }
  }

  // ---- `[\`: the scan stands still -----------------------------------------------------------------

  /** A set that is cut short inside an escape is never left; one whose closing bracket is escaped is. */
  lemma {:induction false} CutSetHangs(t: Text, numCaps: int, fold: bool, spare: int)
    ensures E.MatchResult([LBRACKET, BACKSLASH], t, numCaps, fold, spare) == None
    ensures E.MatchResult([LBRACKET, BACKSLASH, RBRACKET], t, numCaps, fold, spare).Some?
  {
    var p: Text := [LBRACKET, BACKSLASH];
    assert SetEnd(p, 1) == SetEnd(p, 3) == 3;
    StandsStill(p, 0);
    assert ScanOp(p, 0, InitialScan(p), numCaps) == Scanned(InitialScan(p));
    ScanEnds([LBRACKET, BACKSLASH, RBRACKET], numCaps);
    FittingEnds([LBRACKET, BACKSLASH, RBRACKET], 0);
  }

  // ---- `(a)*(b)`: a quantified group hides the groups behind it --------------------------------

  const REUSED: seq<Item> := [Group([Alternative([Single(Lit(A), One)])], ZeroMore(false)),
                              Group([Alternative([Single(Lit(B), One)])], One)]

  const REUSED_PATTERN: Text := [LPAREN, A, RPAREN, STAR, LPAREN, B, RPAREN]

  /** `(a)*(b)` matches "a", because the second group is looked up under the first one's number. */
  lemma {:induction false} GroupReused(numCaps: int, spare: int)
    requires numCaps <= 0
    ensures RenderSeq(REUSED) == REUSED_PATTERN
    ensures forall s, e :: !Matches(REUSED, [A], false, s, e)
    ensures E.MatchResult(REUSED_PATTERN, [A], numCaps, false, spare) == Some(1)
  {
    ReusedLanguage();
    ReusedTables(numCaps, spare);
    ReusedRun(Env(REUSED_PATTERN, [A], false, ReusedTable(spare)));
  }

  function ReusedTable(spare: int): Tables {
    Tables([Bracket(0, 7, 0, 0), Bracket(1, 1, 0, 0), Bracket(5, 1, 0, 0)], [], spare)
  }

  lemma {:induction false} ReusedLanguage()
    ensures RenderSeq(REUSED) == REUSED_PATTERN
    ensures forall s, e :: !Matches(REUSED, [A], false, s, e)
  {
    var b := [Single(Lit(B), One)];
    RenderOne(A);
    RenderOne(B);
    assert REUSED[1..][1..] == [] && RenderSeq(REUSED[1..][1..]) == [];
    assert RenderItem(REUSED[0]) == [LPAREN] + [A] + [RPAREN] + [STAR];
    assert RenderItem(REUSED[1]) == [LPAREN] + [B] + [RPAREN] + [];
    assert RenderSeq(REUSED[1..]) == RenderItem(REUSED[1]) + [];
    assert RenderSeq(REUSED) == RenderItem(REUSED[0]) + RenderSeq(REUSED[1..]);
    forall s, e | Matches(REUSED, [A], false, s, e) ensures false {
      var k := FirstMatch(REUSED, [A], false, s, e);
      var l := FirstMatch(REUSED[1..], [A], false, k, e);
      assert MatchesBase(REUSED[1], [A], false, k, l);
      assert Matches(b, [A], false, k, l);
      var x := FirstMatch(b, [A], false, k, l);
    }
  }

  lemma {:induction false} RenderOne(c: Byte)
    ensures RenderSeq([Single(Lit(c), One)]) == [c]
    ensures RenderAlts([Alternative([Single(Lit(c), One)])]) == [c]
  {
    var its := [Single(Lit(c), One)];
    assert its[1..] == [] && RenderSeq(its[1..]) == [];
    assert RenderItem(its[0]) == [c] + [];
    assert RenderSeq(its) == [c] + [] + [];
  }

  lemma {:induction false} ReusedTables(numCaps: int, spare: int)
    requires numCaps <= 0
    ensures Compile(REUSED_PATTERN, numCaps).Scanned?
    ensures Setup(Compile(REUSED_PATTERN, numCaps).state, spare) == ReusedTable(spare)
  {
    var p := REUSED_PATTERN;
    var b0, b1 := Bracket(0, 7, 0, 0), Bracket(1, 1, 0, 0);
    var s0 := ScanState([b0], [], 0);
    var s1 := ScanState([b0, Bracket(1, -1, 0, 0)], [], 1);
    var s3 := ScanState([b0, b1], [], 0);
    var s5 := ScanState([b0, b1, Bracket(5, -1, 0, 0)], [], 1);
    var s7 := ScanState([b0, b1, Bracket(5, 1, 0, 0)], [], 0);
    assert ScanOp(p, 0, s0, numCaps) == Scanned(s1);
    assert ScanOp(p, 1, s1, numCaps) == Scanned(s1);
    assert ScanOp(p, 2, s1, numCaps).state.brackets == s3.brackets;
    assert ScanOp(p, 2, s1, numCaps) == Scanned(s3);
    assert ScanOp(p, 3, s3, numCaps) == Scanned(s3);
    assert ScanOp(p, 4, s3, numCaps).state.brackets == s5.brackets;
    assert ScanOp(p, 4, s3, numCaps) == Scanned(s5);
    assert ScanOp(p, 5, s5, numCaps) == Scanned(s5);
    assert ScanOp(p, 6, s5, numCaps).state.brackets == s7.brackets;
    assert ScanOp(p, 6, s5, numCaps) == Scanned(s7);
    assert Scan(p, 5, s5, numCaps) == Scan(p, 6, s5, numCaps) == Scan(p, 7, s7, numCaps) == Scanned(s7);
    assert Scan(p, 3, s3, numCaps) == Scan(p, 4, s3, numCaps) == Scan(p, 5, s5, numCaps);
    assert Scan(p, 0, s0, numCaps) == Scan(p, 1, s1, numCaps) == Scan(p, 2, s1, numCaps) == Scan(p, 3, s3, numCaps);
    var bs := s7.brackets;
    assert forall k :: 0 <= k < 3 ==> bs[k := bs[k].(branches := 0, numBranches := 0)] == bs;
    assert SliceFrom(bs, [], 2, 0) == SliceFrom(bs, [], 3, 0) == bs;
    assert SliceFrom(bs, [], 0, 0) == SliceFrom(bs, [], 1, 0) == SliceFrom(bs, [], 2, 0);
  }

  lemma {:induction false} ReusedRun(e: Env)
    requires e.p == REUSED_PATTERN && e.t == [A] && !e.fold && e.tb == ReusedTable(e.tb.spare)
    ensures BazFrom(e, 0) == 1
  {
    assert Bar(e, 1, 1, 0, 1, 1, 0) == Bar(e, 2, 0, 0, 1, 1, 1) == 1;
    assert Bar(e, 1, 1, 1, 0, 1, 0) == NO_MATCH;
    FirstGroup(e);
    RepeatedGroup(e);
    assert Round(e, 0, 7, 0, 1, 0, 0) == Return(1);
    assert Bar(e, 0, 7, 0, 1, 0, 0) == 1;
    assert DohFrom(e, 0, 1, 0, 0) == 1;
  }

  /** Both groups of the pattern read bracket 1. */
  lemma {:induction false} FirstGroup(e: Env)
    requires e.p == REUSED_PATTERN && e.t == [A] && !e.fold && e.tb == ReusedTable(e.tb.spare)
    requires Bar(e, 1, 1, 0, 1, 1, 0) == 1 && Bar(e, 1, 1, 1, 0, 1, 0) == NO_MATCH
    ensures forall lo :: lo == 0 || lo == 4 ==>
      Bar(e, lo, 3, 0, 1, 0, 0) == 1 && Bar(e, lo, 3, 1, 0, 0, 0) == NO_MATCH
  {
    assert Doh(e, 0, 1, 1) == DohFrom(e, 0, 1, 1, 0) == 1;
    assert Doh(e, 1, 0, 1) == DohFrom(e, 1, 0, 1, 0) == NO_MATCH;
    forall lo | lo == 0 || lo == 4
      ensures Bar(e, lo, 3, 0, 1, 0, 0) == 1 && Bar(e, lo, 3, 1, 0, 0, 0) == NO_MATCH
    {
      assert Round(e, lo, 3, 0, 1, 0, 0) == MoveOn(3, 1, 1);
      BarRound(e, lo, 3, 0, 1, 0, 0);
      BarOver(e, lo + 3, 0, 0, 1, 1, 1);
      assert Round(e, lo, 3, 1, 0, 0, 0) == Return(NO_MATCH);
      BarRound(e, lo, 3, 1, 0, 0, 0);
    }
  }

  lemma {:induction false} RepeatedGroup(e: Env)
    requires e.p == REUSED_PATTERN && e.t == [A] && !e.fold && e.tb == ReusedTable(e.tb.spare)
    requires forall lo :: lo == 0 || lo == 4 ==>
      Bar(e, lo, 3, 0, 1, 0, 0) == 1 && Bar(e, lo, 3, 1, 0, 0, 0) == NO_MATCH
    ensures Repeat(e, 0, 7, 0, 1, 0, 0, 3) == 1
  {
    hide Bar, RepeatLoop;
    RepeatLoopLap(e, 0, 7, 0, 1, 0, 0, 3, 0, 0, -1);
    RepeatLoopLap(e, 0, 7, 0, 1, 0, 0, 3, 1, 0, -1);
    assert RepeatLap(e, 0, 7, 0, 1, 0, 0, 3, 0, 0, -1) == Again(1, 0, -1);
  }
}
