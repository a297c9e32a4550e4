/** Patterns on which the matcher's bracket number stays in step with the groups it meets, literal parentheses
    or not: it never takes one group for another, nor for one behind the tables. */
module SlreInStep {
  import opened Bytes
  import opened SlreTables
  import opened SlreScan
  import opened SlreMatcher
  import opened SlreWalk
  import opened SlreGroups
  import opened SlreSettled
  import P = SlreParens

  /** A group under a quantifier is the last one. */
  predicate QuantifiedLast(p: Text, i: nat)
    decreases |p| - i
  {
    var o := NextParen(p, i);
    o >= |p| || (var c := NextParen(p, o + 1);
      (IsQuantifier(At(p, c + 1)) ==> NextParen(p, c + 1) >= |p|) && QuantifiedLast(p, c + 1))
  }

  /** Groups stand in one alternative only, are not nested, and only the last one is quantified. */
  ghost predicate InStep(p: Text) {
    && OneDeep(p, 0) && QuantifiedLast(p, 0)
    && forall b :: b in TopBars(p, 0) ==> Groups(p, b) == Groups(p, 0) || NextParen(p, b) >= |p|
  }

  /** The walk from `i` comes to `j`, or runs over it at the end of the pattern. */
  predicate Walks(p: Text, i: nat, j: nat)
    decreases j - i
  {
    i < j ==> i < |p| && 0 < Ahead(p, i) && if i + Ahead(p, i) <= j then Walks(p, i + Ahead(p, i), j) else j == |p|
  }

  lemma {:induction false} WalksBehind(p: Text, i: nat, m: nat, j: nat)
    requires Walks(p, i, j) && Reaches(p, i, m) && m <= j
    ensures Walks(p, m, j)
    decreases m - i
  {
    if i < m {
      ReachesMore(p, i + Ahead(p, i), m);
      WalksBehind(p, i + Ahead(p, i), m, j);
    }
  }

  lemma {:induction false} ReachesWalks(p: Text, i: nat, j: nat)
    requires Reaches(p, i, j)
    ensures Walks(p, i, j)
    decreases j - i
  {
    if i < j {
      ReachesMore(p, i + Ahead(p, i), j);
      ReachesWalks(p, i + Ahead(p, i), j);
    }
  }

  lemma {:induction false} SetsEndWalks(p: Text, i: nat)
    requires SetsEnd(p, i)
    ensures Walks(p, i, |p|)
    decreases |p| - i
  {
    if i < |p| {
      StandsStill(p, i);
      SetsEndWalks(p, i + Ahead(p, i));
    }
  }

  lemma {:induction false} ReachesParen(p: Text, i: nat)
    requires NextParen(p, i) < |p|
    ensures Reaches(p, i, NextParen(p, i))
    decreases |p| - i
  {
    if p[i] != LPAREN && p[i] != RPAREN {
      ReachesParen(p, i + Ahead(p, i));
    }
  }

  /** The next parenthesis is the same all along the way to it. */
  lemma {:induction false} SameParen(p: Text, i: nat, x: nat)
    requires Reaches(p, i, x) && x <= NextParen(p, i)
    ensures NextParen(p, x) == NextParen(p, i)
    decreases x - i
  {
    if i < x {
      ReachesMore(p, i + Ahead(p, i), x);
      SameParen(p, i + Ahead(p, i), x);
    }
  }

  lemma {:induction false} BarsReached(p: Text, i: nat, stop: nat, b: nat)
    requires b in BarsIn(p, i, stop)
    ensures Reaches(p, i, b) && b < stop && b < |p| && p[b] == PIPE && Ahead(p, b) == 1
    decreases |p| - i
  {
    if !(p[i] == PIPE && b == i) {
      BarsReached(p, i + Ahead(p, i), stop, b);
    }
  }

  // ---- The regions of a run -----------------------------------------------------------------------

  /** A region that holds no parenthesis, or stands in front of exactly the groups not yet passed. */
  ghost predicate Stepping(p: Text, lo: int, n: int, bi: int) {
    0 < n ==>
      && 0 <= lo && lo + n <= |p| && Walks(p, lo, lo + n)
      && (NextParen(p, lo) >= lo + n
          || (&& 0 <= bi <= |Groups(p, 0)| && Groups(p, lo) == Groups(p, 0)[bi..]
              && OneDeep(p, lo) && QuantifiedLast(p, lo)))
  }

  ghost function SteppingSet(p: Text): Regions {
    (lo: int, n: int, bi: int) => Stepping(p, lo, n, bi)
  }

  /** A plain operation leads on to a region of the same kind. */
  lemma {:induction false} StepsOver(p: Text, lo: nat, n: int, bi: int)
    requires 0 < n && Stepping(p, lo, n, bi) && p[lo] != LPAREN
    ensures p[lo] != RPAREN && 0 < Ahead(p, lo) && GetOpLen(p, lo, n) == Ahead(p, lo)
    ensures Stepping(p, lo + Ahead(p, lo), n - Ahead(p, lo), bi)
    ensures Ahead(p, lo) <= n ==> Stepping(p, lo, Ahead(p, lo), bi)
  {
    hide Groups, OneDeep, QuantifiedLast;
    NoClosing(p, lo, n, bi);
    var s := Ahead(p, lo);
    SameLength(p, lo, n);
    assert NextParen(p, lo) == NextParen(p, lo + s);
    assert Walks(p, lo + s, lo + s);
    if s < n {
      SameGroups(p, lo, lo + s);
    }
  }

  lemma {:induction false} NoClosing(p: Text, lo: nat, n: int, bi: int)
    requires 0 < n && Stepping(p, lo, n, bi)
    ensures p[lo] != RPAREN
  {
  }

  lemma {:induction false} SameGroups(p: Text, i: nat, j: nat)
    requires NextParen(p, i) == NextParen(p, j)
    ensures Groups(p, i) == Groups(p, j) && OneDeep(p, i) == OneDeep(p, j)
    ensures QuantifiedLast(p, i) == QuantifiedLast(p, j)
  {
    hide NextParen;
  }

  /** So does a group, with its number passed; behind a quantified one no group follows. */
  lemma {:induction false} StepsGroup(p: Text, lo: nat, n: int, bi: int)
    requires 0 < n && Stepping(p, lo, n, bi) && p[lo] == LPAREN
    ensures 0 <= bi < |Groups(p, 0)|
    ensures var g := Groups(p, 0)[bi];
      var step := g.hi - g.lo + 2;
      && g.lo == lo + 1 && g.lo <= g.hi < |p|
      && Stepping(p, lo + step, n - step, bi + 1)
      && (step < n && IsQuantifier(At(p, lo + step)) ==>
            Stepping(p, lo, step, bi) && Stepping(p, lo + step, n - step, bi))
  {
    hide Groups, OneDeep, QuantifiedLast, Walks, Reaches;
    assert NextParen(p, lo) == lo;
    MeetsGroup(p, lo, bi);
    var c := NextParen(p, lo + 1);
    ReachesGroup(p, lo);
    QuantifiedUnfold(p, lo);
    ReachesWalks(p, lo, c + 1);
    if c + 1 < lo + n {
      WalksBehind(p, lo, c + 1, lo + n);
    }
  }

  /** The group met is the next one in order. */
  lemma {:induction false} MeetsGroup(p: Text, lo: nat, bi: int)
    requires lo < |p| && p[lo] == LPAREN && 0 <= bi <= |Groups(p, 0)| && Groups(p, lo) == Groups(p, 0)[bi..]
    requires OneDeep(p, lo)
    ensures bi < |Groups(p, 0)|
    ensures var c := NextParen(p, lo + 1);
      && c < |p| && p[c] == RPAREN && OneDeep(p, c + 1)
      && Groups(p, 0)[bi] == Span(lo + 1, c) && Groups(p, c + 1) == Groups(p, 0)[bi + 1..]
  {
    assert NextParen(p, lo) == lo;
    hide NextParen, Groups, OneDeep;
    GroupsUnfold(p, lo);
    DeepUnfold(p, lo);
    var gs, rest := Groups(p, 0), Groups(p, NextParen(p, lo + 1) + 1);
    assert Groups(p, lo)[0] == Span(lo + 1, NextParen(p, lo + 1)) && gs[bi..][0] == gs[bi];
    assert Groups(p, lo)[1..] == rest && gs[bi..][1..] == gs[bi + 1..];
  }

  lemma {:induction false} QuantifiedUnfold(p: Text, i: nat)
    requires QuantifiedLast(p, i)
    ensures var o := NextParen(p, i);
      o >= |p| || (var c := NextParen(p, o + 1);
        (IsQuantifier(At(p, c + 1)) ==> NextParen(p, c + 1) >= |p|) && QuantifiedLast(p, c + 1))
  {
    hide NextParen;
  }

  lemma {:induction false} ReachesNext(p: Text, i: nat)
    requires i < |p| && p[i] != LBRACKET && p[i] != BACKSLASH
    ensures Ahead(p, i) == 1 && Reaches(p, i, i + 1)
  {
  }

  lemma {:induction false} ReachesGroup(p: Text, lo: nat)
    requires lo < |p| && p[lo] == LPAREN && NextParen(p, lo + 1) < |p|
    ensures Reaches(p, lo, NextParen(p, lo + 1) + 1)
  {
    hide NextParen;
    var c := NextParen(p, lo + 1);
    ReachesParen(p, lo + 1);
    ReachesNext(p, lo);
    ReachesNext(p, c);
    ReachesOn(p, lo, lo + 1, c);
    ReachesOn(p, lo, c, c + 1);
  }

  /** A quantifier is stepped over, too. */
  lemma {:induction false} StepsQuantifier(p: Text, lo: nat, n: int, bi: int)
    requires 0 < n && Stepping(p, lo, n, bi) && IsQuantifier(At(p, lo))
    ensures Stepping(p, lo + 1, n - 1, bi)
  {
    StepsOver(p, lo, n, bi);
  }

  lemma {:induction false} SteppingKept(e: Env, lo: int, n: int, bi: nat)
    requires e.tb.WellFormed() && 0 < n && bi < |e.tb.brackets| && Stepping(e.p, lo, n, bi)
    requires |e.tb.brackets| == 1 + |Groups(e.p, 0)|
    requires forall k :: 0 <= k < |Groups(e.p, 0)| ==>
      e.tb.brackets[k + 1].len == Groups(e.p, 0)[k].hi - Groups(e.p, 0)[k].lo
    ensures KeptAt(e, SteppingSet(e.p), lo, n, bi)
  {
    hide Stepping, Groups;
    SteppingFacts(e.p, lo, n, bi);
    if e.p[lo] == LPAREN {
      StepsGroup(e.p, lo, n, bi);
    } else {
      StepsOver(e.p, lo, n, bi);
    }
    var step := Step(e, lo, n, bi);
    if step < n && IsQuantifier(At(e.p, lo + step)) {
      StepsQuantifier(e.p, lo + step, n - step, bi);
      if NonGreedy(e, lo, n, step) {
        StepsQuantifier(e.p, lo + step + 1, n - step - 1, bi);
      }
    }
  }

  lemma {:induction false} SteppingFacts(p: Text, lo: int, n: int, bi: int)
    requires 0 < n && Stepping(p, lo, n, bi)
    ensures 0 <= lo < |p|
  {
  }

  // ---- The pieces of a bracket --------------------------------------------------------------------

  /** A recorded branch is an outer `|` for bracket 0, and one of its group otherwise. */
  ghost predicate Placed(p: Text, i: nat, k: nat, b: Branch) {
    if b.bracketIndex == 0 then b.schlong in TopBars(p, i)
    else
      && k <= b.bracketIndex < k + |Groups(p, i)|
      && var g := Groups(p, i)[b.bracketIndex - k]; b.schlong in BarsIn(p, g.lo, g.hi)
  }

  lemma {:induction false} MarksPlaced(p: Text, i: nat, k: nat, b: Branch)
    requires 0 < k && b in AllMarks(p, i, k)
    ensures Placed(p, i, k, b)
    decreases |p| - i
  {
    hide NextParen, BarsIn, Marks, AllMarks, TopBars, Groups;
    MarksStep(p, i, k);
    TopStep(p, i);
    GroupsUnfold(p, i);
    var o := NextParen(p, i);
    MarksAll(BarsIn(p, i, o), 0);
    if b in Marks(BarsIn(p, i, o), 0) {
    } else {
      var c := NextParen(p, o + 1);
      MarksAll(BarsIn(p, o + 1, c), k);
      if b !in Marks(BarsIn(p, o + 1, c), k) {
        MarksPlaced(p, c + 1, k + 1, b);
        if b.bracketIndex != 0 {
          assert Groups(p, i)[b.bracketIndex - k] == Groups(p, c + 1)[b.bracketIndex - (k + 1)];
        }
      }
    }
  }

  /** Outer bars lie on the walk from the start. */
  lemma {:induction false} TopBarReached(p: Text, i: nat, b: nat)
    requires OneDeep(p, i) && b in TopBars(p, i)
    ensures Reaches(p, i, b) && b < |p| && p[b] == PIPE
    decreases |p| - i
  {
    hide NextParen, BarsIn, TopBars, OneDeep;
    TopStep(p, i);
    DeepUnfold(p, i);
    var o := NextParen(p, i);
    if b in BarsIn(p, i, o) {
      BarsReached(p, i, o, b);
    } else {
      var c := NextParen(p, o + 1);
      TopBarReached(p, c + 1, b);
      ReachesParen(p, i);
      ReachesGroup(p, o);
      ReachesOn(p, i, o, c + 1);
      ReachesOn(p, i, c + 1, b);
    }
  }

  /** Group `k` in its place: reached, closed, without a parenthesis inside. */
  lemma {:induction false} GroupReached(p: Text, i: nat, k: nat)
    requires OneDeep(p, i) && k < |Groups(p, i)|
    ensures var g := Groups(p, i)[k]; g.lo <= g.hi < |p| && NextParen(p, g.lo) == g.hi
    decreases |p| - i
  {
    hide NextParen, Groups, OneDeep;
    GroupsUnfold(p, i);
    DeepUnfold(p, i);
    if k > 0 {
      var c := NextParen(p, NextParen(p, i) + 1);
      GroupReached(p, c + 1, k - 1);
      assert Groups(p, i)[k] == Groups(p, c + 1)[k - 1];
    }
  }

  /** What `doh` is given for a piece that starts at `q` and ends at `end`. */
  lemma {:induction false} OuterPiece(p: Text, q: nat, end: nat)
    requires InStep(p) && SetsEnd(p, 0) && q <= |p|
    requires q == 0 || (0 < q && q - 1 in TopBars(p, 0))
    requires end == |p| || end in TopBars(p, 0)
    ensures Stepping(p, q, end - q, 0)
  {
    hide NextParen, TopBars, OneDeep, QuantifiedLast, Groups, Reaches, Walks, SetsEnd;
    if q < end {
      var gs := Groups(p, 0);
      assert gs[0..] == gs;
      if q == 0 {
        ReachesSelf(p, 0);
      } else {
        TopBarReached(p, 0, q - 1);
        ReachesNext(p, q - 1);
        ReachesOn(p, 0, q - 1, q);
        PastBar(p, q - 1);
      }
      if end == |p| {
        SetsEndWalks(p, 0);
        WalksBehind(p, 0, q, end);
      } else {
        TopBarReached(p, 0, end);
        OneWalk(p, 0, q, end);
        ReachesWalks(p, q, end);
      }
    }
  }

  lemma {:induction false} ReachesSelf(p: Text, i: nat)
    ensures Reaches(p, i, i)
  {
  }

  lemma {:induction false} PastBar(p: Text, b: nat)
    requires b < |p| && p[b] == PIPE && OneDeep(p, 0) && QuantifiedLast(p, 0)
    requires Groups(p, b) == Groups(p, 0) || NextParen(p, b) >= |p|
    ensures NextParen(p, b + 1) >= |p|
      || (Groups(p, b + 1) == Groups(p, 0) && OneDeep(p, b + 1) && QuantifiedLast(p, b + 1))
  {
    ReachesNext(p, b);
    assert NextParen(p, b) == NextParen(p, b + 1);
    hide NextParen, OneDeep, QuantifiedLast, Groups;
    SameGroups(p, b, b + 1);
    if NextParen(p, b) < |p| {
      SameFirst(p, b);
    }
  }

  /** In front of the same groups stands the same first parenthesis. */
  lemma {:induction false} SameFirst(p: Text, b: nat)
    requires NextParen(p, b) < |p| && Groups(p, b) == Groups(p, 0)
    ensures OneDeep(p, b) == OneDeep(p, 0) && QuantifiedLast(p, b) == QuantifiedLast(p, 0)
  {
    hide NextParen, OneDeep, QuantifiedLast, Groups;
    GroupsUnfold(p, b);
    GroupsUnfold(p, 0);
    assert Groups(p, b)[0].lo == NextParen(p, b) + 1;
    assert Groups(p, 0)[0].lo == NextParen(p, 0) + 1;
    SameGroups(p, b, 0);
  }

  lemma {:induction false} InnerPiece(p: Text, k: nat, q: nat, end: nat, bi: int)
    requires OneDeep(p, 0) && k < |Groups(p, 0)|
    requires var g := Groups(p, 0)[k];
      && (q == g.lo || (0 < q && q - 1 in BarsIn(p, g.lo, g.hi)))
      && (end == g.hi || end in BarsIn(p, g.lo, g.hi))
    ensures Stepping(p, q, end - q, bi)
  {
    hide NextParen, OneDeep, QuantifiedLast, Groups, Reaches, Walks, BarsIn;
    if q < end {
      var g := Groups(p, 0)[k];
      GroupReached(p, 0, k);
      ReachesParen(p, g.lo);
      if q == g.lo {
        ReachesSelf(p, q);
      } else {
        BarsReached(p, g.lo, g.hi, q - 1);
        ReachesNext(p, q - 1);
        ReachesOn(p, g.lo, q - 1, q);
      }
      SameParen(p, g.lo, q);
      if end != g.hi {
        BarsReached(p, g.lo, g.hi, end);
      }
      OneWalk(p, g.lo, q, end);
      ReachesWalks(p, q, end);
    }
  }

  /** Every branch of the tables is in its place, whatever order the sort left. */
  lemma {:induction false} PiecesStep(p: Text, st: ScanState, tb: Tables, k: nat, i: nat)
    requires InStep(p) && SetsEnd(p, 0) && st.branches == AllMarks(p, 0, 1)
    requires tb.WellFormed() && |tb.brackets| == 1 + |Groups(p, 0)| && k < |tb.brackets|
    requires i <= tb.brackets[k].numBranches
    requires multiset(tb.branches) == multiset(st.branches) && SliceExact(tb, k)
    requires k == 0 ==> tb.brackets[0].ptr == 0 && tb.brackets[0].len == |p|
    requires k > 0 ==> var g := Groups(p, 0)[k - 1]; tb.brackets[k].ptr == g.lo && tb.brackets[k].len == g.hi - g.lo
    ensures Stepping(p, PieceStart(tb, tb.brackets[k], i), PieceLen(tb, tb.brackets[k], i), k)
  {
    hide InStep, Stepping, AllMarks, Groups, TopBars, BarsIn, SetsEnd, OneDeep, QuantifiedLast;
    var b := tb.brackets[k];
    var q := PieceStart(tb, b, i);
    var end := q + PieceLen(tb, b, i);
    if i > 0 {
      BranchPlaced(p, st, tb, k, b.branches + i - 1);
    }
    if i < b.numBranches {
      BranchPlaced(p, st, tb, k, b.branches + i);
    }
    if k == 0 {
      InStepFacts(p, q);
      OuterPiece(p, q, end);
    } else {
      InStepFacts(p, 0);
      InnerPiece(p, k - 1, q, end, k);
    }
  }

  lemma {:induction false} InStepFacts(p: Text, q: int)
    requires InStep(p)
    ensures OneDeep(p, 0) && (q - 1 in TopBars(p, 0) ==> q <= |p|)
  {
    if q - 1 in TopBars(p, 0) {
      TopBarReached(p, 0, q - 1);
    }
  }

  lemma {:induction false} BranchPlaced(p: Text, st: ScanState, tb: Tables, k: nat, j: nat)
    requires st.branches == AllMarks(p, 0, 1) && tb.WellFormed() && |tb.brackets| == 1 + |Groups(p, 0)|
    requires k < |tb.brackets|
    requires multiset(tb.branches) == multiset(st.branches) && SliceExact(tb, k)
    requires tb.brackets[k].branches <= j < tb.brackets[k].branches + tb.brackets[k].numBranches
    ensures j < |tb.branches| && tb.branches[j].schlong >= 0
    ensures k == 0 ==> tb.branches[j].schlong in TopBars(p, 0)
    ensures k > 0 ==> var g := Groups(p, 0)[k - 1]; tb.branches[j].schlong in BarsIn(p, g.lo, g.hi)
  {
    hide AllMarks, Groups, TopBars, BarsIn;
    var b := tb.branches[j];
    assert b in multiset(st.branches);
    MarksPlaced(p, 0, 1, b);
  }

  /** In step, no group is taken for the one behind the tables, and what memory holds there does not matter. */
  lemma {:induction false} InStepSettled(p: Text, t: Text, numCaps: int, fold: bool, s1: int, s2: int)
    requires Compile(p, numCaps).Scanned? && InStep(p)
    ensures var st := Compile(p, numCaps).state;
      && Setup(st, s1).WellFormed() && Setup(st, s2).WellFormed()
      && |Setup(st, s1).brackets| == |Setup(st, s2).brackets| > 0
      && Kept(Env(p, t, fold, Setup(st, s1)), SteppingSet(p))
      && BazFrom(Env(p, t, fold, Setup(st, s1)), 0) == BazFrom(Env(p, t, fold, Setup(st, s2)), 0)
  {
    hide Scan, Setup, BazFrom, Kept, KeptAt, InStep, Stepping, Groups, AllMarks, TopBars, OneDeep, SetsEnd, Spans;
    var st := Compile(p, numCaps).state;
    InStepFacts(p, 0);
    ScanEnds(p, numCaps);
    ScanGroups(p, 0, InitialScan(p), numCaps);
    SetupExact(st, s1);
    SetupExact(st, s2);
    var e := Env(p, t, fold, Setup(st, s1));
    assert st.branches == AllMarks(p, 0, 1);
    RunInStep(e, st);
    P.SetupSpare(st, s1, s2);
    SearchSettled(e, s2, SteppingSet(p), 0);
  }

  lemma {:induction false} RunInStep(e: Env, st: ScanState)
    requires InStep(e.p) && SetsEnd(e.p, 0) && st.branches == AllMarks(e.p, 0, 1)
    requires st.brackets == [Bracket(0, |e.p|, 0, 0)] + Spans(Groups(e.p, 0)) && e.tb.WellFormed()
    requires |e.tb.brackets| == |st.brackets|
    requires multiset(e.tb.branches) == multiset(st.branches)
    requires forall k :: 0 <= k < |e.tb.brackets| ==>
      SliceExact(e.tb, k) && e.tb.brackets[k].ptr == st.brackets[k].ptr && e.tb.brackets[k].len == st.brackets[k].len
    ensures Kept(e, SteppingSet(e.p))
  {
    hide InStep, Stepping, Groups, AllMarks, SetsEnd, SliceExact, Spans, KeptAt;
    var gs, rs := Groups(e.p, 0), SteppingSet(e.p);
    SpansExact(gs);
    assert forall k :: 0 <= k < |gs| ==> st.brackets[k + 1] == Spans(gs)[k];
    forall lo: int, n: int, bi: int {:trigger rs(lo, n, bi)} | 0 < n && 0 <= bi < |e.tb.brackets| && rs(lo, n, bi)
      ensures KeptAt(e, rs, lo, n, bi)
    {
      SteppingKept(e, lo, n, bi);
    }
    forall k: int, i: int {:trigger PieceStart(e.tb, e.tb.brackets[k], i)} |
        0 <= k < |e.tb.brackets| && 0 <= i <= e.tb.brackets[k].numBranches
      ensures rs(PieceStart(e.tb, e.tb.brackets[k], i), PieceLen(e.tb, e.tb.brackets[k], i), k)
    {
      assert k > 0 ==> st.brackets[(k - 1) + 1] == Spans(gs)[k - 1];
      PiecesStep(e.p, st, e.tb, k, i);
    }
  }
}
