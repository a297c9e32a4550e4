/** When a match ends within the text: no set that the matcher looks at may accept the byte 0, which is what it sees
    behind the end. */
module SlreInside {
  import opened Bytes
  import opened SlreTables
  import opened SlreScan
  import opened SlreMatcher
  import opened SlreWalk
  import opened SlreGroups
  import opened SlreSettled
  import opened SlreInStep

  /** No set at the front of a region accepts 0 there, unless it is quantified and so matched in a region of its own. */
  ghost predicate Refuses(e: Env, rs: Regions) {
    forall lo, n, bi: nat {:trigger rs(lo, n, bi)} ::
      0 < n && bi < |e.tb.brackets| && rs(lo, n, bi) && At(e.p, lo) == LBRACKET
      && !(Step(e, lo, n, bi) < n && IsQuantifier(At(e.p, lo + Step(e, lo, n, bi)))) ==>
        SetResult(e.p, lo + 1, n - 2, 0, e.fold) <= 0
  }

  /** The region of the text lies in the text. */
  predicate Within(e: Env, so: int, m: int) {
    0 <= so && so + m <= |e.t|
  }

  lemma {:induction false} BarInside(e: Env, rs: Regions, lo: int, n: int, so: int, m: int, bi: nat, j: int)
    requires e.tb.WellFormed() && Kept(e, rs) && Refuses(e, rs) && bi < |e.tb.brackets| && (n <= 0 || rs(lo, n, bi))
    requires 0 <= j <= m + 1 && Within(e, so, m) && so + j <= |e.t|
    ensures so + Bar(e, lo, n, so, m, bi, j) <= |e.t|
    decreases |e.tb.brackets| - bi, 0, n, 4, 0
  {
    hide Bar, Round, Kept, Refuses;
    if n <= 0 || j > m {
      BarOver(e, lo, n, so, m, bi, j);
    } else {
      BarRound(e, lo, n, so, m, bi, j);
      RoundInside(e, rs, lo, n, so, m, bi, j);
      var o := Round(e, lo, n, so, m, bi, j);
      if o.MoveOn? {
        BarInside(e, rs, lo + o.step, n - o.step, so, m, o.bi, o.j);
      }
    }
  }

  lemma {:induction false} RoundInside(e: Env, rs: Regions, lo: int, n: int, so: int, m: int, bi: nat, j: int)
    requires e.tb.WellFormed() && Kept(e, rs) && Refuses(e, rs) && bi < |e.tb.brackets| && 0 < n && rs(lo, n, bi)
    requires 0 <= j <= m && Within(e, so, m)
    ensures var o := Round(e, lo, n, so, m, bi, j);
      so + (if o.Return? then o.r else o.j) <= |e.t| && (o.MoveOn? ==> rs(lo + o.step, n - o.step, o.bi))
    decreases |e.tb.brackets| - bi, 0, n, 3, 0
  {
    hide Bar, Doh, GroupLoop, Repeat, Kept, Refuses, SetResult, MatchOp, GetOpLen;
    KeptIs(e, rs, lo, n, bi);
    var c, step := At(e.p, lo), Step(e, lo, n, bi);
    if c == LBRACKET && !(step < n && IsQuantifier(At(e.p, lo + step))) {
      RefusesIs(e, rs, lo, n, bi);
    }
    if 0 < step {
      if step < n && IsQuantifier(At(e.p, lo + step)) {
        if At(e.p, lo + step) == QUESTION {
          BarInside(e, rs, lo, step, so + j, m - j, bi, 0);
        } else if !IsQuantifier(c) {
          RepeatInside(e, rs, lo, n, so, m, bi, j, step);
        }
      } else if c == LPAREN {
        if n <= step {
          DohInside(e, rs, so + j, m - j, bi + 1);
        } else {
          GroupLoopInside(e, rs, lo + step, n - step, so, m, bi + 1, j, 0);
        }
      }
    }
  }

  lemma {:induction false} RefusesIs(e: Env, rs: Regions, lo: int, n: int, bi: nat)
    requires Refuses(e, rs) && 0 < n && bi < |e.tb.brackets| && rs(lo, n, bi) && At(e.p, lo) == LBRACKET
    requires !(Step(e, lo, n, bi) < n && IsQuantifier(At(e.p, lo + Step(e, lo, n, bi))))
    ensures SetResult(e.p, lo + 1, n - 2, 0, e.fold) <= 0
  {
  }

  lemma {:induction false} RepeatInside(e: Env, rs: Regions, lo: int, n: int, so: int, m: int, bi: nat, j: int,
                                        step: int)
    requires e.tb.WellFormed() && Kept(e, rs) && Refuses(e, rs) && bi < |e.tb.brackets|
    requires 0 <= j <= m && 0 < step < n && rs(lo, step, bi) && Within(e, so, m)
    requires var ni := AfterQuantifier(e, lo, n, step); rs(lo + ni, n - ni, bi)
    ensures so + Repeat(e, lo, n, so, m, bi, j, step) <= |e.t|
    decreases |e.tb.brackets| - bi, 0, n, 2, 0
  {
    hide Bar, RepeatLoop, Kept, Refuses;
    var ni := AfterQuantifier(e, lo, n, step);
    LoopInside(e, rs, lo, n, so, m, bi, j, step, j, j, -1);
    BarInside(e, rs, lo + ni, n - ni, so + j, m - j, bi, 0);
  }

  lemma {:induction false} LoopInside(e: Env, rs: Regions, lo: int, n: int, so: int, m: int, bi: nat, j: int, step: int,
                                      j2: int, nj: int, n2: int)
    requires e.tb.WellFormed() && Kept(e, rs) && Refuses(e, rs) && bi < |e.tb.brackets| && rs(lo, step, bi)
    requires 0 <= j <= m && 0 < step < n && j <= j2 <= m + 1 && nj <= m + 1
    requires Within(e, so, m) && so + j2 <= |e.t| && so + nj <= |e.t|
    requires var ni := AfterQuantifier(e, lo, n, step); rs(lo + ni, n - ni, bi)
    ensures so + RepeatLoop(e, lo, n, so, m, bi, j, step, j2, nj, n2).nj <= |e.t|
    decreases |e.tb.brackets| - bi, 0, n, 1, m + 1 - j2
  {
    hide Bar, RepeatLoop, Kept, Refuses;
    var ni := AfterQuantifier(e, lo, n, step);
    RepeatLoopLap(e, lo, n, so, m, bi, j, step, j2, nj, n2);
    BarInside(e, rs, lo, step, so + j2, m - j2, bi, 0);
    var n1 := Bar(e, lo, step, so + j2, m - j2, bi, 0);
    var k := if n1 > 0 then j2 + n1 else j2;
    BarInside(e, rs, lo + ni, n - ni, so + k, m - k, bi, 0);
    var lap := RepeatLap(e, lo, n, so, m, bi, j, step, j2, nj, n2);
    if lap.Again? {
      LoopInside(e, rs, lo, n, so, m, bi, j, step, lap.j2, lap.nj, lap.n2);
    }
  }

  lemma {:induction false} GroupLoopInside(e: Env, rs: Regions, lo: int, n: int, so: int, m: int, bi: nat, j: int,
                                           j2: int)
    requires e.tb.WellFormed() && Kept(e, rs) && Refuses(e, rs) && bi < |e.tb.brackets|
    requires 0 <= j <= m && 0 <= j2 <= m - j && Within(e, so, m)
    ensures so + j + GroupLoop(e, lo, n, so, m, bi, j, j2) <= |e.t|
    decreases |e.tb.brackets| - bi, 2, 0, 0, m - j - j2
  {
    hide Bar, Doh, Kept, Refuses;
    DohInside(e, rs, so + j, m - (j + j2), bi);
    if j2 < m - j {
      GroupLoopInside(e, rs, lo, n, so, m, bi, j, j2 + 1);
    }
  }

  lemma {:induction false} DohInside(e: Env, rs: Regions, so: int, m: int, bi: nat)
    requires e.tb.WellFormed() && Kept(e, rs) && Refuses(e, rs) && bi < |e.tb.brackets| && 0 <= m && Within(e, so, m)
    ensures so + Doh(e, so, m, bi) <= |e.t|
    decreases |e.tb.brackets| - bi, 1, 1, 0, 0
  {
    hide DohFrom, Kept, Refuses;
    DohFromInside(e, rs, so, m, bi, 0);
  }

  lemma {:induction false} DohFromInside(e: Env, rs: Regions, so: int, m: int, bi: nat, i: nat)
    requires e.tb.WellFormed() && Kept(e, rs) && Refuses(e, rs) && bi < |e.tb.brackets| && 0 <= m && Within(e, so, m)
    requires i <= e.tb.brackets[bi].numBranches
    ensures so + DohFrom(e, so, m, bi, i) <= |e.t|
    decreases |e.tb.brackets| - bi, 1, 0, 0, e.tb.brackets[bi].numBranches - i
  {
    hide Bar, Refuses;
    var b := e.tb.brackets[bi];
    BarInside(e, rs, PieceStart(e.tb, b, i), PieceLen(e.tb, b, i), so, m, bi, 0);
    if i < b.numBranches {
      DohFromInside(e, rs, so, m, bi, i + 1);
    }
  }

  /** Where the sets of all regions of a run refuse 0, the match ends within the text. */
  lemma {:induction false} SearchInside(e: Env, rs: Regions, i: nat)
    requires e.tb.WellFormed() && 0 < |e.tb.brackets| && Kept(e, rs) && Refuses(e, rs) && i <= |e.t|
    ensures BazFrom(e, i) <= |e.t|
    decreases |e.t| - i
  {
    hide Kept, Refuses, Doh;
    DohInside(e, rs, i, |e.t| - i, 0);
    if i < |e.t| {
      SearchInside(e, rs, i + 1);
    }
  }

  // ---- The sets of a pattern in step --------------------------------------------------------------

  /** The set at `i`, in a region of `n` bytes that starts with it, does not accept 0. */
  predicate RefusesNul(p: Text, i: nat, n: int, fold: bool) {
    SetResult(p, i + 1, n - 2, 0, fold) <= 0
  }

  /** A set operation of the scan's own walk. */
  predicate IsSet(p: Text, i: nat) {
    i < |p| && p[i] == LBRACKET && Reaches(p, 0, i)
  }

  /** No set operation accepts 0, up to whatever place behind it the region ends at. */
  ghost predicate SetsRefuse(p: Text, fold: bool) {
    forall i: nat, n: int :: IsSet(p, i) && 0 < n && i + n <= |p| && (Ahead(p, i) <= n || i + n == |p|) ==>
      RefusesNul(p, i, n, fold)
  }

  /** Where the matcher's pass over the elements of a set stops: it takes ranges as one element, the scan does not. */
  function ElementsEnd(p: Text, k: nat): (r: nat)
    ensures k <= r
    decreases |p| - k
  {
    if k >= |p| || p[k] == RBRACKET then k
    else ElementsEnd(p, k + if IsRange(p, k) then 3 else OpLen(p, k))
  }

  /** The matcher finds the closing bracket of the set where the scan does. */
  predicate Straight(p: Text, i: nat) {
    var from := if At(p, i + 1) == CARET then i + 2 else i + 1;
    ElementsEnd(p, from) == SetEnd(p, i + 1) < |p|
  }

  lemma {:induction false} SameScan(p: Text, lo: nat, n: int, m: int, b: Byte, fold: bool, len: nat, result: int)
    requires var end := ElementsEnd(p, lo + len); end < |p| && p[end] == RBRACKET && end - lo <= n && end - lo <= m
    ensures SetScan(p, lo, n, b, fold, len, result) == SetScan(p, lo, m, b, fold, len, result)
    decreases |p| - lo - len
  {
    if p[lo + len] != RBRACKET && result <= 0 {
      if IsRange(p, lo + len) {
        var r := if InRange(At(p, lo + len), At(p, lo + len + 2), b, fold) then 1 else 0;
        SameScan(p, lo, n, m, b, fold, len + 3, r);
      } else {
        SameScan(p, lo, n, m, b, fold, len + OpLen(p, lo + len), MatchOp(p, lo + len, b, fold));
      }
    }
  }

  /** The verdict of such a set does not depend on what follows it. */
  lemma {:induction false} SameVerdict(p: Text, i: nat, n: int, b: Byte, fold: bool)
    requires i < |p| && p[i] == LBRACKET && Straight(p, i) && Ahead(p, i) <= n
    ensures SetResult(p, i + 1, n - 2, b, fold) == SetResult(p, i + 1, Ahead(p, i) - 2, b, fold)
  {
    StandsStill(p, i);
    if At(p, i + 1) == CARET {
      SameScan(p, i + 2, n - 3, Ahead(p, i) - 3, b, fold, 0, -1);
    } else {
      SameScan(p, i + 1, n - 2, Ahead(p, i) - 2, b, fold, 0, -1);
    }
  }

  /** If all sets of the walk are such, they refuse 0 if and only if each does by itself. */
  lemma {:induction false} OwnLength(p: Text, fold: bool)
    requires forall i: nat :: IsSet(p, i) ==> Straight(p, i)
    ensures SetsRefuse(p, fold) <==> forall i: nat :: IsSet(p, i) ==> RefusesNul(p, i, Ahead(p, i), fold)
  {
    hide SetResult, Straight, Reaches, GetOpLen;
    forall i: nat | IsSet(p, i) && SetsRefuse(p, fold) ensures RefusesNul(p, i, Ahead(p, i), fold) {
      StraightFits(p, i);
    }
    if forall i: nat :: IsSet(p, i) ==> RefusesNul(p, i, Ahead(p, i), fold) {
      forall i: nat, n: int | IsSet(p, i) && 0 < n && i + n <= |p| && (Ahead(p, i) <= n || i + n == |p|)
        ensures RefusesNul(p, i, n, fold)
      {
        StraightFits(p, i);
        SameVerdict(p, i, n, 0, fold);
        assert RefusesNul(p, i, Ahead(p, i), fold);
      }
    }
  }

  lemma {:induction false} StraightFits(p: Text, i: nat)
    requires i < |p| && p[i] == LBRACKET && Straight(p, i)
    ensures 0 < Ahead(p, i) && i + Ahead(p, i) <= |p|
  {
    StandsStill(p, i);
  }

  /** The regions of a run that start at an operation of the scan's walk. */
  ghost function WalkedSet(p: Text): Regions {
    (lo: int, n: int, bi: int) => Stepping(p, lo, n, bi) && (0 < n ==> Reaches(p, 0, lo))
  }

  lemma {:induction false} WalkedRefuses(e: Env)
    requires SetsRefuse(e.p, e.fold)
    ensures Refuses(e, WalkedSet(e.p))
  {
    hide Stepping, SetsRefuse, SetResult, Reaches, GetOpLen;
    var rs := WalkedSet(e.p);
    forall lo, n, bi: nat {:trigger rs(lo, n, bi)} | 0 < n && rs(lo, n, bi) && At(e.p, lo) == LBRACKET
      ensures SetResult(e.p, lo + 1, n - 2, 0, e.fold) <= 0
    {
      WalkedSetRefuses(e.p, e.fold, lo, n, bi);
    }
  }

  lemma {:induction false} WalkedSetRefuses(p: Text, fold: bool, lo: int, n: int, bi: int)
    requires SetsRefuse(p, fold) && 0 < n && Stepping(p, lo, n, bi) && Reaches(p, 0, lo) && At(p, lo) == LBRACKET
    ensures SetResult(p, lo + 1, n - 2, 0, fold) <= 0
  {
    hide SetResult, GetOpLen;
    assert IsSet(p, lo);
    assert RefusesNul(p, lo, n, fold);
  }

  /** What follows an operation is reached from it. */
  lemma {:induction false} WalkedKept(e: Env, lo: int, n: int, bi: nat)
    requires e.tb.WellFormed() && 0 < n && bi < |e.tb.brackets| && Stepping(e.p, lo, n, bi) && Reaches(e.p, 0, lo)
    requires |e.tb.brackets| == 1 + |Groups(e.p, 0)|
    requires forall k :: 0 <= k < |Groups(e.p, 0)| ==>
      e.tb.brackets[k + 1].len == Groups(e.p, 0)[k].hi - Groups(e.p, 0)[k].lo
    ensures KeptAt(e, WalkedSet(e.p), lo, n, bi)
  {
    hide Stepping, Groups, Reaches, GetOpLen;
    SteppingFacts(e.p, lo, n, bi);
    SteppingKept(e, lo, n, bi);
    var step := Step(e, lo, n, bi);
    if 0 < step {
      StepReached(e, lo, n, bi);
      ReachesOn(e.p, 0, lo, lo + step);
      if step < n && IsQuantifier(At(e.p, lo + step)) {
        ReachesByte(e.p, lo + step);
        ReachesOn(e.p, 0, lo + step, lo + step + 1);
        if NonGreedy(e, lo, n, step) {
          ReachesByte(e.p, lo + step + 1);
          ReachesOn(e.p, 0, lo + step + 1, lo + step + 2);
        }
      }
    }
  }

  lemma {:induction false} ReachesByte(p: Text, i: nat)
    requires IsQuantifier(At(p, i))
    ensures Reaches(p, i, i + 1)
  {
    ReachesNext(p, i);
  }

  lemma {:induction false} StepReached(e: Env, lo: nat, n: int, bi: nat)
    requires e.tb.WellFormed() && 0 < n && bi < |e.tb.brackets| && Stepping(e.p, lo, n, bi)
    requires |e.tb.brackets| == 1 + |Groups(e.p, 0)|
    requires forall k :: 0 <= k < |Groups(e.p, 0)| ==>
      e.tb.brackets[k + 1].len == Groups(e.p, 0)[k].hi - Groups(e.p, 0)[k].lo
    ensures var step := Step(e, lo, n, bi); 0 < step && Reaches(e.p, lo, lo + step)
  {
    hide Groups, Stepping, GetOpLen;
    SteppingFacts(e.p, lo, n, bi);
    if e.p[lo] == LPAREN {
      StepsGroup(e.p, lo, n, bi);
      GroupMet(e.p, lo, n, bi);
      ReachesGroup(e.p, lo);
    } else {
      StepsOver(e.p, lo, n, bi);
    }
  }

  lemma {:induction false} GroupMet(p: Text, lo: nat, n: int, bi: int)
    requires 0 < n && Stepping(p, lo, n, bi) && p[lo] == LPAREN
    ensures 0 <= bi < |Groups(p, 0)| && NextParen(p, lo + 1) == Groups(p, 0)[bi].hi < |p|
    ensures Groups(p, 0)[bi].lo == lo + 1
  {
    hide Groups, OneDeep, QuantifiedLast, Walks, Reaches;
    assert NextParen(p, lo) == lo;
    MeetsGroup(p, lo, bi);
  }

  // ---- The pieces ---------------------------------------------------------------------------------

  lemma {:induction false} GroupFromStart(p: Text, i: nat, k: nat)
    requires OneDeep(p, i) && k < |Groups(p, i)|
    ensures Reaches(p, i, Groups(p, i)[k].lo)
    decreases |p| - i
  {
    hide NextParen, Groups, OneDeep, Reaches;
    GroupsUnfold(p, i);
    DeepUnfold(p, i);
    var o := NextParen(p, i);
    var c := NextParen(p, o + 1);
    ReachesParen(p, i);
    if k == 0 {
      ReachesNext(p, o);
      ReachesOn(p, i, o, o + 1);
    } else {
      ReachesGroup(p, o);
      ReachesOn(p, i, o, c + 1);
      GroupFromStart(p, c + 1, k - 1);
      assert Groups(p, i)[k] == Groups(p, c + 1)[k - 1];
      ReachesOn(p, i, c + 1, Groups(p, i)[k].lo);
    }
  }

  /** Every piece starts on the walk. */
  lemma {:induction false} PieceReached(p: Text, st: ScanState, tb: Tables, k: nat, i: nat)
    requires InStep(p) && SetsEnd(p, 0) && st.branches == AllMarks(p, 0, 1)
    requires tb.WellFormed() && |tb.brackets| == 1 + |Groups(p, 0)| && k < |tb.brackets|
    requires i <= tb.brackets[k].numBranches
    requires multiset(tb.branches) == multiset(st.branches) && SliceExact(tb, k)
    requires k == 0 ==> tb.brackets[0].ptr == 0
    requires k > 0 ==> tb.brackets[k].ptr == Groups(p, 0)[k - 1].lo
    ensures var q := PieceStart(tb, tb.brackets[k], i); 0 <= q && Reaches(p, 0, q)
  {
    hide InStep, AllMarks, Groups, TopBars, BarsIn, SetsEnd, OneDeep, QuantifiedLast, Reaches;
    InStepFacts(p, 0);
    ReachesSelf(p, 0);
    var b := tb.brackets[k];
    if k > 0 {
      GroupFromStart(p, 0, k - 1);
    }
    if i > 0 {
      BranchPlaced(p, st, tb, k, b.branches + i - 1);
      var bar := tb.branches[b.branches + i - 1].schlong;
      if k == 0 {
        TopBarReached(p, 0, bar);
      } else {
        var g := Groups(p, 0)[k - 1];
        BarsReached(p, g.lo, g.hi, bar);
        ReachesOn(p, 0, g.lo, bar);
      }
      ReachesNext(p, bar);
      ReachesOn(p, 0, bar, bar + 1);
    }
  }

  lemma {:induction false} RunWalked(e: Env, st: ScanState)
    requires InStep(e.p) && SetsEnd(e.p, 0) && st.branches == AllMarks(e.p, 0, 1)
    requires st.brackets == [Bracket(0, |e.p|, 0, 0)] + Spans(Groups(e.p, 0))
    requires e.tb.WellFormed() && |e.tb.brackets| == |st.brackets| && multiset(e.tb.branches) == multiset(st.branches)
    requires forall k :: 0 <= k < |e.tb.brackets| ==>
      SliceExact(e.tb, k) && e.tb.brackets[k].ptr == st.brackets[k].ptr && e.tb.brackets[k].len == st.brackets[k].len
    ensures Kept(e, WalkedSet(e.p))
  {
    hide InStep, Stepping, Groups, AllMarks, SetsEnd, SliceExact, Spans, KeptAt, Reaches;
    var gs, rs := Groups(e.p, 0), WalkedSet(e.p);
    SpansExact(gs);
    assert forall k :: 0 <= k < |gs| ==> st.brackets[k + 1] == Spans(gs)[k];
    forall lo: int, n: int, bi: int {:trigger rs(lo, n, bi)} | 0 < n && 0 <= bi < |e.tb.brackets| && rs(lo, n, bi)
      ensures KeptAt(e, rs, lo, n, bi)
    {
      WalkedKept(e, lo, n, bi);
    }
    forall k: int, i: int {:trigger PieceStart(e.tb, e.tb.brackets[k], i)} |
        0 <= k < |e.tb.brackets| && 0 <= i <= e.tb.brackets[k].numBranches
      ensures rs(PieceStart(e.tb, e.tb.brackets[k], i), PieceLen(e.tb, e.tb.brackets[k], i), k)
    {
      assert k > 0 ==> st.brackets[(k - 1) + 1] == Spans(gs)[k - 1];
      PiecesStep(e.p, st, e.tb, k, i);
      PieceReached(e.p, st, e.tb, k, i);
    }
  }

  /** In step, and with sets that refuse 0, every match ends within the text. */
  lemma {:induction false} InStepInside(p: Text, t: Text, numCaps: int, fold: bool, spare: int)
    requires Compile(p, numCaps).Scanned? && InStep(p) && SetsRefuse(p, fold)
    ensures var st := Compile(p, numCaps).state;
      && Setup(st, spare).WellFormed() && |Setup(st, spare).brackets| > 0
      && BazFrom(Env(p, t, fold, Setup(st, spare)), 0) <= |t|
  {
    hide Scan, Setup, BazFrom, Kept, InStep, Stepping, Groups, AllMarks, TopBars, OneDeep, SetsEnd, Spans, SetsRefuse,
      Refuses;
    var st := Compile(p, numCaps).state;
    InStepFacts(p, 0);
    ScanEnds(p, numCaps);
    ScanGroups(p, 0, InitialScan(p), numCaps);
    SetupExact(st, spare);
    var e := Env(p, t, fold, Setup(st, spare));
    assert st.branches == AllMarks(p, 0, 1);
    RunWalked(e, st);
    WalkedRefuses(e);
    SearchInside(e, WalkedSet(p), 0);
  }
}
