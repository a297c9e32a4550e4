/** Patterns in which every `(` opens a group: the matcher never takes a group for one behind the tables. */
module SlreParens {
  import opened Bytes
  import opened SlreTables
  import opened SlreScan
  import opened SlreMatcher
  import opened SlreWalk
  import opened SlreSettled

  /** The `(` bytes in front of `i`. */
  function Parens(p: Text, i: nat): (r: nat) {
    if i == 0 then 0 else Parens(p, i - 1) + if i - 1 < |p| && p[i - 1] == LPAREN then 1 else 0
  }

  /** From `i` on, no escape and no set has a `(` in it. */
  predicate OpensOnly(p: Text, i: nat)
    decreases |p| - i
  {
    i < |p| ==>
      && (forall k :: i < k < i + Ahead(p, i) && k < |p| ==> p[k] != LPAREN)
      && (0 < Ahead(p, i) ==> OpensOnly(p, i + Ahead(p, i)))
  }

  lemma {:induction false} ParensGrow(p: Text, i: nat, j: nat)
    requires i <= j
    ensures Parens(p, i) <= Parens(p, j)
    ensures (forall k :: i <= k < j && k < |p| ==> p[k] != LPAREN) ==> Parens(p, i) == Parens(p, j)
    decreases j
  {
    if i < j {
      ParensGrow(p, i, j - 1);
    }
  }

  /** What the scan has recorded at `i`: a bracket for every `(`, and nothing in front of its bracket's `(`. */
  ghost predicate Counted(p: Text, i: nat, st: ScanState) {
    && |st.brackets| == 1 + Parens(p, i)
    && (forall k :: 0 <= k < |st.brackets| ==> 0 <= st.brackets[k].ptr && k <= Parens(p, st.brackets[k].ptr))
    && (forall k :: 0 <= k < |st.branches| ==>
          0 <= st.branches[k].schlong && st.branches[k].bracketIndex <= Parens(p, st.branches[k].schlong))
  }

  lemma {:induction false} ScanCounts(p: Text, i: nat, st: ScanState, numCaps: int)
    requires st.WellFormed() && Counted(p, i, st) && OpensOnly(p, i) && Scan(p, i, st, numCaps).Scanned?
    ensures Counted(p, Max(i, |p|), Scan(p, i, st, numCaps).state)
    decreases |p| - i
  {
    if i < |p| {
      OpCounts(p, i, st, numCaps);
      ScanCounts(p, i + Ahead(p, i), ScanOp(p, i, st, numCaps).state, numCaps);
      ParensGrow(p, |p|, Max(i + Ahead(p, i), |p|));
    }
    ParensGrow(p, Min(i, |p|), |p|);
  }

  lemma {:induction false} OpCounts(p: Text, i: nat, st: ScanState, numCaps: int)
    requires st.WellFormed() && Counted(p, i, st) && i < |p| && Ahead(p, i) > 0 && ScanOp(p, i, st, numCaps).Scanned?
    requires forall k :: i < k < i + Ahead(p, i) && k < |p| ==> p[k] != LPAREN
    ensures Counted(p, i + Ahead(p, i), ScanOp(p, i, st, numCaps).state)
  {
    ParensGrow(p, i + 1, i + Ahead(p, i));
    hide GetOpLen;
  }

  function Counting(p: Text): Regions {
    (lo: int, n: int, bi: int) => 0 < n ==> 0 <= lo && bi <= Parens(p, lo)
  }

  lemma {:induction false} CountingKept(e: Env, st: ScanState, spare: int)
    requires st.WellFormed() && Counted(e.p, |e.p|, st) && e.tb == Setup(st, spare)
    ensures e.tb.WellFormed() && Kept(e, Counting(e.p))
  {
    SetupExact(st, spare);
    hide Setup, SliceExact, Sorted;
    var rs := Counting(e.p);
    forall lo: int, n: int, bi: int {:trigger rs(lo, n, bi)} | 0 < n && 0 <= bi < |e.tb.brackets| && rs(lo, n, bi)
      ensures KeptAt(e, rs, lo, n, bi)
    {
      RegionKept(e, lo, n, bi);
    }
    forall k: int, i: int {:trigger PieceStart(e.tb, e.tb.brackets[k], i)} |
        0 <= k < |e.tb.brackets| && 0 <= i <= e.tb.brackets[k].numBranches
      ensures rs(PieceStart(e.tb, e.tb.brackets[k], i), PieceLen(e.tb, e.tb.brackets[k], i), k)
    {
      PieceCounted(e.p, st, e.tb, k, i);
    }
  }

  lemma {:induction false} RegionKept(e: Env, lo: int, n: int, bi: nat)
    requires |e.tb.brackets| == 1 + Parens(e.p, |e.p|) && 0 < n && 0 <= lo && bi <= Parens(e.p, lo)
    ensures KeptAt(e, Counting(e.p), lo, n, bi)
  {
    var step := Step(e, lo, n, bi);
    if At(e.p, lo) == LPAREN {
      assert Parens(e.p, lo + 1) == Parens(e.p, lo) + 1;
      ParensGrow(e.p, lo + 1, |e.p|);
    }
    hide GetOpLen;
    if 0 < step {
      ParensGrow(e.p, lo + 1, lo + step);
      ParensGrow(e.p, lo, lo + 1);
      ParensGrow(e.p, lo + step, lo + step + 1);
      ParensGrow(e.p, lo + step, lo + step + 2);
    }
  }

  lemma {:induction false} PieceCounted(p: Text, st: ScanState, tb: Tables, k: nat, i: nat)
    requires tb.WellFormed() && Counted(p, |p|, st) && k < |tb.brackets| == |st.brackets|
    requires i <= tb.brackets[k].numBranches
    requires multiset(tb.branches) == multiset(st.branches) && SliceExact(tb, k)
    requires tb.brackets[k].ptr == st.brackets[k].ptr
    ensures var q := PieceStart(tb, tb.brackets[k], i); 0 <= q && k <= Parens(p, q)
  {
    if i > 0 {
      var b := tb.branches[tb.brackets[k].branches + i - 1];
      assert b in multiset(st.branches);
      var j :| 0 <= j < |st.branches| && st.branches[j] == b;
      ParensGrow(p, b.schlong, b.schlong + 1);
    }
  }

  /** In a pattern whose parentheses all delimit groups, however they are nested and quantified, no group is
      taken for the one behind the tables, and what memory holds there does not matter. */
  lemma {:induction false} ParensSettled(p: Text, t: Text, numCaps: int, fold: bool, s1: int, s2: int)
    requires Compile(p, numCaps).Scanned? && OpensOnly(p, 0)
    ensures var st := Compile(p, numCaps).state;
      && Setup(st, s1).WellFormed() && Setup(st, s2).WellFormed()
      && |Setup(st, s1).brackets| == |Setup(st, s2).brackets| > 0
      && Kept(Env(p, t, fold, Setup(st, s1)), Counting(p))
      && BazFrom(Env(p, t, fold, Setup(st, s1)), 0) == BazFrom(Env(p, t, fold, Setup(st, s2)), 0)
  {
    hide Scan, Setup;
    var st := Compile(p, numCaps).state;
    assert Counted(p, 0, InitialScan(p));
    ScanCounts(p, 0, InitialScan(p), numCaps);
    hide BazFrom, Kept;
    SetupExact(st, s1);
    SetupExact(st, s2);
    var e := Env(p, t, fold, Setup(st, s1));
    CountingKept(e, st, s1);
    SetupSpare(st, s1, s2);
    SearchSettled(e, s2, Counting(p), 0);
  }

  lemma {:induction false} SetupSpare(st: ScanState, s1: int, s2: int)
    ensures Setup(st, s2) == Setup(st, s1).(spare := s2)
  {
  }
}
