/** The matcher one operation at a time: what a concrete run is put together from. */
module SlreRuns {
  import opened Bytes
  import opened SlreTables
  import opened SlreScan
  import opened SlreMatcher

  /** No quantifier stands behind the first `step` bytes of the region. */
  predicate Alone(e: Env, lo: int, n: int, step: int) {
    n <= step || !IsQuantifier(At(e.p, lo + step))
  }

  lemma {:induction false} AtEnd(e: Env, lo: int, so: int, m: int, bi: nat, j: int)
    requires e.tb.WellFormed() && bi < |e.tb.brackets| && 0 <= j <= m + 1
    ensures Bar(e, lo, 0, so, m, bi, j) == j
  {
  }

  lemma {:induction false} AtByte(e: Env, lo: int, n: int, so: int, m: int, bi: nat, j: int)
    requires e.tb.WellFormed() && bi < |e.tb.brackets| && 0 <= j <= m && 0 < n
    requires !IsQuantifier(At(e.p, lo)) && At(e.p, lo) !in {LBRACKET, LPAREN, CARET, DOLLAR}
    requires Alone(e, lo, n, OpLen(e.p, lo))
    ensures Bar(e, lo, n, so, m, bi, j) ==
      if m <= j then NO_MATCH
      else
        var r, step := MatchOp(e.p, lo, At(e.t, so + j), e.fold), OpLen(e.p, lo);
        if 0 < r then Bar(e, lo + step, n - step, so, m, bi, j + r) else r
  {
    hide Bar, MatchOp;
    BarRound(e, lo, n, so, m, bi, j);
  }

  lemma {:induction false} AtStart(e: Env, lo: int, n: int, so: int, m: int, bi: nat)
    requires e.tb.WellFormed() && bi < |e.tb.brackets| && 0 <= m && 0 < n && At(e.p, lo) == CARET && Alone(e, lo, n, 1)
    ensures Bar(e, lo, n, so, m, bi, 0) == Bar(e, lo + 1, n - 1, so, m, bi, 0)
  {
    hide Bar;
    BarRound(e, lo, n, so, m, bi, 0);
  }

  lemma {:induction false} AtTextEnd(e: Env, lo: int, n: int, so: int, m: int, bi: nat, j: int)
    requires e.tb.WellFormed() && bi < |e.tb.brackets| && 0 <= j <= m && 0 < n && At(e.p, lo) == DOLLAR
    requires Alone(e, lo, n, 1)
    ensures Bar(e, lo, n, so, m, bi, j) == if j == m then Bar(e, lo + 1, n - 1, so, m, bi, j) else NO_MATCH
  {
    hide Bar;
    BarRound(e, lo, n, so, m, bi, j);
  }

  /** A set does not ask whether the text region goes on. */
  lemma {:induction false} AtSet(e: Env, lo: int, n: int, so: int, m: int, bi: nat, j: int)
    requires e.tb.WellFormed() && bi < |e.tb.brackets| && 0 <= j <= m && 0 < n && At(e.p, lo) == LBRACKET
    requires 0 < GetOpLen(e.p, lo, n) && Alone(e, lo, n, GetOpLen(e.p, lo, n))
    ensures var step := GetOpLen(e.p, lo, n);
      Bar(e, lo, n, so, m, bi, j) ==
        if SetResult(e.p, lo + 1, n - 2, At(e.t, so + j), e.fold) > 0 then Bar(e, lo + step, n - step, so, m, bi, j + 1)
          else NO_MATCH
  {
    hide Bar, SetResult;
    BarRound(e, lo, n, so, m, bi, j);
  }

  lemma {:induction false} AtGroup(e: Env, lo: int, n: int, so: int, m: int, bi: nat, j: int)
    requires e.tb.WellFormed() && bi + 1 < |e.tb.brackets| && 0 <= j <= m && 0 < n && At(e.p, lo) == LPAREN
    requires var step := e.tb.brackets[bi + 1].len + 2; 0 < step && Alone(e, lo, n, step)
    ensures var step := e.tb.brackets[bi + 1].len + 2;
      var x := if n <= step then Doh(e, so + j, m - j, bi + 1)
        else GroupLoop(e, lo + step, n - step, so, m, bi + 1, j, 0);
      Bar(e, lo, n, so, m, bi, j) == if x < 0 then x else Bar(e, lo + step, n - step, so, m, bi + 1, j + x)
  {
    hide Bar, Doh, GroupLoop;
    BarRound(e, lo, n, so, m, bi, j);
  }

  /** A `(` without a bracket left takes its length from the memory behind the tables. */
  lemma {:induction false} AtLastGroup(e: Env, lo: int, n: int, so: int, m: int, bi: nat, j: int)
    requires e.tb.WellFormed() && bi + 1 == |e.tb.brackets| && 0 <= j <= m && 0 < n && At(e.p, lo) == LPAREN
    requires 0 < e.tb.spare + 2 && Alone(e, lo, n, e.tb.spare + 2)
    ensures Bar(e, lo, n, so, m, bi, j) == INTERNAL_ERROR
  {
    hide Bar;
    BarRound(e, lo, n, so, m, bi, j);
  }

  lemma {:induction false} AtOption(e: Env, lo: int, n: int, so: int, m: int, bi: nat, j: int, step: int)
    requires e.tb.WellFormed() && bi < |e.tb.brackets| && 0 <= j <= m && 0 < step < n && step == Step(e, lo, n, bi)
    requires !IsQuantifier(At(e.p, lo)) && At(e.p, lo + step) == QUESTION
    ensures var x := Bar(e, lo, step, so + j, m - j, bi, 0);
      Bar(e, lo, n, so, m, bi, j) == Bar(e, lo + step + 1, n - step - 1, so, m, bi, j + Max(x, 0))
  {
    hide Bar;
    BarRound(e, lo, n, so, m, bi, j);
  }

  lemma {:induction false} AtLoop(e: Env, lo: int, n: int, so: int, m: int, bi: nat, j: int, j2: int)
    requires e.tb.WellFormed() && bi < |e.tb.brackets| && 0 <= j <= m && 0 <= j2 <= m - j
    ensures var r := Doh(e, so + j, m - (j + j2), bi);
      GroupLoop(e, lo, n, so, m, bi, j, j2) ==
        if r >= 0 && Bar(e, lo, n, so + j + r, m - (j + r), bi, 0) >= 0 then r
        else if j2 < m - j then GroupLoop(e, lo, n, so, m, bi, j, j2 + 1)
        else r
  {
    hide Bar, Doh;
  }

  /** A bracket without alternatives. */
  lemma {:induction false} AtBracket(e: Env, so: int, m: int, bi: nat)
    requires e.tb.WellFormed() && bi < |e.tb.brackets| && 0 <= m && e.tb.brackets[bi].numBranches == 0
    ensures Doh(e, so, m, bi) == Bar(e, e.tb.brackets[bi].ptr, e.tb.brackets[bi].len, so, m, bi, 0)
  {
    hide Bar;
  }

  lemma {:induction false} AtPiece(e: Env, so: int, m: int, bi: nat, i: nat)
    requires e.tb.WellFormed() && bi < |e.tb.brackets| && 0 <= m && i <= e.tb.brackets[bi].numBranches
    ensures var b := e.tb.brackets[bi];
      var r := Bar(e, PieceStart(e.tb, b, i), PieceLen(e.tb, b, i), so, m, bi, 0);
      DohFrom(e, so, m, bi, i) == if r <= 0 && i < b.numBranches then DohFrom(e, so, m, bi, i + 1) else r
  {
    hide Bar;
  }

  // ---- The scan -----------------------------------------------------------------------------------

  lemma {:induction false} ScansOver(p: Text, i: nat, st: ScanState, numCaps: int)
    requires st.WellFormed() && i < |p| && p[i] !in {PIPE, LPAREN, RPAREN, LBRACKET}
    requires p[i] == BACKSLASH ==> i + 1 < |p| && p[i + 1] != LOWER_X && IsMetacharacter(p[i + 1])
    ensures Scan(p, i, st, numCaps) == Scan(p, i + OpLen(p, i), st, numCaps)
  {
  }

  lemma {:induction false} ScansSet(p: Text, i: nat, st: ScanState, numCaps: int)
    requires st.WellFormed() && i < |p| && p[i] == LBRACKET && 0 < GetOpLen(p, i, |p| - i)
    ensures Scan(p, i, st, numCaps) == Scan(p, i + GetOpLen(p, i, |p| - i), st, numCaps)
  {
  }

  lemma {:induction false} ScansBar(p: Text, i: nat, st: ScanState, numCaps: int)
    requires st.WellFormed() && i < |p| && p[i] == PIPE && |st.branches| < MAX_BRANCHES
    ensures var st' := st.(branches := st.branches + [Branch(st.Current(), i)]);
      st'.WellFormed() && Scan(p, i, st, numCaps) == Scan(p, i + 1, st', numCaps)
  {
  }

  lemma {:induction false} ScansOpening(p: Text, i: nat, st: ScanState, numCaps: int)
    requires st.WellFormed() && i < |p| && p[i] == LPAREN && |st.brackets| < MAX_BRACKETS && numCaps <= 0
    ensures var st' := st.(brackets := st.brackets + [Bracket(i + 1, -1, 0, 0)], depth := st.depth + 1);
      st'.WellFormed() && Scan(p, i, st, numCaps) == Scan(p, i + 1, st', numCaps)
  {
  }

  lemma {:induction false} ScansClosing(p: Text, i: nat, st: ScanState, numCaps: int)
    requires st.WellFormed() && 0 < i < |p| && p[i] == RPAREN && p[i - 1] != LPAREN && 0 < st.depth
    requires st.brackets[|st.brackets| - 1].len == -1
    ensures var k := |st.brackets| - 1;
      var st' :=
        st.(brackets := st.brackets[..k] + [st.brackets[k].(len := i - st.brackets[k].ptr)], depth := st.depth - 1);
      st'.WellFormed() && Scan(p, i, st, numCaps) == Scan(p, i + 1, st', numCaps)
  {
    var k := |st.brackets| - 1;
    var b := st.brackets[k].(len := i - st.brackets[k].ptr);
    assert st.brackets[k := b] == st.brackets[..k] + [b];
  }

  lemma {:induction false} ScansEnd(p: Text, st: ScanState, numCaps: int)
    requires st.WellFormed() && st.depth == 0
    ensures Scan(p, |p|, st, numCaps) == Scanned(st)
  {
  }
}
