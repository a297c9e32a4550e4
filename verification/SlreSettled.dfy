/** When the result of a match does not depend on memory that was never set: the matcher must not take a group
    for the one behind the last bracket. */
module SlreSettled {
  import opened Bytes
  import opened SlreTables
  import opened SlreScan
  import opened SlreMatcher

  /** The same tables with other memory behind them. */
  function Respared(e: Env, spare: int): Env {
    e.(tb := e.tb.(spare := spare))
  }

  /** A set of regions, each with the number of brackets passed. */
  type Regions = (int, int, int) -> bool

  /** What the matcher does at the front of a region leads to regions of the set again, and a group that it
      meets there has its bracket. */
  ghost predicate KeptAt(e: Env, rs: Regions, lo: int, n: int, bi: nat) {
    var c, step := At(e.p, lo), Step(e, lo, n, bi);
    && (c == LPAREN ==> bi + 1 < |e.tb.brackets|)
    && (0 < step ==>
          if step < n && IsQuantifier(At(e.p, lo + step)) then
            && rs(lo, step, bi) && rs(lo + step + 1, n - step - 1, bi)
            && (NonGreedy(e, lo, n, step) ==> rs(lo + step + 2, n - step - 2, bi))
          else rs(lo + step, n - step, if c == LPAREN then bi + 1 else bi))
  }

  ghost predicate Kept(e: Env, rs: Regions)
    requires e.tb.WellFormed()
  {
    && (forall lo, n, bi {:trigger rs(lo, n, bi)} ::
          0 < n && 0 <= bi < |e.tb.brackets| && rs(lo, n, bi) ==> KeptAt(e, rs, lo, n, bi))
    && (forall k: int, i: int {:trigger PieceStart(e.tb, e.tb.brackets[k], i)} ::
          0 <= k < |e.tb.brackets| && 0 <= i <= e.tb.brackets[k].numBranches ==>
            rs(PieceStart(e.tb, e.tb.brackets[k], i), PieceLen(e.tb, e.tb.brackets[k], i), k))
  }

  lemma {:induction false} SameTables(e: Env, s: int)
    requires e.tb.WellFormed()
    ensures Respared(e, s).tb.WellFormed() && |Respared(e, s).tb.brackets| == |e.tb.brackets|
  {
  }

  // ---- One run on two memories --------------------------------------------------------------------

  lemma {:induction false} BarSettled(e: Env, s: int, rs: Regions, lo: int, n: int, so: int, m: int, bi: nat, j: int)
    requires e.tb.WellFormed() && Kept(e, rs) && bi < |e.tb.brackets| && 0 <= j <= m + 1 && (n <= 0 || rs(lo, n, bi))
    ensures Bar(Respared(e, s), lo, n, so, m, bi, j) == Bar(e, lo, n, so, m, bi, j)
    decreases |e.tb.brackets| - bi, 0, n, 4, 0
  {
    hide Bar, Round, Kept, Respared;
    var e' := Respared(e, s);
    SameTables(e, s);
    if n <= 0 || j > m {
      BarOver(e, lo, n, so, m, bi, j);
      BarOver(e', lo, n, so, m, bi, j);
    } else {
      BarRound(e, lo, n, so, m, bi, j);
      BarRound(e', lo, n, so, m, bi, j);
      RoundSettled(e, s, rs, lo, n, so, m, bi, j);
      var o := Round(e, lo, n, so, m, bi, j);
      if o.MoveOn? {
        BarSettled(e, s, rs, lo + o.step, n - o.step, so, m, o.bi, o.j);
      }
    }
  }

  lemma {:induction false} RoundSettled(e: Env, s: int, rs: Regions, lo: int, n: int, so: int, m: int, bi: nat, j: int)
    requires e.tb.WellFormed() && Kept(e, rs) && bi < |e.tb.brackets| && 0 <= j <= m && 0 < n && rs(lo, n, bi)
    ensures var o := Round(e, lo, n, so, m, bi, j);
      Round(Respared(e, s), lo, n, so, m, bi, j) == o && (o.MoveOn? ==> rs(lo + o.step, n - o.step, o.bi))
    decreases |e.tb.brackets| - bi, 0, n, 3, 0
  {
    hide Bar, Doh, GroupLoop, Repeat, Kept, SetResult, MatchOp, Step, Respared;
    KeptIs(e, rs, lo, n, bi);
    SameStep(e, s, lo, n, bi);
    var c, step := At(e.p, lo), Step(e, lo, n, bi);
    if 0 < step {
      if step < n && IsQuantifier(At(e.p, lo + step)) {
        if At(e.p, lo + step) == QUESTION {
          BarSettled(e, s, rs, lo, step, so + j, m - j, bi, 0);
        } else if !IsQuantifier(c) {
          RepeatSettled(e, s, rs, lo, n, so, m, bi, j, step);
        }
      } else if c == LPAREN {
        if n <= step {
          DohSettled(e, s, rs, so + j, m - j, bi + 1);
        } else {
          GroupLoopSettled(e, s, rs, lo + step, n - step, so, m, bi + 1, j, 0);
        }
      }
    }
  }

  lemma {:induction false} SameStep(e: Env, s: int, lo: int, n: int, bi: nat)
    requires e.tb.WellFormed() && bi < |e.tb.brackets| && (At(e.p, lo) == LPAREN ==> bi + 1 < |e.tb.brackets|)
    ensures var e' := Respared(e, s);
      && e'.p == e.p && e'.t == e.t && e'.fold == e.fold
      && e'.tb.WellFormed() && |e'.tb.brackets| == |e.tb.brackets| && Step(e', lo, n, bi) == Step(e, lo, n, bi)
  {
  }

  lemma {:induction false} KeptIs(e: Env, rs: Regions, lo: int, n: int, bi: nat)
    requires e.tb.WellFormed() && Kept(e, rs) && 0 < n && bi < |e.tb.brackets| && rs(lo, n, bi)
    ensures KeptAt(e, rs, lo, n, bi)
  {
  }

  lemma {:induction false} RepeatSettled(e: Env, s: int, rs: Regions, lo: int, n: int, so: int, m: int, bi: nat, j: int,
                                         step: int)
    requires e.tb.WellFormed() && Kept(e, rs) && bi < |e.tb.brackets| && 0 <= j <= m && 0 < step < n && rs(lo, step, bi)
    requires var ni := AfterQuantifier(e, lo, n, step); rs(lo + ni, n - ni, bi)
    ensures Repeat(Respared(e, s), lo, n, so, m, bi, j, step) == Repeat(e, lo, n, so, m, bi, j, step)
    decreases |e.tb.brackets| - bi, 0, n, 2, 0
  {
    hide Bar, RepeatLoop, Kept;
    var ni := AfterQuantifier(e, lo, n, step);
    LoopSettled(e, s, rs, lo, n, so, m, bi, j, step, j, j, -1);
    BarSettled(e, s, rs, lo + ni, n - ni, so + j, m - j, bi, 0);
  }

  lemma {:induction false} LoopSettled(e: Env, s: int, rs: Regions, lo: int, n: int, so: int, m: int, bi: nat, j: int,
                                       step: int,
                                       j2: int, nj: int, n2: int)
    requires e.tb.WellFormed() && Kept(e, rs) && bi < |e.tb.brackets| && rs(lo, step, bi)
    requires 0 <= j <= m && 0 < step < n && j <= j2 <= m + 1 && nj <= m + 1
    requires var ni := AfterQuantifier(e, lo, n, step); rs(lo + ni, n - ni, bi)
    ensures RepeatLoop(Respared(e, s), lo, n, so, m, bi, j, step, j2, nj, n2) ==
      RepeatLoop(e, lo, n, so, m, bi, j, step, j2, nj, n2)
    decreases |e.tb.brackets| - bi, 0, n, 1, m + 1 - j2
  {
    hide Bar, RepeatLoop, Kept;
    var e', ni := Respared(e, s), AfterQuantifier(e, lo, n, step);
    RepeatLoopLap(e, lo, n, so, m, bi, j, step, j2, nj, n2);
    RepeatLoopLap(e', lo, n, so, m, bi, j, step, j2, nj, n2);
    BarSettled(e, s, rs, lo, step, so + j2, m - j2, bi, 0);
    var n1 := Bar(e, lo, step, so + j2, m - j2, bi, 0);
    var k := if n1 > 0 then j2 + n1 else j2;
    BarSettled(e, s, rs, lo + ni, n - ni, so + k, m - k, bi, 0);
    var lap := RepeatLap(e, lo, n, so, m, bi, j, step, j2, nj, n2);
    if lap.Again? {
      LoopSettled(e, s, rs, lo, n, so, m, bi, j, step, lap.j2, lap.nj, lap.n2);
    }
  }

  lemma {:induction false} GroupLoopSettled(e: Env, s: int, rs: Regions, lo: int, n: int, so: int, m: int, bi: nat,
                                            j: int, j2: int)
    requires e.tb.WellFormed() && Kept(e, rs) && bi < |e.tb.brackets| && 0 <= j <= m && 0 <= j2 <= m - j
    requires rs(lo, n, bi)
    ensures GroupLoop(Respared(e, s), lo, n, so, m, bi, j, j2) == GroupLoop(e, lo, n, so, m, bi, j, j2)
    decreases |e.tb.brackets| - bi, 2, 0, 0, m - j - j2
  {
    hide Bar, Doh, Kept;
    DohSettled(e, s, rs, so + j, m - (j + j2), bi);
    var r := Doh(e, so + j, m - (j + j2), bi);
    if r >= 0 {
      BarSettled(e, s, rs, lo, n, so + j + r, m - (j + r), bi, 0);
    }
    if j2 < m - j {
      GroupLoopSettled(e, s, rs, lo, n, so, m, bi, j, j2 + 1);
    }
  }

  lemma {:induction false} DohSettled(e: Env, s: int, rs: Regions, so: int, m: int, bi: nat)
    requires e.tb.WellFormed() && Kept(e, rs) && bi < |e.tb.brackets| && 0 <= m
    ensures Doh(Respared(e, s), so, m, bi) == Doh(e, so, m, bi)
    decreases |e.tb.brackets| - bi, 1, 1, 0, 0
  {
    hide DohFrom, Kept;
    DohFromSettled(e, s, rs, so, m, bi, 0);
  }

  lemma {:induction false} DohFromSettled(e: Env, s: int, rs: Regions, so: int, m: int, bi: nat, i: nat)
    requires e.tb.WellFormed() && Kept(e, rs) && bi < |e.tb.brackets| && 0 <= m && i <= e.tb.brackets[bi].numBranches
    ensures DohFrom(Respared(e, s), so, m, bi, i) == DohFrom(e, so, m, bi, i)
    decreases |e.tb.brackets| - bi, 1, 0, 0, e.tb.brackets[bi].numBranches - i
  {
    hide Bar;
    var b := e.tb.brackets[bi];
    BarSettled(e, s, rs, PieceStart(e.tb, b, i), PieceLen(e.tb, b, i), so, m, bi, 0);
    if i < b.numBranches {
      DohFromSettled(e, s, rs, so, m, bi, i + 1);
    }
  }

  /** Where the regions of a run stay in such a set, memory behind the tables does not matter. */
  lemma {:induction false} SearchSettled(e: Env, s: int, rs: Regions, i: nat)
    requires e.tb.WellFormed() && 0 < |e.tb.brackets| && Kept(e, rs) && i <= |e.t|
    ensures BazFrom(Respared(e, s), i) == BazFrom(e, i)
    decreases |e.t| - i
  {
    hide Kept, Doh;
    DohSettled(e, s, rs, i, |e.t| - i, 0);
    if i < |e.t| {
      SearchSettled(e, s, rs, i + 1);
    }
  }
}
