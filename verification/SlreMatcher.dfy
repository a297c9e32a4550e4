/** What `bar`, `doh` and `baz` of sys/slre/slre.c compute, as functions of a pattern, a text and
    the two tables. A region of the pattern is (lo, n), a region of the text is (so, m). */
module SlreMatcher {
  import opened Bytes
  import opened SlreTables

  datatype Env = Env(p: Text, t: Text, fold: bool, tb: Tables)

  /** No `[` byte of the pattern, taken for a set in any region at all, accepts the byte 0, which is what a set sees
      behind the end of the text. */
  ghost predicate NoNul(p: Text, fold: bool) {
    forall lo: int, n: int {:trigger SetResult(p, lo, n, 0, fold)} ::
      0 < lo <= |p| && p[lo - 1] == LBRACKET ==> SetResult(p, lo, n, 0, fold) <= 0
  }

  /** A text region that lies in the text, while no set can look behind it. */
  ghost predicate Inside(e: Env, so: int, m: int) {
    NoNul(e.p, e.fold) && 0 <= so && so + m <= |e.t|
  }

  /** The outcome of the do-while loop of a quantifier. */
  datatype Repeats = Repeats(nj: int, n1: int, n2: int)

  function Step(e: Env, lo: int, n: int, bi: nat): int {
    if At(e.p, lo) == LPAREN then e.tb.LenAt(bi + 1) + 2 else GetOpLen(e.p, lo, n)
  }

  /** What one round of `bar` does: return, or move on in the pattern, the brackets and the text. */
  datatype Outcome = Return(r: int) | MoveOn(step: int, bi: nat, j: int)

  /** `bar` from a state in which `j` bytes of the text region are consumed and (lo, n) is left of the pattern. */
  function Bar(e: Env, lo: int, n: int, so: int, m: int, bi: nat, j: int): (r: int)
    requires e.tb.WellFormed() && bi < |e.tb.brackets|
    requires 0 <= j <= m + 1
    ensures r <= m + 1
    ensures Inside(e, so, m) && so + j <= |e.t| ==> so + r <= |e.t|
    decreases |e.tb.brackets| - bi, 0, n, 4, 0
  {
    if n <= 0 || j > m then j
    else
      match Round(e, lo, n, so, m, bi, j)
      case Return(r) => r
      case MoveOn(step, bi', j') => Bar(e, lo + step, n - step, so, m, bi', j')
  }

  function Round(e: Env, lo: int, n: int, so: int, m: int, bi: nat, j: int): (o: Outcome)
    requires e.tb.WellFormed() && bi < |e.tb.brackets|
    requires 0 <= j <= m && 0 < n
    ensures o.Return? ==> o.r <= m + 1
    ensures o.MoveOn? ==> 0 < o.step && bi <= o.bi < |e.tb.brackets| && 0 <= o.j <= m + 1
    ensures Inside(e, so, m) ==> so + (if o.Return? then o.r else o.j) <= |e.t|
    decreases |e.tb.brackets| - bi, 0, n, 3, 0
  {
    var c, step := At(e.p, lo), Step(e, lo, n, bi);
    if IsQuantifier(c) then Return(UNEXPECTED_QUANTIFIER)
    else if step <= 0 then Return(INVALID_CHARACTER_SET)
    else if step < n && IsQuantifier(At(e.p, lo + step)) then
      if At(e.p, lo + step) == QUESTION then
        MoveOn(step + 1, bi, j + Max(Bar(e, lo, step, so + j, m - j, bi, 0), 0))
      else Return(Repeat(e, lo, n, so, m, bi, j, step))
    else if c == LBRACKET then
      var r := SetResult(e.p, lo + 1, n - 2, At(e.t, so + j), e.fold);
      if r <= 0 then Return(NO_MATCH) else MoveOn(step, bi, j + r)
    else if c == LPAREN then
      if bi + 1 >= |e.tb.brackets| then Return(INTERNAL_ERROR)
      else
        var r := if n <= step then Doh(e, so + j, m - j, bi + 1)
                 else GroupLoop(e, lo + step, n - step, so, m, bi + 1, j, 0);
        if r < 0 then Return(r) else MoveOn(step, bi + 1, j + r)
    else if c == CARET then
      if j != 0 then Return(NO_MATCH) else MoveOn(step, bi, j)
    else if c == DOLLAR then
      if j != m then Return(NO_MATCH) else MoveOn(step, bi, j)
    else if j >= m then Return(NO_MATCH)
    else
      var r := MatchOp(e.p, lo, At(e.t, so + j), e.fold);
      if r <= 0 then Return(r) else MoveOn(step, bi, j + r)
  }

  lemma {:induction false} BarRound(e: Env, lo: int, n: int, so: int, m: int, bi: nat, j: int)
    requires e.tb.WellFormed() && bi < |e.tb.brackets| && 0 <= j <= m && 0 < n
    ensures Bar(e, lo, n, so, m, bi, j) ==
      match Round(e, lo, n, so, m, bi, j)
      case Return(r) => r
      case MoveOn(step, bi', j') => Bar(e, lo + step, n - step, so, m, bi', j')
  {
  }

  lemma {:induction false} BarOver(e: Env, lo: int, n: int, so: int, m: int, bi: nat, j: int)
    requires e.tb.WellFormed() && bi < |e.tb.brackets| && 0 <= j <= m + 1 && (n <= 0 || j > m)
    ensures Bar(e, lo, n, so, m, bi, j) == j
  {
  }

  /** Offset of the pattern behind a `*` or `+`, a following `?` (non-greedy) included. */
  function AfterQuantifier(e: Env, lo: int, n: int, step: int): (ni: int)
    requires 0 < step < n
    ensures step < ni <= n
  {
    if step + 1 < n && At(e.p, lo + step + 1) == QUESTION then step + 2 else step + 1
  }

  predicate NonGreedy(e: Env, lo: int, n: int, step: int) {
    step + 1 < n && At(e.p, lo + step + 1) == QUESTION
  }

  /** The `*` and `+` branch, which also matches the rest of the region. */
  function Repeat(e: Env, lo: int, n: int, so: int, m: int, bi: nat, j: int, step: int): (r: int)
    requires e.tb.WellFormed() && bi < |e.tb.brackets|
    requires 0 <= j <= m && 0 < step < n
    ensures r <= m + 1
    ensures Inside(e, so, m) ==> so + r <= |e.t|
    decreases |e.tb.brackets| - bi, 0, n, 2, 0
  {
    var ni := AfterQuantifier(e, lo, n, step);
    var plus := At(e.p, lo + step) == PLUS;
    var l := RepeatLoop(e, lo, n, so, m, bi, j, step, j, j, -1);
    var retry := l.n1 < 0 && l.n2 < 0 && At(e.p, lo + step) == STAR;
    var n2 := if retry then Bar(e, lo + ni, n - ni, so + j, m - j, bi, 0) else l.n2;
    var nj := if retry && n2 > 0 then j + n2 else l.nj;
    if plus && nj == j then NO_MATCH
    else if nj == j && ni < n && n2 < 0 then NO_MATCH
    else nj
  }

  /** One pass of the do-while loop: it ends, or it goes on behind one more match of the operand. */
  datatype Lap = Stop(l: Repeats) | Again(j2: int, nj: int, n2: int)

  function RepeatLap(e: Env, lo: int, n: int, so: int, m: int, bi: nat, j: int, step: int,
                     j2: int, nj: int, n2: int): (lap: Lap)
    requires e.tb.WellFormed() && bi < |e.tb.brackets|
    requires 0 <= j <= m && 0 < step < n && j <= j2 <= m + 1 && nj <= m + 1
    ensures lap.Stop? ==> lap.l.nj <= m + 1
    ensures lap.Again? ==> j2 < lap.j2 <= m + 1 && lap.nj <= m + 1
    ensures Inside(e, so, m) && so + j2 <= |e.t| && so + nj <= |e.t| ==>
      if lap.Stop? then so + lap.l.nj <= |e.t| else so + lap.j2 <= |e.t| && so + lap.nj <= |e.t|
    decreases |e.tb.brackets| - bi, 0, n, 0, 0
  {
    var ni := AfterQuantifier(e, lo, n, step);
    var n1 := Bar(e, lo, step, so + j2, m - j2, bi, 0);
    var k := if n1 > 0 then j2 + n1 else j2;
    if At(e.p, lo + step) == PLUS && n1 < 0 then Stop(Repeats(nj, n1, n2))
    else
      var n2' := if ni >= n then n2 else Bar(e, lo + ni, n - ni, so + k, m - k, bi, 0);
      var nj' := if ni >= n then k else if n2' >= 0 then k + n2' else nj;
      if (nj' > j && NonGreedy(e, lo, n, step)) || n1 <= 0 then Stop(Repeats(nj', n1, n2'))
      else Again(k, nj', n2')
  }

  function RepeatLoop(e: Env, lo: int, n: int, so: int, m: int, bi: nat, j: int, step: int,
                      j2: int, nj: int, n2: int): (l: Repeats)
    requires e.tb.WellFormed() && bi < |e.tb.brackets|
    requires 0 <= j <= m && 0 < step < n && j <= j2 <= m + 1 && nj <= m + 1
    ensures l.nj <= m + 1
    ensures Inside(e, so, m) && so + j2 <= |e.t| && so + nj <= |e.t| ==> so + l.nj <= |e.t|
    decreases |e.tb.brackets| - bi, 0, n, 1, m + 1 - j2
  {
    match RepeatLap(e, lo, n, so, m, bi, j, step, j2, nj, n2)
    case Stop(l) => l
    case Again(k, nj', n2') => RepeatLoop(e, lo, n, so, m, bi, j, step, k, nj', n2')
  }

  lemma {:induction false} RepeatLoopLap(e: Env, lo: int, n: int, so: int, m: int, bi: nat, j: int, step: int, j2: int,
                                         nj: int, n2: int)
    requires e.tb.WellFormed() && bi < |e.tb.brackets|
    requires 0 <= j <= m && 0 < step < n && j <= j2 <= m + 1 && nj <= m + 1
    ensures RepeatLoop(e, lo, n, so, m, bi, j, step, j2, nj, n2) ==
      match RepeatLap(e, lo, n, so, m, bi, j, step, j2, nj, n2)
      case Stop(l) => l
      case Again(k, nj', n2') => RepeatLoop(e, lo, n, so, m, bi, j, step, k, nj', n2')
  {
  }

  /** A group with pattern behind it: tried on ever shorter text, until what is behind it matches too. */
  function GroupLoop(e: Env, lo: int, n: int, so: int, m: int, bi: nat, j: int, j2: int): (r: int)
    requires e.tb.WellFormed() && bi < |e.tb.brackets|
    requires 0 <= j <= m && 0 <= j2 <= m - j
    ensures r <= m - j + 1
    ensures Inside(e, so, m) ==> so + j + r <= |e.t|
    decreases |e.tb.brackets| - bi, 2, 0, 0, m - j - j2
  {
    var r := Doh(e, so + j, m - (j + j2), bi);
    if r >= 0 && Bar(e, lo, n, so + j + r, m - (j + r), bi, 0) >= 0 then r
    else if j2 < m - j then GroupLoop(e, lo, n, so, m, bi, j, j2 + 1)
    else r
  }

  /** Where alternative `i` of bracket `b` starts. */
  function PieceStart(tb: Tables, b: Bracket, i: nat): int
    requires tb.WellFormed() && b in tb.brackets && i <= b.numBranches
  {
    if i == 0 then b.ptr else tb.branches[b.branches + i - 1].schlong + 1
  }

  function PieceLen(tb: Tables, b: Bracket, i: nat): int
    requires tb.WellFormed() && b in tb.brackets && i <= b.numBranches
  {
    var p := PieceStart(tb, b, i);
    if b.numBranches == 0 then b.len
    else if i == b.numBranches then b.ptr + b.len - p
    else tb.branches[b.branches + i].schlong - p
  }

  function Doh(e: Env, so: int, m: int, bi: nat): (r: int)
    requires e.tb.WellFormed() && bi < |e.tb.brackets| && 0 <= m
    ensures r <= m + 1
    ensures Inside(e, so, m) ==> so + r <= |e.t|
    decreases |e.tb.brackets| - bi, 1, 1, 0, 0
  {
    DohFrom(e, so, m, bi, 0)
  }

  /** The alternatives of a bracket from the `i`-th on: the first nonempty match, else the last result. */
  function DohFrom(e: Env, so: int, m: int, bi: nat, i: nat): (r: int)
    requires e.tb.WellFormed() && bi < |e.tb.brackets| && 0 <= m && i <= e.tb.brackets[bi].numBranches
    ensures r <= m + 1
    ensures Inside(e, so, m) ==> so + r <= |e.t|
    decreases |e.tb.brackets| - bi, 1, 0, 0, e.tb.brackets[bi].numBranches - i
  {
    var b := e.tb.brackets[bi];
    var r := Bar(e, PieceStart(e.tb, b, i), PieceLen(e.tb, b, i), so, m, bi, 0);
    if r <= 0 && i < b.numBranches then DohFrom(e, so, m, bi, i + 1) else r
  }

  predicate Anchored(e: Env)
    requires 0 < |e.tb.brackets|
  {
    At(e.p, e.tb.brackets[0].ptr) == CARET
  }

  /** The result of `baz` when no match starts before `i`. */
  function BazFrom(e: Env, i: nat): (r: int)
    requires e.tb.WellFormed() && 0 < |e.tb.brackets| && i <= |e.t|
    ensures r <= |e.t| + 1
    ensures NoNul(e.p, e.fold) ==> r <= |e.t|
    decreases |e.t| - i
  {
    var r := Doh(e, i, |e.t| - i, 0);
    if r >= 0 then r + i
    else if Anchored(e) || i == |e.t| then r
    else BazFrom(e, i + 1)
  }
}
