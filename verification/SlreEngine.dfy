/** The engine of sys/slre/slre.c as it runs: one `regex_info` filled by the pattern scan, sorted in
    place, and read by the backtracking matcher. Every method is tied to its function. */
module SlreEngine {
  import opened Bytes
  import opened SlreTables
  import opened SlreScan
  import M = SlreMatcher

  /** What `slre_match` returns, or nothing when its scan never ends; `spare` is whatever memory holds behind
      the tables' last bracket. A set may accept the byte behind the end of the text, so that a match can end one
      byte late; not so if no `[` byte would in any region. */
  function MatchResult(p: Text, t: Text, numCaps: int, fold: bool, spare: int): (r: Option<int>)
    ensures r.None? <==> Compile(p, numCaps).Diverges?
    ensures r.Some? ==> r.value <= |t| + 1
    ensures r.Some? && M.NoNul(p, fold) ==> r.value <= |t|
  {
    match Compile(p, numCaps)
    case Diverges => None
    case Rejected(code) => Some(code)
    case Scanned(st) =>
      SetupExact(st, spare);
      Some(M.BazFrom(M.Env(p, t, fold, Setup(st, spare)), 0))
  }

  class RegexInfo {
    const brackets: array<Bracket>
    const branches: array<Branch>
    var numBrackets: nat
    var numBranches: nat
    const numCaps: int
    const fold: bool

    /** The bracket array has one slot behind its last entry: the matcher may load a length from there, and
        then decides by it. */
    ghost predicate Valid()
      reads this
    {
      && brackets.Length == MAX_BRACKETS + 1 && branches.Length == MAX_BRANCHES
      && numBrackets <= MAX_BRACKETS && numBranches <= MAX_BRANCHES
    }

    function TablesNow(): Tables
      requires Valid()
      reads this, brackets, branches
    {
      Tables(brackets[..numBrackets], branches[..numBranches], brackets[numBrackets].len)
    }

    function StateNow(depth: int): ScanState
      requires Valid()
      reads this, brackets, branches
    {
      ScanState(brackets[..numBrackets], branches[..numBranches], depth)
    }

    /** The struct lives on the stack: `junk` is what its entries hold before they are set. */
    constructor (numCaps: int, fold: bool, junk: int)
      ensures Valid() && fresh(brackets) && fresh(branches)
      ensures this.numCaps == numCaps && this.fold == fold && numBrackets == 0 && numBranches == 0
      ensures forall k :: 0 <= k <= MAX_BRACKETS ==> brackets[k].len == junk
    {
      brackets := new Bracket[MAX_BRACKETS + 1](_ => Bracket(0, junk, 0, 0));
      branches := new Branch[MAX_BRANCHES](_ => Branch(0, 0));
      numBrackets, numBranches := 0, 0;
      this.numCaps, this.fold := numCaps, fold;
    }

    // ---- The pattern scan -----------------------------------------------------------------------

    /** `foo` up to the branch sort: the code of a rejection, or zero with the tables filled. On an operation
        of length zero the original would stay for ever. */
    method ScanPattern(p: Text) returns (ends: bool, code: int)
      requires Valid() && numBrackets == 0 && numBranches == 0
      modifies this, brackets, branches
      ensures Valid()
      ensures ends <==> !Compile(p, numCaps).Diverges?
      ensures forall k :: numBrackets <= k <= MAX_BRACKETS ==> brackets[k] == old(brackets[k])
      ensures ends && code != 0 ==> Compile(p, numCaps) == Rejected(code)
      ensures ends && code == 0 ==> Compile(p, numCaps) == Scanned(StateNow(0))
    {
      brackets[0] := Bracket(0, |p|, 0, 0);
      numBrackets := 1;
      ends, code := true, 0;
      var i, depth := 0, 0;
      assert StateNow(0) == InitialScan(p);
      while i < |p|
        invariant 0 <= i && Valid()
        invariant StateNow(depth).WellFormed()
        invariant forall k :: numBrackets <= k <= MAX_BRACKETS ==> brackets[k] == old(brackets[k])
        invariant Compile(p, numCaps) == Scan(p, i, StateNow(depth), numCaps)
        decreases |p| - i
      {
        var step := GetOpLen(p, i, |p| - i);
        code, depth := ScanOperation(p, i, depth);
        if code != 0 { return; }
        if step == 0 { return false, 0; }
        i := i + step;
      }
      code := if depth != 0 then UNBALANCED_BRACKETS else 0;
    }

    /** The body of the scan: what one operation of the pattern leaves in the tables. */
    method ScanOperation(p: Text, i: nat, depth0: int) returns (code: int, depth: int)
      requires Valid() && i < |p| && StateNow(depth0).WellFormed()
      modifies this, brackets, branches
      ensures Valid() && old(numBrackets) <= numBrackets
      ensures forall k :: numBrackets <= k <= MAX_BRACKETS ==> brackets[k] == old(brackets[k])
      ensures ScanOp(p, i, old(StateNow(depth0)), numCaps) ==
        if code == 0 then Scanned(StateNow(depth)) else Rejected(code)
    {
      code, depth := 0, depth0;
      var c := p[i];
      if c == PIPE {
        if numBranches >= MAX_BRANCHES { return TOO_MANY_BRANCHES, depth; }
        branches[numBranches] :=
          Branch(if brackets[numBrackets - 1].len == -1 then numBrackets - 1 else depth, i);
        numBranches := numBranches + 1;
      } else if c == BACKSLASH {
        if i >= |p| - 1 { return INVALID_METACHARACTER, depth; }
        if p[i + 1] == LOWER_X {
          if i >= |p| - 3 { return INVALID_METACHARACTER, depth; }
          if !(IsHexDigit(p[i + 2]) && IsHexDigit(p[i + 3])) { return INVALID_METACHARACTER, depth; }
        } else if !IsMetacharacter(p[i + 1]) {
          return INVALID_METACHARACTER, depth;
        }
      } else if c == LPAREN {
        if numBrackets >= MAX_BRACKETS { return TOO_MANY_BRACKETS, depth; }
        depth := depth + 1;
        brackets[numBrackets] := Bracket(i + 1, -1, 0, 0);
        numBrackets := numBrackets + 1;
        if numCaps > 0 && numBrackets - 1 > numCaps { return CAPS_ARRAY_TOO_SMALL, depth; }
      } else if c == RPAREN {
        var ind := if brackets[numBrackets - 1].len == -1 then numBrackets - 1 else depth;
        brackets[ind] := brackets[ind].(len := i - brackets[ind].ptr);
        depth := depth - 1;
        if depth < 0 { return UNBALANCED_BRACKETS, depth; }
        if i > 0 && p[i - 1] == LPAREN { return NO_MATCH, depth; }
        assert brackets[..numBrackets] == old(brackets[..numBrackets])[ind := brackets[ind]];
      }
    }

    /** `setup_branch_points`: the exchange sort in place, then the slices. */
    method SetupBranchPoints()
      requires Valid()
      modifies brackets, branches
      ensures TablesNow() == Setup(old(StateNow(0)), old(brackets[numBrackets].len))
    {
      SortBranches();
      var i: nat, j: nat := 0, 0;
      ghost var bs, s := brackets[..numBrackets], branches[..numBranches];
      while i < numBrackets
        invariant i <= numBrackets && j <= numBranches
        invariant brackets[numBrackets] == old(brackets[numBrackets]) && branches[..numBranches] == s
        invariant SliceFrom(bs, s, 0, 0) == SliceFrom(brackets[..numBrackets], s, i, j)
      {
        j := FillSlice(i, j);
        i := i + 1;
      }
    }

    /** Bracket `i` gets the run of its branches from `j0` on. */
    method FillSlice(i: nat, j0: nat) returns (j: nat)
      requires Valid() && i < numBrackets && j0 <= numBranches
      modifies brackets
      ensures j == RunEnd(branches[..numBranches], i, j0)
      ensures brackets[..numBrackets] ==
        old(brackets[..numBrackets])[i := old(brackets[i]).(branches := j0, numBranches := j - j0)]
      ensures brackets[numBrackets] == old(brackets[numBrackets])
    {
      ghost var now, s := brackets[..numBrackets], branches[..numBranches];
      brackets[i] := brackets[i].(numBranches := 0, branches := j0);
      j := j0;
      while j < numBranches && branches[j].bracketIndex == i
        invariant j0 <= j <= numBranches && brackets[i] == now[i].(branches := j0, numBranches := j - j0)
        invariant RunEnd(s, i, j0) == RunEnd(s, i, j)
        invariant brackets[numBrackets] == old(brackets[numBrackets])
        invariant brackets[..numBrackets] == now[i := brackets[i]]
      {
        assert s[j] == branches[j];
        brackets[i] := brackets[i].(numBranches := brackets[i].numBranches + 1);
        j := j + 1;
      }
      assert j < numBranches ==> s[j] == branches[j];
    }

    method SortBranches()
      requires Valid()
      modifies branches
      ensures branches[..numBranches] == SortFrom(old(branches[..numBranches]), 0)
    {
      var i := 0;
      while i < numBranches
        invariant i <= numBranches
        invariant SortFrom(old(branches[..numBranches]), 0) == SortFrom(branches[..numBranches], i)
      {
        var j := i + 1;
        ghost var s := branches[..numBranches];
        while j < numBranches
          invariant i < j <= numBranches
          invariant InnerPass(s, i, i + 1) == InnerPass(branches[..numBranches], i, j)
        {
          ghost var now := branches[..numBranches];
          if branches[i].bracketIndex > branches[j].bracketIndex {
            var tmp := branches[i];
            branches[i] := branches[j];
            branches[j] := tmp;
          }
          assert branches[..numBranches] == Exchange(now, i, j);
          j := j + 1;
        }
        i := i + 1;
      }
    }
  }

  // ---- The matcher: it reads the pattern, the text and the tables ------------------------------

  method Bar(e: M.Env, lo: int, n: int, so: int, m: int, bi0: nat) returns (r: int)
    requires e.tb.WellFormed() && bi0 < |e.tb.brackets| && -1 <= m
    ensures r == M.Bar(e, lo, n, so, m, bi0, 0)
    decreases |e.tb.brackets| - bi0, 0, n, 2
  {
    hide M.Bar, M.Repeat, M.Doh, M.GroupLoop, MatchOp, SetResult;
    var i, j, bi := 0, 0, bi0;
    while i < n && j <= m
      invariant 0 <= i && 0 <= j <= m + 1 && bi0 <= bi < |e.tb.brackets|
      invariant M.Bar(e, lo, n, so, m, bi0, 0) == M.Bar(e, lo + i, n - i, so, m, bi, j)
      decreases n - i
    {
      M.BarRound(e, lo + i, n - i, so, m, bi, j);
      ghost var i0, round := i, M.Round(e, lo + i, n - i, so, m, bi, j);
      var step := if At(e.p, lo + i) == LPAREN then e.tb.LenAt(bi + 1) + 2 else GetOpLen(e.p, lo + i, n - i);
      if IsQuantifier(At(e.p, lo + i)) { return UNEXPECTED_QUANTIFIER; }
      if step <= 0 { return INVALID_CHARACTER_SET; }
      var c := At(e.p, lo + i);
      if i + step < n && IsQuantifier(At(e.p, lo + i + step)) {
        if At(e.p, lo + i + step) == QUESTION {
          var result := Bar(e, lo + i, step, so + j, m - j, bi);
          j := j + (if result > 0 then result else 0);
          i := i + 1;
        } else {
          r := Repeat(e, lo + i, n - i, so, m, bi, j, step);
          return;
        }
      } else if c == LBRACKET {
        var k := MatchSet(e.p, lo + i + 1, n - (i + 2), At(e.t, so + j), e.fold);
        if k <= 0 { return NO_MATCH; }
        j := j + k;
      } else if c == LPAREN {
        bi := bi + 1;
        if bi >= |e.tb.brackets| { return INTERNAL_ERROR; }
        var k;
        if n - (i + step) <= 0 {
          k := Doh(e, so + j, m - j, bi);
        } else {
          k := RetryGroup(e, lo + i + step, n - (i + step), so, m, bi, j);
        }
        if k < 0 { return k; }
        j := j + k;
      } else if c == CARET {
        if j != 0 { return NO_MATCH; }
      } else if c == DOLLAR {
        if j != m { return NO_MATCH; }
      } else {
        if j >= m { return NO_MATCH; }
        var k := MatchOp(e.p, lo + i, At(e.t, so + j), e.fold);
        if k <= 0 { return k; }
        j := j + k;
      }
      assert round == M.MoveOn(if i == i0 then step else step + 1, bi, j);
      i := i + step;
    }
    M.BarOver(e, lo + i, n - i, so, m, bi, j);
    r := j;
  }

  /** The `*` and `+` branch of `bar`. */
  method Repeat(e: M.Env, lo: int, n: int, so: int, m: int, bi: nat, j: int, step: int) returns (r: int)
    requires e.tb.WellFormed() && bi < |e.tb.brackets| && 0 <= j <= m && 0 < step < n
    ensures r == M.Repeat(e, lo, n, so, m, bi, j, step)
    decreases |e.tb.brackets| - bi, 0, n, 1
  {
    hide M.Bar, M.RepeatLoop;
    var ni, nonGreedy := step + 1, false;
    if ni < n && At(e.p, lo + ni) == QUESTION {
      nonGreedy := true;
      ni := ni + 1;
    }
    var nj, n1, n2 := Laps(e, lo, n, so, m, bi, j, step, ni, nonGreedy);
    if n1 < 0 && n2 < 0 && At(e.p, lo + step) == STAR {
      n2 := Bar(e, lo + ni, n - ni, so + j, m - j, bi);
      if n2 > 0 { nj := j + n2; }
    }
    if At(e.p, lo + step) == PLUS && nj == j { return NO_MATCH; }
    if nj == j && ni < n && n2 < 0 { return NO_MATCH; }
    r := nj;
  }

  /** Its do-while loop: one more match of the operand each time, and the rest of the pattern behind it. */
  method Laps(e: M.Env, lo: int, n: int, so: int, m: int, bi: nat, j: int, step: int, ni: int, nonGreedy: bool)
    returns (nj: int, n1: int, n2: int)
    requires e.tb.WellFormed() && bi < |e.tb.brackets| && 0 <= j <= m && 0 < step < n
    requires ni == M.AfterQuantifier(e, lo, n, step) && nonGreedy == M.NonGreedy(e, lo, n, step)
    ensures M.Repeats(nj, n1, n2) == M.RepeatLoop(e, lo, n, so, m, bi, j, step, j, j, -1)
    decreases |e.tb.brackets| - bi, 0, n, 0
  {
    hide M.Bar, M.RepeatLoop;
    var j2 := j;
    nj, n1, n2 := j, 1, -1;
    var more := true;
    while more
      invariant j <= j2 <= m + 1 && nj <= m + 1
      invariant M.RepeatLoop(e, lo, n, so, m, bi, j, step, j, j, -1) ==
                if more then M.RepeatLoop(e, lo, n, so, m, bi, j, step, j2, nj, n2) else M.Repeats(nj, n1, n2)
      decreases more, m + 1 - j2
    {
      M.RepeatLoopLap(e, lo, n, so, m, bi, j, step, j2, nj, n2);
      n1 := Bar(e, lo, step, so + j2, m - j2, bi);
      if n1 > 0 { j2 := j2 + n1; }
      if At(e.p, lo + step) == PLUS && n1 < 0 { more := false; break; }
      if ni >= n {
        nj := j2;
      } else {
        n2 := Bar(e, lo + ni, n - ni, so + j2, m - j2, bi);
        if n2 >= 0 { nj := j2 + n2; }
      }
      if nj > j && nonGreedy { more := false; break; }
      more := n1 > 0;
    }
  }

  /** The retry loop of `bar` for a group with pattern behind it. */
  method RetryGroup(e: M.Env, lo: int, n: int, so: int, m: int, bi: nat, j: int) returns (r: int)
    requires e.tb.WellFormed() && bi < |e.tb.brackets| && 0 <= j <= m
    ensures r == M.GroupLoop(e, lo, n, so, m, bi, j, 0)
    decreases |e.tb.brackets| - bi, 2, 0, 0
  {
    r := NO_MATCH;
    var j2 := 0;
    while j2 <= m - j
      invariant 0 <= j2 <= m - j + 1
      invariant M.GroupLoop(e, lo, n, so, m, bi, j, 0) == if j2 <= m - j then M.GroupLoop(e, lo, n, so, m, bi, j, j2)
        else r
    {
      r := Doh(e, so + j, m - (j + j2), bi);
      if r >= 0 {
        var rest := Bar(e, lo, n, so + j + r, m - (j + r), bi);
        if rest >= 0 { break; }
      }
      j2 := j2 + 1;
    }
  }

  method Doh(e: M.Env, so: int, m: int, bi: nat) returns (r: int)
    requires e.tb.WellFormed() && bi < |e.tb.brackets| && 0 <= m
    ensures r == M.Doh(e, so, m, bi)
    decreases |e.tb.brackets| - bi, 1, 0, 0
  {
    var b := e.tb.brackets[bi];
    var i := 0;
    while true
      invariant 0 <= i <= b.numBranches
      invariant M.Doh(e, so, m, bi) == M.DohFrom(e, so, m, bi, i)
      decreases b.numBranches - i
    {
      var q := if i == 0 then b.ptr else e.tb.branches[b.branches + i - 1].schlong + 1;
      var len := if b.numBranches == 0 then b.len
                 else if i == b.numBranches then b.ptr + b.len - q
                 else e.tb.branches[b.branches + i].schlong - q;
      r := Bar(e, q, len, so, m, bi);
      if r > 0 || i >= b.numBranches { return; }
      i := i + 1;
    }
  }

  method Baz(e: M.Env) returns (r: int)
    requires e.tb.WellFormed() && 0 < |e.tb.brackets|
    ensures r == M.BazFrom(e, 0)
  {
    var anchored := At(e.p, e.tb.brackets[0].ptr) == CARET;
    var i := 0;
    r := -1;
    while i <= |e.t|
      invariant 0 <= i <= |e.t| + 1
      invariant M.BazFrom(e, 0) == if i <= |e.t| then M.BazFrom(e, i) else r
    {
      r := Doh(e, i, |e.t| - i, 0);
      if r >= 0 {
        r := r + i;
        break;
      }
      if anchored { break; }
      i := i + 1;
    }
  }

  /** `slre_match`: `ends` tells whether the original comes back at all. */
  method SlreMatch(p: Text, t: Text, numCaps: int, fold: bool, junk: int) returns (ends: bool, r: int)
    ensures MatchResult(p, t, numCaps, fold, junk) == if ends then Some(r) else None
  {
    var info := new RegexInfo(numCaps, fold, junk);
    var code;
    ends, code := info.ScanPattern(p);
    if !ends || code != 0 {
      return ends, code;
    }
    SetupExact(info.StateNow(0), junk);
    info.SetupBranchPoints();
    r := Baz(M.Env(p, t, fold, info.TablesNow()));
  }
}
