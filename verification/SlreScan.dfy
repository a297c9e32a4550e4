/** The pattern scan (`foo`) and the branch sort (`setup_branch_points`) of sys/slre/slre.c as functions. */
module SlreScan {
  import opened Bytes
  import opened SlreTables

  datatype ScanState = ScanState(brackets: seq<Bracket>, branches: seq<Branch>, depth: int) {

    /** What the scan keeps: the first bracket is always present, and nesting never exceeds the brackets seen. */
    predicate WellFormed() {
      && 0 <= depth < |brackets| <= MAX_BRACKETS
      && |branches| <= MAX_BRANCHES
      && forall k :: 0 <= k < |branches| ==> 0 <= branches[k].bracketIndex < |brackets|
    }

    /** The bracket that a `|` or a `)` belongs to. */
    function Current(): int
      requires WellFormed()
    {
      if brackets[|brackets| - 1].len == -1 then |brackets| - 1 else depth
    }
  }

  datatype ScanResult = Scanned(state: ScanState) | Rejected(code: int) | Diverges

  function InitialScan(p: Text): ScanState {
    ScanState([Bracket(0, |p|, 0, 0)], [], 0)
  }

  /** One operation of the pattern: the state behind it, or the error code. */
  function ScanOp(p: Text, i: nat, st: ScanState, numCaps: int): (r: ScanResult)
    requires st.WellFormed() && i < |p|
    ensures !r.Diverges?
    ensures r.Scanned? ==> r.state.WellFormed()
    ensures r.Rejected? ==> r.code < 0
  {
    var c := p[i];
    if c == PIPE then
      if |st.branches| >= MAX_BRANCHES then Rejected(TOO_MANY_BRANCHES)
      else Scanned(st.(branches := st.branches + [Branch(st.Current(), i)]))
    else if c == BACKSLASH then
      if i >= |p| - 1 then Rejected(INVALID_METACHARACTER)
      else if p[i + 1] == LOWER_X then
        if i >= |p| - 3 || !(IsHexDigit(p[i + 2]) && IsHexDigit(p[i + 3])) then Rejected(INVALID_METACHARACTER)
        else Scanned(st)
      else if !IsMetacharacter(p[i + 1]) then Rejected(INVALID_METACHARACTER)
      else Scanned(st)
    else if c == LPAREN then
      if |st.brackets| >= MAX_BRACKETS then Rejected(TOO_MANY_BRACKETS)
      else if 0 < numCaps < |st.brackets| then Rejected(CAPS_ARRAY_TOO_SMALL)
      else Scanned(st.(brackets := st.brackets + [Bracket(i + 1, -1, 0, 0)], depth := st.depth + 1))
    else if c == RPAREN then
      var ind := st.Current();
      if st.depth == 0 then Rejected(UNBALANCED_BRACKETS)
      else if i > 0 && p[i - 1] == LPAREN then Rejected(NO_MATCH)
      else
        var b := st.brackets[ind].(len := i - st.brackets[ind].ptr);
        Scanned(st.(brackets := st.brackets[ind := b], depth := st.depth - 1))
    else Scanned(st)
  }

  /** The scan from offset `i`. A set that does not close and ends in an escape cut short by the end of the
      pattern has length zero: the scan stands still. */
  function Scan(p: Text, i: nat, st: ScanState, numCaps: int): (r: ScanResult)
    requires st.WellFormed()
    ensures r.Scanned? ==> r.state.WellFormed() && r.state.depth == 0
    ensures r.Rejected? ==> r.code < 0
    decreases |p| - i
  {
    if i >= |p| then if st.depth != 0 then Rejected(UNBALANCED_BRACKETS) else Scanned(st)
    else
      var step := GetOpLen(p, i, |p| - i);
      var r := ScanOp(p, i, st, numCaps);
      if !r.Scanned? then r
      else if step == 0 then Diverges
      else Scan(p, i + step, r.state, numCaps)
  }

  // ---- Sorting the branches -------------------------------------------------------------------

  /** One comparison of the exchange sort. */
  function Exchange(s: seq<Branch>, i: nat, j: nat): (r: seq<Branch>)
    requires i < j < |s|
    ensures |r| == |s|
  {
    if s[i].bracketIndex > s[j].bracketIndex then s[i := s[j]][j := s[i]] else s
  }

  function InnerPass(s: seq<Branch>, i: nat, j: nat): (r: seq<Branch>)
    requires i < j
    ensures |r| == |s|
    decreases |s| - j
  {
    if j >= |s| then s else InnerPass(Exchange(s, i, j), i, j + 1)
  }

  function SortFrom(s: seq<Branch>, i: nat): (r: seq<Branch>)
    ensures |r| == |s|
    decreases |s| - i
  {
    if i >= |s| then s else SortFrom(InnerPass(s, i, i + 1), i + 1)
  }

  /** `setup_branch_points` gives every bracket the run of branches that starts where the last run ended. */
  function RunEnd(s: seq<Branch>, k: int, j: nat): (r: nat)
    requires j <= |s|
    ensures j <= r <= |s|
    decreases |s| - j
  {
    if j < |s| && s[j].bracketIndex == k then RunEnd(s, k, j + 1) else j
  }

  function SliceFrom(bs: seq<Bracket>, s: seq<Branch>, k: nat, j: nat): (r: seq<Bracket>)
    requires j <= |s| && k <= |bs|
    ensures |r| == |bs|
    decreases |bs| - k
  {
    if k == |bs| then bs
    else
      var e := RunEnd(s, k, j);
      SliceFrom(bs[k := bs[k].(branches := j, numBranches := e - j)], s, k + 1, e)
  }

  function Setup(st: ScanState, spare: int): Tables {
    var sorted := SortFrom(st.branches, 0);
    Tables(SliceFrom(st.brackets, sorted, 0, 0), sorted, spare)
  }

  ghost predicate Sorted(s: seq<Branch>) {
    forall a, b :: 0 <= a < b < |s| ==> s[a].bracketIndex <= s[b].bracketIndex
  }

  lemma {:induction false} InnerPassSelects(s: seq<Branch>, i: nat, j: nat)
    requires i < j <= |s|
    requires forall b :: i < b < j ==> s[i].bracketIndex <= s[b].bracketIndex
    ensures var r := InnerPass(s, i, j);
      && multiset(r) == multiset(s)
      && r[..i] == s[..i]
      && (forall b :: i < b < |s| ==> r[i].bracketIndex <= r[b].bracketIndex)
    decreases |s| - j
  {
    hide Exchange;
    if j < |s| {
      var x := Exchange(s, i, j);
      ExchangePermutes(s, i, j);
      InnerPassSelects(x, i, j + 1);
    }
  }

  lemma {:induction false} ExchangePermutes(s: seq<Branch>, i: nat, j: nat)
    requires i < j < |s|
    ensures multiset(Exchange(s, i, j)) == multiset(s)
    ensures Exchange(s, i, j)[..i] == s[..i]
    ensures Exchange(s, i, j)[i].bracketIndex <= s[i].bracketIndex
    ensures Exchange(s, i, j)[i].bracketIndex <= Exchange(s, i, j)[j].bracketIndex
    ensures forall b :: 0 <= b < |s| && b != i && b != j ==> Exchange(s, i, j)[b] == s[b]
  {
  }

  /** Every element of the prefix stays below every later one, whatever the later passes exchange. */
  lemma {:induction false} PermutedSuffix(s: seq<Branch>, r: seq<Branch>, i: nat, v: int)
    requires i <= |s| == |r| && r[..i] == s[..i] && multiset(r) == multiset(s)
    requires forall b :: i <= b < |s| ==> v <= s[b].bracketIndex
    ensures forall b :: i <= b < |r| ==> v <= r[b].bracketIndex
  {
    assert s == s[..i] + s[i..] && r == r[..i] + r[i..];
    assert multiset(s[..i]) + multiset(s[i..]) == multiset(r[..i]) + multiset(r[i..]);
    assert multiset(s[i..]) == multiset(s) - multiset(s[..i]) == multiset(r) - multiset(r[..i]);
    forall b | i <= b < |r| ensures v <= r[b].bracketIndex {
      assert r[b] == r[i..][b - i];
      assert r[b] in multiset(s[i..]);
      var c :| 0 <= c < |s[i..]| && s[i..][c] == r[b];
      assert s[i + c] == r[b];
    }
  }

  ghost predicate SortedBefore(s: seq<Branch>, i: nat) {
    forall a, b :: 0 <= a < i && a < b < |s| ==> s[a].bracketIndex <= s[b].bracketIndex
  }

  lemma {:induction false} SortFromSorts(s: seq<Branch>, i: nat)
    requires i <= |s| && SortedBefore(s, i)
    ensures Sorted(SortFrom(s, i))
    ensures multiset(SortFrom(s, i)) == multiset(s)
    decreases |s| - i
  {
    if i < |s| {
      var x := InnerPass(s, i, i + 1);
      InnerPassSelects(s, i, i + 1);
      forall a, b | 0 <= a < i + 1 && a < b < |x| ensures x[a].bracketIndex <= x[b].bracketIndex {
        if a < i {
          assert x[a] == x[..i][a] == s[a];
          if b < i {
            assert x[b] == x[..i][b] == s[b];
          } else {
            PermutedSuffix(s, x, i, s[a].bracketIndex);
          }
        }
      }
      SortFromSorts(x, i + 1);
    }
  }

  /** The sort leaves a sorted permutation of the branches. */
  lemma {:induction false} BranchesSorted(s: seq<Branch>)
    ensures Sorted(SortFrom(s, 0))
    ensures multiset(SortFrom(s, 0)) == multiset(s)
  {
    SortFromSorts(s, 0);
  }

  /** Branches that are in order already are left alone, ties included. */
  lemma {:induction false} SortedUnchanged(s: seq<Branch>, i: nat)
    requires Sorted(s)
    ensures SortFrom(s, i) == s
    decreases |s| - i
  {
    if i < |s| {
      InnerPassUnchanged(s, i, i + 1);
      SortedUnchanged(s, i + 1);
    }
  }

  lemma {:induction false} InnerPassUnchanged(s: seq<Branch>, i: nat, j: nat)
    requires Sorted(s) && i < j
    ensures InnerPass(s, i, j) == s
    decreases |s| - j
  {
    if j < |s| {
      InnerPassUnchanged(s, i, j + 1);
    }
  }

  // ---- Slicing the branches -------------------------------------------------------------------

  /** The branches of slice `k` are exactly those of bracket `k`. */
  ghost predicate SliceExact(tb: Tables, k: nat)
    requires k < |tb.brackets|
  {
    var b := tb.brackets[k];
    forall j :: 0 <= j < |tb.branches| ==>
      (tb.branches[j].bracketIndex == k <==> b.branches <= j < b.branches + b.numBranches)
  }

  lemma {:induction false} RunEndExact(s: seq<Branch>, k: int, j: nat)
    requires Sorted(s) && j <= |s|
    requires forall a :: 0 <= a < j ==> s[a].bracketIndex <= k
    requires forall a :: j <= a < |s| ==> k <= s[a].bracketIndex
    ensures forall a :: j <= a < RunEnd(s, k, j) ==> s[a].bracketIndex == k
    ensures forall a :: RunEnd(s, k, j) <= a < |s| ==> k < s[a].bracketIndex
    decreases |s| - j
  {
    if j < |s| && s[j].bracketIndex == k {
      RunEndExact(s, k, j + 1);
    }
  }

  lemma {:induction false} SliceFromKeeps(bs: seq<Bracket>, s: seq<Branch>, k: nat, j: nat)
    requires j <= |s| && k <= |bs|
    ensures SliceFrom(bs, s, k, j)[..k] == bs[..k]
    ensures forall a :: 0 <= a < |bs| ==>
      SliceFrom(bs, s, k, j)[a].ptr == bs[a].ptr && SliceFrom(bs, s, k, j)[a].len == bs[a].len
    decreases |bs| - k
  {
    if k < |bs| {
      var e := RunEnd(s, k, j);
      var bs' := bs[k := bs[k].(branches := j, numBranches := e - j)];
      SliceFromKeeps(bs', s, k + 1, e);
      var r := SliceFrom(bs', s, k + 1, e);
      assert r[..k] == r[..k + 1][..k] == bs'[..k + 1][..k] == bs[..k];
    }
  }

  lemma {:induction false} SliceFromExact(bs: seq<Bracket>, s: seq<Branch>, k: nat, j: nat, spare: int)
    requires Sorted(s) && j <= |s| && k <= |bs|
    requires forall a :: 0 <= a < j ==> s[a].bracketIndex < k
    requires forall a :: j <= a < |s| ==> k <= s[a].bracketIndex < |bs|
    ensures var tb := Tables(SliceFrom(bs, s, k, j), s, spare);
      forall b :: k <= b < |bs| ==>
        && SliceExact(tb, b)
        && 0 <= tb.brackets[b].branches && 0 <= tb.brackets[b].numBranches
        && tb.brackets[b].branches + tb.brackets[b].numBranches <= |s|
    decreases |bs| - k
  {
    if k < |bs| {
      var e := RunEnd(s, k, j);
      RunEndExact(s, k, j);
      var bs' := bs[k := bs[k].(branches := j, numBranches := e - j)];
      SliceFromExact(bs', s, k + 1, e, spare);
      SliceFromKeeps(bs', s, k + 1, e);
      var r := SliceFrom(bs', s, k + 1, e);
      assert r[k] == r[..k + 1][k] == bs'[k];
    }
  }

  /** Sorting and slicing partition the branches: slice `k` holds exactly the branches of bracket `k`,
      and neither step touches where a bracket lies. */
  lemma {:induction false} SetupExact(st: ScanState, spare: int)
    requires st.WellFormed()
    ensures var tb := Setup(st, spare);
      && tb.WellFormed()
      && |tb.brackets| == |st.brackets|
      && Sorted(tb.branches)
      && multiset(tb.branches) == multiset(st.branches)
      && (forall k :: 0 <= k < |tb.brackets| ==>
            && SliceExact(tb, k)
            && tb.brackets[k].ptr == st.brackets[k].ptr
            && tb.brackets[k].len == st.brackets[k].len)
  {
    var s := SortFrom(st.branches, 0);
    BranchesSorted(st.branches);
    forall a | 0 <= a < |s| ensures 0 <= s[a].bracketIndex < |st.brackets| {
      assert s[a] in multiset(st.branches);
      var c :| 0 <= c < |st.branches| && st.branches[c] == s[a];
    }
    SliceFromExact(st.brackets, s, 0, 0, spare);
    SliceFromKeeps(st.brackets, s, 0, 0);
  }

  /** What the scan of a whole pattern leaves. */
  function Compile(p: Text, numCaps: int): ScanResult {
    Scan(p, 0, InitialScan(p), numCaps)
  }
}
