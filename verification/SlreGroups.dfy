/** The tables of any pattern that nests its groups one deep: stated on the bytes of the pattern, sets,
    escapes, anchors and quantifiers included. */
module SlreGroups {
  import opened Bytes
  import opened SlreTables
  import opened SlreScan
  import opened SlreMatcher
  import opened SlreParsing
  import opened SlreWalk
  import opened SlreRotation

  /** The bytes between a `(` and its `)`. */
  datatype Span = Span(lo: nat, hi: nat)

  /** The next operation that opens or closes a group; an operation's own bytes are not looked into. */
  function NextParen(p: Text, i: nat): (r: nat)
    ensures i <= r
    ensures r < |p| ==> p[r] == LPAREN || p[r] == RPAREN
    decreases |p| - i
  {
    if i >= |p| || p[i] == LPAREN || p[i] == RPAREN then i
    else if Ahead(p, i) == 0 then |p|
    else NextParen(p, i + Ahead(p, i))
  }

  /** The `|` operations from `i` up to `stop`. */
  function BarsIn(p: Text, i: nat, stop: nat): (r: seq<nat>)
    decreases |p| - i
  {
    if i >= |p| || i >= stop || Ahead(p, i) == 0 then []
    else (if p[i] == PIPE then [i] else []) + BarsIn(p, i + Ahead(p, i), stop)
  }

  /** The groups, in order: each runs from a `(` to the next parenthesis. */
  function Groups(p: Text, i: nat): seq<Span>
    decreases |p| - i
  {
    var o := NextParen(p, i);
    if o >= |p| then []
    else var c := NextParen(p, o + 1); [Span(o + 1, c)] + Groups(p, c + 1)
  }

  /** Every `(` is closed before the next one opens. */
  predicate OneDeep(p: Text, i: nat)
    decreases |p| - i
  {
    var o := NextParen(p, i);
    o >= |p| || (p[o] == LPAREN && var c := NextParen(p, o + 1); c < |p| && p[c] == RPAREN && OneDeep(p, c + 1))
  }

  /** The `|` operations outside the groups. */
  function TopBars(p: Text, i: nat): seq<nat>
    decreases |p| - i
  {
    var o := NextParen(p, i);
    BarsIn(p, i, o) + if o >= |p| then [] else TopBars(p, NextParen(p, o + 1) + 1)
  }

  /** How many `|` outside the groups stand behind the `n`-th group from here. */
  function BarsBehind(p: Text, i: nat, n: nat): nat
    decreases |p| - i
  {
    var o := NextParen(p, i);
    if o >= |p| then 0
    else var c := NextParen(p, o + 1); if n == 0 then |TopBars(p, c + 1)| else BarsBehind(p, c + 1, n - 1)
  }

  /** The bars of every group divide the outer ones behind it. */
  ghost predicate BarsDivide(p: Text) {
    forall n :: 0 <= n < |Groups(p, 0)| ==>
      var own := BarsIn(p, Groups(p, 0)[n].lo, Groups(p, 0)[n].hi);
      own == [] || BarsBehind(p, 0, n) % |own| == 0
  }

  function Marks(bars: seq<nat>, k: int): (r: seq<Branch>)
    ensures |r| == |bars| && forall j :: 0 <= j < |r| ==> r[j] == Branch(k, bars[j])
  {
    seq(|bars|, j requires 0 <= j < |bars| => Branch(k, bars[j]))
  }

  /** What the scan appends from `i` on, the next group being bracket `k`. */
  function AllMarks(p: Text, i: nat, k: nat): seq<Branch>
    decreases |p| - i
  {
    var o := NextParen(p, i);
    Marks(BarsIn(p, i, o), 0) + if o >= |p| then []
    else var c := NextParen(p, o + 1); Marks(BarsIn(p, o + 1, c), k) + AllMarks(p, c + 1, k + 1)
  }

  function Spans(gs: seq<Span>): (r: seq<Bracket>)
    ensures |r| == |gs| && forall k :: 0 <= k < |r| ==> r[k] == Bracket(gs[k].lo, gs[k].hi - gs[k].lo, 0, 0)
  {
    seq(|gs|, k requires 0 <= k < |gs| => Bracket(gs[k].lo, gs[k].hi - gs[k].lo, 0, 0))
  }

  // ---- The scan -----------------------------------------------------------------------------------

  /** Up to the next parenthesis the scan only collects bars. */
  lemma {:induction false} ScanStretch(p: Text, i: nat, st: ScanState, numCaps: int)
    requires st.WellFormed() && Scan(p, i, st, numCaps).Scanned?
    ensures var o := NextParen(p, i);
      var st' := st.(branches := st.branches + Marks(BarsIn(p, i, o), st.Current()));
      st'.WellFormed() && Scan(p, i, st, numCaps) == Scan(p, o, st', numCaps)
    decreases |p| - i
  {
    hide Scan, NextParen, BarsIn, Marks, GetOpLen;
    var o, k := NextParen(p, i), st.Current();
    if i >= |p| || p[i] == LPAREN || p[i] == RPAREN {
      NoStretch(p, i, k);
      assert st.branches + [] == st.branches;
    } else {
      var here: seq<nat> := if p[i] == PIPE then [i] else [];
      var st1 := st.(branches := st.branches + Marks(here, k));
      ScanOne(p, i, st, numCaps);
      ScanStretch(p, i + Ahead(p, i), st1, numCaps);
      StretchStep(p, i, k);
      var rest := Marks(BarsIn(p, i + Ahead(p, i), o), k);
      assert st.branches + Marks(here, k) + rest == st.branches + (Marks(here, k) + rest);
    }
  }

  lemma {:induction false} NoStretch(p: Text, i: nat, k: int)
    requires i >= |p| || p[i] == LPAREN || p[i] == RPAREN
    ensures NextParen(p, i) == i && Marks(BarsIn(p, i, i), k) == []
  {
  }

  lemma {:induction false} StretchStep(p: Text, i: nat, k: int)
    requires i < |p| && p[i] != LPAREN && p[i] != RPAREN && Ahead(p, i) > 0
    ensures var o := NextParen(p, i);
      && o == NextParen(p, i + Ahead(p, i))
      && Marks(BarsIn(p, i, o), k) ==
        Marks(if p[i] == PIPE then [i] else [], k) + Marks(BarsIn(p, i + Ahead(p, i), o), k)
  {
  }

  lemma {:induction false} ScanOne(p: Text, i: nat, st: ScanState, numCaps: int)
    requires st.WellFormed() && Scan(p, i, st, numCaps).Scanned? && i < |p| && p[i] != LPAREN && p[i] != RPAREN
    ensures Ahead(p, i) > 0
    ensures var st' := st.(branches := st.branches + Marks(if p[i] == PIPE then [i] else [], st.Current()));
      && st'.WellFormed() && st'.Current() == st.Current()
      && Scan(p, i, st, numCaps) == Scan(p, i + Ahead(p, i), st', numCaps)
  {
    assert Marks([], st.Current()) == [] && Marks([i], st.Current()) == [Branch(st.Current(), i)];
    assert st.branches + [] == st.branches;
  }

  /** One group: a bracket that spans it, and its bars. */
  lemma {:induction false} ScanSpan(p: Text, o: nat, st: ScanState, numCaps: int)
    requires st.WellFormed() && Scan(p, o, st, numCaps).Scanned? && o < |p| && p[o] == LPAREN
    requires NextParen(p, o + 1) < |p| && p[NextParen(p, o + 1)] == RPAREN
    ensures var c, k := NextParen(p, o + 1), |st.brackets|;
      var st' := st.(brackets := st.brackets + [Bracket(o + 1, c - (o + 1), 0, 0)],
                     branches := st.branches + Marks(BarsIn(p, o + 1, c), k));
      st'.WellFormed() && Scan(p, o, st, numCaps) == Scan(p, c + 1, st', numCaps)
  {
    hide Scan, BarsIn, NextParen;
    var c, k := NextParen(p, o + 1), |st.brackets|;
    ScanOpen(p, o, st, numCaps);
    var st1 := st.(brackets := st.brackets + [Bracket(o + 1, -1, 0, 0)], depth := st.depth + 1);
    ScanStretch(p, o + 1, st1, numCaps);
    var st2 := st1.(branches := st.branches + Marks(BarsIn(p, o + 1, c), k));
    ScanClose(p, c, st2, numCaps);
    var b := Bracket(o + 1, c - (o + 1), 0, 0);
    assert st2.brackets[k := b] == st.brackets + [b];
  }

  lemma {:induction false} ScanGroups(p: Text, i: nat, st: ScanState, numCaps: int)
    requires st.WellFormed() && Scan(p, i, st, numCaps).Scanned? && OneDeep(p, i)
    requires st.depth == 0 && st.brackets[|st.brackets| - 1].len != -1
    ensures Scan(p, i, st, numCaps).state ==
      st.(brackets := st.brackets + Spans(Groups(p, i)), branches := st.branches + AllMarks(p, i, |st.brackets|))
    decreases |p| - i
  {
    hide BarsIn, NextParen, Groups, AllMarks, OneDeep, Marks, Spans, Scan;
    var o, k := NextParen(p, i), |st.brackets|;
    ScanStretch(p, i, st, numCaps);
    GroupsStep(p, i, k);
    var bars := Marks(BarsIn(p, i, o), 0);
    var st1 := st.(branches := st.branches + bars);
    if o >= |p| {
      ScanOver(p, o, st1, numCaps);
      assert st.brackets + [] == st.brackets && bars + [] == bars;
    } else {
      var c := NextParen(p, o + 1);
      ScanSpan(p, o, st1, numCaps);
      var b, inner := Bracket(o + 1, c - (o + 1), 0, 0), Marks(BarsIn(p, o + 1, c), k);
      var st2 := st1.(brackets := st.brackets + [b], branches := st1.branches + inner);
      ScanGroups(p, c + 1, st2, numCaps);
      var rest, marks := Spans(Groups(p, c + 1)), AllMarks(p, c + 1, k + 1);
      assert st.brackets + [b] + rest == st.brackets + ([b] + rest);
      assert st.branches + bars + inner + marks == st.branches + (bars + (inner + marks));
    }
  }

  lemma {:induction false} ScanOver(p: Text, i: nat, st: ScanState, numCaps: int)
    requires st.WellFormed() && i >= |p| && st.depth == 0
    ensures Scan(p, i, st, numCaps) == Scanned(st)
  {
  }

  lemma {:induction false} GroupsStep(p: Text, i: nat, k: nat)
    requires OneDeep(p, i)
    ensures var o := NextParen(p, i);
      if o >= |p| then Spans(Groups(p, i)) == [] && AllMarks(p, i, k) == Marks(BarsIn(p, i, o), 0) + []
      else
        var c := NextParen(p, o + 1);
        && p[o] == LPAREN && c < |p| && p[c] == RPAREN && OneDeep(p, c + 1)
        && Spans(Groups(p, i)) == [Bracket(o + 1, c - (o + 1), 0, 0)] + Spans(Groups(p, c + 1))
        && AllMarks(p, i, k) == Marks(BarsIn(p, i, o), 0) + (Marks(BarsIn(p, o + 1, c), k) + AllMarks(p, c + 1, k + 1))
  {
    hide NextParen, BarsIn, Marks, AllMarks, Spans, Groups, OneDeep;
    MarksStep(p, i, k);
    GroupsUnfold(p, i);
    DeepUnfold(p, i);
    var o := NextParen(p, i);
    if o >= |p| {
      SpansExact([]);
    } else {
      var c := NextParen(p, o + 1);
      SpansFront(Span(o + 1, c), Groups(p, c + 1));
    }
  }

  lemma {:induction false} GroupsUnfold(p: Text, i: nat)
    ensures var o := NextParen(p, i);
      Groups(p, i) == if o >= |p| then [] else var c := NextParen(p, o + 1); [Span(o + 1, c)] + Groups(p, c + 1)
  {
  }

  lemma {:induction false} DeepUnfold(p: Text, i: nat)
    requires OneDeep(p, i)
    ensures var o := NextParen(p, i);
      o >= |p| || (p[o] == LPAREN && var c := NextParen(p, o + 1); c < |p| && p[c] == RPAREN && OneDeep(p, c + 1))
  {
  }

  lemma {:induction false} SpansFront(g: Span, gs: seq<Span>)
    ensures Spans([g] + gs) == [Bracket(g.lo, g.hi - g.lo, 0, 0)] + Spans(gs)
  {
  }

  lemma {:induction false} MarksStep(p: Text, i: nat, k: nat)
    ensures var o := NextParen(p, i);
      AllMarks(p, i, k) == if o >= |p| then Marks(BarsIn(p, i, o), 0) + []
        else var c :=
          NextParen(p, o + 1); Marks(BarsIn(p, i, o), 0) + (Marks(BarsIn(p, o + 1, c), k) + AllMarks(p, c + 1, k + 1))
  {
  }

  // ---- The slices ---------------------------------------------------------------------------------

  /** The bars that belong to bracket `k`: those outside all groups for bracket 0, those of group `k` otherwise. */
  function OwnBars(p: Text, k: nat): seq<nat>
    requires k <= |Groups(p, 0)|
  {
    if k == 0 then TopBars(p, 0) else BarsIn(p, Groups(p, 0)[k - 1].lo, Groups(p, 0)[k - 1].hi)
  }

  /** The alternatives of bracket `k`, as `doh` visits them, are its text split at its own bars. */
  ghost predicate SplitAt(tb: Tables, k: nat, bars: seq<nat>)
    requires tb.WellFormed() && k < |tb.brackets|
  {
    var b := tb.brackets[k];
    && b.numBranches == |bars|
    && forall i :: 0 <= i <= |bars| ==>
      && PieceStart(tb, b, i) == (if i == 0 then b.ptr else bars[i - 1] + 1)
      && PieceStart(tb, b, i) + PieceLen(tb, b, i) == if i == |bars| then b.ptr + b.len else bars[i]
  }

  /** They are if and only if the branches hold these bars of the bracket, in order. */
  lemma {:induction false} SplitIsOf(tb: Tables, k: nat, bars: seq<nat>)
    requires tb.WellFormed() && k < |tb.brackets| && SliceExact(tb, k)
    ensures SplitAt(tb, k, bars) <==> Of(tb.branches, k) == Marks(bars, k)
  {
    hide Of;
    var b, own := tb.brackets[k], Of(tb.branches, k);
    OfSlice(tb.branches, k, b.branches, b.numBranches);
    assert forall i :: 0 <= i < |own| ==> own[i] == tb.branches[b.branches + i];
    if SplitAt(tb, k, bars) {
      forall i | 0 <= i < |bars| ensures own[i] == Marks(bars, k)[i] {
        assert PieceStart(tb, b, i + 1) == bars[i] + 1;
        assert own[i].bracketIndex == k;
      }
    }
    if own == Marks(bars, k) {
      forall i | 0 <= i <= |bars|
        ensures PieceStart(tb, b, i) == (if i == 0 then b.ptr else bars[i - 1] + 1)
        ensures PieceStart(tb, b, i) + PieceLen(tb, b, i) == if i == |bars| then b.ptr + b.len else bars[i]
      {
        assert i > 0 ==> own[i - 1] == Branch(k, bars[i - 1]);
        assert i < |bars| ==> own[i] == Branch(k, bars[i]);
      }
    }
  }

  lemma {:induction false} OfSlice(s: seq<Branch>, k: int, from: nat, n: nat)
    requires from + n <= |s|
    requires forall j :: 0 <= j < |s| ==> (s[j].bracketIndex == k <==> from <= j < from + n)
    ensures Of(s, k) == s[from..from + n]
  {
    hide Of;
    var a, b, c := s[..from], s[from..from + n], s[from + n..];
    assert s == a + (b + c);
    OfJoined(a, b + c, k);
    OfJoined(b, c, k);
    OfNone(a, k);
    OfNone(c, k);
    OfAll(b, k, k);
    assert [] + (b + []) == b;
  }

  lemma {:induction false} OfNone(s: seq<Branch>, k: int)
    requires forall j :: 0 <= j < |s| ==> s[j].bracketIndex != k
    ensures Of(s, k) == []
    decreases |s|
  {
    if s != [] {
      OfNone(s[1..], k);
    }
  }

  /** The tables of a pattern are what its bytes say: bracket 0 is the pattern, bracket `k` the text between the
      `k`-th `(` and its `)`, and the pieces of each are its text split at its own bars, in order. */
  ghost predicate TablesRight(p: Text, tb: Tables) {
    var gs := Groups(p, 0);
    && tb.WellFormed() && |tb.brackets| == 1 + |gs|
    && tb.brackets[0].ptr == 0 && tb.brackets[0].len == |p|
    && (forall k :: 0 < k <= |gs| ==>
          tb.brackets[k].ptr == gs[k - 1].lo && tb.brackets[k].len == gs[k - 1].hi - gs[k - 1].lo)
    && (forall k :: 0 <= k <= |gs| ==> SplitAt(tb, k, OwnBars(p, k)))
  }

  /** For every accepted pattern whose groups are not nested they are, if and only if the bars of every group divide
      the outer ones behind it. */
  lemma {:induction false} PatternTables(p: Text, numCaps: int, spare: int)
    requires Compile(p, numCaps).Scanned? && OneDeep(p, 0)
    ensures TablesRight(p, Setup(Compile(p, numCaps).state, spare)) <==> BarsDivide(p)
  {
    hide Scan, BarsDivide, SortFrom, SliceFrom, TablesRight, Groups, Marks, Spans, AllMarks, TopBars;
    var st := Compile(p, numCaps).state;
    ScanGroups(p, 0, InitialScan(p), numCaps);
    assert [] + AllMarks(p, 0, 1) == AllMarks(p, 0, 1);
    TablesOfMarks(p, st, spare);
  }

  lemma {:induction false} TablesOfMarks(p: Text, st: ScanState, spare: int)
    requires st.WellFormed() && st.brackets == [Bracket(0, |p|, 0, 0)] + Spans(Groups(p, 0))
    requires st.branches == AllMarks(p, 0, 1)
    ensures TablesRight(p, Setup(st, spare)) <==> BarsDivide(p)
  {
    hide NextParen, BarsIn, SortFrom, SliceFrom, SplitAt, Groups, Marks, Spans, AllMarks, SliceExact, TopBars, Of;
    var gs, tb := Groups(p, 0), Setup(st, spare);
    SetupExact(st, spare);
    SpansExact(gs);
    TopKept(p);
    SplitIsOf(tb, 0, TopBars(p, 0));
    forall n | 0 <= n < |gs|
      ensures tb.brackets[n + 1].ptr == gs[n].lo && tb.brackets[n + 1].len == gs[n].hi - gs[n].lo
      ensures var own := BarsIn(p, gs[n].lo, gs[n].hi);
        SplitAt(tb, n + 1, own) <==> own == [] || BarsBehind(p, 0, n) % |own| == 0
    {
      assert st.brackets[n + 1] == Spans(gs)[n];
      GroupKept(p, n);
      SplitIsOf(tb, n + 1, BarsIn(p, gs[n].lo, gs[n].hi));
    }
    if TablesRight(p, tb) {
      forall n | 0 <= n < |gs| ensures var own := BarsIn(p, gs[n].lo, gs[n].hi); SplitAt(tb, n + 1, own) {
        assert SplitAt(tb, n + 1, OwnBars(p, n + 1));
      }
    }
    if BarsDivide(p) {
      forall k | 0 <= k <= |gs| ensures SplitAt(tb, k, OwnBars(p, k)) {
        if k > 0 {
          var n := k - 1;
          assert var own := BarsIn(p, gs[n].lo, gs[n].hi); own == [] || BarsBehind(p, 0, n) % |own| == 0;
        }
      }
    }
  }

  // ---- The sort -----------------------------------------------------------------------------------

  /** The outer bars stay in order. */
  lemma {:induction false} TopKept(p: Text)
    ensures Of(SortFrom(AllMarks(p, 0, 1), 0), 0) == Marks(TopBars(p, 0), 0)
  {
    hide SortFrom, AllMarks, Marks, TopBars, Of, Lower, Leading;
    var s := AllMarks(p, 0, 1);
    MarksOfTop(p, 0, 1);
    EitherLeads(s, 0);
    assert [] + s == s;
    SortRotates([], s, 0);
    NoRotation(Of(s, 0), 0);
  }

  /** Those of a group do if and only if they divide the outer ones behind it. */
  lemma {:induction false} GroupKept(p: Text, n: nat)
    requires n < |Groups(p, 0)|
    ensures var own := BarsIn(p, Groups(p, 0)[n].lo, Groups(p, 0)[n].hi);
      Of(SortFrom(AllMarks(p, 0, 1), 0), n + 1) == Marks(own, n + 1) <==> own == [] || BarsBehind(p, 0, n) % |own| == 0
  {
    hide SortFrom, AllMarks, Marks, BarsIn, Of, Lower, Leading, Groups, BarsBehind, NextParen;
    var g := Groups(p, 0)[n];
    var own := BarsIn(p, g.lo, g.hi);
    var pre, s := MarksSplit(p, 0, 1, n);
    BarsIncrease(p, g.lo, g.hi);
    MarksAll(own, n + 1);
    SortRotates(pre, s, n + 1);
    OrderKept(pre, s, n + 1);
  }

  lemma {:induction false} MarksAll(bars: seq<nat>, k: int)
    ensures |Marks(bars, k)| == |bars| && AllOf(Marks(bars, k), k)
    ensures forall j :: 0 <= j < |bars| ==> Marks(bars, k)[j] == Branch(k, bars[j])
  {
  }

  lemma {:induction false} MarksJoin(a: seq<nat>, b: seq<nat>, k: int)
    ensures Marks(a + b, k) == Marks(a, k) + Marks(b, k)
  {
  }

  lemma {:induction false} OfMarks(bars: seq<nat>, j: int, k: int)
    ensures Of(Marks(bars, j), k) == if j == k then Marks(bars, j) else []
    ensures Lower(Marks(bars, j), k) == if j < k then |bars| else 0
  {
    hide Marks, Of, Lower;
    MarksAll(bars, j);
    OfAll(Marks(bars, j), j, k);
  }

  lemma {:induction false} TopStep(p: Text, i: nat)
    ensures var o := NextParen(p, i);
      TopBars(p, i) == BarsIn(p, i, o) + if o >= |p| then [] else TopBars(p, NextParen(p, o + 1) + 1)
  {
    hide NextParen, BarsIn;
  }

  lemma {:induction false} BehindStep(p: Text, i: nat, n: nat)
    requires NextParen(p, i) < |p|
    ensures var c := NextParen(p, NextParen(p, i) + 1);
      BarsBehind(p, i, n) == if n == 0 then |TopBars(p, c + 1)| else BarsBehind(p, c + 1, n - 1)
  {
    hide NextParen, BarsIn, TopBars;
  }

  lemma {:induction false} MarksOfTop(p: Text, i: nat, k: nat)
    requires 0 < k
    ensures Of(AllMarks(p, i, k), 0) == Marks(TopBars(p, i), 0) && Lower(AllMarks(p, i, k), 0) == 0
    decreases |p| - i
  {
    hide NextParen, BarsIn, Marks, AllMarks, TopBars, Of, Lower;
    MarksStep(p, i, k);
    TopStep(p, i);
    var o := NextParen(p, i);
    var outer := BarsIn(p, i, o);
    OfMarks(outer, 0, 0);
    if o >= |p| {
      OfJoined(Marks(outer, 0), [], 0);
      NothingOf(0);
      assert outer + [] == outer && Marks(outer, 0) + [] == Marks(outer, 0);
    } else {
      var c := NextParen(p, o + 1);
      var own, rest := Marks(BarsIn(p, o + 1, c), k), AllMarks(p, c + 1, k + 1);
      OfJoined(Marks(outer, 0), own + rest, 0);
      OfJoined(own, rest, 0);
      OfMarks(BarsIn(p, o + 1, c), k, 0);
      MarksOfTop(p, c + 1, k + 1);
      MarksJoin(outer, TopBars(p, c + 1), 0);
      assert [] + Of(rest, 0) == Of(rest, 0);
    }
  }

  lemma {:induction false} NothingOf(k: int)
    ensures Of([], k) == [] && Lower([], k) == 0
  {
  }

  /** Behind a group only the outer bars are of lower brackets. */
  lemma {:induction false} MarksLater(p: Text, i: nat, k: nat, j: nat)
    requires 0 < j < k
    ensures Of(AllMarks(p, i, k), j) == [] && Lower(AllMarks(p, i, k), j) == |TopBars(p, i)|
    decreases |p| - i
  {
    hide NextParen, BarsIn, Marks, AllMarks, TopBars, Of, Lower;
    MarksStep(p, i, k);
    TopStep(p, i);
    var o := NextParen(p, i);
    var outer := BarsIn(p, i, o);
    OfMarks(outer, 0, j);
    if o >= |p| {
      OfJoined(Marks(outer, 0), [], j);
      NothingOf(j);
    } else {
      var c := NextParen(p, o + 1);
      var own, rest := Marks(BarsIn(p, o + 1, c), k), AllMarks(p, c + 1, k + 1);
      OfJoined(Marks(outer, 0), own + rest, j);
      OfJoined(own, rest, j);
      OfMarks(BarsIn(p, o + 1, c), k, j);
      MarksLater(p, c + 1, k + 1, j);
    }
  }

  /** The marks of group `n`, in front of everything behind it. */
  lemma {:induction false} MarksSplit(p: Text, i: nat, k: nat, n: nat) returns (pre: seq<Branch>, s: seq<Branch>)
    requires 0 < k && n < |Groups(p, i)|
    ensures AllMarks(p, i, k) == pre + s && Below(pre, k + n) && Leading(s, k + n)
    ensures var g := Groups(p, i)[n];
      Of(s, k + n) == Marks(BarsIn(p, g.lo, g.hi), k + n) && Lower(s, k + n) == BarsBehind(p, i, n)
    decreases |p| - i
  {
    hide NextParen, BarsIn, Marks, AllMarks, TopBars, Of, Lower, Groups, Leading, BarsBehind, Below, AllOf;
    MarksStep(p, i, k);
    GroupsUnfold(p, i);
    var o := NextParen(p, i);
    var c := NextParen(p, o + 1);
    BehindStep(p, i, n);
    var outer, own, rest := Marks(BarsIn(p, i, o), 0), Marks(BarsIn(p, o + 1, c), k), AllMarks(p, c + 1, k + 1);
    MarksAll(BarsIn(p, i, o), 0);
    if n == 0 {
      pre, s := outer, own + rest;
      OutersBelow(outer, k);
      OfMarks(BarsIn(p, o + 1, c), k, k);
      MarksLater(p, c + 1, k + 1, k);
      LeadsJoined(own, rest, k);
      OfJoined(own, rest, k);
      assert own + [] == own;
    } else {
      pre, s := MarksSplit(p, c + 1, k + 1, n - 1);
      MarksAll(BarsIn(p, o + 1, c), k);
      Stretched(outer, own, pre, s, k, k + n);
      assert Groups(p, i)[n] == Groups(p, c + 1)[n - 1];
      pre := outer + own + pre;
    }
  }

  lemma {:induction false} OutersBelow(outer: seq<Branch>, k: int)
    requires AllOf(outer, 0) && 0 < k
    ensures Below(outer, k)
  {
  }

  lemma {:induction false} Stretched(outer: seq<Branch>, own: seq<Branch>, pre: seq<Branch>, s: seq<Branch>, j: int,
                                     k: int)
    requires AllOf(outer, 0) && AllOf(own, j) && Below(pre, k) && 0 < j < k
    ensures Below(outer + own + pre, k) && outer + (own + (pre + s)) == outer + own + pre + s
  {
  }

  lemma {:induction false} BarsIncrease(p: Text, i: nat, stop: nat)
    ensures forall x :: 0 <= x < |BarsIn(p, i, stop)| ==> i <= BarsIn(p, i, stop)[x]
    ensures forall x, y :: 0 <= x < y < |BarsIn(p, i, stop)| ==> BarsIn(p, i, stop)[x] < BarsIn(p, i, stop)[y]
    decreases |p| - i
  {
    if i < |p| && i < stop && Ahead(p, i) != 0 {
      BarsIncrease(p, i + Ahead(p, i), stop);
    }
  }

  lemma {:induction false} SpansExact(gs: seq<Span>)
    ensures |Spans(gs)| == |gs| && forall k :: 0 <= k < |gs| ==>
      Spans(gs)[k] == Bracket(gs[k].lo, gs[k].hi - gs[k].lo, 0, 0)
  {
  }
}
