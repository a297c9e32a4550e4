/** The scan of a rendered flat expression finds exactly its groups and its alternatives. */
module SlreParsing {
  import opened Bytes
  import opened SlreTables
  import opened SlreScan
  import opened SlreSyntax
  import opened SlreSoundness
  import Sets = SlreSets
  import opened SlreRotation

  // ---- What the scan should record ------------------------------------------------------------

  /** The `|`s between the alternatives rendered at `pos`, as branches of bracket `k`. */
  function BarsOf(alts: seq<Alternative>, pos: nat, k: nat): (r: seq<Branch>)
    requires alts != []
    ensures |r| == |alts| - 1
    ensures forall i :: 0 <= i < |r| ==> r[i] == Branch(k, pos + AltStart(alts, i + 1) - 1)
  {
    seq(|alts| - 1, i requires 0 <= i < |alts| - 1 => Branch(k, pos + AltStart(alts, i + 1) - 1))
  }

  function BracketsOf(its: seq<Item>, lo: nat): seq<Bracket> {
    if its == [] then []
    else
      var rest := BracketsOf(its[1..], lo + |RenderItem(its[0])|);
      if its[0].Group? then [Bracket(lo + 1, |RenderAlts(its[0].alts)|, 0, 0)] + rest else rest
  }

  predicate GroupsNonempty(its: seq<Item>) {
    forall k :: 0 <= k < |its| && its[k].Group? ==> its[k].alts != []
  }

  /** The branches of the groups of the sequence, the first group being bracket `bi + 1`. */
  function BranchesOf(its: seq<Item>, lo: nat, bi: nat): (r: seq<Branch>)
    requires GroupsNonempty(its)
    ensures Sorted(r) && forall j :: 0 <= j < |r| ==> bi < r[j].bracketIndex
  {
    if its == [] then []
    else
      assert forall k :: 0 <= k < |its[1..]| ==> its[1..][k] == its[k + 1];
      var lo' := lo + |RenderItem(its[0])|;
      if its[0].Group? then BarsOf(its[0].alts, lo + 1, bi + 1) + BranchesOf(its[1..], lo', bi + 1)
      else BranchesOf(its[1..], lo', bi)
  }

  // ---- The scan, piece by piece ---------------------------------------------------------------

  lemma {:induction false} ScanAtom(p: Text, i: nat, st: ScanState, numCaps: int, a: Atom)
    requires st.WellFormed() && ValidAtom(a)
    requires i + |RenderAtom(a)| <= |p| && p[i..i + |RenderAtom(a)|] == RenderAtom(a)
    ensures Scan(p, i, st, numCaps) == Scan(p, i + |RenderAtom(a)|, st, numCaps)
  {
    ReadBack(p, i, RenderAtom(a));
    assert At(p, i + 0) == RenderAtom(a)[0];
    if a.Set? {
      Sets.SetLength(p, i, |p| - i, a);
    } else if |RenderAtom(a)| >= 2 {
      assert At(p, i + 1) == RenderAtom(a)[1];
    }
    if a.Hex? {
      assert At(p, i + 2) == a.h && At(p, i + 3) == a.l;
    }
  }

  lemma {:induction false} ScanQuant(p: Text, i: nat, st: ScanState, numCaps: int, q: Quant)
    requires st.WellFormed()
    requires i + |RenderQuant(q)| <= |p| && p[i..i + |RenderQuant(q)|] == RenderQuant(q)
    ensures Scan(p, i, st, numCaps) == Scan(p, i + |RenderQuant(q)|, st, numCaps)
  {
    ReadBack(p, i, RenderQuant(q));
    if |RenderQuant(q)| >= 1 {
      assert At(p, i + 0) == RenderQuant(q)[0];
      ScanPlain(p, i, st, numCaps);
    }
    if |RenderQuant(q)| >= 2 {
      assert At(p, i + 1) == RenderQuant(q)[1];
      ScanPlain(p, i + 1, st, numCaps);
    }
  }

  lemma {:induction false} ScanPlain(p: Text, i: nat, st: ScanState, numCaps: int)
    requires st.WellFormed() && i < |p|
    requires IsQuantifier(p[i]) || p[i] == CARET || p[i] == DOLLAR
    ensures Scan(p, i, st, numCaps) == Scan(p, i + 1, st, numCaps)
  {
  }

  /** Items that are not groups leave no trace. */
  lemma {:induction false} ScanGroupless(p: Text, i: nat, st: ScanState, numCaps: int, its: seq<Item>)
    requires st.WellFormed() && FlatTop(its) && !HasGroup(its) && Written(p, i, |RenderSeq(its)|, its)
    ensures Scan(p, i, st, numCaps) == Scan(p, i + |RenderSeq(its)|, st, numCaps)
    decreases |its|
  {
    hide Scan, RenderAlts, RenderSeq, RenderBase, RenderQuant, FlatTop, HasGroup;
    if its == [] {
      NoRendering();
    } else {
      var it, d := its[0], |RenderItem(its[0])|;
      SplitRendering(p, i, |RenderSeq(its)|, its);
      SplitSlice(p, i, RenderBase(it), RenderQuant(QuantOf(it)));
      GrouplessFirst(its);
      GrouplessTail(its);
      ScanBase(p, i, st, numCaps, it);
      ScanQuant(p, i + |RenderBase(it)|, st, numCaps, QuantOf(it));
      ScanGroupless(p, i + d, st, numCaps, its[1..]);
    }
  }

  lemma {:induction false} NoRendering()
    ensures RenderSeq([]) == []
  {
  }

  lemma {:induction false} GrouplessFirst(its: seq<Item>)
    requires its != [] && FlatTop(its) && !HasGroup(its)
    ensures !its[0].Group? && FlatItem(its[0], true)
  {
  }

  lemma {:induction false} GrouplessTail(its: seq<Item>)
    requires its != [] && FlatTop(its)
    ensures FlatTop(its[1..])
    ensures !HasGroup(its) ==> !HasGroup(its[1..])
  {
  }

  lemma {:induction false} ScanBase(p: Text, i: nat, st: ScanState, numCaps: int, it: Item)
    requires st.WellFormed() && FlatItem(it, true) && !it.Group?
    requires i + |RenderBase(it)| <= |p| && p[i..i + |RenderBase(it)|] == RenderBase(it)
    ensures Scan(p, i, st, numCaps) == Scan(p, i + |RenderBase(it)|, st, numCaps)
  {
    hide Scan;
    if it.Single? {
      ScanAtom(p, i, st, numCaps, it.a);
    } else {
      ReadBack(p, i, RenderBase(it));
      assert At(p, i + 0) == RenderBase(it)[0];
      ScanPlain(p, i, st, numCaps);
    }
  }

  /** A `|` is recorded once, for the current bracket. */
  lemma {:induction false} ScanBar(p: Text, i: nat, st: ScanState, numCaps: int)
    requires st.WellFormed() && i < |p| && p[i] == PIPE
    requires !Scan(p, i, st, numCaps).Rejected? || |st.branches| < MAX_BRANCHES
    ensures var st' := st.(branches := st.branches + [Branch(st.Current(), i)]);
      st'.WellFormed() && Scan(p, i, st, numCaps) == Scan(p, i + 1, st', numCaps)
  {
  }

  /** Alternatives without groups: the first `a` of them leave the first `a - 1` bars. */
  lemma {:induction false} ScanAlts(p: Text, pos: nat, st: ScanState, numCaps: int, alts: seq<Alternative>, a: nat)
    requires st.WellFormed() && a < |alts|
    requires pos + |RenderAlts(alts)| <= |p| && p[pos..pos + |RenderAlts(alts)|] == RenderAlts(alts)
    requires forall k :: 0 <= k < a ==> FlatTop(alts[k].items) && !HasGroup(alts[k].items)
    requires !Scan(p, pos, st, numCaps).Rejected? || |st.branches| + a <= MAX_BRANCHES
    ensures var st' := st.(branches := st.branches + BarsOf(alts, pos, st.Current())[..a]);
      st'.WellFormed() && Scan(p, pos, st, numCaps) == Scan(p, pos + AltStart(alts, a), st', numCaps)
    decreases a
  {
    hide Scan, RenderSeq, RenderAlts, AltStart, FlatTop, HasGroup, BarsOf;
    AltsLayout(alts, a);
    var bars := BarsOf(alts, pos, st.Current());
    if a == 0 {
      assert st.branches + bars[..0] == st.branches;
    } else {
      ScanAlts(p, pos, st, numCaps, alts, a - 1);
      var st1 := st.(branches := st.branches + bars[..a - 1]);
      var i := pos + AltStart(alts, a - 1);
      PieceWritten(p, alts, a - 1, pos);
      AltsLayout(alts, a - 1);
      ScanGroupless(p, i, st1, numCaps, alts[a - 1].items);
      var bar := pos + AltStart(alts, a) - 1;
      assert p[bar] == p[pos..pos + |RenderAlts(alts)|][AltStart(alts, a) - 1] == PIPE;
      ScanBar(p, bar, st1, numCaps);
      assert bars[..a] == bars[..a - 1] + [bars[a - 1]];
      assert st1.branches + [Branch(st1.Current(), bar)] == st.branches + bars[..a];
    }
  }

  lemma {:induction false} ScanOpen(p: Text, i: nat, st: ScanState, numCaps: int)
    requires st.WellFormed() && i < |p| && p[i] == LPAREN
    requires !Scan(p, i, st, numCaps).Rejected? || (|st.brackets| < MAX_BRACKETS && !(0 < numCaps < |st.brackets|))
    ensures var st' := st.(brackets := st.brackets + [Bracket(i + 1, -1, 0, 0)], depth := st.depth + 1);
      st'.WellFormed() && Scan(p, i, st, numCaps) == Scan(p, i + 1, st', numCaps)
  {
  }

  lemma {:induction false} ScanClose(p: Text, i: nat, st: ScanState, numCaps: int)
    requires st.WellFormed() && i < |p| && p[i] == RPAREN
    requires !Scan(p, i, st, numCaps).Rejected? || (0 < st.depth && (0 < i ==> p[i - 1] != LPAREN))
    requires st.brackets[|st.brackets| - 1].len == -1
    ensures 0 < st.depth
    ensures var ind := |st.brackets| - 1;
      var b := st.brackets[ind].(len := i - st.brackets[ind].ptr);
      var st' := st.(brackets := st.brackets[ind := b], depth := st.depth - 1);
      st'.WellFormed() && Scan(p, i, st, numCaps) == Scan(p, i + 1, st', numCaps)
  {
  }

  /** The tables have room for the group, and no `\(` stands at its end, which the scan takes for an empty group. */
  predicate RoomFor(st: ScanState, numCaps: int, alts: seq<Alternative>) {
    && |st.brackets| < MAX_BRACKETS && !(0 < numCaps < |st.brackets|)
    && |st.branches| + |alts| - 1 <= MAX_BRANCHES
    && var inner := RenderAlts(alts); inner != [] && inner[|inner| - 1] != LPAREN
  }

  /** A flat group becomes one bracket that spans its text, and a branch for each of its bars. */
  lemma {:induction false} ScanGroup(p: Text, i: nat, st: ScanState, numCaps: int, it: Item)
    requires st.WellFormed() && it.Group? && FlatGroup(it)
    requires i + |RenderBase(it)| <= |p| && p[i..i + |RenderBase(it)|] == RenderBase(it)
    requires !Scan(p, i, st, numCaps).Rejected? || RoomFor(st, numCaps, it.alts)
    ensures it.alts != []
    ensures var k := |st.brackets|;
      var st' := st.(brackets := st.brackets + [Bracket(i + 1, |RenderAlts(it.alts)|, 0, 0)],
                     branches := st.branches + BarsOf(it.alts, i + 1, k));
      st'.WellFormed() && Scan(p, i, st, numCaps) == Scan(p, i + |RenderBase(it)|, st', numCaps)
  {
    hide Scan, RenderSeq, RenderAlts, AltStart, BarsOf, FlatTop, HasGroup, FlatSeq;
    var alts, inner := it.alts, RenderAlts(it.alts);
    EmptyAlts(alts);
    SplitSlice(p, i, [LPAREN], inner + [RPAREN]);
    SplitSlice(p, i + 1, inner, [RPAREN]);
    var close := i + 1 + |inner|;
    assert p[i] == p[i..i + 1][0] == LPAREN && p[close] == p[close..close + 1][0] == RPAREN;
    ScanOpen(p, i, st, numCaps);
    var st1 := st.(brackets := st.brackets + [Bracket(i + 1, -1, 0, 0)], depth := st.depth + 1);
    forall a | 0 <= a < |alts| ensures FlatTop(alts[a].items) && !HasGroup(alts[a].items) {
      FlatSeqIsTop(alts[a].items);
    }
    var last := |alts| - 1;
    ScanAlts(p, i + 1, st1, numCaps, alts, last);
    var bars := BarsOf(alts, i + 1, |st.brackets|);
    assert bars[..last] == bars;
    var st2 := st1.(branches := st.branches + bars);
    AltsLayout(alts, last);
    PieceWritten(p, alts, last, i + 1);
    ScanGroupless(p, i + 1 + AltStart(alts, last), st2, numCaps, alts[last].items);
    assert p[close - 1] == p[i + 1..i + 1 + |inner|][|inner| - 1] == inner[|inner| - 1];
    ScanClose(p, close, st2, numCaps);
    var b := Bracket(i + 1, |inner|, 0, 0);
    assert st2.brackets[|st.brackets| := b] == st.brackets + [b];
  }

  lemma {:induction false} EmptyAlts(alts: seq<Alternative>)
    requires RenderAlts(alts) != []
    ensures alts != []
  {
  }

  /** A sequence with groups: its brackets and its branches are appended in order. */
  lemma {:induction false} ScanSequence(p: Text, i: nat, st: ScanState, numCaps: int, its: seq<Item>)
    requires st.WellFormed() && FlatTop(its) && GroupsNonempty(its) && Written(p, i, |RenderSeq(its)|, its)
    requires !Scan(p, i, st, numCaps).Rejected?
    ensures var st' := st.(brackets := st.brackets + BracketsOf(its, i),
                           branches := st.branches + BranchesOf(its, i, |st.brackets| - 1));
      st'.WellFormed() && Scan(p, i, st, numCaps) == Scan(p, i + |RenderSeq(its)|, st', numCaps)
    decreases |its|
  {
    hide Scan, RenderAlts, RenderSeq, RenderBase, RenderItem, RenderQuant, BarsOf, FlatGroup, HasGroup, FlatTop,
      BracketsOf, BranchesOf, GroupsNonempty;
    if its == [] {
      NoItems(its, i, |st.brackets| - 1);
      assert st.brackets + [] == st.brackets && st.branches + [] == st.branches;
    } else {
      var it, d, k := its[0], |RenderItem(its[0])|, |st.brackets|;
      SplitRendering(p, i, |RenderSeq(its)|, its);
      FirstItem(its, i, k - 1);
      GrouplessTail(its);
      ScanItem(p, i, st, numCaps, it);
      var bs: seq<Bracket> := if it.Group? then [Bracket(i + 1, |RenderAlts(it.alts)|, 0, 0)] else [];
      var bars: seq<Branch> := if it.Group? then BarsOf(it.alts, i + 1, k) else [];
      var st1 := st.(brackets := st.brackets + bs, branches := st.branches + bars);
      ScanSequence(p, i + d, st1, numCaps, its[1..]);
      Joined(st.brackets, bs, BracketsOf(its[1..], i + d));
      Joined(st.branches, bars, BranchesOf(its[1..], i + d, |st1.brackets| - 1));
    }
  }

  lemma {:induction false} Joined<T>(a: seq<T>, b: seq<T>, c: seq<T>)
    ensures (a + b) + c == a + (b + c)
  {
  }

  /** One item with its quantifier. */
  lemma {:induction false} ScanItem(p: Text, i: nat, st: ScanState, numCaps: int, it: Item)
    requires st.WellFormed() && FlatItem(it, true) && !Scan(p, i, st, numCaps).Rejected?
    requires i + |RenderItem(it)| <= |p| && p[i..i + |RenderItem(it)|] == RenderItem(it)
    ensures it.Group? ==> it.alts != []
    ensures var k := |st.brackets|;
      var bs: seq<Bracket> := if it.Group? then [Bracket(i + 1, |RenderAlts(it.alts)|, 0, 0)] else [];
      var bars: seq<Branch> := if it.Group? then BarsOf(it.alts, i + 1, k) else [];
      var st' := st.(brackets := st.brackets + bs, branches := st.branches + bars);
      st'.WellFormed() && Scan(p, i, st, numCaps) == Scan(p, i + |RenderItem(it)|, st', numCaps)
  {
    hide Scan, RenderAlts, RenderSeq, RenderBase, RenderQuant, BarsOf, FlatGroup;
    SplitSlice(p, i, RenderBase(it), RenderQuant(QuantOf(it)));
    var st1 := st;
    if it.Group? {
      ScanGroup(p, i, st, numCaps, it);
      st1 := st.(brackets := st.brackets + [Bracket(i + 1, |RenderAlts(it.alts)|, 0, 0)],
                 branches := st.branches + BarsOf(it.alts, i + 1, |st.brackets|));
    } else {
      ScanBase(p, i, st, numCaps, it);
      assert st.brackets + [] == st.brackets && st.branches + [] == st.branches;
    }
    ScanQuant(p, i + |RenderBase(it)|, st1, numCaps, QuantOf(it));
  }

  lemma {:induction false} FirstItem(its: seq<Item>, lo: nat, bi: nat)
    requires its != [] && FlatTop(its) && GroupsNonempty(its)
    ensures RenderItem(its[0]) == RenderBase(its[0]) + RenderQuant(QuantOf(its[0]))
    ensures FlatItem(its[0], true) && GroupsNonempty(its[1..])
    ensures its[0].Group? ==> FlatGroup(its[0]) && its[0].alts != []
    ensures var lo' := lo + |RenderItem(its[0])|;
      && BracketsOf(its, lo) == (if its[0].Group? then [Bracket(lo + 1, |RenderAlts(its[0].alts)|, 0, 0)] else [])
                                + BracketsOf(its[1..], lo')
      && BranchesOf(its, lo, bi) == (if its[0].Group? then BarsOf(its[0].alts, lo + 1, bi + 1) else [])
                                    + BranchesOf(its[1..], lo', if its[0].Group? then bi + 1 else bi)
  {
  }

  lemma {:induction false} NoItems(its: seq<Item>, lo: nat, bi: nat)
    requires its == []
    ensures RenderSeq(its) == [] && BracketsOf(its, lo) == [] && BranchesOf(its, lo, bi) == []
  {
  }

  // ---- The tables -----------------------------------------------------------------------------

  lemma {:induction false} FlatGroupsNonempty(its: seq<Item>)
    requires FlatTop(its)
    ensures GroupsNonempty(its)
  {
  }

  /** From the end of alternative `a` on, alternatives without groups: their bars are left. */
  lemma {:induction false} ScanRest(p: Text, pos: nat, st: ScanState, numCaps: int, alts: seq<Alternative>, a: nat)
    requires st.WellFormed() && a < |alts|
    requires pos + |RenderAlts(alts)| <= |p| && p[pos..pos + |RenderAlts(alts)|] == RenderAlts(alts)
    requires forall k :: a < k < |alts| ==> FlatTop(alts[k].items) && !HasGroup(alts[k].items)
    requires !Scan(p, pos + AltStart(alts, a) + |RenderSeq(alts[a].items)|, st, numCaps).Rejected?
    ensures var st' := st.(branches := st.branches + BarsOf(alts, pos, st.Current())[a..]);
      && st'.WellFormed()
      && Scan(p, pos + AltStart(alts, a) + |RenderSeq(alts[a].items)|, st, numCaps) ==
        Scan(p, pos + |RenderAlts(alts)|, st', numCaps)
    decreases |alts| - a
  {
    hide Scan, RenderSeq, RenderAlts, AltStart, FlatTop, HasGroup, BarsOf;
    AltsLayout(alts, a);
    var bars := BarsOf(alts, pos, st.Current());
    if a + 1 == |alts| {
      assert st.branches + bars[a..] == st.branches;
    } else {
      var bar := pos + AltStart(alts, a + 1) - 1;
      assert p[bar] == p[pos..pos + |RenderAlts(alts)|][AltStart(alts, a + 1) - 1] == PIPE;
      ScanBar(p, bar, st, numCaps);
      var st1 := st.(branches := st.branches + [Branch(st.Current(), bar)]);
      AltsLayout(alts, a + 1);
      PieceWritten(p, alts, a + 1, pos);
      ScanGroupless(p, bar + 1, st1, numCaps, alts[a + 1].items);
      ScanRest(p, pos, st1, numCaps, alts, a + 1);
      assert bars[a..] == [bars[a]] + bars[a + 1..];
      assert st.branches + [bars[a]] + bars[a + 1..] == st.branches + bars[a..];
    }
  }

  /** The items of the alternative with the groups, and where it starts. */
  function GroupItems(alts: seq<Alternative>): seq<Item>
    requires alts != []
  {
    alts[GroupAlt(alts)].items
  }

  function GroupStart(alts: seq<Alternative>): nat
    requires alts != []
  {
    AltStart(alts, GroupAlt(alts))
  }

  /** What the scan of a whole flat expression records. */
  lemma {:induction false} ScanRegex(alts: seq<Alternative>, numCaps: int)
    requires FlatRegex(alts) && !Compile(RenderAlts(alts), numCaps).Rejected?
    ensures GroupsNonempty(GroupItems(alts)) && Compile(RenderAlts(alts), numCaps).Scanned?
    ensures var p, g, bars := RenderAlts(alts), GroupAlt(alts), BarsOf(alts, 0, 0);
      Compile(p, numCaps).state ==
      ScanState([Bracket(0, |p|, 0, 0)] + BracketsOf(GroupItems(alts), GroupStart(alts)),
                bars[..g] + BranchesOf(GroupItems(alts), GroupStart(alts), 0) + bars[g..],
                0)
  {
    hide Scan, RenderAlts, RenderSeq, AltStart, BarsOf, BracketsOf, BranchesOf, FlatTop, HasGroup, BarsFit, GroupAlt;
    var p, g, its := RenderAlts(alts), GroupAlt(alts), GroupItems(alts);
    var st := InitialScan(p);
    assert p[0..|p|] == p;
    ScanAlts(p, 0, st, numCaps, alts, g);
    var bars := BarsOf(alts, 0, 0);
    assert [] + bars[..g] == bars[..g];
    var st1 := st.(branches := bars[..g]);
    AltsLayout(alts, g);
    PieceWritten(p, alts, g, 0);
    FlatGroupsNonempty(its);
    ScanSequence(p, GroupStart(alts), st1, numCaps, its);
    var st2 := st1.(brackets := st1.brackets + BracketsOf(its, GroupStart(alts)),
                    branches := bars[..g] + BranchesOf(its, GroupStart(alts), 0));
    BracketsClosed(its, GroupStart(alts));
    ScanRest(p, 0, st2, numCaps, alts, g);
    ScanEnd(p, st2.(branches := st2.branches + bars[g..]), numCaps);
  }

  lemma {:induction false} BracketsClosed(its: seq<Item>, lo: nat)
    ensures forall k :: 0 <= k < |BracketsOf(its, lo)| ==> BracketsOf(its, lo)[k].len >= 0
    decreases |its|
  {
    hide RenderAlts, RenderItem;
    if its != [] {
      BracketsClosed(its[1..], lo + |RenderItem(its[0])|);
    }
  }

  lemma {:induction false} ScanEnd(p: Text, st: ScanState, numCaps: int)
    requires st.WellFormed() && st.depth == 0
    ensures Scan(p, |p|, st, numCaps) == Scanned(st)
  {
  }

  /** Branches that come in one run end up as one slice. */
  lemma {:induction false} SliceIsRun(tb: Tables, k: nat, pre: seq<Branch>, run: seq<Branch>, post: seq<Branch>)
    requires tb.WellFormed() && k < |tb.brackets| && SliceExact(tb, k)
    requires tb.branches == pre + run + post
    requires forall j :: 0 <= j < |pre| ==> pre[j].bracketIndex != k
    requires forall j :: 0 <= j < |run| ==> run[j].bracketIndex == k
    requires forall j :: 0 <= j < |post| ==> post[j].bracketIndex != k
    ensures tb.brackets[k].numBranches == |run|
    ensures run != [] ==> tb.brackets[k].branches == |pre|
  {
    var b := tb.brackets[k];
    forall j: int
      ensures 0 <= j < |tb.branches| ==> (Within(j, b.branches, b.numBranches) <==> Within(j, |pre|, |run|))
    {
      if 0 <= j < |tb.branches| {
        assert tb.branches[j] == if j < |pre| then pre[j] else if j < |pre| + |run| then run[j - |pre|]
                                 else post[j - |pre| - |run|];
      }
    }
    SameInterval(|tb.branches|, b.branches, b.numBranches, |pre|, |run|);
  }

  predicate Within(j: int, from: int, n: int) {
    from <= j < from + n
  }

  lemma {:induction false} SameInterval(size: nat, a: nat, n: nat, c: nat, r: nat)
    requires a + n <= size && c + r <= size
    requires forall j :: 0 <= j < size ==> (Within(j, a, n) <==> Within(j, c, r))
    ensures n == r && (r > 0 ==> a == c)
  {
    assert n > 0 ==> Within(a, a, n) && Within(a + n - 1, a, n);
    assert r > 0 ==> Within(c, c, r) && Within(c + r - 1, c, r);
  }

  lemma {:induction false} BracketFound(tb: Tables, k: nat, alts: seq<Alternative>, pos: nat, pre: seq<Branch>,
                                        post: seq<Branch>)
    requires tb.WellFormed() && k < |tb.brackets| && SliceExact(tb, k) && alts != []
    requires tb.brackets[k].ptr == pos && tb.brackets[k].len == |RenderAlts(alts)|
    requires tb.branches == pre + BarsOf(alts, pos, k) + post
    requires forall j :: 0 <= j < |pre| ==> pre[j].bracketIndex < k
    requires forall j :: 0 <= j < |post| ==> k < post[j].bracketIndex
    ensures BracketIs(tb, k, pos, alts)
  {
    hide RenderAlts, AltStart, BarsOf, SliceExact, BracketIs;
    var run := BarsOf(alts, pos, k);
    forall i {:trigger AltStart(alts, i)} | 0 < i < |alts| ensures run[i - 1] ==
      Branch(k, pos + AltStart(alts, i) - 1) {
    }
    BracketOfRun(tb, k, alts, pos, pre, run, post);
  }

  lemma {:induction false} BracketOfRun(tb: Tables, k: nat, alts: seq<Alternative>, pos: nat,
                                        pre: seq<Branch>, run: seq<Branch>, post: seq<Branch>)
    requires tb.WellFormed() && k < |tb.brackets| && SliceExact(tb, k) && alts != []
    requires tb.brackets[k].ptr == pos && tb.brackets[k].len == |RenderAlts(alts)|
    requires tb.branches == pre + run + post && |run| == |alts| - 1
    requires forall i {:trigger AltStart(alts, i)} :: 0 < i < |alts| ==>
      run[i - 1] == Branch(k, pos + AltStart(alts, i) - 1)
    requires forall j :: 0 <= j < |pre| ==> pre[j].bracketIndex < k
    requires forall j :: 0 <= j < |post| ==> k < post[j].bracketIndex
    ensures BracketIs(tb, k, pos, alts)
  {
    hide RenderAlts, AltStart, SliceExact;
    forall j | 0 <= j < |run| ensures run[j].bracketIndex == k {
      assert AltStart(alts, j + 1) >= 0;
    }
    SliceIsRun(tb, k, pre, run, post);
    forall i {:trigger AltStart(alts, i)} | 0 < i < |alts|
      ensures tb.branches[tb.brackets[k].branches + i - 1].schlong == pos + AltStart(alts, i) - 1
    {
      RunAt(tb.branches, pre, run, post, i - 1);
    }
  }

  lemma {:induction false} RunAt(s: seq<Branch>, pre: seq<Branch>, run: seq<Branch>, post: seq<Branch>, j: nat)
    requires j < |run| && s == pre + run + post
    ensures |pre| + j < |s| && s[|pre| + j] == run[j]
  {
  }

  /** The brackets behind number `bi` are the groups of the sequence, alternatives included. */
  lemma {:induction false} GroupsFound(tb: Tables, its: seq<Item>, lo: nat, bi: nat, pre: seq<Branch>)
    requires tb.WellFormed() && GroupsNonempty(its) && bi < |tb.brackets|
    requires forall k :: 0 <= k < |tb.brackets| ==> SliceExact(tb, k)
    requires tb.branches == pre + BranchesOf(its, lo, bi)
    requires forall j :: 0 <= j < |pre| ==> pre[j].bracketIndex <= bi
    requires |tb.brackets| == bi + 1 + |BracketsOf(its, lo)|
    requires forall k :: bi < k < |tb.brackets| ==>
      && tb.brackets[k].ptr == BracketsOf(its, lo)[k - bi - 1].ptr
      && tb.brackets[k].len == BracketsOf(its, lo)[k - bi - 1].len
    ensures GroupsAt(tb, its, lo, bi)
    decreases |its|
  {
    hide RenderAlts, RenderSeq, RenderItem, BracketIs, BarsOf;
    if its != [] {
      assert GroupsNonempty(its[1..]) by {
        assert forall k :: 0 <= k < |its[1..]| ==> its[1..][k] == its[k + 1];
      }
      var lo' := lo + |RenderItem(its[0])|;
      if its[0].Group? {
        var bars, rest := BarsOf(its[0].alts, lo + 1, bi + 1), BranchesOf(its[1..], lo', bi + 1);
        assert tb.branches == pre + bars + rest;
        var own := [Bracket(lo + 1, |RenderAlts(its[0].alts)|, 0, 0)];
        assert BracketsOf(its, lo) == own + BracketsOf(its[1..], lo');
        BracketFound(tb, bi + 1, its[0].alts, lo + 1, pre, rest);
        forall j | 0 <= j < |pre + bars| ensures (pre + bars)[j].bracketIndex <= bi + 1 {
        }
        GroupsFound(tb, its[1..], lo', bi + 1, pre + bars);
      } else {
        GroupsFound(tb, its[1..], lo', bi, pre);
      }
    }
  }

  // ---- The sort -----------------------------------------------------------------------------------

  lemma {:induction false} StartsGrow(alts: seq<Alternative>, i: nat, j: nat)
    requires i < j < |alts|
    ensures AltStart(alts, i) < AltStart(alts, j)
    decreases j
  {
    hide AltStart, RenderSeq, RenderAlts;
    AltsLayout(alts, j - 1);
    if i < j - 1 {
      StartsGrow(alts, i, j - 1);
    }
  }

  lemma {:induction false} BarsDistinct(alts: seq<Alternative>, pos: nat, k: nat)
    requires alts != []
    ensures AllOf(BarsOf(alts, pos, k), k)
    ensures forall x, y :: 0 <= x < y < |BarsOf(alts, pos, k)| ==> BarsOf(alts, pos, k)[x] != BarsOf(alts, pos, k)[y]
  {
    hide AltStart, BarsOf;
    var r := BarsOf(alts, pos, k);
    forall x, y | 0 <= x < y < |r| ensures r[x] != r[y] {
      StartsGrow(alts, x + 1, y + 1);
    }
  }

  /** The bars of one group, and their number. */
  lemma {:induction false} GroupBars(its: seq<Item>, lo: nat, bi: nat, k: int, behind: nat)
    requires GroupsNonempty(its) && forall j :: 0 <= j < |its| ==> GroupFits(its[j], behind)
    ensures var own := Of(BranchesOf(its, lo, bi), k);
      && (own == [] || behind % |own| == 0)
      && forall x, y :: 0 <= x < y < |own| ==> own[x] != own[y]
    decreases |its|
  {
    hide BarsOf, RenderItem, Of, BranchesOf;
    if its == [] {
      NoBranches(lo, bi, k);
    } else {
      assert forall j :: 0 <= j < |its[1..]| ==> its[1..][j] == its[j + 1];
      assert GroupFits(its[0], behind);
      FrontBranches(its, lo, bi);
      var lo' := lo + |RenderItem(its[0])|;
      if its[0].Group? {
        var bars, rest := BarsOf(its[0].alts, lo + 1, bi + 1), BranchesOf(its[1..], lo', bi + 1);
        BarsDistinct(its[0].alts, lo + 1, bi + 1);
        OfAll(bars, bi + 1, k);
        OfJoined(bars, rest, k);
        GroupBars(its[1..], lo', bi + 1, k, behind);
        BarsSize(its[0].alts, lo + 1, bi + 1);
        if k == bi + 1 {
          HigherNone(rest, k);
          assert bars + [] == bars;
        } else {
          assert [] + Of(rest, k) == Of(rest, k);
        }
      } else {
        GroupBars(its[1..], lo', bi, k, behind);
      }
    }
  }

  lemma {:induction false} BarsSize(alts: seq<Alternative>, pos: nat, k: nat)
    requires alts != []
    ensures |BarsOf(alts, pos, k)| == |alts| - 1
  {
  }

  predicate Above(s: seq<Branch>, k: int) {
    forall j :: 0 <= j < |s| ==> k < s[j].bracketIndex
  }

  lemma {:induction false} HigherNone(s: seq<Branch>, k: int)
    requires Above(s, k)
    ensures Of(s, k) == [] && Lower(s, k) == 0
    decreases |s|
  {
    if s != [] {
      HigherNone(s[1..], k);
    }
  }

  lemma {:induction false} NoBranches(lo: nat, bi: nat, k: int)
    ensures Of(BranchesOf([], lo, bi), k) == []
  {
  }

  lemma {:induction false} FrontBranches(its: seq<Item>, lo: nat, bi: nat)
    requires its != [] && GroupsNonempty(its)
    ensures GroupsNonempty(its[1..])
    ensures var lo' := lo + |RenderItem(its[0])|;
      if its[0].Group? then
        && its[0].alts != []
        && BranchesOf(its, lo, bi) == BarsOf(its[0].alts, lo + 1, bi + 1) + BranchesOf(its[1..], lo', bi + 1)
        && Above(BranchesOf(its[1..], lo', bi + 1), bi + 1)
      else BranchesOf(its, lo, bi) == BranchesOf(its[1..], lo', bi)
  {
    hide BarsOf, RenderItem;
    assert forall k :: 0 <= k < |its[1..]| ==> its[1..][k] == its[k + 1];
  }

  /** The branches of the groups, between top-level bars: the sort rotates each group's by the bars behind. */
  lemma {:induction false} SortBetween(a: seq<Branch>, rest: seq<Branch>, z: seq<Branch>, k: int)
    requires AllOf(a, 0) && AllOf(z, 0) && Sorted(rest) && forall j :: 0 <= j < |rest| ==> 0 < rest[j].bracketIndex
    ensures Of(SortFrom(a + rest + z, 0), k) == if k > 0 then Rotated(Of(rest, k), |z|) else Of(a + rest + z, k)
    ensures Of(a + rest + z, k) == Of(a, k) + Of(rest, k) + Of(z, k)
  {
    hide SortFrom, Of, Lower, Leading, Rotated;
    OfJoined(a + rest, z, k);
    OfJoined(a, rest, k);
    OfAll(a, 0, k);
    OfAll(z, 0, k);
    if k > 0 {
      var t := FirstAt(rest, k);
      var pre, s := a + rest[..t], rest[t..] + z;
      assert a + rest + z == pre + s && rest == rest[..t] + rest[t..];
      OfJoined(rest[..t], rest[t..], k);
      OfJoined(rest[t..], z, k);
      BelowNone(rest[..t], k);
      NoneLower(rest[t..], k);
      LeadsJoined(rest[t..], z, k);
      SortRotates(pre, s, k);
      assert Of(rest[t..], k) + [] == Of(rest[t..], k) == [] + Of(rest[t..], k);
    } else {
      var s := a + rest + z;
      NoneLower(s, k);
      EitherLeads(s, k);
      assert [] + s == s;
      SortRotates([], s, k);
      NoRotation(Of(s, k), 0);
    }
  }

  lemma {:induction false} NoneLower(s: seq<Branch>, k: int)
    requires forall j :: 0 <= j < |s| ==> k <= s[j].bracketIndex
    ensures Lower(s, k) == 0
    decreases |s|
  {
    if s != [] {
      NoneLower(s[1..], k);
    }
  }

  lemma {:induction false} FirstAt(s: seq<Branch>, k: int) returns (t: nat)
    requires Sorted(s)
    ensures t <= |s| && Below(s[..t], k) && forall j :: t <= j < |s| ==> k <= s[j].bracketIndex
  {
    t := 0;
    while t < |s| && s[t].bracketIndex < k
      invariant t <= |s| && Below(s[..t], k)
    {
      t := t + 1;
    }
  }

  /** The sort puts the top-level bars in front and leaves everything else in order. */
  lemma {:induction false} FlatSort(alts: seq<Alternative>)
    requires FlatRegex(alts) && GroupsNonempty(GroupItems(alts))
    ensures var bars, g, rest := BarsOf(alts, 0, 0), GroupAlt(alts), BranchesOf(GroupItems(alts), GroupStart(alts), 0);
      SortFrom(bars[..g] + rest + bars[g..], 0) == bars + rest
  {
    hide BarsOf, BranchesOf, SortFrom, GroupAlt, AllOf, FlatRegex, Of, Rotated;
    FitFacts(alts);
    var bars, g, its := BarsOf(alts, 0, 0), GroupAlt(alts), GroupItems(alts);
    var rest := BranchesOf(its, GroupStart(alts), 0);
    BarsDistinct(alts, 0, 0);
    Parted(bars, g);
    forall k ensures Of(SortFrom(bars[..g] + rest + bars[g..], 0), k) == Of(bars + rest, k) {
      GroupBars(its, GroupStart(alts), 0, k, |bars| - g);
      KeptBetween(bars, g, rest, k);
    }
    BranchesSorted(bars[..g] + rest + bars[g..]);
    InOrder(bars, rest);
    SortedByBrackets(SortFrom(bars[..g] + rest + bars[g..], 0), bars + rest);
  }

  lemma {:induction false} KeptBetween(bars: seq<Branch>, g: nat, rest: seq<Branch>, k: int)
    requires AllOf(bars, 0) && g <= |bars| && Sorted(rest) && forall j :: 0 <= j < |rest| ==> 0 < rest[j].bracketIndex
    requires var own := Of(rest, k);
      && (own == [] || (|bars| - g) % |own| == 0)
      && forall x, y :: 0 <= x < y < |own| ==> own[x] != own[y]
    ensures Of(SortFrom(bars[..g] + rest + bars[g..], 0), k) == Of(bars + rest, k)
  {
    hide SortFrom, Of, Rotated, AllOf;
    var a, z, own := bars[..g], bars[g..], Of(rest, k);
    Parted(bars, g);
    SortBetween(a, rest, z, k);
    OfJoined(a, z, k);
    OfJoined(bars, rest, k);
    OfAll(bars, 0, k);
    OfAll(z, 0, k);
    if k > 0 {
      RotatedKept(own, |z|);
      assert [] + own == own;
    } else {
      HigherNone(rest, k);
      assert Of(a, k) + [] == Of(a, k) && Of(bars, k) + [] == Of(bars, k);
    }
  }

  lemma {:induction false} FitFacts(alts: seq<Alternative>)
    requires FlatRegex(alts)
    ensures alts != []
    ensures forall j :: 0 <= j < |GroupItems(alts)| ==> GroupFits(GroupItems(alts)[j], |alts| - 1 - GroupAlt(alts))
  {
    hide FlatTop, HasGroup, StartsWithBol, GroupAlt;
  }

  lemma {:induction false} Parted(bars: seq<Branch>, g: nat)
    requires AllOf(bars, 0) && g <= |bars|
    ensures AllOf(bars[..g], 0) && AllOf(bars[g..], 0) && |bars[g..]| == |bars| - g && bars[..g] + bars[g..] == bars
  {
  }

  lemma {:induction false} InOrder(bars: seq<Branch>, rest: seq<Branch>)
    requires AllOf(bars, 0) && Sorted(rest) && forall j :: 0 <= j < |rest| ==> 0 < rest[j].bracketIndex
    ensures Sorted(bars + rest)
  {
  }

  /** The tables of a flat expression are exact: bracket 0 spans the pattern and holds the top-level
      alternatives, and the other brackets are, in order, the groups of the alternative that has any. */
  lemma {:induction false} TablesExact(alts: seq<Alternative>, numCaps: int, spare: int)
    requires FlatRegex(alts) && Compile(RenderAlts(alts), numCaps).Scanned?
    ensures var tb := Setup(Compile(RenderAlts(alts), numCaps).state, spare);
      && tb.WellFormed() && 0 < |tb.brackets|
      && BracketIs(tb, 0, 0, alts)
      && GroupsAt(tb, GroupItems(alts), GroupStart(alts), 0)
  {
    hide Scan, RenderAlts, RenderSeq, AltStart, BarsOf, BracketsOf, FlatRegex, BranchesOf, BracketIs, GroupsAt,
      SliceFrom, SortFrom, GroupAlt;
    ScanRegex(alts, numCaps);
    FlatSort(alts);
    var st, start := Compile(RenderAlts(alts), numCaps).state, GroupStart(alts);
    assert alts != [] by { FlatRegexNonempty(alts); }
    var bars, rest := BarsOf(alts, 0, 0), BranchesOf(GroupItems(alts), start, 0);
    var tb := Setup(st, spare);
    SetupExact(st, spare);
    assert tb.branches == bars + rest;
    assert tb.branches == [] + bars + rest;
    BracketFound(tb, 0, alts, 0, [], rest);
    GroupsFound(tb, GroupItems(alts), start, 0, bars);
  }

  lemma {:induction false} FlatRegexNonempty(alts: seq<Alternative>)
    requires FlatRegex(alts)
    ensures alts != []
  {
  }
}
