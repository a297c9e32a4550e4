/** Without groups and `|`, and with `?` only where taking the byte commits to nothing, the matcher is exact: it
    finds a match whenever there is one. */
module SlreExactness {
  import opened Bytes
  import opened SlreTables
  import opened SlreScan
  import opened SlreMatcher
  import opened SlreSyntax
  import opened SlreSoundness
  import opened SlreParsing
  import E = SlreEngine

  /** Atoms, plain or quantified, between an optional `^` and `$`; a byte that an option takes is of no use to
      what follows it. */
  ghost predicate Simple(its: seq<Item>) {
    FlatTop(its) && forall k :: 0 <= k < |its| ==> !its[k].Group? && (QuantOf(its[k]).Opt? ==> Committed(its, k))
  }

  /** Behind item `k` the sequence ends, or the text has to, or an atom follows that accepts no byte item `k` does. */
  ghost predicate Committed(its: seq<Item>, k: nat)
    requires k < |its|
  {
    k + 1 < |its| ==>
      var next := its[k + 1];
      next.Eol? || (next.Single? && its[k].Single? && (next.q.One? || next.q.OneMore?) && Apart(its[k].a, next.a))
  }

  ghost predicate Apart(a: Atom, b: Atom) {
    forall fold: bool, c: Byte :: !(Accepts(a, fold, c) && Accepts(b, fold, c))
  }

  lemma {:induction false} ApartAt(a: Atom, b: Atom, fold: bool, c: Byte)
    requires Apart(a, b)
    ensures !(Accepts(a, fold, c) && Accepts(b, fold, c))
  {
  }

  ghost predicate CanMatch(its: seq<Item>, t: Text, fold: bool, i: int) {
    exists e :: i <= e <= |t| && Matches(its, t, fold, i, e)
  }

  /** Every byte of `t[i..e]` is accepted by the atom. */
  ghost predicate AllAccepted(a: Atom, t: Text, fold: bool, i: int, e: int) {
    0 <= i <= e <= |t| && forall x :: i <= x < e ==> Accepts(a, fold, t[x])
  }

  lemma {:induction false} SingleIterates(it: Item, n: nat, t: Text, fold: bool, i: int, e: int)
    requires it.Single? && 0 <= i <= |t| && Iterates(it, n, t, fold, i, e)
    ensures e == i + n && AllAccepted(it.a, t, fold, i, e)
    decreases n
  {
    if n > 0 {
      var k :| i <= k <= e && Iterates(it, n - 1, t, fold, i, k) && MatchesBase(it, t, fold, k, e);
      SingleIterates(it, n - 1, t, fold, i, k);
    }
  }

  lemma {:induction false} SimpleTail(its: seq<Item>)
    requires its != [] && Simple(its)
    ensures Simple(its[1..]) && !HasGroup(its)
  {
  }

  /** `bar` on a single atom takes one byte exactly when the atom accepts it. */
  lemma {:induction false} AtomCall(e: Env, its: seq<Item>, lo: int, n: int, so: int, m: int, bi: nat, j: int)
    requires its != [] && Situated(e, its, lo, n, so, m, bi) && its[0].Single? && 0 <= j <= m
    ensures var r := Bar(e, lo, |RenderBase(its[0])|, so + j, m - j, bi, 0);
      if j < m && Accepts(its[0].a, e.fold, e.t[so + j]) then r == 1 else r == -1
  {
    hide Bar, RenderSeq, RenderItem, RenderBase, RenderAlts, FlatTop, GroupsAt, HasGroup, SeesEnd, Accepts, Written;
    var one, step := [Unquantified(its[0])], |RenderBase(its[0])|;
    AloneSituated(e, its, lo, n, so, m, bi, so + j, m - j);
    SameBase(its[0]);
    AtomStep(e, one, lo, step, so + j, m - j, bi, 0);
    if j < m {
      BarOver(e, lo + step, 0, so + j, m - j, bi, 1);
    }
  }

  lemma {:induction false} SameBase(it: Item)
    ensures RenderBase(Unquantified(it)) == RenderBase(it)
  {
  }

  /** Completeness of `bar` on a simple sequence at the end of the text. */
  lemma {:induction false} BarComplete(e: Env, its: seq<Item>, lo: int, n: int, so: int, m: int, bi: nat, j: int)
    requires Situated(e, its, lo, n, so, m, bi) && 0 <= j <= m && so + m == |e.t| && Simple(its)
    requires CanMatch(its, e.t, e.fold, so + j)
    ensures Bar(e, lo, n, so, m, bi, j) >= 0
    decreases |its|, 3
  {
    hide Bar, Round, RenderSeq, RenderAlts, RenderBase, RenderItem, FlatTop, GroupsAt, HasGroup, SeesEnd, Written,
      MatchesItem, Seen;
    if its == [] {
      NoPattern(e, its, lo, n, so, m, bi, j);
    } else {
      var x :| so + j <= x <= |e.t| && Matches(its, e.t, e.fold, so + j, x);
      var k := FirstMatch(its, e.t, e.fold, so + j, x);
      assert CanMatch(its[1..], e.t, e.fold, k);
      SimpleTail(its);
      if QuantOf(its[0]).One? {
        OneComplete(e, its, lo, n, so, m, bi, j, k);
      } else if QuantOf(its[0]).Opt? {
        OptionComplete(e, its, lo, n, so, m, bi, j, k);
      } else {
        RepeatComplete(e, its, lo, n, so, m, bi, j, k);
      }
    }
  }

  lemma {:induction false} FirstMatch(its: seq<Item>, t: Text, fold: bool, i: int, e: int) returns (k: int)
    requires its != [] && Matches(its, t, fold, i, e)
    ensures i <= k <= e && MatchesItem(its[0], t, fold, i, k) && Matches(its[1..], t, fold, k, e)
  {
    k :| i <= k <= e && MatchesItem(its[0], t, fold, i, k) && Matches(its[1..], t, fold, k, e);
  }

  lemma {:induction false} NoPattern(e: Env, its: seq<Item>, lo: int, n: int, so: int, m: int, bi: nat, j: int)
    requires Situated(e, its, lo, n, so, m, bi) && 0 <= j <= m && its == []
    ensures Bar(e, lo, n, so, m, bi, j) == j
  {
  }

  lemma {:induction false} OneComplete(e: Env, its: seq<Item>, lo: int, n: int, so: int, m: int, bi: nat, j: int,
                                       k: int)
    requires its != [] && Situated(e, its, lo, n, so, m, bi) && 0 <= j <= m && so + m == |e.t| && Simple(its)
    requires QuantOf(its[0]).One? && so + j <= k <= |e.t|
    requires MatchesItem(its[0], e.t, e.fold, so + j, k) && CanMatch(its[1..], e.t, e.fold, k)
    ensures Bar(e, lo, n, so, m, bi, j) >= 0
    decreases |its|, 0
  {
    hide Bar, RenderSeq, RenderItem, RenderAlts, FlatTop, GroupsAt, HasGroup, SeesEnd, CanMatch, MatchesItem;
    SimpleTail(its);
    OneStep(e, its, lo, n, so, m, bi, j, k);
    TailSituated(e, its, lo, n, so, m, bi, so, m);
    var d := |RenderItem(its[0])|;
    BarComplete(e, its[1..], lo + d, n - d, so, m, bi, k - so);
  }

  /** An unquantified item that matches is stepped over. */
  lemma {:induction false} OneStep(e: Env, its: seq<Item>, lo: int, n: int, so: int, m: int, bi: nat, j: int, k: int)
    requires its != [] && Situated(e, its, lo, n, so, m, bi) && 0 <= j <= m && so + m == |e.t|
    requires !its[0].Group? && QuantOf(its[0]).One? && so + j <= k <= |e.t|
    requires MatchesItem(its[0], e.t, e.fold, so + j, k)
    ensures var d := |RenderItem(its[0])|;
      Bar(e, lo, n, so, m, bi, j) == Bar(e, lo + d, n - d, so, m, bi, k - so)
  {
    hide Bar, RenderSeq, RenderItem, RenderAlts, FlatTop, GroupsAt, HasGroup, SeesEnd, Accepts, Seen, Written;
    if its[0].Single? {
      AtomStep(e, its, lo, n, so, m, bi, j);
    } else {
      ItemSeen(e, its, lo, n, so, m, bi);
      HeadFacts(e, its, lo, n, so, m, bi);
      AnchorSize(its[0]);
      BarAtAnchor(e, its[0], lo, n, so, m, bi, j);
    }
  }

  lemma {:induction false} AnchorSize(it: Item)
    requires it.Bol? || it.Eol?
    ensures |RenderItem(it)| == 1
  {
  }

  /** If the byte is taken, what follows cannot have needed it. */
  lemma {:induction false} TakenOrUseless(its: seq<Item>, t: Text, fold: bool, i: int, k: int)
    requires its != [] && Simple(its) && QuantOf(its[0]).Opt? && 0 <= i <= k <= |t|
    requires MatchesItem(its[0], t, fold, i, k) && CanMatch(its[1..], t, fold, k)
    ensures its[0].Single?
    ensures CanMatch(its[1..], t, fold, if i < |t| && Accepts(its[0].a, fold, t[i]) then i + 1 else i)
  {
    hide Accepts, Apart, FlatTop;
    var a, rest := its[0].a, its[1..];
    if k == i && i < |t| && Accepts(a, fold, t[i]) {
      assert Committed(its, 0);
      if rest == [] {
        Witnessed(rest, t, fold, i + 1, i + 1);
      } else {
        assert rest[0] == its[1];
        var e :| i <= e <= |t| && Matches(rest, t, fold, i, e);
        var l := FirstMatch(rest, t, fold, i, e);
        NeedsByte(rest[0], t, fold, i, l);
        ApartAt(a, rest[0].a, fold, t[i]);
      }
    }
  }

  lemma {:induction false} NeedsByte(it: Item, t: Text, fold: bool, i: int, e: int)
    requires 0 <= i < |t| && MatchesItem(it, t, fold, i, e)
    requires it.Eol? || (it.Single? && (it.q.One? || it.q.OneMore?))
    ensures it.Single? && Accepts(it.a, fold, t[i])
  {
    if it.Single? && it.q.OneMore? {
      var n: nat :| 0 < n && Iterates(it, n, t, fold, i, e);
      SingleIterates(it, n, t, fold, i, e);
    }
  }

  lemma {:induction false} OptionComplete(e: Env, its: seq<Item>, lo: int, n: int, so: int, m: int, bi: nat, j: int,
                                          k: int)
    requires its != [] && Situated(e, its, lo, n, so, m, bi) && 0 <= j <= m && so + m == |e.t| && Simple(its)
    requires QuantOf(its[0]).Opt? && so + j <= k <= |e.t|
    requires MatchesItem(its[0], e.t, e.fold, so + j, k) && CanMatch(its[1..], e.t, e.fold, k)
    ensures Bar(e, lo, n, so, m, bi, j) >= 0
    decreases |its|, 1
  {
    hide Bar, Round, RenderSeq, RenderAlts, RenderBase, RenderItem, FlatTop, GroupsAt, HasGroup, SeesEnd, CanMatch,
      Seen, Written, Accepts, Committed;
    var it := its[0];
    SimpleTail(its);
    TakenOrUseless(its, e.t, e.fold, so + j, k);
    ItemSeen(e, its, lo, n, so, m, bi);
    BarAtOption(e, it, lo, n, so, m, bi, j);
    AtomCall(e, its, lo, n, so, m, bi, j);
    var d := |RenderItem(it)|;
    TailSituated(e, its, lo, n, so, m, bi, so, m);
    var taken := so + j < |e.t| && Accepts(it.a, e.fold, e.t[so + j]);
    BarComplete(e, its[1..], lo + d, n - d, so, m, bi, if taken then j + 1 else j);
  }

  lemma {:induction false} RepeatComplete(e: Env, its: seq<Item>, lo: int, n: int, so: int, m: int, bi: nat, j: int,
                                          k: int)
    requires its != [] && Situated(e, its, lo, n, so, m, bi) && 0 <= j <= m && so + m == |e.t| && Simple(its)
    requires QuantOf(its[0]).ZeroMore? || QuantOf(its[0]).OneMore?
    requires so + j <= k <= |e.t|
    requires MatchesItem(its[0], e.t, e.fold, so + j, k) && CanMatch(its[1..], e.t, e.fold, k)
    ensures Bar(e, lo, n, so, m, bi, j) >= 0
    decreases |its|, 2
  {
    hide Bar, Round, RepeatLap, RepeatLoop, RenderSeq, RenderAlts, RenderBase, RenderItem, FlatTop, GroupsAt, HasGroup,
      SeesEnd, CanMatch, Seen, Written;
    var it, step, ni := its[0], |RenderBase(its[0])|, |RenderItem(its[0])|;
    assert it.Single?;
    var count: nat :| Iterates(it, count, e.t, e.fold, so + j, k) && (QuantOf(it).OneMore? ==> 0 < count);
    SingleIterates(it, count, e.t, e.fold, so + j, k);
    ItemSeen(e, its, lo, n, so, m, bi);
    BarAtRepeat(e, it, lo, n, so, m, bi, j);
    SimpleTail(its);
    LoopEnds(e, its, lo, n, so, m, bi, j, j, j, -1);
    var l := RepeatLoop(e, lo, n, so, m, bi, j, step, j, j, -1);
    if count > 0 {
      LoopFinds(e, its, lo, n, so, m, bi, j, j, j, -1, k - so);
    } else {
      TailSituated(e, its, lo, n, so, m, bi, so + j, m - j);
      BarComplete(e, its[1..], lo + ni, n - ni, so + j, m - j, bi, 0);
    }
  }

  /** Rest of the region behind `k` bytes: found if it can match there. */
  lemma {:induction false} RestComplete(e: Env, its: seq<Item>, lo: int, n: int, so: int, m: int, bi: nat, k: int)
    requires its != [] && Situated(e, its, lo, n, so, m, bi) && 0 <= k <= m && so + m == |e.t| && Simple(its)
    requires its[0].Single? && CanMatch(its[1..], e.t, e.fold, so + k)
    ensures var ni := |RenderItem(its[0])|; ni <= n && Bar(e, lo + ni, n - ni, so + k, m - k, bi, 0) >= 0
    decreases |its|, 0
  {
    hide Bar, Round, RenderSeq, RenderAlts, RenderBase, RenderItem, FlatTop, GroupsAt, HasGroup, SeesEnd, CanMatch,
      Written;
    SimpleTail(its);
    SplitRendering(e.p, lo, n, its);
    TailSituated(e, its, lo, n, so, m, bi, so + k, m - k);
    var ni := |RenderItem(its[0])|;
    BarComplete(e, its[1..], lo + ni, n - ni, so + k, m - k, bi, 0);
  }

  /** If the loop ends without having moved on, its last operand match failed. */
  lemma {:induction false} LoopEnds(e: Env, its: seq<Item>, lo: int, n: int, so: int, m: int, bi: nat, j: int,
                                    j2: int, nj: int, n2: int)
    requires its != [] && Situated(e, its, lo, n, so, m, bi) && 0 <= j <= j2 <= m && j <= nj <= m + 1
    requires its[0].Single? && (QuantOf(its[0]).ZeroMore? || QuantOf(its[0]).OneMore?)
    ensures var step := |RenderBase(its[0])|;
      && 0 < step < n
      && var l := RepeatLoop(e, lo, n, so, m, bi, j, step, j2, nj, n2);
      && j <= l.nj
      && (l.n1 >= 0 ==> l.nj > j)
      && (l.n1 < 0 || l.nj > j)
    decreases m - j2
  {
    hide Bar, Round, RepeatLoop, RenderSeq, RenderAlts, RenderBase, RenderItem, FlatTop, GroupsAt, HasGroup, SeesEnd,
      Seen, Written;
    var it, step := its[0], |RenderBase(its[0])|;
    ItemSeen(e, its, lo, n, so, m, bi);
    BarAtRepeat(e, it, lo, n, so, m, bi, j);
    AtomCall(e, its, lo, n, so, m, bi, j2);
    RepeatLoopLap(e, lo, n, so, m, bi, j, step, j2, nj, n2);
    match RepeatLap(e, lo, n, so, m, bi, j, step, j2, nj, n2)
    case Stop(l) =>
    case Again(k, nj', n2') => LoopEnds(e, its, lo, n, so, m, bi, j, k, nj', n2');
  }

  /** The loop moves on if the rest can match behind some nonempty run of accepted bytes. */
  lemma {:induction false} LoopFinds(e: Env, its: seq<Item>, lo: int, n: int, so: int, m: int, bi: nat, j: int,
                                     j2: int, nj: int, n2: int, target: int)
    requires its != [] && Situated(e, its, lo, n, so, m, bi) && so + m == |e.t| && Simple(its)
    requires its[0].Single? && (QuantOf(its[0]).ZeroMore? || QuantOf(its[0]).OneMore?)
    requires 0 <= j <= j2 <= m && j <= nj <= m + 1 && (nj > j ==> j2 > j)
    requires j < target <= m && AllAccepted(its[0].a, e.t, e.fold, so + j, so + target)
    requires CanMatch(its[1..], e.t, e.fold, so + target)
    requires nj > j || j2 < target
    ensures var step := |RenderBase(its[0])|;
      && 0 < step < n
      && RepeatLoop(e, lo, n, so, m, bi, j, step, j2, nj, n2).nj > j
    decreases |its|, 1, m - j2
  {
    hide Bar, Round, RepeatLoop, RenderSeq, RenderAlts, RenderBase, RenderItem, FlatTop, GroupsAt, HasGroup, SeesEnd,
      Seen, Written, CanMatch;
    var it, step := its[0], |RenderBase(its[0])|;
    ItemSeen(e, its, lo, n, so, m, bi);
    BarAtRepeat(e, it, lo, n, so, m, bi, j);
    AtomCall(e, its, lo, n, so, m, bi, j2);
    RestComplete(e, its, lo, n, so, m, bi, target);
    RepeatLoopLap(e, lo, n, so, m, bi, j, step, j2, nj, n2);
    match RepeatLap(e, lo, n, so, m, bi, j, step, j2, nj, n2)
    case Stop(l) =>
    case Again(k, nj', n2') => LoopFinds(e, its, lo, n, so, m, bi, j, k, nj', n2', target);
  }

  // ---- From the whole pattern to the whole text -----------------------------------------------

  /** The tables of a simple sequence: one bracket, no branches. */
  function PlainTables(p: Text, spare: int): Tables {
    Tables([Bracket(0, |p|, 0, 0)], [], spare)
  }

  lemma {:induction false} SimpleTables(its: seq<Item>, numCaps: int, spare: int)
    requires Simple(its)
    ensures var p := RenderSeq(its);
      && Compile(p, numCaps).Scanned?
      && Setup(Compile(p, numCaps).state, spare) == PlainTables(p, spare)
  {
    hide Scan, RenderSeq, FlatTop;
    var p := RenderSeq(its);
    assert p[0..0 + |p|] == p;
    assert !HasGroup(its);
    ScanGroupless(p, 0, InitialScan(p), numCaps, its);
    ScanEnd(p, InitialScan(p), numCaps);
    OneBracket(p, spare);
  }

  lemma {:induction false} OneBracket(p: Text, spare: int)
    ensures Setup(InitialScan(p), spare) == PlainTables(p, spare)
  {
    var bs := [Bracket(0, |p|, 0, 0)];
    assert bs[0 := bs[0].(branches := 0, numBranches := 0)] == bs;
    assert RunEnd([], 0, 0) == 0 && SliceFrom(bs, [], 1, 0) == bs;
    assert SliceFrom(bs, [], 0, 0) == SliceFrom(bs, [], 1, 0);
  }

  lemma {:induction false} SimpleSituated(its: seq<Item>, e: Env, i: nat)
    requires Simple(its) && e.p == RenderSeq(its) && e.tb.WellFormed() && 0 < |e.tb.brackets|
    requires i <= |e.t| && (StartsWithBol(its) ==> i == 0)
    ensures Situated(e, its, 0, |e.p|, i, |e.t| - i, 0)
  {
    hide RenderSeq, FlatTop;
    assert e.p[0..0 + |e.p|] == e.p;
    assert !HasGroup(its);
    GroupsAtNone(e.tb, its, 0, 0);
  }

  lemma {:induction false} BolOnlyAtStart(its: seq<Item>, t: Text, fold: bool, i: int)
    requires StartsWithBol(its) && CanMatch(its, t, fold, i)
    ensures i == 0
  {
    hide Matches;
    var e :| i <= e <= |t| && Matches(its, t, fold, i, e);
    var k := FirstMatch(its, t, fold, i, e);
  }

  /** Some match ends at `e`, and none starts at or behind `from` before it does. */
  ghost predicate FromFirstStart(its: seq<Item>, t: Text, fold: bool, from: int, e: int) {
    exists s :: from <= s <= e && Matches(its, t, fold, s, e) && forall x :: from <= x < s ==>
      !CanMatch(its, t, fold, x)
  }

  lemma {:induction false} SearchExact(its: seq<Item>, p: Text, t: Text, fold: bool, spare: int, i: nat)
    requires Simple(its) && p == RenderSeq(its) && i <= |t| && (StartsWithBol(its) ==> i == 0)
    ensures var r := BazFrom(Env(p, t, fold, PlainTables(p, spare)), i);
      if r >= 0 then r <= |t| && FromFirstStart(its, t, fold, i, r)
      else forall x :: i <= x <= |t| ==> !CanMatch(its, t, fold, x)
    decreases |t| - i
  {
    hide Bar, Round, RenderSeq, Simple, FlatTop, GroupsAt, Matches, CanMatch;
    var e := Env(p, t, fold, PlainTables(p, spare));
    var b := e.tb.brackets[0];
    SimpleSituated(its, e, i);
    var r := Bar(e, 0, |p|, i, |t| - i, 0, 0);
    assert DohFrom(e, i, |t| - i, 0, 0) == r;
    BarSound(e, its, 0, |p|, i, |t| - i, 0, 0);
    if CanMatch(its, t, fold, i) {
      BarComplete(e, its, 0, |p|, i, |t| - i, 0, 0);
    } else if r >= 0 {
      Witnessed(its, t, fold, i, i + r);
    }
    if r < 0 {
      AnchorOfSimple(its, e);
      if StartsWithBol(its) {
        forall x | i <= x <= |t| && CanMatch(its, t, fold, x) ensures false {
          BolOnlyAtStart(its, t, fold, x);
        }
      } else if i < |t| {
        SearchExact(its, p, t, fold, spare, i + 1);
      }
    }
  }

  lemma {:induction false} Witnessed(its: seq<Item>, t: Text, fold: bool, i: int, e: int)
    requires i <= e <= |t| && Matches(its, t, fold, i, e)
    ensures CanMatch(its, t, fold, i)
  {
  }

  lemma {:induction false} AnchorOfSimple(its: seq<Item>, e: Env)
    requires Simple(its) && e.p == RenderSeq(its) && e.tb.brackets == [Bracket(0, |e.p|, 0, 0)]
    ensures Anchored(e) <==> StartsWithBol(its)
  {
    hide RenderItem, RenderBase;
    if its != [] {
      FirstByte(its[0]);
      assert e.p == RenderItem(its[0]) + RenderSeq(its[1..]);
    }
  }

  /** Exactness: for a simple sequence, `slre_match` succeeds if and only if some stretch of the text is
      in its language, and then it reports a match that starts where the first such stretch starts. */
  lemma {:induction false} MatchExact(its: seq<Item>, t: Text, numCaps: int, fold: bool, spare: int)
    requires Simple(its)
    ensures var r := E.MatchResult(RenderSeq(its), t, numCaps, fold, spare);
      && r.Some?
      && (r.value >= 0 <==> exists s :: 0 <= s <= |t| && CanMatch(its, t, fold, s))
      && (r.value >= 0 ==> r.value <= |t| && FromFirstStart(its, t, fold, 0, r.value))
  {
    hide Bar, Round, RenderSeq, Simple, Matches, CanMatch, BazFrom, Scan, Setup;
    SimpleTables(its, numCaps, spare);
    var p := RenderSeq(its);
    SearchExact(its, p, t, fold, spare, 0);
    var r := E.MatchResult(p, t, numCaps, fold, spare).value;
    if r >= 0 {
      var s :| 0 <= s <= r && Matches(its, t, fold, s, r) && forall x :: 0 <= x < s ==> !CanMatch(its, t, fold, x);
      Witnessed(its, t, fold, s, r);
    }
  }
}
