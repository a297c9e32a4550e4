/** Alternatives without groups: exact, as long as only the last one can match the empty text. */
module SlreAlternatives {
  import opened Bytes
  import opened SlreTables
  import opened SlreScan
  import opened SlreMatcher
  import opened SlreSyntax
  import opened SlreSoundness
  import opened SlreParsing
  import opened SlreExactness
  import T = SlreTheorems
  import E = SlreEngine

  /** Some item takes a byte. */
  predicate TakesByte(its: seq<Item>) {
    exists k :: 0 <= k < |its| && its[k].Single? && (its[k].q.One? || its[k].q.OneMore?)
  }

  /** Simple alternatives, all but the last with an item that takes a byte, and none with `^`. */
  ghost predicate SimpleAlts(alts: seq<Alternative>) {
    && alts != []
    && (forall k :: 0 <= k < |alts| ==> Simple(alts[k].items) && !StartsWithBol(alts[k].items))
    && forall k :: 0 <= k < |alts| - 1 ==> TakesByte(alts[k].items)
  }

  /** Some alternative from the `k`-th on has a match that starts here. */
  ghost predicate AnyCanMatch(alts: seq<Alternative>, k: nat, t: Text, fold: bool, i: int) {
    exists a :: k <= a < |alts| && CanMatch(alts[a].items, t, fold, i)
  }

  lemma {:induction false} SimpleIsFlat(alts: seq<Alternative>)
    requires SimpleAlts(alts)
    ensures FlatRegex(alts) && forall k :: 0 <= k < |alts| ==> !HasGroup(alts[k].items)
  {
    hide FlatTop;
    assert forall k :: 0 <= k < |alts| ==> Simple(alts[k].items) && !HasGroup(alts[k].items);
    NoGroupAlt(alts);
  }

  lemma {:induction false} NoGroupAlt(alts: seq<Alternative>)
    requires alts != [] && forall k :: 0 <= k < |alts| ==> !HasGroup(alts[k].items)
    ensures GroupAlt(alts) == |alts| - 1
    decreases |alts|
  {
    hide HasGroup;
    if |alts| > 1 {
      assert forall k :: 0 <= k < |alts[1..]| ==> alts[1..][k] == alts[k + 1];
      NoGroupAlt(alts[1..]);
    }
  }

  /** A match of such an alternative is not empty. */
  lemma {:induction false} TakesOne(its: seq<Item>, t: Text, fold: bool, i: int, e: int)
    requires TakesByte(its) && Simple(its) && 0 <= i <= e <= |t| && Matches(its, t, fold, i, e)
    ensures i < e
    decreases |its|
  {
    hide Simple;
    SimpleNonempty(its);
    var k := FirstMatch(its, t, fold, i, e);
    if its[0].Single? && (its[0].q.One? || its[0].q.OneMore?) {
      ItemTakes(its[0], t, fold, i, k);
    } else {
      var j :| 0 <= j < |its| && its[j].Single? && (its[j].q.One? || its[j].q.OneMore?);
      assert its[1..][j - 1] == its[j];
      TakesOne(its[1..], t, fold, k, e);
    }
  }

  lemma {:induction false} SimpleNonempty(its: seq<Item>)
    requires TakesByte(its) && Simple(its)
    ensures its != [] && Simple(its[1..])
  {
    SimpleTail(its);
  }

  lemma {:induction false} ItemTakes(it: Item, t: Text, fold: bool, i: int, e: int)
    requires it.Single? && (it.q.One? || it.q.OneMore?) && 0 <= i <= |t| && MatchesItem(it, t, fold, i, e)
    ensures i < e
  {
    if it.q.OneMore? {
      var n: nat :| 0 < n && Iterates(it, n, t, fold, i, e);
      SingleIterates(it, n, t, fold, i, e);
    }
  }

  // ---- The scan -----------------------------------------------------------------------------------

  /** A pattern without groups is accepted if and only if the branch table has room for its bars. */
  lemma {:induction false} AltsAccepted(alts: seq<Alternative>, numCaps: int)
    requires FlatRegex(alts) && forall k :: 0 <= k < |alts| ==> !HasGroup(alts[k].items)
    ensures Compile(RenderAlts(alts), numCaps) ==
      if |alts| - 1 <= MAX_BRANCHES then
        Scanned(ScanState([Bracket(0, |RenderAlts(alts)|, 0, 0)], BarsOf(alts, 0, 0), 0))
      else Rejected(TOO_MANY_BRANCHES)
  {
    hide Scan, RenderAlts, RenderSeq, AltStart, BarsOf, FlatTop, HasGroup, Simple;
    AllTop(alts);
    var p := RenderAlts(alts);
    var st := InitialScan(p);
    assert p[0..0 + |p|] == p;
    var a := if |alts| - 1 <= MAX_BRANCHES then |alts| - 1 else MAX_BRANCHES;
    ScanAlts(p, 0, st, numCaps, alts, a);
    var bars := BarsOf(alts, 0, 0);
    assert [] + bars[..a] == bars[..a];
    var st1 := st.(branches := bars[..a]);
    AltsLayout(alts, a);
    PieceWritten(p, alts, a, 0);
    var i := AltStart(alts, a);
    ScanGroupless(p, i, st1, numCaps, alts[a].items);
    if |alts| - 1 <= MAX_BRANCHES {
      assert bars[..a] == bars;
      ScanEnd(p, st1, numCaps);
    } else {
      var bar := i + |RenderSeq(alts[a].items)|;
      assert p[bar] == PIPE;
      BarRejected(p, bar, st1, numCaps);
    }
  }

  lemma {:induction false} AllTop(alts: seq<Alternative>)
    requires FlatRegex(alts)
    ensures forall k :: 0 <= k < |alts| ==> FlatTop(alts[k].items)
  {
  }

  lemma {:induction false} BarRejected(p: Text, i: nat, st: ScanState, numCaps: int)
    requires st.WellFormed() && i < |p| && p[i] == PIPE && |st.branches| == MAX_BRANCHES
    ensures Scan(p, i, st, numCaps) == Rejected(TOO_MANY_BRANCHES)
  {
  }

  // ---- The search ---------------------------------------------------------------------------------

  /** Some match of an alternative ends here. */
  ghost predicate RegexEnds(alts: seq<Alternative>, t: Text, fold: bool, i: int, e: int) {
    i <= e <= |t| && MatchesRegex(alts, t, fold, i, e)
  }

  lemma {:induction false} DohFromExact(e: Env, alts: seq<Alternative>, so: int, m: int, i: nat)
    requires SimpleAlts(alts) && AltsSituated(e, alts, so, m, 0, 0) && so + m == |e.t| && i < |alts|
    ensures var r := DohFrom(e, so, m, 0, i);
      && (r >= 0 <==> AnyCanMatch(alts, i, e.t, e.fold, so))
      && (r >= 0 ==> RegexEnds(alts, e.t, e.fold, so, so + r))
    decreases |alts| - i
  {
    hide Bar, RenderSeq, RenderAlts, Matches, FlatTop, GroupsAt, Written, SeesEnd, HasGroup, Simple, AltStart, CanMatch,
      BracketIs, Situated, StartsWithBol, TakesByte;
    var its, lo, n := alts[i].items, 0 + AltStart(alts, i), |RenderSeq(alts[i].items)|;
    WholeBracket(e.tb, alts);
    PieceLocated(e.tb, alts, 0, 0, i);
    assert Situated(e, its, lo, n, so, m, 0);
    PieceExact(e, its, lo, n, so, m);
    var r := Bar(e, lo, n, so, m, 0, 0);
    AnySplit(alts, i, e.t, e.fold, so);
    if r > 0 {
      assert MatchesRegex(alts, e.t, e.fold, so, so + r);
    } else if i + 1 < |alts| {
      if r == 0 {
        TakesOne(its, e.t, e.fold, so, so);
        assert false;
      }
      DohFromExact(e, alts, so, m, i + 1);
    } else if r == 0 {
      assert MatchesRegex(alts, e.t, e.fold, so, so + r);
    }
  }

  lemma {:induction false} AnySplit(alts: seq<Alternative>, k: nat, t: Text, fold: bool, i: int)
    requires k < |alts|
    ensures AnyCanMatch(alts, k, t, fold, i) <==>
      CanMatch(alts[k].items, t, fold, i) || AnyCanMatch(alts, k + 1, t, fold, i)
  {
    hide CanMatch;
  }

  /** `bar` finds a match of the alternative if and only if there is one. */
  lemma {:induction false} PieceExact(e: Env, its: seq<Item>, lo: int, n: int, so: int, m: int)
    requires Simple(its) && Situated(e, its, lo, n, so, m, 0) && so + m == |e.t|
    ensures var r := Bar(e, lo, n, so, m, 0, 0);
      && (r >= 0 <==> CanMatch(its, e.t, e.fold, so))
      && (r >= 0 ==> 0 <= so <= so + r <= |e.t| && Matches(its, e.t, e.fold, so, so + r))
  {
    hide Bar, RenderSeq, RenderAlts, Matches, FlatTop, GroupsAt, Written, SeesEnd, HasGroup, Simple, CanMatch;
    BarSound(e, its, lo, n, so, m, 0, 0);
    var r := Bar(e, lo, n, so, m, 0, 0);
    if r >= 0 {
      Witnessed(its, e.t, e.fold, so, so + r);
    } else if CanMatch(its, e.t, e.fold, so) {
      BarComplete(e, its, lo, n, so, m, 0, 0);
    }
  }

  lemma {:induction false} AltsSearch(alts: seq<Alternative>, e: Env, i: nat)
    requires SimpleAlts(alts) && FlatRegex(alts) && e.p == RenderAlts(alts) && e.tb.WellFormed() && 0 < |e.tb.brackets|
    requires BracketIs(e.tb, 0, 0, alts) && GroupsAt(e.tb, GroupItems(alts), GroupStart(alts), 0) && i <= |e.t|
    ensures var r := BazFrom(e, i);
      if r >= 0 then
        exists s :: i <= s <= r && RegexEnds(alts, e.t, e.fold, s, r)
                    && forall x :: i <= x < s ==> !AnyCanMatch(alts, 0, e.t, e.fold, x)
      else forall x :: i <= x <= |e.t| ==> !AnyCanMatch(alts, 0, e.t, e.fold, x)
    decreases |e.t| - i
  {
    hide Bar, DohFrom, RenderAlts, RenderSeq, AltStart, GroupsAt, FlatRegex, BracketIs, MatchesRegex, AnyCanMatch,
      Simple, TakesByte;
    T.TopSituated(alts, e, i);
    DohFromExact(e, alts, i, |e.t| - i, 0);
    var r := Doh(e, i, |e.t| - i, 0);
    assert r == DohFrom(e, i, |e.t| - i, 0, 0);
    WholeBracket(e.tb, alts);
    T.AnchorSeen(alts, e);
    if r >= 0 {
      assert BazFrom(e, i) == i + r && RegexEnds(alts, e.t, e.fold, i, i + r);
    } else if i < |e.t| {
      AltsSearch(alts, e, i + 1);
    }
  }

  lemma {:induction false} WholeBracket(tb: Tables, alts: seq<Alternative>)
    requires tb.WellFormed() && 0 < |tb.brackets| && BracketIs(tb, 0, 0, alts)
    ensures tb.brackets[0].ptr == 0 && tb.brackets[0].numBranches == |alts| - 1
  {
  }

  /** Exactness: `slre_match` succeeds if and only if some stretch of the text matches an alternative, and reports a
      match that starts where the first such stretch does; with too many alternatives it rejects the pattern. */
  lemma {:induction false} AltsExact(alts: seq<Alternative>, t: Text, numCaps: int, fold: bool, spare: int)
    requires SimpleAlts(alts)
    ensures var r := E.MatchResult(RenderAlts(alts), t, numCaps, fold, spare);
      if |alts| - 1 > MAX_BRANCHES then r == Some(TOO_MANY_BRANCHES)
      else
        && r.Some?
        && (r.value >= 0 <==> exists s :: 0 <= s <= |t| && AnyCanMatch(alts, 0, t, fold, s))
        && (r.value >= 0 ==>
              exists s :: 0 <= s <= r.value && RegexEnds(alts, t, fold, s, r.value)
                          && forall x :: 0 <= x < s ==> !AnyCanMatch(alts, 0, t, fold, x))
  {
    hide Scan, Setup, RenderAlts, RenderSeq, AltStart, FlatRegex, BracketIs, GroupsAt, BazFrom, MatchesRegex,
      AnyCanMatch, BarsOf, Simple, TakesByte;
    SimpleIsFlat(alts);
    AltsAccepted(alts, numCaps);
    if |alts| - 1 <= MAX_BRANCHES {
      TablesExact(alts, numCaps, spare);
      var e := Env(RenderAlts(alts), t, fold, Setup(Compile(RenderAlts(alts), numCaps).state, spare));
      AltsSearch(alts, e, 0);
      var r := BazFrom(e, 0);
      if r >= 0 {
        var s :| 0 <= s <= r && RegexEnds(alts, t, fold, s, r);
        EndsCanMatch(alts, t, fold, s, r);
      }
    }
  }

  lemma {:induction false} EndsCanMatch(alts: seq<Alternative>, t: Text, fold: bool, s: int, e: int)
    requires RegexEnds(alts, t, fold, s, e)
    ensures AnyCanMatch(alts, 0, t, fold, s)
  {
    var k :| 0 <= k < |alts| && Matches(alts[k].items, t, fold, s, e);
    Witnessed(alts[k].items, t, fold, s, e);
  }
}
