/** The main results about `slre_match`. */
module SlreTheorems {
  import opened Bytes
  import opened SlreTables
  import opened SlreScan
  import opened SlreMatcher
  import opened SlreSyntax
  import opened SlreSoundness
  import opened SlreParsing
  import opened SlreSettled
  import opened SlreParens
  import opened SlreInStep
  import opened SlreFlat
  import opened SlreInside
  import E = SlreEngine

  /** The scan of a flat expression comes to an end. */
  lemma {:induction false} FlatScanEnds(alts: seq<Alternative>, numCaps: int)
    requires FlatRegex(alts)
    ensures !Compile(RenderAlts(alts), numCaps).Diverges?
  {
    hide FlatRegex, RenderAlts, BarsOf, BracketsOf, BranchesOf;
    if !Compile(RenderAlts(alts), numCaps).Rejected? {
      ScanRegex(alts, numCaps);
    }
  }

  lemma {:induction false} TopSituated(alts: seq<Alternative>, e: Env, i: nat)
    requires FlatRegex(alts) && e.p == RenderAlts(alts) && e.tb.WellFormed() && 0 < |e.tb.brackets|
    requires BracketIs(e.tb, 0, 0, alts) && GroupsAt(e.tb, GroupItems(alts), GroupStart(alts), 0)
    requires i <= |e.t| && (StartsWithBol(alts[0].items) ==> i == 0)
    ensures AltsSituated(e, alts, i, |e.t| - i, 0, 0)
  {
    hide RenderAlts, RenderSeq, AltStart, BracketIs, GroupsAt, FlatTop, HasGroup, SeesEnd, StartsWithBol, Written;
    forall a | 0 <= a < |alts|
      ensures Situated(e, alts[a].items, 0 + AltStart(alts, a), |RenderSeq(alts[a].items)|, i, |e.t| - i, 0)
    {
      assert e.p[0..0 + |RenderAlts(alts)|] == e.p;
      PieceWritten(e.p, alts, a, 0);
      if a != GroupAlt(alts) {
        GroupsAtNone(e.tb, alts[a].items, AltStart(alts, a), 0);
      }
    }
  }

  /** An expression that starts with `^` is anchored, and no other flat expression is. */
  lemma {:induction false} AnchorSeen(alts: seq<Alternative>, e: Env)
    requires FlatRegex(alts) && e.p == RenderAlts(alts)
    requires 0 < |e.tb.brackets| && e.tb.brackets[0].ptr == 0
    ensures Anchored(e) <==> StartsWithBol(alts[0].items)
  {
    hide FlatTop, HasGroup;
    var its, s := alts[0].items, RenderSeq(alts[0].items);
    AltsLayout(alts, 0);
    if its == [] {
      assert s == [];
      if |alts| > 1 {
        assert RenderAlts(alts)[AltStart(alts, 1) - 1] == PIPE;
      }
    } else {
      assert FlatItem(its[0], true) by { FlatFirst(its); }
      FirstByte(its[0]);
      assert s == RenderItem(its[0]) + RenderSeq(its[1..]);
      assert RenderAlts(alts)[0] == RenderAlts(alts)[0..|s|][0] == RenderItem(its[0])[0];
    }
  }

  lemma {:induction false} FlatFirst(its: seq<Item>)
    requires FlatTop(its) && its != []
    ensures FlatItem(its[0], true)
  {
  }

  lemma {:induction false} SearchSound(alts: seq<Alternative>, e: Env, i: nat)
    requires FlatRegex(alts) && e.p == RenderAlts(alts) && e.tb.WellFormed() && 0 < |e.tb.brackets|
    requires BracketIs(e.tb, 0, 0, alts) && GroupsAt(e.tb, GroupItems(alts), GroupStart(alts), 0)
    requires i <= |e.t| && (StartsWithBol(alts[0].items) ==> i == 0)
    ensures var r := BazFrom(e, i);
      r >= 0 ==>
        && r <= |e.t|
        && exists s :: i <= s <= r && (StartsWithBol(alts[0].items) ==> s == 0) && MatchesRegex(alts, e.t, e.fold, s, r)
    decreases |e.t| - i
  {
    hide Bar, RenderAlts, RenderSeq, AltStart, GroupsAt, FlatRegex, Matches;
    TopSituated(alts, e, i);
    DohSound(e, alts, i, |e.t| - i, 0, 0);
    var r := Doh(e, i, |e.t| - i, 0);
    if r >= 0 {
      var e1 := BazFrom(e, i);
      assert e1 == i + r && e1 <= |e.t|;
      assert MatchesRegex(alts, e.t, e.fold, i, e1);
    } else if !Anchored(e) && i < |e.t| {
      AnchorSeen(alts, e);
      SearchSound(alts, e, i + 1);
    }
  }

  /** Soundness: a match that `slre_match` reports for a flat expression ends a stretch of the text
      in its language. It starts at 0 if the expression starts with `^`, and it ends at the end of the
      text if every alternative ends with `$`. */
  lemma {:induction false} MatchSound(alts: seq<Alternative>, t: Text, numCaps: int, fold: bool, spare: int)
    requires FlatRegex(alts)
    ensures var r := E.MatchResult(RenderAlts(alts), t, numCaps, fold, spare);
      && r.Some?
      && (r.value >= 0 ==>
            && r.value <= |t|
            && (exists s :: 0 <= s <= r.value && (StartsWithBol(alts[0].items) ==> s == 0)
                            && MatchesRegex(alts, t, fold, s, r.value))
            && ((forall k :: 0 <= k < |alts| ==> EndsWithEol(alts[k].items)) ==> r.value == |t|))
  {
    hide Scan, RenderAlts, RenderSeq, AltStart, FlatRegex, BracketIs, GroupsAt, BazFrom, Setup, MatchesRegex;
    FlatScanEnds(alts, numCaps);
    if Compile(RenderAlts(alts), numCaps).Scanned? {
      TablesExact(alts, numCaps, spare);
      var st := Compile(RenderAlts(alts), numCaps).state;
      assert alts != [] by { FlatRegexNonempty(alts); }
      var e := Env(RenderAlts(alts), t, fold, Setup(st, spare));
      SearchSound(alts, e, 0);
      var r := BazFrom(e, 0);
      if r >= 0 && (forall k :: 0 <= k < |alts| ==> EndsWithEol(alts[k].items)) {
        var s :| 0 <= s <= r && (StartsWithBol(alts[0].items) ==> s == 0) && MatchesRegex(alts, t, fold, s, r);
        EolRegex(alts, t, fold, s, r);
      }
    }
  }

  // ---- The byte behind the text -------------------------------------------------------------------

  /** A pattern in step whose sets refuse 0, each where the scan meets it, reports no match that ends behind the
        text. */
  lemma {:induction false} ResultInside(p: Text, t: Text, numCaps: int, fold: bool, spare: int)
    requires InStep(p) && SetsRefuse(p, fold)
    ensures var r := E.MatchResult(p, t, numCaps, fold, spare); r.Some? ==> r.value <= |t|
  {
    hide Scan, Setup, InStep, SetsRefuse, BazFrom;
    if Compile(p, numCaps).Scanned? {
      InStepInside(p, t, numCaps, fold, spare);
    }
  }

  // ---- Memory that was never set ------------------------------------------------------------------

  /** Every `(` of the pattern opens a group, or the matcher stays in step with the groups. */
  ghost predicate Settled(p: Text) {
    OpensOnly(p, 0) || InStep(p)
  }

  /** Then the result is the same whatever memory holds behind the tables. */
  lemma {:induction false} ResultSettled(p: Text, t: Text, numCaps: int, fold: bool, s1: int, s2: int)
    requires Settled(p)
    ensures E.MatchResult(p, t, numCaps, fold, s1) == E.MatchResult(p, t, numCaps, fold, s2)
  {
    hide Scan, Setup, OpensOnly, InStep, BazFrom, Kept, SteppingSet, Counting;
    if Compile(p, numCaps).Scanned? {
      if OpensOnly(p, 0) {
        ParensSettled(p, t, numCaps, fold, s1, s2);
      } else {
        InStepSettled(p, t, numCaps, fold, s1, s2);
      }
    }
  }

  /** Every flat expression is settled. */
  lemma {:induction false} FlatSettled(alts: seq<Alternative>)
    requires FlatRegex(alts)
    ensures Settled(RenderAlts(alts))
  {
    hide FlatRegex, RenderAlts, InStep, OpensOnly;
    FlatInStep(alts);
  }

  predicate EndsWithEol(its: seq<Item>) {
    its != [] && its[|its| - 1].Eol?
  }

  lemma {:induction false} EolRegex(alts: seq<Alternative>, t: Text, fold: bool, i: int, e: int)
    requires forall k :: 0 <= k < |alts| ==> EndsWithEol(alts[k].items)
    requires MatchesRegex(alts, t, fold, i, e)
    ensures e == |t|
  {
    var k :| 0 <= k < |alts| && Matches(alts[k].items, t, fold, i, e);
    EolMatches(alts[k].items, t, fold, i, e);
  }

  lemma {:induction false} EolMatches(its: seq<Item>, t: Text, fold: bool, i: int, e: int)
    requires EndsWithEol(its) && Matches(its, t, fold, i, e)
    ensures e == |t|
    decreases |its|
  {
    var k :| i <= k <= e && MatchesItem(its[0], t, fold, i, k) && Matches(its[1..], t, fold, k, e);
    if |its| > 1 {
      EolMatches(its[1..], t, fold, k, e);
    }
  }
}
