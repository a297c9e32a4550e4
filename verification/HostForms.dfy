/** What the ordinary hosts of a list match: the engine's forms seen from the name that is looked up. */
module HostForms {
  import opened Bytes
  import opened SlreSyntax
  import opened SlreExactness
  import opened SlreEnds
  import opened SlreForms
  import opened HostList
  import C = SlreChoices
  import Scan = SlreScan
  import T = SlreTheorems
  import E = SlreEngine

  // ---- One run for all ----------------------------------------------------------------------------

  /** Memory has no say in the runs of a flat host. */
  lemma {:induction false} FlatHost(alts: seq<Alternative>, name: Text)
    requires FlatRegex(alts)
    ensures T.Settled(RenderAlts(alts)) && ScansThrough(RenderAlts(alts))
    ensures HostMatches(RenderAlts(alts), name) <==> RunMatches(RenderAlts(alts), name, 0)
  {
    hide FlatRegex, RenderAlts, E.MatchResult, T.Settled, Scan.Scan;
    T.FlatSettled(alts);
    T.FlatScanEnds(alts, 0);
    if RunMatches(RenderAlts(alts), name, 0) {
      forall spare: int ensures RunMatches(RenderAlts(alts), name, spare) {
        T.ResultSettled(RenderAlts(alts), name, 0, true, 0, spare);
      }
    }
  }

  lemma {:induction false} SimpleHost(its: seq<Item>, name: Text)
    requires Simple(its)
    ensures T.Settled(RenderSeq(its)) && ScansThrough(RenderSeq(its))
    ensures HostMatches(RenderSeq(its), name) <==> RunMatches(RenderSeq(its), name, 0)
  {
    hide Simple, RenderSeq, T.Settled, HostMatches, ScansThrough, RunMatches;
    var alts := [Alternative(its)];
    assert RenderAlts(alts) == RenderSeq(its);
    AloneFlat(its);
    FlatHost(alts, name);
  }

  /** An accepted flat host matches a name exactly if the first start with an end has the name's end for it. */
  lemma {:induction false} HostEnds(alts: seq<Alternative>, name: Text)
    requires FlatRegex(alts) && !Scan.Compile(RenderAlts(alts), 0).Rejected?
    ensures alts != []
    ensures HostMatches(RenderAlts(alts), name) <==>
      exists s: nat ::
        && s <= |name| && (StartsWithBol(alts[0].items) ==> s == 0)
        && EndFrom(alts, name, true, s) == Some(|name|)
        && forall x: nat :: x < s ==> EndFrom(alts, name, true, x) == None
  {
    hide FlatRegex, RenderAlts, EndFrom, StartsWithBol, Scan.Scan, HostMatches, T.Settled, ScansThrough;
    FlatHost(alts, name);
    MatchEnds(alts, name, 0, true, 0);
    var r := E.MatchResult(RenderAlts(alts), name, 0, true, 0).value;
    if s: nat :| s <= |name| && (StartsWithBol(alts[0].items) ==> s == 0)
                 && EndFrom(alts, name, true, s) == Some(|name|)
                 && forall x: nat :: x < s ==> EndFrom(alts, name, true, x) == None
    {
      assert EndFrom(alts, name, true, s).Some?;
      if r >= 0 {
        var x: nat :| x <= |name| && EndFrom(alts, name, true, x) == Some(r)
                      && forall y: nat :: y < x ==> EndFrom(alts, name, true, y) == None;
        assert x == s;
      }
    }
  }

  // ---- Hosts that end with a repetition --------------------------------------------------------------

  lemma {:induction false} TailHost(pre: seq<Item>, a: Atom, q: Quant, name: Text)
    requires Plain(pre) && ValidAtom(a) && !q.One?
    ensures var host := RenderSeq(pre) + RenderAtom(a) + RenderQuant(q);
      HostMatches(host, name) <==> RunMatches(host, name, 0)
  {
    hide Plain, ValidAtom, RenderSeq, RenderAtom, RenderQuant, HostMatches, RunMatches, Simple, ScansThrough, T.Settled;
    var it := Single(a, q);
    TailSimple(pre, it);
    RenderBoth(pre, [it]);
    OneRendered(it);
    assert RenderSeq(pre) + RenderAtom(a) + RenderQuant(q) == RenderSeq(pre + [it]);
    SimpleHost(pre + [it], name);
  }

  /** `ads.*`: from the first place where the plain part matches, the name goes on with accepted bytes to its end. */
  lemma {:induction false} HostStar(pre: seq<Item>, a: Atom, name: Text)
    requires Plain(pre) && ValidAtom(a)
    ensures HostMatches(RenderSeq(pre) + RenderAtom(a) + [42], name) <==>
      exists s: nat :: FirstAt(pre, name, true, s) && AllAccepted(a, name, true, s + |pre|, |name|)
  {
    hide Plain, ValidAtom, RenderSeq, RenderAtom, HostMatches, PlainAt, E.MatchResult, Accepts;
    var host := RenderSeq(pre) + RenderAtom(a) + [42];
    assert RenderQuant(ZeroMore(false)) == [42];
    TailHost(pre, a, ZeroMore(false), name);
    GreedyStar(pre, a, name, 0, true, 0);
    if s: nat :| FirstAt(pre, name, true, s) && AllAccepted(a, name, true, s + |pre|, |name|) {
      var r := E.MatchResult(host, name, 0, true, 0).value;
      if r >= 0 {
        var x: nat :| FirstAt(pre, name, true, x) && LongestRun(a, name, true, x + |pre|, r);
        OneFirst(pre, name, s, x);
      }
    }
  }

  lemma {:induction false} OneFirst(pre: seq<Item>, name: Text, s: nat, x: nat)
    requires Plain(pre) && FirstAt(pre, name, true, s) && FirstAt(pre, name, true, x)
    ensures s == x
  {
    hide Plain, PlainAt;
  }

  /** `+`: the same, with one byte at least. */
  lemma {:induction false} HostPlus(pre: seq<Item>, a: Atom, name: Text)
    requires Plain(pre) && ValidAtom(a)
    ensures var need := pre + [Single(a, One)];
      && Plain(need)
      && (HostMatches(RenderSeq(pre) + RenderAtom(a) + [43], name) <==>
          exists s: nat :: FirstAt(need, name, true, s) && AllAccepted(a, name, true, s + |pre|, |name|))
  {
    hide Plain, ValidAtom, RenderSeq, RenderAtom, HostMatches, PlainAt, E.MatchResult, Accepts;
    var host, need := RenderSeq(pre) + RenderAtom(a) + [43], pre + [Single(a, One)];
    assert RenderQuant(OneMore(false)) == [43];
    TailHost(pre, a, OneMore(false), name);
    GreedyPlus(pre, a, name, 0, true, 0);
    if s: nat :| FirstAt(need, name, true, s) && AllAccepted(a, name, true, s + |pre|, |name|) {
      var r := E.MatchResult(host, name, 0, true, 0).value;
      if r >= 0 {
        var x: nat :| FirstAt(need, name, true, x) && LongestRun(a, name, true, x + |pre|, r);
        OneFirst(need, name, s, x);
      }
    }
  }

  /** `+?`: one byte, which has to be the name's last. */
  lemma {:induction false} HostLazyPlus(pre: seq<Item>, a: Atom, name: Text)
    requires Plain(pre) && ValidAtom(a)
    ensures var need := pre + [Single(a, One)];
      && Plain(need)
      && (HostMatches(RenderSeq(pre) + RenderAtom(a) + [43, 63], name) <==>
          |pre| < |name| && FirstAt(need, name, true, |name| - |pre| - 1))
  {
    hide Plain, ValidAtom, RenderSeq, RenderAtom, HostMatches, PlainAt, E.MatchResult, Accepts;
    var host, need := RenderSeq(pre) + RenderAtom(a) + [43, 63], pre + [Single(a, One)];
    assert RenderQuant(OneMore(true)) == [43, 63];
    TailHost(pre, a, OneMore(true), name);
    LazyPlus(pre, a, name, 0, true, 0);
    if |pre| < |name| && FirstAt(need, name, true, |name| - |pre| - 1) {
      var r := E.MatchResult(host, name, 0, true, 0).value;
      if r >= 0 {
        var x: nat :| FirstAt(need, name, true, x) && r == x + |pre| + 1;
        OneFirst(need, name, |name| - |pre| - 1, x);
      }
    }
  }

  /** `?` and `*?`: the name ends behind the plain part, or one accepted byte later. */
  lemma {:induction false} HostAtMostOne(pre: seq<Item>, a: Atom, lazy: bool, name: Text)
    requires Plain(pre) && ValidAtom(a)
    ensures HostMatches(RenderSeq(pre) + RenderAtom(a) + (if lazy then [42, 63] else [63]), name) <==>
      exists s: nat :: FirstAt(pre, name, true, s) && |name| <= s + |pre| + 1
                       && AllAccepted(a, name, true, s + |pre|, |name|)
  {
    hide Plain, ValidAtom, RenderSeq, RenderAtom, HostMatches, PlainAt, E.MatchResult, Accepts;
    var q := if lazy then ZeroMore(true) else Opt;
    var host := RenderSeq(pre) + RenderAtom(a) + if lazy then [42, 63] else [63];
    assert RenderQuant(q) == if lazy then [42, 63] else [63];
    TailHost(pre, a, q, name);
    AtMostOne(pre, a, lazy, name, 0, true, 0);
    var r := E.MatchResult(host, name, 0, true, 0).value;
    if s: nat :| FirstAt(pre, name, true, s) && |name| <= s + |pre| + 1
                 && AllAccepted(a, name, true, s + |pre|, |name|)
    {
      if r >= 0 {
        var x: nat :| FirstAt(pre, name, true, x)
                      && r == x + |pre| + if x + |pre| < |name| && Accepts(a, true, name[x + |pre|]) then 1 else 0;
        OneFirst(pre, name, s, x);
      }
    }
    if HostMatches(host, name) {
      var x: nat :| FirstAt(pre, name, true, x)
                    && r == x + |pre| + if x + |pre| < |name| && Accepts(a, true, name[x + |pre|]) then 1 else 0;
      assert AllAccepted(a, name, true, x + |pre|, |name|);
    }
  }

  // ---- Hosts as names --------------------------------------------------------------------------------

  /** Plain atoms match at the name's end, and nowhere before it. */
  lemma {:induction false} HostPlain(pre: seq<Item>, name: Text)
    requires Plain(pre)
    ensures ScansThrough(RenderSeq(pre)) && T.Settled(RenderSeq(pre))
    ensures HostMatches(RenderSeq(pre), name) <==>
      |pre| <= |name| && FirstAt(pre, name, true, |name| - |pre|)
  {
    hide Plain, RenderSeq, HostMatches, PlainAt, E.MatchResult, Simple, ScansThrough, T.Settled;
    PlainSimple(pre);
    SimpleHost(pre, name);
    PlainFound(pre, name, 0, true, 0);
    var r := E.MatchResult(RenderSeq(pre), name, 0, true, 0).value;
    if r >= 0 && |pre| <= |name| && FirstAt(pre, name, true, |name| - |pre|) {
      OneFirst(pre, name, |name| - |pre|, r - |pre|);
    }
  }

  /** Bytes that mean nothing to the engine, `.` aside. */
  predicate Ordinary(host: Text) {
    forall k :: 0 <= k < |host| ==> host[k] !in {0, 36, 40, 41, 42, 43, 63, 91, 92, 94, 124}
  }

  function Lowered(b: Byte): int {
    if 65 <= b <= 90 then b + 32 else b
  }

  /** `.` written `\.`. */
  function Escaped(host: Text): Text {
    if host == [] then [] else (if host[0] == 46 then [92, 46] else [host[0]]) + Escaped(host[1..])
  }

  /** The host stands in the name at `s`, letters compared without case; a `.` may stand for any byte. */
  predicate StandsAt(host: Text, dots: bool, name: Text, s: int) {
    && 0 <= s && s + |host| <= |name|
    && forall k :: 0 <= k < |host| ==> Lowered(host[k]) == Lowered(name[s + k]) || (dots && host[k] == 46)
  }

  function HostItems(host: Text, dots: bool): (its: seq<Item>)
    ensures |its| == |host|
    ensures forall k :: 0 <= k < |host| ==>
      its[k] == Single(if host[k] != 46 then Lit(host[k]) else if dots then Any else Esc(46), One)
  {
    seq(|host|, k requires 0 <= k < |host| =>
      Single(if host[k] != 46 then Lit(host[k]) else if dots then Any else Esc(46), One))
  }

  lemma {:induction false} HostRendered(host: Text, dots: bool)
    requires Ordinary(host)
    ensures Plain(HostItems(host, dots))
    ensures RenderSeq(HostItems(host, dots)) == if dots then host else Escaped(host)
    decreases |host|
  {
    hide RenderItem, Plain;
    var its := HostItems(host, dots);
    HostItemsPlain(host, dots);
    if host != [] {
      HostRendered(host[1..], dots);
      assert its[1..] == HostItems(host[1..], dots);
      ByteRendered(host[0], dots);
      assert RenderSeq(its) == RenderItem(its[0]) + RenderSeq(its[1..]);
      assert dots ==> [host[0]] + host[1..] == host;
    }
  }

  lemma {:induction false} HostItemsPlain(host: Text, dots: bool)
    requires Ordinary(host)
    ensures Plain(HostItems(host, dots))
  {
  }

  lemma {:induction false} ByteRendered(b: Byte, dots: bool)
    ensures RenderItem(Single(if b != 46 then Lit(b) else if dots then Any else Esc(46), One)) ==
      if b == 46 && !dots then [92, 46] else [b]
  {
  }

  lemma {:induction false} HostStands(host: Text, dots: bool, name: Text, s: nat)
    requires Ordinary(host)
    ensures Plain(HostItems(host, dots))
    ensures PlainAt(HostItems(host, dots), name, true, s) <==> StandsAt(host, dots, name, s)
  {
    HostRendered(host, dots);
    hide Plain;
    var its := HostItems(host, dots);
    if s + |host| <= |name| {
      forall k | 0 <= k < |host|
        ensures Accepts(its[k].a, true, name[s + k]) <==>
          Lowered(host[k]) == Lowered(name[s + k]) || (dots && host[k] == 46)
      {
      }
    }
  }

  /** An ordinary host matches exactly the names that end with it and do not contain it before; written with `.` it
      leaves the byte there open, with `\.` it does not. */
  lemma {:induction false} HostName(host: Text, dots: bool, name: Text)
    requires Ordinary(host)
    ensures HostMatches(if dots then host else Escaped(host), name) <==>
      StandsAt(host, dots, name, |name| - |host|) && forall s :: s < |name| - |host| ==> !StandsAt(host, dots, name, s)
  {
    hide Plain, HostMatches, PlainAt, StandsAt, RenderSeq, Ordinary;
    var its := HostItems(host, dots);
    HostRendered(host, dots);
    HostPlain(its, name);
    forall s: nat ensures PlainAt(its, name, true, s) <==> StandsAt(host, dots, name, s) {
      HostStands(host, dots, name, s);
    }
    forall s: int ensures StandsAt(host, dots, name, s) ==> s >= 0 {
      StandsInside(host, dots, name, s);
    }
  }

  lemma {:induction false} StandsInside(host: Text, dots: bool, name: Text, s: int)
    ensures StandsAt(host, dots, name, s) ==> s >= 0
  {
  }
}
