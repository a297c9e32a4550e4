/** What the ordinary forms of a pattern match, their special bytes written out. */
module SlreForms {
  import opened Bytes
  import opened SlreTables
  import opened SlreScan
  import M = SlreMatcher
  import opened SlreSyntax
  import opened SlreParsing
  import opened SlreExactness
  import opened SlreEnds
  import A = SlreAlternatives
  import E = SlreEngine

  /** Atoms without quantifiers. */
  predicate Plain(its: seq<Item>) {
    forall k :: 0 <= k < |its| ==> its[k].Single? && its[k].q.One? && ValidAtom(its[k].a)
  }

  /** The text at `s` is what these atoms accept, one byte each. */
  predicate PlainAt(its: seq<Item>, t: Text, fold: bool, s: nat)
    requires Plain(its)
  {
    s + |its| <= |t| && forall k :: 0 <= k < |its| ==> Accepts(its[k].a, fold, t[s + k])
  }

  ghost predicate FirstAt(its: seq<Item>, t: Text, fold: bool, s: nat)
    requires Plain(its)
  {
    PlainAt(its, t, fold, s) && forall x: nat :: x < s ==> !PlainAt(its, t, fold, x)
  }

  /** `t[i..e]` is accepted byte by byte, and the text or the run ends there. */
  ghost predicate LongestRun(a: Atom, t: Text, fold: bool, i: nat, e: int) {
    AllAccepted(a, t, fold, i, e) && (e < |t| ==> !Accepts(a, fold, t[e]))
  }

  lemma {:induction false} PlainFirst(its: seq<Item>, t: Text, fold: bool, s: nat)
    requires Plain(its) && its != []
    ensures Plain(its[1..])
    ensures PlainAt(its, t, fold, s) <==>
      s < |t| && Accepts(its[0].a, fold, t[s]) && PlainAt(its[1..], t, fold, s + 1)
  {
    hide Accepts, ValidAtom;
    if s < |t| && Accepts(its[0].a, fold, t[s]) && PlainAt(its[1..], t, fold, s + 1) {
      forall k | 0 <= k < |its| ensures Accepts(its[k].a, fold, t[s + k]) {
        if k > 0 {
          assert Accepts(its[1..][k - 1].a, fold, t[s + 1 + (k - 1)]);
        }
      }
    }
    if PlainAt(its, t, fold, s) {
      assert Accepts(its[0].a, fold, t[s + 0]);
      forall k | 0 <= k < |its[1..]| ensures Accepts(its[1..][k].a, fold, t[s + 1 + k]) {
        assert Accepts(its[k + 1].a, fold, t[s + (k + 1)]);
      }
    }
  }

  /** Plain atoms in front. */
  lemma {:induction false} PlainEnd(pre: seq<Item>, rest: seq<Item>, t: Text, fold: bool, i: nat)
    requires Plain(pre) && i <= |t|
    ensures End(pre + rest, t, fold, i, |t|) ==
      if PlainAt(pre, t, fold, i) then End(rest, t, fold, i + |pre|, |t|) else None
    decreases |pre|
  {
    hide End, PlainAt, Accepts, ValidAtom;
    if pre == [] {
      assert pre + rest == rest;
      NothingAt(pre, t, fold, i);
    } else {
      PlainFirst(pre, t, fold, i);
      assert (pre + rest)[0] == pre[0] && (pre + rest)[1..] == pre[1..] + rest;
      AtomEnd(pre + rest, t, fold, i);
      if i < |t| {
        PlainEnd(pre[1..], rest, t, fold, i + 1);
      }
    }
  }

  lemma {:induction false} NothingAt(its: seq<Item>, t: Text, fold: bool, i: nat)
    requires its == [] && i <= |t|
    ensures PlainAt(its, t, fold, i)
  {
  }

  lemma {:induction false} AtomEnd(its: seq<Item>, t: Text, fold: bool, i: nat)
    requires its != [] && its[0].Single? && its[0].q.One? && i <= |t|
    ensures End(its, t, fold, i, |t|) ==
      if i < |t| && Accepts(its[0].a, fold, t[i]) then End(its[1..], t, fold, i + 1, |t|) else None
  {
    hide Accepts;
  }

  /** The search for a sequence without groups. */
  lemma {:induction false} SequenceEnds(its: seq<Item>, t: Text, numCaps: int, fold: bool, spare: int)
    requires Simple(its) && !StartsWithBol(its)
    ensures var r := E.MatchResult(RenderSeq(its), t, numCaps, fold, spare);
      && r.Some?
      && if r.value >= 0 then exists s: nat :: FirstEndAt(its, t, fold, s, r.value)
         else r.value == -1 && forall s: nat :: s <= |t| ==> End(its, t, fold, s, |t|) == None
  {
    hide Scan, RenderSeq, End, FlatTop, Simple;
    var alts := [Alternative(its)];
    assert RenderAlts(alts) == RenderSeq(its);
    SimpleTables(its, numCaps, spare);
    AloneFlat(its);
    MatchEnds(alts, t, numCaps, fold, spare);
    EndsAlone(its, t, numCaps, fold, spare);
  }

  /** A single alternative. */
  lemma {:induction false} EndsAlone(its: seq<Item>, t: Text, numCaps: int, fold: bool, spare: int)
    requires !StartsWithBol(its)
    requires var r := E.MatchResult(RenderSeq(its), t, numCaps, fold, spare);
      r.Some? && FirstEnd([Alternative(its)], t, fold, 0, r.value)
    ensures var r := E.MatchResult(RenderSeq(its), t, numCaps, fold, spare).value;
      if r >= 0 then exists s: nat :: FirstEndAt(its, t, fold, s, r)
      else r == -1 && forall s: nat :: s <= |t| ==> End(its, t, fold, s, |t|) == None
  {
    hide E.MatchResult, RenderSeq, End;
    var alts := [Alternative(its)];
    forall s: nat | s <= |t| ensures EndFrom(alts, t, fold, s) == End(its, t, fold, s, |t|) {
    }
    var r := E.MatchResult(RenderSeq(its), t, numCaps, fold, spare).value;
    if r >= 0 {
      var s: nat :| s <= |t| && EndFrom(alts, t, fold, s) == Some(r)
                    && forall x: nat :: x < s ==> EndFrom(alts, t, fold, x) == None;
      forall x: nat | x < s ensures End(its, t, fold, x, |t|) == None {
        assert EndFrom(alts, t, fold, x) == None;
      }
      assert FirstEndAt(its, t, fold, s, r);
    }
  }

  ghost predicate FirstEndAt(its: seq<Item>, t: Text, fold: bool, s: nat, r: int) {
    && s <= |t| && r >= 0 && End(its, t, fold, s, |t|) == Some(r)
    && forall x: nat :: x < s ==> End(its, t, fold, x, |t|) == None
  }

  lemma {:induction false} AloneFlat(its: seq<Item>)
    requires Simple(its)
    ensures FlatRegex([Alternative(its)])
  {
    hide FlatTop;
  }

  lemma {:induction false} PlainSimple(pre: seq<Item>)
    requires Plain(pre)
    ensures Simple(pre) && !StartsWithBol(pre)
  {
    hide ValidAtom;
  }

  lemma {:induction false} PlainOnly(post: seq<Item>, t: Text, fold: bool, i: nat)
    requires Plain(post) && i <= |t|
    ensures End(post, t, fold, i, |t|) == if PlainAt(post, t, fold, i) then Some(i + |post|) else None
  {
    hide PlainAt, ValidAtom, Plain, End;
    assert post + [] == post;
    PlainEnd(post, [], t, fold, i);
    if PlainAt(post, t, fold, i) {
      PlainFits(post, t, fold, i);
      EmptyEnd(t, fold, i + |post|, |t|);
    }
  }

  lemma {:induction false} PlainFits(pre: seq<Item>, t: Text, fold: bool, s: nat)
    requires Plain(pre) && PlainAt(pre, t, fold, s)
    ensures s + |pre| <= |t|
  {
  }

  /** Plain atoms alone. */
  lemma {:induction false} PlainFound(pre: seq<Item>, t: Text, numCaps: int, fold: bool, spare: int)
    requires Plain(pre)
    ensures var r := E.MatchResult(RenderSeq(pre), t, numCaps, fold, spare);
      && r.Some?
      && if r.value >= 0 then r.value - |pre| >= 0 && FirstAt(pre, t, fold, r.value - |pre|)
         else r.value == -1 && forall s: nat :: !PlainAt(pre, t, fold, s)
  {
    hide RenderSeq, End, PlainAt, Simple, Plain;
    PlainSimple(pre);
    SequenceEnds(pre, t, numCaps, fold, spare);
    forall s: nat
      ensures PlainAt(pre, t, fold, s) ==> s <= |t|
      ensures s <= |t| ==> End(pre, t, fold, s, |t|) == if PlainAt(pre, t, fold, s) then Some(s + |pre|) else None
    {
      if PlainAt(pre, t, fold, s) {
        PlainFits(pre, t, fold, s);
      }
      if s <= |t| {
        PlainOnly(pre, t, fold, s);
      }
    }
    var r := E.MatchResult(RenderSeq(pre), t, numCaps, fold, spare).value;
    if r >= 0 {
      var s: nat :| FirstEndAt(pre, t, fold, s, r);
      forall x: nat | x < s ensures !PlainAt(pre, t, fold, x) {
        assert End(pre, t, fold, x, |t|) == None;
      }
    }
  }

  // ---- A repetition at the end ----------------------------------------------------------------------

  lemma {:induction false} RunEnds(a: Atom, q: Quant, t: Text, fold: bool, i: nat)
    requires (q.ZeroMore? || q.OneMore?) && i <= |t|
    ensures var one := [Single(a, q)];
      var last, more := Last(one, t, fold, i, |t|), More(one, t, fold, i, |t|);
      && LongestRun(a, t, fold, i, last)
      && more == if last == i then None else Some(if q.lazy then i + 1 else last)
    decreases |t| - i
  {
    hide End, Accepts;
    var one := [Single(a, q)];
    assert one[1..] == [];
    if i < |t| && Accepts(a, fold, t[i]) {
      assert Once(one[0], t, fold, i, |t|) == Some(i + 1);
      RunEnds(a, q, t, fold, i + 1);
      EmptyEnd(t, fold, i + 1, |t|);
    }
  }

  /** The end of a quantified atom that nothing follows. */
  lemma {:induction false} TailEnds(a: Atom, q: Quant, t: Text, fold: bool, i: nat)
    requires i <= |t| && !q.One?
    ensures var r := End([Single(a, q)], t, fold, i, |t|);
      var some := i < |t| && Accepts(a, fold, t[i]);
      && (r.None? <==> q.OneMore? && !some)
      && (r.Some? ==> i <= r.value <= |t|)
      && (r.Some? && (q.Opt? || q.lazy) ==> r.value == if some then i + 1 else i)
      && (r.Some? && !q.Opt? && !q.lazy ==> LongestRun(a, t, fold, i, r.value))
  {
    hide Accepts, More, Last;
    var one := [Single(a, q)];
    assert one[1..] == [];
    if !q.Opt? {
      RunEnds(a, q, t, fold, i);
      var last := Last(one, t, fold, i, |t|);
      assert last < |t| ==> !Accepts(a, fold, t[last]);
    }
  }

  lemma {:induction false} RenderBoth(a: seq<Item>, b: seq<Item>)
    ensures RenderSeq(a + b) == RenderSeq(a) + RenderSeq(b)
    decreases |a|
  {
    hide RenderItem;
    if a == [] {
      assert a + b == b;
    } else {
      assert (a + b)[0] == a[0] && (a + b)[1..] == a[1..] + b;
      RenderBoth(a[1..], b);
    }
  }

  lemma {:induction false} TailSimple(pre: seq<Item>, last: Item)
    requires Plain(pre) && FlatItem(last, false) && !last.Group?
    ensures Simple(pre + [last]) && !StartsWithBol(pre + [last])
  {
    hide ValidAtom;
    var its := pre + [last];
    assert forall k :: 0 <= k < |pre| ==> its[k] == pre[k];
    assert its[|pre|] == last;
    assert forall k :: 0 <= k < |its| ==> FlatItem(its[k], k == 0);
  }

  /** Plain atoms and one more item: the first start that fits decides. */
  lemma {:induction false} TailFound(pre: seq<Item>, last: Item, t: Text, numCaps: int, fold: bool, spare: int)
    requires Plain(pre) && FlatItem(last, false) && !last.Group?
    ensures var r := E.MatchResult(RenderSeq(pre) + RenderItem(last), t, numCaps, fold, spare);
      && r.Some?
      && if r.value >= 0 then
           exists s: nat :: PlainAt(pre, t, fold, s) && TailFits(pre, last, t, fold, s, Some(r.value))
             && forall x: nat :: x < s && PlainAt(pre, t, fold, x) ==> TailFits(pre, last, t, fold, x, None)
         else r.value == -1 && forall s: nat :: PlainAt(pre, t, fold, s) ==> TailFits(pre, last, t, fold, s, None)
  {
    hide RenderItem, RenderSeq, End, PlainAt, Simple, ValidAtom;
    var its := pre + [last];
    RenderBoth(pre, [last]);
    OneRendered(last);
    TailSimple(pre, last);
    SequenceEnds(its, t, numCaps, fold, spare);
    forall s: nat | PlainAt(pre, t, fold, s) ensures s + |pre| <= |t| {
      PlainFits(pre, t, fold, s);
    }
    forall s: nat | s <= |t|
      ensures End(its, t, fold, s, |t|) ==
        if PlainAt(pre, t, fold, s) then End([last], t, fold, s + |pre|, |t|) else None
    {
      PlainEnd(pre, [last], t, fold, s);
    }
    var r := E.MatchResult(RenderSeq(its), t, numCaps, fold, spare).value;
    if r >= 0 {
      var s: nat :| FirstEndAt(its, t, fold, s, r);
      assert PlainAt(pre, t, fold, s) && TailFits(pre, last, t, fold, s, Some(r));
      forall x: nat | x < s && PlainAt(pre, t, fold, x) ensures TailFits(pre, last, t, fold, x, None) {
        assert End(its, t, fold, x, |t|) == None;
      }
    } else {
      forall s: nat | PlainAt(pre, t, fold, s) ensures TailFits(pre, last, t, fold, s, None) {
        assert End(its, t, fold, s, |t|) == None;
      }
    }
  }

  ghost predicate TailFits(pre: seq<Item>, last: Item, t: Text, fold: bool, s: nat, x: Option<nat>)
    requires Plain(pre)
  {
    s + |pre| <= |t| && End([last], t, fold, s + |pre|, |t|) == x
  }

  lemma {:induction false} OneRendered(it: Item)
    ensures RenderSeq([it]) == RenderItem(it)
  {
    hide RenderItem;
    assert [it][1..] == [];
    assert RenderSeq([it]) == RenderItem(it) + [];
  }

  /** The atoms that have to be there: a `+` needs one byte. */
  function Needed(pre: seq<Item>, a: Atom, q: Quant): (its: seq<Item>)
    requires Plain(pre) && ValidAtom(a)
    ensures Plain(its)
  {
    if q.OneMore? then pre + [Single(a, One)] else pre
  }

  lemma {:induction false} NeededAt(pre: seq<Item>, a: Atom, t: Text, fold: bool, s: nat)
    requires Plain(pre) && ValidAtom(a)
    ensures Plain(pre + [Single(a, One)])
    ensures PlainAt(pre + [Single(a, One)], t, fold, s) <==>
      PlainAt(pre, t, fold, s) && s + |pre| < |t| && Accepts(a, fold, t[s + |pre|])
  {
    hide Accepts, ValidAtom;
    var its := pre + [Single(a, One)];
    assert forall k :: 0 <= k < |pre| ==> its[k] == pre[k];
    if PlainAt(its, t, fold, s) {
      assert Accepts(its[|pre|].a, fold, t[s + |pre|]);
      assert forall k :: 0 <= k < |pre| ==> Accepts(its[k].a, fold, t[s + k]);
    }
  }

  /** Where a match with this quantified atom at its end stops, the atom's first byte at `i`. */
  ghost predicate Stops(a: Atom, q: Quant, t: Text, fold: bool, i: nat, r: int) {
    if q.Opt? || (q != One && q.lazy) then r == if i < |t| && Accepts(a, fold, t[i]) then i + 1 else i
    else LongestRun(a, t, fold, i, r)
  }

  lemma {:induction false} QuantFound(pre: seq<Item>, a: Atom, q: Quant, t: Text, numCaps: int, fold: bool, spare: int)
    requires Plain(pre) && ValidAtom(a) && !q.One?
    ensures var r := E.MatchResult(RenderSeq(pre) + RenderAtom(a) + RenderQuant(q), t, numCaps, fold, spare);
      var need := Needed(pre, a, q);
      && r.Some?
      && if r.value >= 0 then exists s: nat :: FirstAt(need, t, fold, s) && Stops(a, q, t, fold, s + |pre|, r.value)
         else r.value == -1 && forall s: nat :: !PlainAt(need, t, fold, s)
  {
    hide RenderSeq, RenderAtom, RenderQuant, PlainAt, ValidAtom, LongestRun, End, Plain, Accepts;
    var it, p, need := Single(a, q), RenderSeq(pre) + RenderAtom(a) + RenderQuant(q), Needed(pre, a, q);
    assert p == RenderSeq(pre) + RenderItem(it);
    TailFound(pre, it, t, numCaps, fold, spare);
    forall s: nat | PlainAt(need, t, fold, s) ensures PlainAt(pre, t, fold, s) && !TailFits(pre, it, t, fold, s, None) {
      NeededAt(pre, a, t, fold, s);
      QuantFits(pre, a, q, t, fold, s);
    }
    var r := E.MatchResult(p, t, numCaps, fold, spare).value;
    if r >= 0 {
      var s: nat :| PlainAt(pre, t, fold, s) && TailFits(pre, it, t, fold, s, Some(r))
                    && forall x: nat :: x < s && PlainAt(pre, t, fold, x) ==> TailFits(pre, it, t, fold, x, None);
      QuantFits(pre, a, q, t, fold, s);
      assert FirstAt(need, t, fold, s) && Stops(a, q, t, fold, s + |pre|, r);
    }
  }

  lemma {:induction false} QuantFits(pre: seq<Item>, a: Atom, q: Quant, t: Text, fold: bool, s: nat)
    requires Plain(pre) && ValidAtom(a) && !q.One? && PlainAt(pre, t, fold, s)
    ensures PlainAt(Needed(pre, a, q), t, fold, s) <==> !TailFits(pre, Single(a, q), t, fold, s, None)
    ensures forall e: nat :: TailFits(pre, Single(a, q), t, fold, s, Some(e)) ==> Stops(a, q, t, fold, s + |pre|, e)
  {
    hide PlainAt, ValidAtom, LongestRun, End, Plain, Accepts;
    NeededAt(pre, a, t, fold, s);
    PlainFits(pre, t, fold, s);
    TailEnds(a, q, t, fold, s + |pre|);
  }

  /** A greedy `*` takes every byte that it can. */
  lemma {:induction false} GreedyStar(pre: seq<Item>, a: Atom, t: Text, numCaps: int, fold: bool, spare: int)
    requires Plain(pre) && ValidAtom(a)
    ensures var r := E.MatchResult(RenderSeq(pre) + RenderAtom(a) + [42], t, numCaps, fold, spare);
      && r.Some?
      && if r.value >= 0 then exists s: nat :: FirstAt(pre, t, fold, s) && LongestRun(a, t, fold, s + |pre|, r.value)
         else r.value == -1 && forall s: nat :: !PlainAt(pre, t, fold, s)
  {
    hide RenderSeq, RenderAtom, PlainAt, ValidAtom, LongestRun, Plain;
    var q := ZeroMore(false);
    QuantFound(pre, a, q, t, numCaps, fold, spare);
    assert RenderQuant(q) == [42] && Needed(pre, a, q) == pre;
    var r := E.MatchResult(RenderSeq(pre) + RenderAtom(a) + [42], t, numCaps, fold, spare).value;
    if r >= 0 {
      var s: nat :| FirstAt(pre, t, fold, s) && Stops(a, q, t, fold, s + |pre|, r);
      assert LongestRun(a, t, fold, s + |pre|, r);
    }
  }

  /** A greedy `+` does so too, where there is one byte for it. */
  lemma {:induction false} GreedyPlus(pre: seq<Item>, a: Atom, t: Text, numCaps: int, fold: bool, spare: int)
    requires Plain(pre) && ValidAtom(a)
    ensures var r := E.MatchResult(RenderSeq(pre) + RenderAtom(a) + [43], t, numCaps, fold, spare);
      var need := pre + [Single(a, One)];
      && Plain(need) && r.Some?
      && if r.value >= 0 then exists s: nat :: FirstAt(need, t, fold, s) && LongestRun(a, t, fold, s + |pre|, r.value)
         else r.value == -1 && forall s: nat :: !PlainAt(need, t, fold, s)
  {
    hide RenderSeq, RenderAtom, PlainAt, ValidAtom, LongestRun, Plain;
    QuantFound(pre, a, OneMore(false), t, numCaps, fold, spare);
    NeededAt(pre, a, t, fold, 0);
    assert RenderQuant(OneMore(false)) == [43] && Needed(pre, a, OneMore(false)) == pre + [Single(a, One)];
  }

  /** A non-greedy `+` takes one byte. */
  lemma {:induction false} LazyPlus(pre: seq<Item>, a: Atom, t: Text, numCaps: int, fold: bool, spare: int)
    requires Plain(pre) && ValidAtom(a)
    ensures var r := E.MatchResult(RenderSeq(pre) + RenderAtom(a) + [43, 63], t, numCaps, fold, spare);
      var need := pre + [Single(a, One)];
      && Plain(need) && r.Some?
      && if r.value >= 0 then exists s: nat :: FirstAt(need, t, fold, s) && r.value == s + |pre| + 1
         else r.value == -1 && forall s: nat :: !PlainAt(need, t, fold, s)
  {
    hide RenderSeq, RenderAtom, PlainAt, ValidAtom, LongestRun, Plain, Accepts;
    QuantFound(pre, a, OneMore(true), t, numCaps, fold, spare);
    NeededAt(pre, a, t, fold, 0);
    assert RenderQuant(OneMore(true)) == [43, 63] && Needed(pre, a, OneMore(true)) == pre + [Single(a, One)];
    forall s: nat | PlainAt(pre + [Single(a, One)], t, fold, s)
      ensures s + |pre| < |t| && Accepts(a, fold, t[s + |pre|])
    {
      NeededAt(pre, a, t, fold, s);
    }
  }

  /** An option and a non-greedy `*` both take a byte if they can, and never a second one. */
  lemma {:induction false} AtMostOne(pre: seq<Item>, a: Atom, lazy: bool, t: Text, numCaps: int, fold: bool, spare: int)
    requires Plain(pre) && ValidAtom(a)
    ensures var p := RenderSeq(pre) + RenderAtom(a) + (if lazy then [42, 63] else [63]);
      var r := E.MatchResult(p, t, numCaps, fold, spare);
      && r.Some?
      && if r.value >= 0 then
           exists s: nat :: FirstAt(pre, t, fold, s)
             && r.value == s + |pre| + if s + |pre| < |t| && Accepts(a, fold, t[s + |pre|]) then 1 else 0
         else r.value == -1 && forall s: nat :: !PlainAt(pre, t, fold, s)
  {
    hide RenderSeq, RenderAtom, PlainAt, ValidAtom, LongestRun, Plain, Accepts;
    var q := if lazy then ZeroMore(true) else Opt;
    QuantFound(pre, a, q, t, numCaps, fold, spare);
    assert RenderQuant(q) == (if lazy then [42, 63] else [63]) && Needed(pre, a, q) == pre;
  }

  /** `^` in front: the text has to start with the atoms. */
  lemma {:induction false} FrontAnchored(pre: seq<Item>, t: Text, numCaps: int, fold: bool, spare: int)
    requires Plain(pre)
    ensures var r := E.MatchResult([94] + RenderSeq(pre), t, numCaps, fold, spare);
      r.Some? && if PlainAt(pre, t, fold, 0) then r.value == |pre| else r.value == -1
  {
    hide RenderSeq, PlainAt, ValidAtom, Plain, Scan, EndFrom, AltsEnd;
    var its := [Bol] + pre;
    var alts := [Alternative(its)];
    assert its[1..] == pre;
    AnchoredFlat(pre);
    assert RenderSeq(its) == [94] + RenderSeq(pre) by { RenderBoth([Bol], pre); OneRendered(Bol); }
    assert RenderAlts(alts) == RenderSeq(its);
    SimpleTables(its, numCaps, spare);
    MatchEnds(alts, t, numCaps, fold, spare);
    assert pre + [] == pre;
    PlainEnd(pre, [], t, fold, 0);
    FrontEnd(pre, t, fold);
  }

  lemma {:induction false} FrontEnd(pre: seq<Item>, t: Text, fold: bool)
    requires Plain(pre)
    ensures EndFrom([Alternative([Bol] + pre)], t, fold, 0) == if PlainAt(pre, t, fold, 0) then Some(|pre|) else None
  {
    hide PlainAt, ValidAtom, Plain;
    var its := [Bol] + pre;
    assert its[1..] == pre && pre + [] == pre;
    PlainEnd(pre, [], t, fold, 0);
    if PlainAt(pre, t, fold, 0) {
      PlainFits(pre, t, fold, 0);
      EmptyEnd(t, fold, |pre|, |t|);
    }
    assert End(its, t, fold, 0, |t|) == End(pre, t, fold, 0, |t|);
  }

  lemma {:induction false} AnchoredFlat(pre: seq<Item>)
    requires Plain(pre)
    ensures Simple([Bol] + pre) && FlatRegex([Alternative([Bol] + pre)])
  {
    hide ValidAtom;
    var its := [Bol] + pre;
    assert forall k :: 0 < k < |its| ==> its[k] == pre[k - 1];
    assert forall k :: 0 <= k < |its| ==> FlatItem(its[k], k == 0);
  }

  /** `$` behind: the text has to end with the atoms. */
  lemma {:induction false} BackAnchored(pre: seq<Item>, t: Text, numCaps: int, fold: bool, spare: int)
    requires Plain(pre)
    ensures var r := E.MatchResult(RenderSeq(pre) + [36], t, numCaps, fold, spare);
      r.Some? && if |pre| <= |t| && PlainAt(pre, t, fold, |t| - |pre|) then r.value == |t| else r.value == -1
  {
    hide RenderSeq, PlainAt, ValidAtom, Plain;
    assert RenderItem(Eol) == [36];
    TailFound(pre, Eol, t, numCaps, fold, spare);
    forall s: nat {:trigger PlainAt(pre, t, fold, s)} | s + |pre| <= |t|
      ensures End([Eol], t, fold, s + |pre|, |t|) == if s + |pre| == |t| then Some(|t|) else None
    {
      assert [Eol][1..] == [];
    }
    forall s: nat | PlainAt(pre, t, fold, s) ensures s + |pre| <= |t| {
      PlainFits(pre, t, fold, s);
    }
  }

  // ---- A repetition with atoms behind it ------------------------------------------------------------

  /** The repeated atom can take `t[i..k]` with the atoms of `post` found there. */
  ghost predicate Room(a: Atom, post: seq<Item>, t: Text, fold: bool, i: nat, k: int)
    requires Plain(post)
  {
    0 <= k && AllAccepted(a, t, fold, i, k) && PlainAt(post, t, fold, k)
  }

  ghost predicate NoRoom(a: Atom, post: seq<Item>, t: Text, fold: bool, i: nat)
    requires Plain(post)
  {
    forall k: int :: !Room(a, post, t, fold, i, k)
  }

  /** What a `*` takes: the longest run, if that leaves room; else nothing, if that does; else as much as it can. The
      non-greedy `*` takes the least that is not nothing, and nothing at last. */
  ghost predicate StarTakes(a: Atom, lazy: bool, post: seq<Item>, t: Text, fold: bool, i: nat, k: int)
    requires Plain(post)
  {
    && Room(a, post, t, fold, i, k)
    && if lazy then
         if k > i then forall l: nat :: i < l < k ==> !Room(a, post, t, fold, i, l)
         else forall l: nat :: i < l ==> !Room(a, post, t, fold, i, l)
       else
         LongestRun(a, t, fold, i, k)
         || ((forall l: nat :: LongestRun(a, t, fold, i, l) ==> !Room(a, post, t, fold, i, l))
             && (k == i || (!Room(a, post, t, fold, i, i) && forall l: nat :: k < l ==> !Room(a, post, t, fold, i, l))))
  }

  /** The ends found behind one byte or more. */
  ghost predicate MoreTakes(a: Atom, lazy: bool, post: seq<Item>, t: Text, fold: bool, i: nat, e: Option<nat>)
    requires Plain(post)
  {
    if e == None then forall l: nat :: i < l ==> !Room(a, post, t, fold, i, l)
    else
      var k := e.value - |post|;
      && k > i && Room(a, post, t, fold, i, k)
      && forall l: nat :: i < l && (if lazy then l < k else k < l) ==> !Room(a, post, t, fold, i, l)
  }

  lemma {:induction false} RoomStep(a: Atom, post: seq<Item>, t: Text, fold: bool, i: nat, k: int)
    requires Plain(post) && i <= |t|
    ensures i < k ==> (Room(a, post, t, fold, i, k) <==>
      i < |t| && Accepts(a, fold, t[i]) && Room(a, post, t, fold, i + 1, k))
    ensures Room(a, post, t, fold, i, i) <==> PlainAt(post, t, fold, i)
    ensures k < i ==> !Room(a, post, t, fold, i, k)
  {
    hide Accepts, PlainAt, ValidAtom;
  }

  lemma {:induction false} MoreThen(a: Atom, q: Quant, post: seq<Item>, t: Text, fold: bool, i: nat)
    requires (q.ZeroMore? || q.OneMore?) && Plain(post) && i <= |t|
    ensures var its := [Single(a, q)] + post;
      && LongestRun(a, t, fold, i, Last(its, t, fold, i, |t|))
      && MoreTakes(a, q.lazy, post, t, fold, i, More(its, t, fold, i, |t|))
    decreases |t| - i
  {
    hide End, Accepts, Room, PlainAt, ValidAtom, Plain, More, Last;
    var its := [Single(a, q)] + post;
    assert its[1..] == post && its[0] == Single(a, q);
    OneTaken(its, t, fold, i, |t|);
    forall k: nat ensures i < k ==> (Room(a, post, t, fold, i, k) <==>
      i < |t| && Accepts(a, fold, t[i]) && Room(a, post, t, fold, i + 1, k))
    {
      RoomStep(a, post, t, fold, i, k);
    }
    if i < |t| && Accepts(a, fold, t[i]) {
      assert Once(its[0], t, fold, i, |t|) == Some(i + 1);
      MoreThen(a, q, post, t, fold, i + 1);
      PlainOnly(post, t, fold, i + 1);
      RoomStep(a, post, t, fold, i + 1, i + 1);
      MoreStep(a, q.lazy, post, t, fold, i, End(post, t, fold, i + 1, |t|), More(its, t, fold, i + 1, |t|));
    }
  }

  lemma {:induction false} MoreStep(a: Atom, lazy: bool, post: seq<Item>, t: Text, fold: bool, i: nat,
                                    here: Option<nat>, later: Option<nat>)
    requires Plain(post) && i < |t| && Accepts(a, fold, t[i])
    requires MoreTakes(a, lazy, post, t, fold, i + 1, later)
    requires here == if Room(a, post, t, fold, i + 1, i + 1) then Some(i + 1 + |post|) else None
    ensures MoreTakes(a, lazy, post, t, fold, i,
                      if lazy then if here.Some? then here else later else if later.Some? then later else here)
  {
    hide Accepts, Room, Plain;
    forall k: nat ensures i < k ==> (Room(a, post, t, fold, i, k) <==> Room(a, post, t, fold, i + 1, k)) {
      RoomStep(a, post, t, fold, i, k);
    }
    if later.Some? {
      RoomStep(a, post, t, fold, i, later.value - |post|);
    }
  }

  /** The end of `*` and plain atoms behind it. */
  lemma {:induction false} StarEnd(a: Atom, lazy: bool, post: seq<Item>, t: Text, fold: bool, i: nat)
    requires Plain(post) && i <= |t|
    ensures var x := End([Single(a, ZeroMore(lazy))] + post, t, fold, i, |t|);
      if x.Some? then StarTakes(a, lazy, post, t, fold, i, x.value - |post|)
      else forall k: int :: !Room(a, post, t, fold, i, k)
  {
    hide End, Accepts, PlainAt, ValidAtom, Plain, More, Last, AllAccepted, Room, LongestRun;
    var its := [Single(a, ZeroMore(lazy))] + post;
    assert its[1..] == post && its[0] == Single(a, ZeroMore(lazy));
    EndRepeated(its, t, fold, i, |t|);
    OneTaken(its, t, fold, i, |t|);
    MoreThen(a, ZeroMore(lazy), post, t, fold, i);
    var last := Last(its, t, fold, i, |t|);
    PlainOnly(post, t, fold, i);
    PlainOnly(post, t, fold, last);
    RoomAtEnd(a, post, t, fold, i, last);
    forall k: int ensures k < i ==> !Room(a, post, t, fold, i, k) {
      RoomStep(a, post, t, fold, i, k);
    }
    RoomStep(a, post, t, fold, i, i);
    forall l: int
      ensures Room(a, post, t, fold, i, l) ==> l <= last
      ensures LongestRun(a, t, fold, i, l) ==> l == last
    {
      OneRun(a, post, t, fold, i, l, last);
    }
    RunOver(a, t, fold, i, last);
  }

  lemma {:induction false} RunOver(a: Atom, t: Text, fold: bool, i: nat, last: nat)
    requires LongestRun(a, t, fold, i, last)
    ensures forall q: Quant :: Once(Single(a, q), t, fold, last, |t|) == None
  {
    hide Accepts;
  }

  lemma {:induction false} OneRun(a: Atom, post: seq<Item>, t: Text, fold: bool, i: nat, k: int, l: int)
    requires Plain(post) && LongestRun(a, t, fold, i, l)
    ensures Room(a, post, t, fold, i, k) ==> k <= l
    ensures LongestRun(a, t, fold, i, k) ==> k == l
  {
    hide Accepts, PlainAt, Plain;
  }

  lemma {:induction false} RoomAtEnd(a: Atom, post: seq<Item>, t: Text, fold: bool, i: nat, last: nat)
    requires Plain(post) && LongestRun(a, t, fold, i, last)
    ensures Room(a, post, t, fold, i, last) <==> PlainAt(post, t, fold, last)
  {
    hide Accepts, PlainAt, Plain;
  }

  lemma {:induction false} StarSimple(pre: seq<Item>, a: Atom, lazy: bool, post: seq<Item>)
    requires Plain(pre) && Plain(post) && ValidAtom(a)
    ensures var its := pre + ([Single(a, ZeroMore(lazy))] + post); Simple(its) && !StartsWithBol(its)
  {
    hide ValidAtom;
    var tail := [Single(a, ZeroMore(lazy))] + post;
    var its := pre + tail;
    assert forall k :: 0 < k < |tail| ==> tail[k] == post[k - 1];
    assert forall k :: 0 <= k < |its| ==> its[k] == if k < |pre| then pre[k] else tail[k - |pre|];
    assert forall k :: 0 <= k < |its| ==> FlatItem(its[k], false) && !its[k].Group? && !QuantOf(its[k]).Opt?;
  }

  /** `*` between plain atoms, greedy or not: from the first start at which some number of bytes leaves room for the
      atoms behind it, it takes what `StarTakes` says. */
  lemma {:induction false} StarBetween(pre: seq<Item>, a: Atom, lazy: bool, post: seq<Item>, t: Text, numCaps: int,
                                       fold: bool, spare: int)
    requires Plain(pre) && Plain(post) && ValidAtom(a)
    ensures
      var p := RenderSeq(pre) + RenderAtom(a) + (if lazy then [42, 63] else [42]) + RenderSeq(post);
      var r := E.MatchResult(p, t, numCaps, fold, spare);
      && r.Some?
      && if r.value >= 0 then
           exists s: nat :: PlainAt(pre, t, fold, s)
             && StarTakes(a, lazy, post, t, fold, s + |pre|, r.value - |post|)
             && forall x: nat :: x < s && PlainAt(pre, t, fold, x) ==> NoRoom(a, post, t, fold, x + |pre|)
         else r.value == -1 && forall s: nat :: PlainAt(pre, t, fold, s) ==> NoRoom(a, post, t, fold, s + |pre|)
  {
    hide RenderItem, RenderSeq, End, PlainAt, Simple, ValidAtom, Plain, Room, StarTakes, RenderAtom;
    var it := Single(a, ZeroMore(lazy));
    var tail := [it] + post;
    var its := pre + tail;
    RenderBoth(pre, tail);
    RenderBoth([it], post);
    OneRendered(it);
    StarRendered(a, lazy);
    var p := RenderSeq(pre) + RenderAtom(a) + (if lazy then [42, 63] else [42]) + RenderSeq(post);
    assert p == RenderSeq(its);
    StarSimple(pre, a, lazy, post);
    SequenceEnds(its, t, numCaps, fold, spare);
    var r := E.MatchResult(p, t, numCaps, fold, spare).value;
    forall s: nat | s <= |t| && End(its, t, fold, s, |t|) == None && PlainAt(pre, t, fold, s)
      ensures NoRoom(a, post, t, fold, s + |pre|)
    {
      StarAt(pre, a, lazy, post, t, fold, s);
    }
    forall s: nat | PlainAt(pre, t, fold, s) ensures s + |pre| <= |t| {
      PlainFits(pre, t, fold, s);
    }
    if r >= 0 {
      var s: nat :| FirstEndAt(its, t, fold, s, r);
      StarAt(pre, a, lazy, post, t, fold, s);
    }
  }

  lemma {:induction false} StarRendered(a: Atom, lazy: bool)
    ensures RenderItem(Single(a, ZeroMore(lazy))) == RenderAtom(a) + if lazy then [42, 63] else [42]
  {
  }

  lemma {:induction false} StarAt(pre: seq<Item>, a: Atom, lazy: bool, post: seq<Item>, t: Text, fold: bool, s: nat)
    requires Plain(pre) && Plain(post) && s <= |t|
    ensures var x := End(pre + ([Single(a, ZeroMore(lazy))] + post), t, fold, s, |t|);
      if x.Some? then PlainAt(pre, t, fold, s) && StarTakes(a, lazy, post, t, fold, s + |pre|, x.value - |post|)
      else PlainAt(pre, t, fold, s) ==> NoRoom(a, post, t, fold, s + |pre|)
  {
    hide End, PlainAt, ValidAtom, Plain, Room, StarTakes;
    PlainEnd(pre, [Single(a, ZeroMore(lazy))] + post, t, fold, s);
    if PlainAt(pre, t, fold, s) {
      PlainFits(pre, t, fold, s);
      StarEnd(a, lazy, post, t, fold, s + |pre|);
    }
  }

  // ---- A quantifier with nothing in front of it ---------------------------------------------------

  /** It is not refused by the scan, but makes every search fail with a code of its own. */
  lemma {:induction false} QuantifierFirst(q: Byte, pre: seq<Item>, t: Text, numCaps: int, fold: bool, spare: int)
    requires q in {42, 43, 63} && Plain(pre)
    ensures E.MatchResult([q] + RenderSeq(pre), t, numCaps, fold, spare) == Some(-2)
  {
    hide RenderSeq, Plain, Scan, M.BazFrom;
    var p := [q] + RenderSeq(pre);
    var st := InitialScan(p);
    PlainSimple(pre);
    assert !HasGroup(pre);
    ScanPlain(p, 0, st, numCaps);
    assert p[1..1 + |RenderSeq(pre)|] == RenderSeq(pre);
    ScanGroupless(p, 1, st, numCaps, pre);
    ScanEnd(p, st, numCaps);
    OneBracket(p, spare);
    QuantifierFails(M.Env(p, t, fold, PlainTables(p, spare)), 0);
  }

  lemma {:induction false} QuantifierFails(e: M.Env, i: nat)
    requires e.p != [] && e.p[0] in {42, 43, 63} && e.tb.brackets == [Bracket(0, |e.p|, 0, 0)] && e.tb.branches == []
    requires i <= |e.t|
    ensures M.BazFrom(e, i) == -2
    decreases |e.t| - i
  {
    assert M.Doh(e, i, |e.t| - i, 0) == -2 by {
      hide M.BazFrom;
      assert M.Bar(e, 0, |e.p|, i, |e.t| - i, 0, 0) == -2;
    }
    if i < |e.t| {
      QuantifierFails(e, i + 1);
    }
  }

  // ---- One byte against one atom --------------------------------------------------------------------

  lemma {:induction false} AtomMatches(a: Atom, b: Byte, fold: bool, spare: int)
    requires ValidAtom(a)
    ensures var r := E.MatchResult(RenderAtom(a), [b], 0, fold, spare);
      r.Some? && if Accepts(a, fold, b) then r.value == 1 else r.value == -1
  {
    hide RenderAtom, ValidAtom, Accepts, Scan;
    var it := Single(a, One);
    var pre := [it];
    assert RenderItem(it) == RenderAtom(a) + [] == RenderAtom(a);
    OneRendered(it);
    PlainFound(pre, [b], 0, fold, spare);
    forall s: nat ensures PlainAt(pre, [b], fold, s) <==> s == 0 && Accepts(a, fold, b) {
      if PlainAt(pre, [b], fold, s) {
        assert Accepts(pre[0].a, fold, [b][s + 0]);
      }
    }
    assert PlainAt(pre, [b], fold, 0) <==> Accepts(a, fold, b);
  }

  /** What a backslash and a byte stand for. */
  predicate Means(c: Byte, b: Byte) {
    if c == 100 then 48 <= b <= 57
    else if c == 115 then b == 32 || 9 <= b <= 13
    else if c == 83 then !(b == 32 || 9 <= b <= 13)
    else if c == 98 then b == 8
    else if c == 102 then b == 12
    else if c == 110 then b == 10
    else if c == 114 then b == 13
    else if c == 116 then b == 9
    else if c == 118 then b == 11
    else b == c
  }

  /** A backslash and one byte: digits, white space, control characters, or the byte itself; refused for any other. */
  lemma {:induction false} EscapeMatches(c: Byte, b: Byte, fold: bool, spare: int)
    requires c != 0
    ensures var r := E.MatchResult([92, c], [b], 0, fold, spare);
      && r.Some?
      && if c in {36, 40, 41, 42, 43, 46, 63, 91, 92, 93, 94, 124, 83, 98, 100, 102, 110, 114, 115, 116, 118} then
           if Means(c, b) then r.value == 1 else r.value == -1
         else r.value == -6
  {
    if IsMetacharacter(c) {
      AtomMatches(Esc(c), b, fold, spare);
    }
  }

  /** A set of one range. */
  lemma {:induction false} RangeMatches(low: Byte, high: Byte, b: Byte, fold: bool, spare: int)
    requires (48 <= low <= 57 && 48 <= high <= 57) || (97 <= low <= 122 && 97 <= high <= 122)
    ensures var r := E.MatchResult([91, low, 45, high, 93], [b], 0, fold, spare);
      && r.Some?
      && if low <= b <= high || (fold && 65 <= b <= 90 && low <= b + 32 <= high) then r.value == 1 else r.value == -1
  {
    var a := Set(false, [Range(low, high)]);
    assert a.elems[1..] == [];
    assert RenderElems(a.elems) == [low, 45, high] + [] == [low, 45, high];
    assert RenderAtom(a) == [91, low, 45, high, 93];
    hide E.MatchResult;
    OneElem(a.elems[0], fold, b);
    OneElem(a.elems[0], true, 0);
    OneElem(a.elems[0], false, 0);
    AtomMatches(a, b, fold, spare);
  }

  lemma {:induction false} OneElem(el: Elem, fold: bool, b: Byte)
    ensures Accepts(Set(false, [el]), fold, b) <==> ElemAccepts(el, fold, b)
  {
    hide ElemAccepts;
    assert [el][0] == el;
  }

  /** A byte by its two hexadecimal digits. */
  lemma {:induction false} CodeMatches(b: Byte, x: Byte, fold: bool, spare: int)
    ensures E.MatchResult([92, 120, HexOf(b / 16), HexOf(b % 16)], [x], 0, fold, spare) == Some(1) <==> x == b
  {
    var a := Hex(HexOf(b / 16), HexOf(b % 16));
    AtomMatches(a, x, fold, spare);
  }

  function HexOf(n: nat): Byte
    requires n < 16
  {
    if n < 10 then 48 + n else 87 + n
  }
}
