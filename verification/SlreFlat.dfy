/** Every flat expression keeps the matcher in step with its groups. */
module SlreFlat {
  import opened Bytes
  import opened SlreTables
  import opened SlreSyntax
  import opened SlreSoundness
  import opened SlreParsing
  import opened SlreWalk
  import opened SlreGroups
  import opened SlreInStep
  import Sets = SlreSets

  /** The walk from `i` comes to `j` and meets no parenthesis; with `bare`, no `|` either. */
  predicate Quiet(p: Text, i: nat, j: nat, bare: bool)
    decreases j - i
  {
    i == j ||
      (i < j && i < |p| && p[i] != LPAREN && p[i] != RPAREN && (bare ==> p[i] != PIPE) && 0 < Ahead(p, i)
       && Quiet(p, i + Ahead(p, i), j, bare))
  }

  lemma {:induction false} QuietOn(p: Text, i: nat, j: nat, k: nat, bare: bool)
    requires Quiet(p, i, j, bare) && Quiet(p, j, k, bare)
    ensures Quiet(p, i, k, bare)
    decreases j - i
  {
    if i < j {
      QuietOn(p, i + Ahead(p, i), j, k, bare);
      QuietGrows(p, j, k, bare);
    }
  }

  lemma {:induction false} QuietGrows(p: Text, i: nat, j: nat, bare: bool)
    requires Quiet(p, i, j, bare)
    ensures i <= j
  {
  }

  lemma {:induction false} QuietBars(p: Text, i: nat, j: nat)
    requires Quiet(p, i, j, true)
    ensures Quiet(p, i, j, false)
    decreases j - i
  {
    if i < j {
      QuietBars(p, i + Ahead(p, i), j);
    }
  }

  lemma {:induction false} QuietParen(p: Text, i: nat, j: nat)
    requires Quiet(p, i, j, false)
    ensures i <= j && NextParen(p, i) == NextParen(p, j)
    decreases j - i
  {
    if i < j {
      QuietParen(p, i + Ahead(p, i), j);
    }
  }

  lemma {:induction false} BareBars(p: Text, i: nat, j: nat, stop: nat)
    requires Quiet(p, i, j, true) && j <= stop
    ensures BarsIn(p, i, stop) == BarsIn(p, j, stop)
    decreases j - i
  {
    if i < j {
      QuietGrows(p, i + Ahead(p, i), j, true);
      BareBars(p, i + Ahead(p, i), j, stop);
    }
  }

  /** Over a bare stretch nothing changes. */
  lemma {:induction false} BareStretch(p: Text, i: nat, j: nat)
    requires Quiet(p, i, j, true)
    ensures NextParen(p, i) == NextParen(p, j) && TopBars(p, i) == TopBars(p, j)
    ensures OneDeep(p, i) == OneDeep(p, j) && QuantifiedLast(p, i) == QuantifiedLast(p, j)
  {
    hide Quiet, OneDeep, QuantifiedLast, NextParen, BarsIn, TopBars, Groups;
    QuietBars(p, i, j);
    QuietParen(p, i, j);
    NextGrows(p, j);
    SameGroups(p, i, j);
    BareBars(p, i, j, NextParen(p, i));
    TopStep(p, i);
    TopStep(p, j);
  }

  lemma {:induction false} NextGrows(p: Text, i: nat)
    ensures i <= NextParen(p, i)
  {
  }

  // ---- What is written ----------------------------------------------------------------------------

  lemma {:induction false} OneBare(p: Text, i: nat)
    requires i < |p| && p[i] != LPAREN && p[i] != RPAREN && p[i] != PIPE && p[i] != LBRACKET && p[i] != BACKSLASH
    ensures Quiet(p, i, i + 1, true)
  {
    assert Ahead(p, i) == 1;
  }

  lemma {:induction false} AtomBare(p: Text, i: nat, a: Atom)
    requires ValidAtom(a) && i + |RenderAtom(a)| <= |p| && p[i..i + |RenderAtom(a)|] == RenderAtom(a)
    ensures Quiet(p, i, i + |RenderAtom(a)|, true)
  {
    ReadBack(p, i, RenderAtom(a));
    assert At(p, i + 0) == RenderAtom(a)[0];
    if a.Set? {
      Sets.SetLength(p, i, |p| - i, a);
      assert Ahead(p, i) == |RenderAtom(a)|;
    } else if |RenderAtom(a)| == 1 {
      OneBare(p, i);
    } else {
      assert At(p, i + 1) == RenderAtom(a)[1];
      assert Ahead(p, i) == |RenderAtom(a)|;
    }
  }

  lemma {:induction false} QuantBare(p: Text, i: nat, q: Quant)
    requires i + |RenderQuant(q)| <= |p| && p[i..i + |RenderQuant(q)|] == RenderQuant(q)
    ensures Quiet(p, i, i + |RenderQuant(q)|, true)
  {
    ReadBack(p, i, RenderQuant(q));
    if |RenderQuant(q)| >= 1 {
      assert At(p, i + 0) == RenderQuant(q)[0];
      OneBare(p, i);
    }
    if |RenderQuant(q)| >= 2 {
      assert At(p, i + 1) == RenderQuant(q)[1];
      OneBare(p, i + 1);
      QuietOn(p, i, i + 1, i + 2, true);
    }
  }

  lemma {:induction false} ItemBare(p: Text, i: nat, it: Item)
    requires FlatItem(it, true) && !it.Group? && i + |RenderItem(it)| <= |p|
    requires p[i..i + |RenderItem(it)|] == RenderItem(it)
    ensures Quiet(p, i, i + |RenderItem(it)|, true)
  {
    hide Quiet;
    SplitSlice(p, i, RenderBase(it), RenderQuant(QuantOf(it)));
    if it.Single? {
      AtomBare(p, i, it.a);
    } else {
      ReadBack(p, i, RenderBase(it));
      assert At(p, i + 0) == RenderBase(it)[0];
      OneBare(p, i);
    }
    var j := i + |RenderBase(it)|;
    QuantBare(p, j, QuantOf(it));
    QuietOn(p, i, j, j + |RenderQuant(QuantOf(it))|, true);
  }

  lemma {:induction false} ItemsBare(p: Text, i: nat, its: seq<Item>)
    requires FlatTop(its) && !HasGroup(its) && Written(p, i, |RenderSeq(its)|, its)
    ensures Quiet(p, i, i + |RenderSeq(its)|, true)
    decreases |its|
  {
    hide RenderSeq, RenderItem, FlatTop, HasGroup, Quiet;
    if its == [] {
      NoRendering();
      NoWay(p, i);
    } else {
      var d := |RenderItem(its[0])|;
      SplitRendering(p, i, |RenderSeq(its)|, its);
      SeqLength(its);
      GrouplessFirst(its);
      GrouplessTail(its);
      ItemBare(p, i, its[0]);
      ItemsBare(p, i + d, its[1..]);
      QuietOn(p, i, i + d, i + |RenderSeq(its)|, true);
    }
  }

  lemma {:induction false} SeqLength(its: seq<Item>)
    requires its != []
    ensures |RenderSeq(its)| == |RenderItem(its[0])| + |RenderSeq(its[1..])|
  {
  }

  lemma {:induction false} BarQuiet(p: Text, i: nat)
    requires i < |p| && p[i] == PIPE
    ensures Quiet(p, i, i + 1, false)
  {
    assert Ahead(p, i) == 1;
  }

  /** Alternatives `a` to `b` without groups, and the bars between them. */
  lemma {:induction false} AltsQuiet(p: Text, pos: nat, alts: seq<Alternative>, a: nat, b: nat)
    requires a <= b < |alts| && pos + |RenderAlts(alts)| <= |p| && p[pos..pos + |RenderAlts(alts)|] == RenderAlts(alts)
    requires forall k :: a <= k < b ==> FlatTop(alts[k].items) && !HasGroup(alts[k].items)
    ensures Quiet(p, pos + AltStart(alts, a), pos + AltStart(alts, b), false)
    decreases b
  {
    hide Quiet, RenderSeq, RenderAlts, AltStart, FlatTop, HasGroup;
    if a == b {
      NoWay(p, pos + AltStart(alts, a));
    } else {
      AltsQuiet(p, pos, alts, a, b - 1);
      var i := pos + AltStart(alts, b - 1);
      var bar := i + |RenderSeq(alts[b - 1].items)|;
      AltsLayout(alts, b - 1);
      PieceWritten(p, alts, b - 1, pos);
      ItemsBare(p, i, alts[b - 1].items);
      QuietBars(p, i, bar);
      assert p[bar] == p[pos..pos + |RenderAlts(alts)|][AltStart(alts, b) - 1] == PIPE;
      BarQuiet(p, bar);
      QuietOn(p, i, bar, bar + 1, false);
      QuietOn(p, pos + AltStart(alts, a), i, bar + 1, false);
    }
  }

  /** All of them from `a` on. */
  lemma {:induction false} RestQuiet(p: Text, pos: nat, alts: seq<Alternative>, a: nat)
    requires a < |alts| && pos + |RenderAlts(alts)| <= |p| && p[pos..pos + |RenderAlts(alts)|] == RenderAlts(alts)
    requires forall k :: a <= k < |alts| ==> FlatTop(alts[k].items) && !HasGroup(alts[k].items)
    ensures Quiet(p, pos + AltStart(alts, a), pos + |RenderAlts(alts)|, false)
  {
    hide Quiet, RenderSeq, RenderAlts, AltStart, FlatTop, HasGroup;
    var last := |alts| - 1;
    AltsQuiet(p, pos, alts, a, last);
    AltsLayout(alts, last);
    PieceWritten(p, alts, last, pos);
    var i, end := pos + AltStart(alts, last), pos + |RenderAlts(alts)|;
    ItemsBare(p, i, alts[last].items);
    QuietBars(p, i, end);
    QuietOn(p, pos + AltStart(alts, a), i, end, false);
  }

  /** A written group stands between its parentheses. */
  lemma {:induction false} GroupHere(p: Text, i: nat, it: Item)
    requires it.Group? && FlatGroup(it) && i + |RenderBase(it)| <= |p| && p[i..i + |RenderBase(it)|] == RenderBase(it)
    ensures i < |p| && p[i] == LPAREN
    ensures var c := i + |RenderBase(it)| - 1; i < c < |p| && p[c] == RPAREN && NextParen(p, i + 1) == c
  {
    hide Quiet, RenderSeq, RenderAlts, AltStart, FlatTop, HasGroup, FlatSeq;
    var alts, inner := it.alts, RenderAlts(it.alts);
    EmptyAlts(alts);
    SplitSlice(p, i, [LPAREN], inner + [RPAREN]);
    SplitSlice(p, i + 1, inner, [RPAREN]);
    var c := i + 1 + |inner|;
    assert p[i] == p[i..i + 1][0] == LPAREN && p[c] == p[c..c + 1][0] == RPAREN;
    forall a | 0 <= a < |alts| ensures FlatTop(alts[a].items) && !HasGroup(alts[a].items) {
      FlatSeqIsTop(alts[a].items);
    }
    RestQuiet(p, i + 1, alts, 0);
    AltsLayout(alts, 0);
    QuietParen(p, i + 1, c);
    assert NextParen(p, c) == c;
  }

  // ---- The whole ----------------------------------------------------------------------------------

  /** No group follows any outer bar from here on. */
  ghost predicate BarsLast(p: Text, i: nat) {
    forall b :: b in TopBars(p, i) ==> NextParen(p, b) >= |p|
  }

  lemma {:induction false} BehindGroups(p: Text, i: nat)
    requires NextParen(p, i) >= |p|
    ensures OneDeep(p, i) && QuantifiedLast(p, i) && BarsLast(p, i)
  {
    hide BarsIn, NextParen;
    forall b | b in TopBars(p, i) ensures NextParen(p, b) >= |p| {
      BarsReached(p, i, NextParen(p, i), b);
      SameParen(p, i, b);
    }
  }

  lemma {:induction false} InFront(p: Text, o: nat)
    requires o < |p| && p[o] == LPAREN
    requires var c := NextParen(p, o + 1);
      && c < |p| && p[c] == RPAREN && OneDeep(p, c + 1) && QuantifiedLast(p, c + 1) && BarsLast(p, c + 1)
      && (IsQuantifier(At(p, c + 1)) ==> NextParen(p, c + 1) >= |p|)
    ensures OneDeep(p, o) && QuantifiedLast(p, o) && BarsLast(p, o)
  {
    assert NextParen(p, o) == o && BarsIn(p, o, o) == [];
    hide NextParen, BarsIn;
  }

  lemma {:induction false} ItemsInStep(p: Text, i: nat, its: seq<Item>)
    requires FlatTop(its) && Written(p, i, |RenderSeq(its)|, its)
    requires var end := i + |RenderSeq(its)|; NextParen(p, end) >= |p| && !IsQuantifier(At(p, end))
    ensures OneDeep(p, i) && QuantifiedLast(p, i) && BarsLast(p, i)
    decreases |its|
  {
    hide RenderSeq, RenderItem, RenderBase, RenderQuant, FlatTop, HasGroup, FlatGroup, NextParen, BarsIn, TopBars,
      OneDeep, QuantifiedLast, Quiet;
    if its == [] {
      NoRendering();
      BehindGroups(p, i);
    } else {
      var it, d := its[0], |RenderItem(its[0])|;
      SplitRendering(p, i, |RenderSeq(its)|, its);
      SeqLength(its);
      GrouplessTail(its);
      TopFirst(its);
      ItemsInStep(p, i + d, its[1..]);
      if it.Group? {
        GroupInStep(p, i, its);
      } else {
        ItemBare(p, i, it);
        BareStretch(p, i, i + d);
      }
    }
  }

  lemma {:induction false} TopFirst(its: seq<Item>)
    requires its != [] && FlatTop(its)
    ensures FlatItem(its[0], true)
    ensures its[0].Group? ==> FlatGroup(its[0])
    ensures its[0].Group? && !its[0].q.One? ==> !HasGroup(its[1..])
    ensures its[1..] != [] ==> FlatItem(its[1..][0], false)
  {
  }

  lemma {:induction false} GroupInStep(p: Text, i: nat, its: seq<Item>)
    requires its != [] && FlatTop(its) && its[0].Group? && Written(p, i, |RenderSeq(its)|, its)
    requires var end := i + |RenderSeq(its)|; NextParen(p, end) >= |p| && !IsQuantifier(At(p, end))
    requires var j := i + |RenderItem(its[0])|; OneDeep(p, j) && QuantifiedLast(p, j) && BarsLast(p, j)
    ensures OneDeep(p, i) && QuantifiedLast(p, i) && BarsLast(p, i)
  {
    hide RenderSeq, RenderBase, RenderQuant, FlatTop, HasGroup, FlatGroup, NextParen, BarsIn, TopBars, OneDeep,
      QuantifiedLast, Quiet;
    var it, rest := its[0], its[1..];
    SplitRendering(p, i, |RenderSeq(its)|, its);
    SeqLength(its);
    TopFirst(its);
    GrouplessTail(its);
    SplitSlice(p, i, RenderBase(it), RenderQuant(QuantOf(it)));
    GroupHere(p, i, it);
    var c, j, end := i + |RenderBase(it)| - 1, i + |RenderItem(it)|, i + |RenderSeq(its)|;
    QuantBare(p, c + 1, it.q);
    BareStretch(p, c + 1, j);
    if IsQuantifier(At(p, c + 1)) {
      BehindQuantified(p, c + 1, j, it.q, rest);
    }
    InFront(p, i);
  }

  /** What a quantifier stands behind is the last group. */
  lemma {:induction false} BehindQuantified(p: Text, i: nat, j: nat, q: Quant, rest: seq<Item>)
    requires j == i + |RenderQuant(q)| && IsQuantifier(At(p, i)) && NextParen(p, i) == NextParen(p, j)
    requires Written(p, j, |RenderSeq(rest)|, rest) && FlatTop(rest) && (!q.One? ==> !HasGroup(rest))
    requires rest != [] ==> FlatItem(rest[0], false)
    requires var end := j + |RenderSeq(rest)|; NextParen(p, end) >= |p| && !IsQuantifier(At(p, end))
    ensures NextParen(p, i) >= |p|
  {
    hide RenderSeq, FlatTop, HasGroup, NextParen, Quiet;
    if q.One? {
      if rest == [] {
        NoRendering();
        assert false;
      } else {
        FirstByteOf(p, j, rest);
        assert false;
      }
    } else {
      ItemsBare(p, j, rest);
      QuietBars(p, j, j + |RenderSeq(rest)|);
      QuietParen(p, j, j + |RenderSeq(rest)|);
    }
  }

  lemma {:induction false} FirstByteOf(p: Text, i: nat, its: seq<Item>)
    requires its != [] && FlatItem(its[0], false) && Written(p, i, |RenderSeq(its)|, its)
    ensures !IsQuantifier(At(p, i))
  {
    hide RenderSeq, RenderItem, RenderBase;
    SplitRendering(p, i, |RenderSeq(its)|, its);
    FirstByte(its[0]);
    ReadBack(p, i, RenderItem(its[0]));
    assert At(p, i + 0) == RenderItem(its[0])[0];
  }

  /** In front of the groups outer bars do no harm. */
  lemma {:induction false} InStepAhead(p: Text, s: nat)
    requires Quiet(p, 0, s, false) && OneDeep(p, s) && QuantifiedLast(p, s) && BarsLast(p, s)
    ensures InStep(p)
  {
    hide Quiet, NextParen, BarsIn, TopBars, OneDeep, QuantifiedLast, Groups;
    QuietParen(p, 0, s);
    SameGroups(p, 0, s);
    TopStep(p, 0);
    TopStep(p, s);
    var o := NextParen(p, 0);
    forall b | b in TopBars(p, 0) ensures Groups(p, b) == Groups(p, 0) || NextParen(p, b) >= |p| {
      if b in BarsIn(p, 0, o) {
        BarsReached(p, 0, o, b);
        SameParen(p, 0, b);
        SameGroups(p, b, 0);
      } else {
        assert b in TopBars(p, s);
      }
    }
  }

  /** A flat expression is in step, and so what memory holds behind the tables does not matter to it. */
  lemma {:induction false} FlatInStep(alts: seq<Alternative>)
    requires FlatRegex(alts)
    ensures InStep(RenderAlts(alts))
  {
    hide RenderAlts, RenderSeq, AltStart, FlatTop, HasGroup, BarsFit, GroupAlt, NextParen, OneDeep, QuantifiedLast,
      Quiet, InStep, BarsLast;
    var p, g, its := RenderAlts(alts), GroupAlt(alts), GroupItems(alts);
    assert p[0..0 + |p|] == p;
    AltsQuiet(p, 0, alts, 0, g);
    StartsAtZero(alts);
    AltsLayout(alts, g);
    PieceWritten(p, alts, g, 0);
    var end := GroupStart(alts) + |RenderSeq(its)|;
    if g + 1 < |alts| {
      assert p[end] == PIPE;
      BarQuiet(p, end);
      RestQuiet(p, 0, alts, g + 1);
      QuietOn(p, end, end + 1, |p|, false);
    } else {
      NoWay(p, end);
    }
    QuietParen(p, end, |p|);
    ItemsInStep(p, GroupStart(alts), its);
    InStepAhead(p, GroupStart(alts));
  }

  lemma {:induction false} NoWay(p: Text, i: nat)
    ensures Quiet(p, i, i, false) && Quiet(p, i, i, true)
  {
  }

  lemma {:induction false} StartsAtZero(alts: seq<Alternative>)
    requires alts != []
    ensures AltStart(alts, 0) == 0
  {
  }
}
