/** On the flat fragment the matcher is sound: whatever stretch of text it reports is in the
    language of the expression whose rendering it was given. */
module SlreSoundness {
  import opened Bytes
  import opened SlreTables
  import opened SlreMatcher
  import opened SlreSyntax
  import Sets = SlreSets

  /** The region (lo, n) of the pattern is the rendering of the sequence. */
  ghost predicate Written(p: Text, lo: int, n: int, its: seq<Item>) {
    0 <= lo && 0 <= n && lo + n <= |p| && p[lo..lo + n] == RenderSeq(its)
  }

  /** Bracket `k` describes the alternatives whose rendering starts at `pos`. */
  ghost predicate BracketIs(tb: Tables, k: nat, pos: int, alts: seq<Alternative>)
    requires tb.WellFormed() && k < |tb.brackets|
  {
    var b := tb.brackets[k];
    && b.ptr == pos
    && b.len == |RenderAlts(alts)|
    && b.numBranches == |alts| - 1
    && forall i :: 0 < i < |alts| ==> tb.branches[b.branches + i - 1].schlong == pos + AltStart(alts, i) - 1
  }

  /** The groups of the sequence, in order, are the brackets behind number `bi`. */
  ghost predicate GroupsAt(tb: Tables, its: seq<Item>, lo: int, bi: nat)
    requires tb.WellFormed()
  {
    if its == [] then true
    else if its[0].Group? then
      && bi + 1 < |tb.brackets|
      && BracketIs(tb, bi + 1, lo + 1, its[0].alts)
      && GroupsAt(tb, its[1..], lo + |RenderItem(its[0])|, bi + 1)
    else GroupsAt(tb, its[1..], lo + |RenderItem(its[0])|, bi)
  }

  /** Some item has to see where the text ends. */
  predicate SeesEnd(its: seq<Item>) {
    exists k :: 0 <= k < |its| && (its[k].Eol? || (its[k].Single? && its[k].a.Set?) || SetInside(its[k]))
  }

  /** What a call of `bar` on a region may rely on. */
  ghost predicate Situated(e: Env, its: seq<Item>, lo: int, n: int, so: int, m: int, bi: nat) {
    && e.tb.WellFormed() && bi < |e.tb.brackets|
    && Written(e.p, lo, n, its) && FlatTop(its) && GroupsAt(e.tb, its, lo, bi)
    && 0 <= so && 0 <= m && so + m <= |e.t|
    && (SeesEnd(its) ==> so + m == |e.t|)
    && (StartsWithBol(its) ==> so == 0)
  }

  function Unquantified(it: Item): Item {
    match it
    case Single(a, _) => Single(a, One)
    case Group(alts, _) => Group(alts, One)
    case _ => it
  }

  lemma {:induction false} GroupsAtNone(tb: Tables, its: seq<Item>, lo: int, bi: nat)
    requires tb.WellFormed() && !HasGroup(its)
    ensures GroupsAt(tb, its, lo, bi)
  {
    if its != [] {
      forall k | 0 <= k < |its[1..]| ensures !its[1..][k].Group? {
        assert !its[k + 1].Group?;
      }
      GroupsAtNone(tb, its[1..], lo + |RenderItem(its[0])|, bi);
    }
  }

  /** What follows an item, seen from the text behind it. */
  lemma {:induction false} TailSituated(e: Env, its: seq<Item>, lo: int, n: int, so: int, m: int, bi: nat, so': int,
                                        m': int)
    requires its != [] && Situated(e, its, lo, n, so, m, bi)
    requires so <= so' && 0 <= m' && so' + m' == so + m
    ensures var d := |RenderItem(its[0])|;
      && 0 < d <= n
      && Situated(e, its[1..], lo + d, n - d, so', m', if its[0].Group? then bi + 1 else bi)
      && (QuantOf(its[0]) != One ==> Situated(e, its[1..], lo + d, n - d, so', m', bi))
  {
    var d := |RenderItem(its[0])|;
    SplitRendering(e.p, lo, n, its);
    var rest := its[1..];
    assert forall k :: 0 <= k < |rest| ==> rest[k] == its[k + 1];
    assert FlatTop(rest) && !StartsWithBol(rest);
    assert SeesEnd(rest) ==> SeesEnd(its);
    if QuantOf(its[0]) != One && its[0].Group? {
      GroupsAtNone(e.tb, rest, lo + d, bi);
    }
  }

  lemma {:induction false} SplitRendering(p: Text, lo: int, n: int, its: seq<Item>)
    requires its != [] && Written(p, lo, n, its)
    ensures var d := |RenderItem(its[0])|;
      && 0 < d <= n
      && (d == n <==> its[1..] == [])
      && p[lo..lo + d] == RenderItem(its[0])
      && Written(p, lo + d, n - d, its[1..])
  {
    assert RenderSeq(its) == RenderItem(its[0]) + RenderSeq(its[1..]);
    SplitSlice(p, lo, RenderItem(its[0]), RenderSeq(its[1..]));
  }

  /** An item without its quantifier, on any stretch of the text. */
  lemma {:induction false} AloneSituated(e: Env, its: seq<Item>, lo: int, n: int, so: int, m: int, bi: nat, so': int,
                                         m': int)
    requires its != [] && Situated(e, its, lo, n, so, m, bi)
    requires its[0].Single? || its[0].Group?
    requires 0 <= so' && 0 <= m' && so' + m' == so + m
    ensures Situated(e, [Unquantified(its[0])], lo, |RenderBase(its[0])|, so', m', bi)
  {
    hide RenderSeq, RenderAlts, BracketIs, RenderQuant;
    SplitRendering(e.p, lo, n, its);
    var it := its[0];
    var b := RenderBase(it);
    SplitSlice(e.p, lo, b, RenderQuant(QuantOf(it)));
    var one := [Unquantified(it)];
    assert one[1..] == [];
    OneRendering(it);
    assert Written(e.p, lo, |b|, one);
    assert FlatItem(its[0], true) && FlatItem(one[0], true) && FlatTop(one);
    assert GroupsAt(e.tb, one[1..], lo + |RenderItem(one[0])|, if it.Group? then bi + 1 else bi);
    assert GroupsAt(e.tb, one, lo, bi);
    assert SeesEnd(one) ==> SeesEnd(its) by { SeenAlone(its); }
    assert !StartsWithBol(one);
  }

  lemma {:induction false} SeenAlone(its: seq<Item>)
    requires its != []
    ensures SeesEnd([Unquantified(its[0])]) ==> SeesEnd(its)
  {
    var one := [Unquantified(its[0])];
    if k :| 0 <= k < |one| && (one[k].Eol? || (one[k].Single? && one[k].a.Set?) || SetInside(one[k])) {
      assert k == 0 && (its[0].Eol? || (its[0].Single? && its[0].a.Set?) || SetInside(its[0]));
    }
  }

  lemma {:induction false} OneRendering(it: Item)
    requires it.Single? || it.Group?
    ensures RenderSeq([Unquantified(it)]) == RenderBase(it)
  {
    var one := [Unquantified(it)];
    assert one[1..] == [];
    assert RenderBase(one[0]) == RenderBase(it);
    assert RenderSeq(one) == RenderBase(it) + [] + [];
  }

  lemma {:induction false} FirstByte(it: Item)
    requires it.Single? ==> ValidAtom(it.a)
    ensures !IsQuantifier(RenderBase(it)[0]) && !IsQuantifier(RenderItem(it)[0])
    ensures RenderItem(it)[0] == RenderBase(it)[0]
    ensures RenderBase(it)[0] == LBRACKET <==> it.Single? && it.a.Set?
    ensures RenderBase(it)[0] == LPAREN <==> it.Group?
    ensures RenderBase(it)[0] == CARET <==> it.Bol?
    ensures RenderBase(it)[0] == DOLLAR <==> it.Eol?
  {
  }

  /** What `bar` sees of an item at `lo`: its length, and the quantifier behind it. */
  ghost predicate Seen(e: Env, it: Item, lo: int, n: int, bi: nat) {
    var base, q := RenderBase(it), RenderQuant(QuantOf(it));
    && At(e.p, lo) == base[0]
    && !IsQuantifier(base[0])
    && Step(e, lo, n, bi) == |base|
    && |base| + |q| <= n
    && (|base| < n ==> (IsQuantifier(At(e.p, lo + |base|)) <==> q != []))
    && (forall k :: 0 <= k < |q| ==> At(e.p, lo + |base| + k) == q[k])
    && (|base| + |q| < n ==> At(e.p, lo + |base| + |q|) != QUESTION)
  }

  lemma {:induction false} BaseStep(e: Env, it: Item, lo: int, n: int, bi: nat)
    requires e.tb.WellFormed() && 0 <= lo && lo + |RenderBase(it)| <= |e.p| && |RenderBase(it)| <= n
    requires e.p[lo..lo + |RenderBase(it)|] == RenderBase(it)
    requires it.Single? ==> ValidAtom(it.a)
    requires it.Group? ==> bi + 1 < |e.tb.brackets| && BracketIs(e.tb, bi + 1, lo + 1, it.alts)
    ensures Step(e, lo, n, bi) == |RenderBase(it)|
  {
    ReadBack(e.p, lo, RenderBase(it));
    assert At(e.p, lo + 0) == RenderBase(it)[0];
    FirstByte(it);
    if it.Single? && it.a.Set? {
      Sets.SetLength(e.p, lo, n, it.a);
    } else if it.Single? && |RenderAtom(it.a)| >= 2 {
      assert At(e.p, lo + 1) == RenderAtom(it.a)[1];
    }
  }

  lemma {:induction false} HeadFacts(e: Env, its: seq<Item>, lo: int, n: int, so: int, m: int, bi: nat)
    requires its != [] && Situated(e, its, lo, n, so, m, bi)
    ensures its[0].Single? ==> ValidAtom(its[0].a)
    ensures its[0].Group? ==>
      FlatGroup(its[0]) && bi + 1 < |e.tb.brackets| && BracketIs(e.tb, bi + 1, lo + 1, its[0].alts)
    ensures its[0].Bol? ==> so == 0
    ensures its[0].Eol? ==> so + m == |e.t|
    ensures its[0].Single? && its[0].a.Set? ==> so + m == |e.t|
    ensures SetInside(its[0]) ==> so + m == |e.t| && (its[0].Group? && its[0].q.One? ==> its[1..] == [])
  {
    assert its[0].Eol? || (its[0].Single? && its[0].a.Set?) || SetInside(its[0]) ==> SeesEnd(its);
  }

  lemma {:induction false} ItemSeen(e: Env, its: seq<Item>, lo: int, n: int, so: int, m: int, bi: nat)
    requires its != [] && Situated(e, its, lo, n, so, m, bi)
    ensures Seen(e, its[0], lo, n, bi)
  {
    hide FlatTop, GroupsAt, BracketIs, RenderSeq, RenderAlts, RenderBase, RenderQuant, SeesEnd, HasGroup, FlatGroup,
      StartsWithBol, Step;
    SplitRendering(e.p, lo, n, its);
    HeadFacts(e, its, lo, n, so, m, bi);
    var it := its[0];
    var base, q := RenderBase(it), RenderQuant(QuantOf(it));
    assert RenderItem(it) == base + q;
    hide RenderItem;
    FirstByte(it);
    SplitSlice(e.p, lo, base, q);
    BaseStep(e, it, lo, n, bi);
    ReadBack(e.p, lo, base);
    assert At(e.p, lo + 0) == base[0];
    QuantSeen(e, its, lo, n, so, m, bi);
  }

  lemma {:induction false} QuantSeen(e: Env, its: seq<Item>, lo: int, n: int, so: int, m: int, bi: nat)
    requires its != [] && Situated(e, its, lo, n, so, m, bi)
    ensures var base, q := RenderBase(its[0]), RenderQuant(QuantOf(its[0]));
      && (|base| < n ==> (IsQuantifier(At(e.p, lo + |base|)) <==> q != []))
      && (forall k :: 0 <= k < |q| ==> At(e.p, lo + |base| + k) == q[k])
      && (|base| + |q| < n ==> At(e.p, lo + |base| + |q|) != QUESTION)
  {
    hide FlatTop, GroupsAt, BracketIs, RenderSeq, RenderAlts, RenderBase, SeesEnd, HasGroup, FlatGroup, StartsWithBol;
    SplitRendering(e.p, lo, n, its);
    TailSituated(e, its, lo, n, so, m, bi, so, m);
    var it := its[0];
    var base, q := RenderBase(it), RenderQuant(QuantOf(it));
    var d := |base| + |q|;
    assert RenderItem(it) == base + q;
    hide RenderItem;
    SplitSlice(e.p, lo, base, q);
    ReadBack(e.p, lo + |base|, q);
    if d < n {
      assert Situated(e, its[1..], lo + d, n - d, so, m, if it.Group? then bi + 1 else bi);
      NextByte(e.p, its[1..], lo + d, n - d);
    }
    if q != [] {
      assert At(e.p, lo + |base| + 0) == q[0];
    } else if d < n {
      assert At(e.p, lo + |base|) == e.p[lo + d];
    }
  }

  lemma {:induction false} NextByte(p: Text, its: seq<Item>, lo: int, n: int)
    requires Written(p, lo, n, its) && FlatTop(its) && 0 < n
    ensures !IsQuantifier(p[lo])
  {
    assert its != [];
    FirstByte(its[0]);
    assert RenderSeq(its) == RenderItem(its[0]) + RenderSeq(its[1..]);
    assert p[lo] == p[lo..lo + n][0] == RenderItem(its[0])[0];
  }

  /** `match_op` decides exactly what the atom means. */
  lemma {:induction false} AtomDecided(p: Text, lo: int, a: Atom, b: Byte, fold: bool)
    requires ValidAtom(a) && !a.Set?
    requires 0 <= lo && lo + |RenderAtom(a)| <= |p| && p[lo..lo + |RenderAtom(a)|] == RenderAtom(a)
    ensures MatchOp(p, lo, b, fold) == if Accepts(a, fold, b) then 1 else -1
  {
    var s := RenderAtom(a);
    forall k | 0 <= k < |s| ensures At(p, lo + k) == s[k] {
      assert p[lo..lo + |s|][k] == p[lo + k];
    }
    assert At(p, lo) == s[0];
    match a
    case Hex(h, l) =>
      assert At(p, lo + 1) == LOWER_X && At(p, lo + 2) == h && At(p, lo + 3) == l;
    case Esc(c) =>
      assert At(p, lo + 1) == c;
    case _ =>
  }

  // ---- Putting matches together ---------------------------------------------------------------

  lemma {:induction false} Prepend(its: seq<Item>, t: Text, fold: bool, i: int, k: int, e: int)
    requires its != [] && i <= k <= e && MatchesItem(its[0], t, fold, i, k) && Matches(its[1..], t, fold, k, e)
    ensures Matches(its, t, fold, i, e)
  {
  }

  lemma {:induction false} OneItem(it: Item, t: Text, fold: bool, i: int, e: int)
    requires Matches([Unquantified(it)], t, fold, i, e)
    ensures MatchesBase(it, t, fold, i, e)
  {
    var one := [Unquantified(it)];
    var k :| i <= k <= e && MatchesItem(one[0], t, fold, i, k) && Matches(one[1..], t, fold, k, e);
    assert MatchesBase(one[0], t, fold, i, e);
    match it
    case Group(alts, _) =>
      var a :| 0 <= a < |alts| && Matches(alts[a].items, t, fold, i, e);
    case _ =>
  }

  lemma {:induction false} IterateMore(it: Item, n: nat, t: Text, fold: bool, i: int, k: int, e: int)
    requires i <= k <= e && Iterates(it, n, t, fold, i, k) && MatchesBase(it, t, fold, k, e)
    ensures Iterates(it, n + 1, t, fold, i, e)
  {
  }

  lemma {:induction false} RepeatedItem(it: Item, n: nat, t: Text, fold: bool, i: int, e: int)
    requires Iterates(it, n, t, fold, i, e)
    requires QuantOf(it).ZeroMore? || (QuantOf(it).OneMore? && 0 < n)
    ensures MatchesItem(it, t, fold, i, e)
  {
  }

  // ---- One step of the matcher ------------------------------------------------------------------

  lemma {:induction false} BarAtOption(e: Env, it: Item, lo: int, n: int, so: int, m: int, bi: nat, j: int)
    requires e.tb.WellFormed() && bi < |e.tb.brackets| && 0 <= j <= m
    requires Seen(e, it, lo, n, bi) && QuantOf(it).Opt?
    ensures |RenderItem(it)| == |RenderBase(it)| + 1
    ensures var step := |RenderBase(it)|;
      Bar(e, lo, n, so, m, bi, j) ==
      Bar(e, lo + step + 1, n - step - 1, so, m, bi, j + Max(Bar(e, lo, step, so + j, m - j, bi, 0), 0))
  {
    assert At(e.p, lo + |RenderBase(it)| + 0) == QUESTION;
  }

  lemma {:induction false} BarAtRepeat(e: Env, it: Item, lo: int, n: int, so: int, m: int, bi: nat, j: int)
    requires e.tb.WellFormed() && bi < |e.tb.brackets| && 0 <= j <= m
    requires Seen(e, it, lo, n, bi) && (QuantOf(it).ZeroMore? || QuantOf(it).OneMore?)
    ensures var step, q := |RenderBase(it)|, QuantOf(it);
      && 0 < step < n
      && Bar(e, lo, n, so, m, bi, j) == Repeat(e, lo, n, so, m, bi, j, step)
      && At(e.p, lo + step) == (if q.OneMore? then PLUS else STAR)
      && AfterQuantifier(e, lo, n, step) == |RenderItem(it)|
      && NonGreedy(e, lo, n, step) == q.lazy
  {
    var step, q := |RenderBase(it)|, RenderQuant(QuantOf(it));
    assert At(e.p, lo + step + 0) == q[0];
    if QuantOf(it).lazy {
      assert At(e.p, lo + step + 1) == q[1];
    }
  }

  /** How the matcher refuses a byte. */
  function Refusal(e: Env, a: Atom, lo: int, b: Byte): int {
    if a.Set? then NO_MATCH else MatchOp(e.p, lo, b, e.fold)
  }

  lemma {:induction false} BarAtAtom(e: Env, it: Item, lo: int, n: int, so: int, m: int, bi: nat, j: int)
    requires e.tb.WellFormed() && bi < |e.tb.brackets| && 0 <= j <= m && 0 <= so && so + m <= |e.t|
    requires Seen(e, it, lo, n, bi) && it.Single? && it.q.One? && ValidAtom(it.a)
    requires 0 <= lo && lo + |RenderAtom(it.a)| <= |e.p| && e.p[lo..lo + |RenderAtom(it.a)|] == RenderAtom(it.a)
    requires it.a.Set? ==> so + m == |e.t|
    ensures var step := |RenderAtom(it.a)|;
      Bar(e, lo, n, so, m, bi, j) ==
        if j == m then NO_MATCH
        else if Accepts(it.a, e.fold, e.t[so + j]) then Bar(e, lo + step, n - step, so, m, bi, j + 1)
        else Refusal(e, it.a, lo, e.t[so + j])
    ensures j < m && !Accepts(it.a, e.fold, e.t[so + j]) ==> Refusal(e, it.a, lo, e.t[so + j]) == -1
  {
    hide ValidAtom, Accepts, RenderAtom, MatchOp, Bar;
    if it.a.Set? {
      BarAtSet(e, it, lo, n, so, m, bi, j);
    } else {
      FirstByte(it);
      FirstOfAtom(it);
      BarRound(e, lo, n, so, m, bi, j);
      if j < m {
        AtomDecided(e.p, lo, it.a, e.t[so + j], e.fold);
      }
    }
  }

  lemma {:induction false} FirstOfAtom(it: Item)
    requires it.Single? && it.q.One?
    ensures RenderBase(it) == RenderAtom(it.a) && RenderQuant(QuantOf(it)) == []
  {
  }

  lemma {:induction false} BarAtSet(e: Env, it: Item, lo: int, n: int, so: int, m: int, bi: nat, j: int)
    requires e.tb.WellFormed() && bi < |e.tb.brackets| && 0 <= j <= m && 0 <= so && so + m == |e.t|
    requires Seen(e, it, lo, n, bi) && it.Single? && it.q.One? && ValidAtom(it.a) && it.a.Set?
    requires 0 <= lo && lo + |RenderAtom(it.a)| <= |e.p| && e.p[lo..lo + |RenderAtom(it.a)|] == RenderAtom(it.a)
    ensures var step := |RenderAtom(it.a)|;
      Bar(e, lo, n, so, m, bi, j) ==
        if j < m && Accepts(it.a, e.fold, e.t[so + j]) then Bar(e, lo + step, n - step, so, m, bi, j + 1) else NO_MATCH
  {
    hide RenderBase, SetResult, Bar, ValidAtom, Accepts, RenderAtom, Seen;
    SetSeen(e, it, lo, n, bi);
    Sets.SetDecided(e.p, lo, n, it.a, At(e.t, so + j), e.fold);
    RefusesEnd(it.a, e.fold);
    BarRound(e, lo, n, so, m, bi, j);
  }

  lemma {:induction false} SetSeen(e: Env, it: Item, lo: int, n: int, bi: nat)
    requires e.tb.WellFormed() && Seen(e, it, lo, n, bi) && it.Single? && it.q.One? && it.a.Set?
    ensures Step(e, lo, n, bi) == |RenderAtom(it.a)| <= n && At(e.p, lo) == LBRACKET
    ensures |RenderAtom(it.a)| < n ==> !IsQuantifier(At(e.p, lo + |RenderAtom(it.a)|))
  {
  }

  lemma {:induction false} RefusesEnd(a: Atom, fold: bool)
    requires a.Set? && ValidAtom(a)
    ensures !Accepts(a, fold, 0)
  {
  }

  lemma {:induction false} BarAtAnchor(e: Env, it: Item, lo: int, n: int, so: int, m: int, bi: nat, j: int)
    requires e.tb.WellFormed() && bi < |e.tb.brackets| && 0 <= j <= m
    requires Seen(e, it, lo, n, bi) && (it.Bol? || it.Eol?)
    ensures Bar(e, lo, n, so, m, bi, j) ==
      if j == (if it.Bol? then 0 else m) then Bar(e, lo + 1, n - 1, so, m, bi, j) else NO_MATCH
  {
  }

  /** What `bar` makes of a group: the bytes its bracket takes, with the retries if pattern follows. */
  lemma {:induction false} BarAtGroup(e: Env, it: Item, lo: int, n: int, so: int, m: int, bi: nat, j: int)
    requires e.tb.WellFormed() && bi + 1 < |e.tb.brackets| && 0 <= j <= m
    requires Seen(e, it, lo, n, bi) && it.Group? && it.q.One?
    ensures var step := |RenderBase(it)|;
      var x := if n <= step then Doh(e, so + j, m - j, bi + 1)
        else GroupLoop(e, lo + step, n - step, so, m, bi + 1, j, 0);
      Bar(e, lo, n, so, m, bi, j) == if x < 0 then x else Bar(e, lo + step, n - step, so, m, bi + 1, j + x)
  {
    hide Bar, Doh, GroupLoop, RenderBase;
    FirstByte(it);
    BarRound(e, lo, n, so, m, bi, j);
  }

  /** At an unquantified atom `bar` goes on behind one byte, or fails. */
  lemma {:induction false} AtomStep(e: Env, its: seq<Item>, lo: int, n: int, so: int, m: int, bi: nat, j: int)
    requires its != [] && Situated(e, its, lo, n, so, m, bi) && its[0].Single? && its[0].q.One? && 0 <= j <= m
    ensures var d, r := |RenderItem(its[0])|, Bar(e, lo, n, so, m, bi, j);
      && d == |RenderBase(its[0])| <= n
      && r == if j < m && Accepts(its[0].a, e.fold, e.t[so + j]) then Bar(e, lo + d, n - d, so, m, bi, j + 1) else -1
  {
    hide Bar, RenderSeq, RenderAlts, FlatTop, GroupsAt, HasGroup, SeesEnd, ValidAtom, Accepts, MatchOp, Seen;
    ItemSeen(e, its, lo, n, so, m, bi);
    SplitRendering(e.p, lo, n, its);
    HeadFacts(e, its, lo, n, so, m, bi);
    assert RenderItem(its[0]) == RenderAtom(its[0].a) + [];
    BarAtAtom(e, its[0], lo, n, so, m, bi, j);
  }

  // ---- The matcher ----------------------------------------------------------------------------

  /** Soundness of `bar`. */
  lemma {:induction false} BarSound(e: Env, its: seq<Item>, lo: int, n: int, so: int, m: int, bi: nat, j: int)
    requires Situated(e, its, lo, n, so, m, bi) && 0 <= j <= m
    ensures var r := Bar(e, lo, n, so, m, bi, j);
      r >= 0 ==> j <= r <= m && Matches(its, e.t, e.fold, so + j, so + r)
    decreases |e.tb.brackets| - bi, 0, n, 3, 0
  {
    var r := Bar(e, lo, n, so, m, bi, j);
    if its == [] {
      assert n == 0;
    } else if r >= 0 {
      ItemSeen(e, its, lo, n, so, m, bi);
      match QuantOf(its[0])
      case One => OneSound(e, its, lo, n, so, m, bi, j);
      case Opt => OptSound(e, its, lo, n, so, m, bi, j);
      case _ => RepeatSound(e, its, lo, n, so, m, bi, j);
    }
  }

  lemma {:induction false} OptSound(e: Env, its: seq<Item>, lo: int, n: int, so: int, m: int, bi: nat, j: int)
    requires its != [] && Situated(e, its, lo, n, so, m, bi) && 0 <= j <= m
    requires Seen(e, its[0], lo, n, bi) && QuantOf(its[0]).Opt?
    ensures var r := Bar(e, lo, n, so, m, bi, j);
      r >= 0 ==> j <= r <= m && Matches(its, e.t, e.fold, so + j, so + r)
    decreases |e.tb.brackets| - bi, 0, n, 2, 0
  {
    hide Bar, RenderSeq, RenderBase, RenderItem, RenderAlts, Matches, MatchesItem, MatchesBase, FlatTop, GroupsAt,
      Written, SeesEnd, HasGroup;
    var it, step := its[0], |RenderBase(its[0])|;
    BarAtOption(e, it, lo, n, so, m, bi, j);
    var x := Bar(e, lo, step, so + j, m - j, bi, 0);
    AloneSituated(e, its, lo, n, so, m, bi, so + j, m - j);
    TailSituated(e, its, lo, n, so, m, bi, so, m);
    BarSound(e, [Unquantified(it)], lo, step, so + j, m - j, bi, 0);
    var j' := j + Max(x, 0);
    if x > 0 {
      OneItem(it, e.t, e.fold, so + j, so + j');
    }
    BarSound(e, its[1..], lo + step + 1, n - step - 1, so, m, bi, j');
    var r := Bar(e, lo, n, so, m, bi, j);
    if r >= 0 {
      Prepend(its, e.t, e.fold, so + j, so + j', so + r);
    }
  }

  lemma {:induction false} OneSound(e: Env, its: seq<Item>, lo: int, n: int, so: int, m: int, bi: nat, j: int)
    requires its != [] && Situated(e, its, lo, n, so, m, bi) && 0 <= j <= m
    requires Seen(e, its[0], lo, n, bi) && QuantOf(its[0]).One?
    ensures var r := Bar(e, lo, n, so, m, bi, j);
      r >= 0 ==> j <= r <= m && Matches(its, e.t, e.fold, so + j, so + r)
    decreases |e.tb.brackets| - bi, 0, n, 2, 0
  {
    hide Bar, RenderSeq, RenderBase, RenderItem, RenderAlts, Matches, MatchesItem, MatchesBase, FlatTop, GroupsAt,
      Written, SeesEnd, HasGroup;
    var r := Bar(e, lo, n, so, m, bi, j);
    if r >= 0 {
      var x := ItemResult(e, its, lo, n, so, m, bi, j);
      TailSituated(e, its, lo, n, so, m, bi, so, m);
      var step := |RenderBase(its[0])|;
      BarSound(e, its[1..], lo + step, n - step, so, m, if its[0].Group? then bi + 1 else bi, j + x);
      Prepend(its, e.t, e.fold, so + j, so + j + x, so + r);
    }
  }

  /** The bytes that an unquantified item takes. */
  lemma {:induction false} ItemResult(e: Env, its: seq<Item>, lo: int, n: int, so: int, m: int, bi: nat, j: int)
    returns (x: nat)
    requires its != [] && Situated(e, its, lo, n, so, m, bi) && 0 <= j <= m
    requires Seen(e, its[0], lo, n, bi) && QuantOf(its[0]).One?
    requires Bar(e, lo, n, so, m, bi, j) >= 0
    ensures j + x <= m && MatchesItem(its[0], e.t, e.fold, so + j, so + j + x)
    ensures var step := |RenderBase(its[0])|;
      && step == |RenderItem(its[0])| <= n
      && Bar(e, lo, n, so, m, bi, j) ==
         Bar(e, lo + step, n - step, so, m, if its[0].Group? then bi + 1 else bi, j + x)
    decreases |e.tb.brackets| - bi, 0, n, 1, 0
  {
    hide Bar, RenderSeq, RenderAlts, FlatTop, GroupsAt, Written, SeesEnd, HasGroup, BracketIs, ValidAtom;
    SplitRendering(e.p, lo, n, its);
    HeadFacts(e, its, lo, n, so, m, bi);
    if its[0].Group? {
      x := GroupResult(e, its, lo, n, so, m, bi, j);
    } else if its[0].Single? {
      x := 1;
      AtomStep(e, its, lo, n, so, m, bi, j);
    } else {
      x := 0;
      BarAtAnchor(e, its[0], lo, n, so, m, bi, j);
    }
  }

  lemma {:induction false} GroupResult(e: Env, its: seq<Item>, lo: int, n: int, so: int, m: int, bi: nat, j: int)
    returns (x: nat)
    requires its != [] && Situated(e, its, lo, n, so, m, bi) && 0 <= j <= m
    requires Seen(e, its[0], lo, n, bi) && QuantOf(its[0]).One? && its[0].Group?
    requires Bar(e, lo, n, so, m, bi, j) >= 0
    ensures j + x <= m && MatchesBase(its[0], e.t, e.fold, so + j, so + j + x)
    ensures var step := |RenderBase(its[0])|;
      Bar(e, lo, n, so, m, bi, j) == Bar(e, lo + step, n - step, so, m, bi + 1, j + x)
    decreases |e.tb.brackets| - bi, 0, n, 0, 0
  {
    hide RenderSeq, RenderItem, RenderBase, RenderAlts, Matches, FlatTop, GroupsAt, Written, SeesEnd, HasGroup, Bar,
      Doh, GroupLoop, BracketIs;
    var it, step := its[0], |RenderBase(its[0])|;
    HeadFacts(e, its, lo, n, so, m, bi);
    BarAtGroup(e, it, lo, n, so, m, bi, j);
    if n <= step {
      x := Doh(e, so + j, m - j, bi + 1);
      GroupSituated(e, its, lo, n, so, m, bi, so + j, m - j);
      DohSound(e, it.alts, so + j, m - j, bi + 1, lo + 1);
    } else {
      if SetInside(it) {
        SetGroupLast(e, its, lo, n, so, m, bi);
      }
      x := GroupLoop(e, lo + step, n - step, so, m, bi + 1, j, 0);
      GroupLoopSound(e, its, lo, n, so, m, bi, j, 0);
    }
  }

  lemma {:induction false} SetGroupLast(e: Env, its: seq<Item>, lo: int, n: int, so: int, m: int, bi: nat)
    requires its != [] && Situated(e, its, lo, n, so, m, bi) && its[0].Group? && its[0].q.One? && SetInside(its[0])
    ensures n == |RenderBase(its[0])|
  {
    hide RenderSeq, RenderAlts, FlatTop, GroupsAt, SeesEnd, HasGroup, BracketIs;
    HeadFacts(e, its, lo, n, so, m, bi);
    SplitRendering(e.p, lo, n, its);
    assert RenderItem(its[0]) == RenderBase(its[0]) + [];
  }

  /** Bracket `k` holds these alternatives, and each of them may be called on the text region. */
  ghost predicate AltsSituated(e: Env, alts: seq<Alternative>, so: int, m: int, k: nat, pos: int) {
    && e.tb.WellFormed() && k < |e.tb.brackets|
    && alts != [] && BracketIs(e.tb, k, pos, alts)
    && 0 <= m
    && forall a :: 0 <= a < |alts| ==>
         Situated(e, alts[a].items, pos + AltStart(alts, a), |RenderSeq(alts[a].items)|, so, m, k)
  }

  /** The alternatives of a flat group, on any stretch of the text. */
  lemma {:induction false} GroupSituated(e: Env, its: seq<Item>, lo: int, n: int, so: int, m: int, bi: nat, so': int,
                                         m': int)
    requires its != [] && Situated(e, its, lo, n, so, m, bi) && its[0].Group?
    requires 0 <= so' && 0 <= m' && so' + m' <= |e.t| && (SetInside(its[0]) ==> so' + m' == |e.t|)
    ensures AltsSituated(e, its[0].alts, so', m', bi + 1, lo + 1)
  {
    hide RenderSeq, FlatTop, FlatSeq, GroupsAt, SeesEnd, HasGroup, BracketIs, AltStart, RenderAlts, RenderItem,
      RenderBase;
    var alts := its[0].alts;
    SplitRendering(e.p, lo, n, its);
    HeadFacts(e, its, lo, n, so, m, bi);
    GroupText(e.p, its[0], lo);
    hide Situated, StartsWithBol;
    forall a | 0 <= a < |alts|
      ensures Situated(e, alts[a].items, lo + 1 + AltStart(alts, a), |RenderSeq(alts[a].items)|, so', m', bi + 1)
    {
      if HasSet(alts[a].items) {
        SetIn(its[0], a);
      }
      FlatPiece(e, alts, a, lo + 1, so', m', bi + 1);
    }
  }

  lemma {:induction false} SetIn(it: Item, a: nat)
    requires it.Group? && a < |it.alts| && HasSet(it.alts[a].items)
    ensures SetInside(it)
  {
  }

  lemma {:induction false} GroupText(p: Text, it: Item, lo: int)
    requires it.Group? && 0 <= lo && lo + |RenderItem(it)| <= |p| && p[lo..lo + |RenderItem(it)|] == RenderItem(it)
    requires RenderAlts(it.alts) != []
    ensures it.alts != []
    ensures var s := RenderAlts(it.alts); lo + 1 + |s| <= |p| && p[lo + 1..lo + 1 + |s|] == s
  {
    var inner := RenderAlts(it.alts);
    var tail := [RPAREN] + RenderQuant(it.q);
    assert RenderItem(it) == [LPAREN] + (inner + tail);
    hide RenderSeq, RenderAlts;
    SplitSlice(p, lo, [LPAREN], inner + tail);
    SplitSlice(p, lo + 1, inner, tail);
  }

  lemma {:induction false} FlatPiece(e: Env, alts: seq<Alternative>, a: nat, pos: int, so: int, m: int, bi: nat)
    requires e.tb.WellFormed() && bi < |e.tb.brackets| && a < |alts| && FlatSeq(alts[a].items)
    requires 0 <= pos && pos + |RenderAlts(alts)| <= |e.p| && e.p[pos..pos + |RenderAlts(alts)|] == RenderAlts(alts)
    requires 0 <= so && 0 <= m && so + m <= |e.t| && (HasSet(alts[a].items) ==> so + m == |e.t|)
    ensures Situated(e, alts[a].items, pos + AltStart(alts, a), |RenderSeq(alts[a].items)|, so, m, bi)
  {
    hide RenderAlts, RenderSeq, AltStart, Written, GroupsAt, FlatTop, FlatSeq, SeesEnd, HasGroup, StartsWithBol;
    var its := alts[a].items;
    PieceWritten(e.p, alts, a, pos);
    FlatSeqIsTop(its);
    GroupsAtNone(e.tb, its, pos + AltStart(alts, a), bi);
  }

  lemma {:induction false} FlatSeqIsTop(its: seq<Item>)
    requires FlatSeq(its)
    ensures FlatTop(its) && !HasGroup(its) && !StartsWithBol(its) && (SeesEnd(its) <==> HasSet(its))
  {
  }

  lemma {:induction false} PieceWritten(p: Text, alts: seq<Alternative>, a: nat, pos: int)
    requires a < |alts|
    requires 0 <= pos && pos + |RenderAlts(alts)| <= |p| && p[pos..pos + |RenderAlts(alts)|] == RenderAlts(alts)
    ensures Written(p, pos + AltStart(alts, a), |RenderSeq(alts[a].items)|, alts[a].items)
  {
    hide RenderSeq, RenderAlts, AltStart;
    AltsLayout(alts, a);
    var i, d := AltStart(alts, a), |RenderSeq(alts[a].items)|;
    SubSlice(p, pos, |RenderAlts(alts)|, i, d);
  }

  /** Soundness of `doh`. */
  lemma {:induction false} DohSound(e: Env, alts: seq<Alternative>, so: int, m: int, k: nat, pos: int)
    requires AltsSituated(e, alts, so, m, k, pos)
    ensures var r := Doh(e, so, m, k);
      r >= 0 ==> r <= m && exists a :: 0 <= a < |alts| && Matches(alts[a].items, e.t, e.fold, so, so + r)
    decreases |e.tb.brackets| - k, 1, 1, 0, 0
  {
    hide RenderSeq, RenderBase, RenderItem, RenderAlts, Matches, MatchesItem, MatchesBase, FlatTop, GroupsAt, Written,
      SeesEnd, HasGroup;
    DohFromSound(e, alts, so, m, k, pos, 0);
  }

  lemma {:induction false} DohFromSound(e: Env, alts: seq<Alternative>, so: int, m: int, k: nat, pos: int, i: nat)
    requires AltsSituated(e, alts, so, m, k, pos) && i < |alts|
    ensures var r := DohFrom(e, so, m, k, i);
      r >= 0 ==> r <= m && exists a :: 0 <= a < |alts| && Matches(alts[a].items, e.t, e.fold, so, so + r)
    decreases |e.tb.brackets| - k, 1, 0, 0, |alts| - i
  {
    hide Bar, RenderSeq, RenderBase, RenderItem, RenderAlts, Matches, MatchesItem, MatchesBase, FlatTop, GroupsAt,
      Written, SeesEnd, HasGroup;
    PieceLocated(e.tb, alts, k, pos, i);
    BarSound(e, alts[i].items, pos + AltStart(alts, i), |RenderSeq(alts[i].items)|, so, m, k, 0);
    if i + 1 < |alts| {
      DohFromSound(e, alts, so, m, k, pos, i + 1);
    }
  }

  /** The piece that `doh` visits in round `i` is the `i`-th alternative. */
  lemma {:induction false} PieceLocated(tb: Tables, alts: seq<Alternative>, k: nat, pos: int, i: nat)
    requires tb.WellFormed() && k < |tb.brackets| && BracketIs(tb, k, pos, alts) && i < |alts|
    ensures PieceStart(tb, tb.brackets[k], i) == pos + AltStart(alts, i)
    ensures PieceLen(tb, tb.brackets[k], i) == |RenderSeq(alts[i].items)|
  {
    hide RenderAlts, RenderSeq, AltStart;
    var b := tb.brackets[k];
    AltsLayout(alts, i);
    if i > 0 {
      assert tb.branches[b.branches + i - 1].schlong == pos + AltStart(alts, i) - 1;
    }
    if i + 1 < |alts| {
      assert tb.branches[b.branches + (i + 1) - 1].schlong == pos + AltStart(alts, i + 1) - 1;
    }
  }

  lemma {:induction false} GroupLoopSound(e: Env, its: seq<Item>, lo: int, n: int, so: int, m: int, bi: nat,
                                          j: int, j2: int)
    requires its != [] && Situated(e, its, lo, n, so, m, bi) && 0 <= j <= m && 0 <= j2 <= m - j
    requires its[0].Group? && bi + 1 < |e.tb.brackets| && !SetInside(its[0])
    ensures var step, alts := |RenderBase(its[0])|, its[0].alts;
      var r := GroupLoop(e, lo + step, n - step, so, m, bi + 1, j, j2);
      r >= 0 ==> j + r <= m && exists a :: 0 <= a < |alts| && Matches(alts[a].items, e.t, e.fold, so + j, so + j + r)
    decreases |e.tb.brackets| - bi - 1, 2, 0, 0, m - j - j2
  {
    hide RenderSeq, RenderBase, RenderItem, RenderAlts, Matches, FlatTop, GroupsAt, Written, SeesEnd, HasGroup;
    GroupSituated(e, its, lo, n, so, m, bi, so + j, m - (j + j2));
    DohSound(e, its[0].alts, so + j, m - (j + j2), bi + 1, lo + 1);
    if j2 < m - j {
      GroupLoopSound(e, its, lo, n, so, m, bi, j, j2 + 1);
    }
  }

  // ---- Repetition -----------------------------------------------------------------------------

  /** Soundness of the `*` and `+` branch. */
  lemma {:induction false} RepeatSound(e: Env, its: seq<Item>, lo: int, n: int, so: int, m: int, bi: nat, j: int)
    requires its != [] && Situated(e, its, lo, n, so, m, bi) && 0 <= j <= m
    requires Seen(e, its[0], lo, n, bi) && (QuantOf(its[0]).ZeroMore? || QuantOf(its[0]).OneMore?)
    ensures var r := Bar(e, lo, n, so, m, bi, j);
      r >= 0 ==> j <= r <= m && Matches(its, e.t, e.fold, so + j, so + r)
    decreases |e.tb.brackets| - bi, 0, n, 2, 0
  {
    hide Bar, RepeatLoop, RenderSeq, RenderBase, RenderItem, RenderAlts, Matches, MatchesItem, MatchesBase, Iterates,
      FlatTop, GroupsAt, Written, SeesEnd, HasGroup, Seen;
    var it, step := its[0], |RenderBase(its[0])|;
    BarAtRepeat(e, it, lo, n, so, m, bi, j);
    SplitRendering(e.p, lo, n, its);
    var ni := |RenderItem(it)|;
    NoRepeats(its, e.t, e.fold, so + j);
    RepeatLoopSound(e, its, lo, n, so, m, bi, j, j, j, -1, 0);
    var l := RepeatLoop(e, lo, n, so, m, bi, j, step, j, j, -1);
    if l.n1 < 0 && l.n2 < 0 && QuantOf(it).ZeroMore? {
      TailSituated(e, its, lo, n, so, m, bi, so + j, m - j);
      BarSound(e, its[1..], lo + ni, n - ni, so + j, m - j, bi, 0);
      var n2 := Bar(e, lo + ni, n - ni, so + j, m - j, bi, 0);
      if n2 >= 0 {
        RepeatedThen(its, 0, e.t, e.fold, so + j, so + j, so + j + n2);
      }
    }
  }

  lemma {:induction false} NoRepeats(its: seq<Item>, t: Text, fold: bool, i: int)
    requires its != []
    ensures Iterates(its[0], 0, t, fold, i, i)
    ensures QuantOf(its[0]).ZeroMore? && its[1..] == [] ==> Matches(its, t, fold, i, i)
  {
    if QuantOf(its[0]).ZeroMore? && its[1..] == [] {
      RepeatedThen(its, 0, t, fold, i, i, i);
    }
  }

  lemma {:induction false} RepeatedThen(its: seq<Item>, count: nat, t: Text, fold: bool, i: int, k: int, e: int)
    requires its != [] && i <= k <= e && Iterates(its[0], count, t, fold, i, k) && Matches(its[1..], t, fold, k, e)
    requires QuantOf(its[0]).ZeroMore? || (QuantOf(its[0]).OneMore? && 0 < count)
    ensures Matches(its, t, fold, i, e)
  {
    RepeatedItem(its[0], count, t, fold, i, k);
    Prepend(its, t, fold, i, k, e);
  }

  /** What the loop has found so far: `nj`, once it has moved or `n2` says so, ends a match of the sequence. */
  ghost predicate Found(e: Env, its: seq<Item>, so: int, m: int, j: int, nj: int, n2: int) {
    && j <= nj <= m
    && (nj > j || n2 >= 0 || (its != [] && its[1..] == [] && QuantOf(its[0]).ZeroMore?) ==>
          Matches(its, e.t, e.fold, so + j, so + nj))
  }

  /** One round of the loop, unless `+` gives up in it. */
  lemma {:induction false} RoundSound(e: Env, its: seq<Item>, lo: int, n: int, so: int, m: int, bi: nat, j: int,
                                      j2: int, nj: int, n2: int, count: nat)
    returns (k: int, count': nat, nj': int, n2': int)
    requires its != [] && Situated(e, its, lo, n, so, m, bi) && 0 <= j <= j2 <= m
    requires Seen(e, its[0], lo, n, bi) && (QuantOf(its[0]).ZeroMore? || QuantOf(its[0]).OneMore?)
    requires Iterates(its[0], count, e.t, e.fold, so + j, so + j2)
    requires Found(e, its, so, m, j, nj, n2)
    requires QuantOf(its[0]).OneMore? ==> Bar(e, lo, |RenderBase(its[0])|, so + j2, m - j2, bi, 0) >= 0
    ensures var ni, n1 := |RenderItem(its[0])|, Bar(e, lo, |RenderBase(its[0])|, so + j2, m - j2, bi, 0);
      && k == (if n1 > 0 then j2 + n1 else j2) <= m
      && n2' == (if ni >= n then n2 else Bar(e, lo + ni, n - ni, so + k, m - k, bi, 0))
      && nj' == (if ni >= n then k else if n2' >= 0 then k + n2' else nj)
    ensures Iterates(its[0], count', e.t, e.fold, so + j, so + k)
    ensures Found(e, its, so, m, j, nj', n2')
    decreases |e.tb.brackets| - bi, 0, n, 1, m - j2, 1
  {
    hide Bar, RenderSeq, RenderBase, RenderItem, RenderAlts, MatchesItem, MatchesBase, Matches, Iterates, FlatTop,
      GroupsAt, SeesEnd, HasGroup, Seen, Written, QuantOf;
    k, count' := OperandSound(e, its, lo, n, so, m, bi, j, j2, count);
    var it, ni := its[0], |RenderItem(its[0])|;
    WholeItem(e, its, lo, n, so, m, bi);
    TailSituated(e, its, lo, n, so, m, bi, so + k, m - k);
    BarSound(e, its[1..], lo + ni, n - ni, so + k, m - k, bi, 0);
    n2' := if ni >= n then n2 else Bar(e, lo + ni, n - ni, so + k, m - k, bi, 0);
    nj' := if ni >= n then k else if n2' >= 0 then k + n2' else nj;
    if ni >= n {
      NothingLeft(its[1..], e.t, e.fold, so + k);
    }
    if ni >= n || n2' >= 0 {
      RepeatedThen(its, count', e.t, e.fold, so + j, so + k, so + nj');
    }
  }

  lemma {:induction false} WholeItem(e: Env, its: seq<Item>, lo: int, n: int, so: int, m: int, bi: nat)
    requires its != [] && Situated(e, its, lo, n, so, m, bi)
    ensures 0 < |RenderItem(its[0])| <= n && (|RenderItem(its[0])| == n <==> its[1..] == [])
  {
    hide RenderSeq, RenderItem, FlatTop, GroupsAt, SeesEnd, HasGroup;
    SplitRendering(e.p, lo, n, its);
  }

  /** One more match of the operand, or none. */
  lemma {:induction false} OperandSound(e: Env, its: seq<Item>, lo: int, n: int, so: int, m: int, bi: nat, j: int,
                                        j2: int, count: nat)
    returns (k: int, count': nat)
    requires its != [] && Situated(e, its, lo, n, so, m, bi) && 0 <= j <= j2 <= m
    requires Seen(e, its[0], lo, n, bi) && (QuantOf(its[0]).ZeroMore? || QuantOf(its[0]).OneMore?)
    requires Iterates(its[0], count, e.t, e.fold, so + j, so + j2)
    requires QuantOf(its[0]).OneMore? ==> Bar(e, lo, |RenderBase(its[0])|, so + j2, m - j2, bi, 0) >= 0
    ensures var n1 := Bar(e, lo, |RenderBase(its[0])|, so + j2, m - j2, bi, 0);
      k == (if n1 > 0 then j2 + n1 else j2) <= m
    ensures Iterates(its[0], count', e.t, e.fold, so + j, so + k)
    ensures QuantOf(its[0]).OneMore? ==> 0 < count'
    decreases |e.tb.brackets| - bi, 0, n, 1, m - j2, 0
  {
    hide Bar, RenderSeq, RenderItem, RenderAlts, MatchesItem, MatchesBase, Matches, Iterates, FlatTop, GroupsAt,
      SeesEnd, HasGroup, Written;
    var it, step := its[0], |RenderBase(its[0])|;
    assert 0 < step < n;
    AloneSituated(e, its, lo, n, so, m, bi, so + j2, m - j2);
    BarSound(e, [Unquantified(it)], lo, step, so + j2, m - j2, bi, 0);
    var n1 := Bar(e, lo, step, so + j2, m - j2, bi, 0);
    k, count' := j2, count;
    if n1 >= 0 {
      k, count' := j2 + n1, count + 1;
      OneItem(it, e.t, e.fold, so + j2, so + k);
      IterateMore(it, count, e.t, e.fold, so + j, so + j2, so + k);
    }
  }

  lemma {:induction false} NothingLeft(its: seq<Item>, t: Text, fold: bool, i: int)
    requires its == []
    ensures Matches(its, t, fold, i, i)
  {
  }

  lemma {:induction false} InRegion(e: Env, its: seq<Item>, so: int, m: int, j: int, nj: int, n2: int)
    requires Found(e, its, so, m, j, nj, n2)
    ensures j <= nj <= m
  {
  }

  lemma {:induction false} RepeatLoopSound(e: Env, its: seq<Item>, lo: int, n: int, so: int, m: int, bi: nat, j: int,
                                           j2: int, nj: int, n2: int, count: nat)
    requires its != [] && Situated(e, its, lo, n, so, m, bi) && 0 <= j <= j2 <= m
    requires Seen(e, its[0], lo, n, bi) && (QuantOf(its[0]).ZeroMore? || QuantOf(its[0]).OneMore?)
    requires Iterates(its[0], count, e.t, e.fold, so + j, so + j2)
    requires Found(e, its, so, m, j, nj, n2)
    ensures var step := |RenderBase(its[0])|;
      && 0 < step < n
      && var l := RepeatLoop(e, lo, n, so, m, bi, j, step, j2, nj, n2); Found(e, its, so, m, j, l.nj, l.n2)
    decreases |e.tb.brackets| - bi, 0, n, 1, m - j2, 2
  {
    hide Bar, RenderSeq, RenderBase, RenderItem, RenderAlts, MatchesItem, MatchesBase, Matches, Iterates, FlatTop,
      GroupsAt, Written, SeesEnd, HasGroup, AfterQuantifier, NonGreedy, Seen, Found;
    var it, step := its[0], |RenderBase(its[0])|;
    assert 0 <= nj <= m by { InRegion(e, its, so, m, j, nj, n2); }
    BarAtRepeat(e, it, lo, n, so, m, bi, j);
    var n1 := Bar(e, lo, step, so + j2, m - j2, bi, 0);
    if QuantOf(it).ZeroMore? || n1 >= 0 {
      var k, count', nj', n2' := RoundSound(e, its, lo, n, so, m, bi, j, j2, nj, n2, count);
      if !(nj' > j && NonGreedy(e, lo, n, step)) && n1 > 0 {
        RepeatLoopSound(e, its, lo, n, so, m, bi, j, k, nj', n2', count');
      }
    }
  }
}
