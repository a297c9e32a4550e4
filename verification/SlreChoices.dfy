/** Alternatives and groups of plain atoms, their special bytes written out. */
module SlreChoices {
  import opened Bytes
  import opened SlreTables
  import opened SlreScan
  import opened SlreSyntax
  import opened SlreSoundness
  import opened SlreParsing
  import opened SlreExactness
  import opened SlreEnds
  import opened SlreForms
  import A = SlreAlternatives
  import E = SlreEngine

  // ---- One bar ------------------------------------------------------------------------------------

  /** One of the alternatives matches at `s`; the first one has to match some text. */
  predicate EitherAt(left: seq<Item>, right: seq<Item>, t: Text, fold: bool, s: nat)
    requires Plain(left) && Plain(right)
  {
    (left != [] && PlainAt(left, t, fold, s)) || PlainAt(right, t, fold, s)
  }

  lemma {:induction false} EitherEnd(left: seq<Item>, right: seq<Item>, t: Text, fold: bool, s: nat, z: nat)
    requires Plain(left) && Plain(right) && s <= z <= |t|
    ensures AltsEnd([Alternative(left), Alternative(right)], 0, t, fold, s, z) ==
      if left != [] && s + |left| <= z && PlainAt(left, t, fold, s) then Some(s + |left|)
      else if s + |right| <= z && PlainAt(right, t, fold, s) then Some(s + |right|)
      else None
  {
    hide End, PlainAt, Plain;
    var alts := [Alternative(left), Alternative(right)];
    PlainWithin(left, t, fold, s, z);
    PlainWithin(right, t, fold, s, z);
    assert AltsEnd(alts, 1, t, fold, s, z) == End(right, t, fold, s, z);
  }

  /** Plain atoms in the text before `z`. */
  lemma {:induction false} PlainWithin(its: seq<Item>, t: Text, fold: bool, i: nat, z: nat)
    requires Plain(its) && i <= z <= |t|
    ensures End(its, t, fold, i, z) ==
      if i + |its| <= z && PlainAt(its, t, fold, i) then Some(i + |its|) else None
    decreases |its|
  {
    hide PlainAt, Accepts, ValidAtom;
    if its == [] {
      NothingAt(its, t, fold, i);
    } else {
      PlainFirst(its, t, fold, i);
      if i < z {
        PlainWithin(its[1..], t, fold, i + 1, z);
      }
    }
  }

  lemma {:induction false} EitherFlat(left: seq<Item>, right: seq<Item>)
    requires Plain(left) && Plain(right)
    ensures var alts := [Alternative(left), Alternative(right)];
      && FlatRegex(alts) && !HasGroup(left) && !HasGroup(right) && !StartsWithBol(left)
      && RenderAlts(alts) == RenderSeq(left) + [124] + RenderSeq(right)
  {
    hide ValidAtom, RenderSeq;
    var alts := [Alternative(left), Alternative(right)];
    PlainFlat(left);
    PlainFlat(right);
    assert alts[1..] == [Alternative(right)];
    assert GroupAlt(alts) == 1;
  }

  lemma {:induction false} PlainFlat(its: seq<Item>)
    requires Plain(its)
    ensures FlatSeq(its) && FlatTop(its) && !HasGroup(its) && !StartsWithBol(its)
  {
    hide ValidAtom;
  }

  /** `|` between plain atoms: the first start at which one side matches, and there the left side before the right. */
  lemma {:induction false} Either(left: seq<Item>, right: seq<Item>, t: Text, numCaps: int, fold: bool, spare: int)
    requires Plain(left) && Plain(right)
    ensures var r := E.MatchResult(RenderSeq(left) + [124] + RenderSeq(right), t, numCaps, fold, spare);
      && r.Some?
      && if r.value >= 0 then
           exists s: nat :: EitherAt(left, right, t, fold, s)
             && r.value == s + (if left != [] && PlainAt(left, t, fold, s) then |left| else |right|)
             && forall x: nat :: x < s ==> !EitherAt(left, right, t, fold, x)
         else r.value == -1 && forall s: nat :: !EitherAt(left, right, t, fold, s)
  {
    hide RenderSeq, RenderAlts, PlainAt, Plain, Scan, FlatRegex, HasGroup, AltsEnd;
    var alts := [Alternative(left), Alternative(right)];
    EitherFlat(left, right);
    A.AltsAccepted(alts, numCaps);
    MatchEnds(alts, t, numCaps, fold, spare);
    forall s: nat ensures s <= |t| ==> (EndFrom(alts, t, fold, s).Some? <==> EitherAt(left, right, t, fold, s))
      ensures EitherAt(left, right, t, fold, s) ==>
        s <= |t| && EndFrom(alts, t, fold, s) ==
          Some(s + if left != [] && PlainAt(left, t, fold, s) then |left| else |right|)
    {
      EitherEnds(left, right, t, fold, s);
    }
    var r := E.MatchResult(RenderAlts(alts), t, numCaps, fold, spare).value;
    if r >= 0 {
      var s: nat :| s <= |t| && EndFrom(alts, t, fold, s) == Some(r)
                    && forall x: nat :: x < s ==> EndFrom(alts, t, fold, x) == None;
      assert EitherAt(left, right, t, fold, s);
    }
  }

  lemma {:induction false} EitherEnds(left: seq<Item>, right: seq<Item>, t: Text, fold: bool, s: nat)
    requires Plain(left) && Plain(right)
    ensures EitherAt(left, right, t, fold, s) ==> s <= |t|
    ensures s <= |t| ==>
      var x := EndFrom([Alternative(left), Alternative(right)], t, fold, s);
      x == if EitherAt(left, right, t, fold, s) then
             Some(s + if left != [] && PlainAt(left, t, fold, s) then |left| else |right|)
           else None
  {
    hide PlainAt, Plain, AltsEnd;
    if PlainAt(left, t, fold, s) {
      PlainFits(left, t, fold, s);
    }
    if PlainAt(right, t, fold, s) {
      PlainFits(right, t, fold, s);
    }
    if s <= |t| {
      EitherEnd(left, right, t, fold, s, |t|);
    }
  }

  // ---- One group, and what follows it ----------------------------------------------------------------

  /** A group whose text does not end in `\(` is accepted. */
  lemma {:induction false} GroupAccepted(it: Item, post: seq<Item>, numCaps: int)
    requires it.Group? && it.q.One? && FlatGroup(it) && Plain(post)
    requires |it.alts| <= 101 && RenderAlts(it.alts)[|RenderAlts(it.alts)| - 1] != 40
    ensures Compile(RenderSeq([it] + post), numCaps).Scanned?
  {
    hide RenderSeq, RenderAlts, RenderBase, Plain, FlatSeq, Scan, HasGroup;
    var its := [it] + post;
    var p, st := RenderSeq(its), InitialScan(RenderSeq(its));
    assert its[1..] == post;
    assert p[0..0 + |p|] == p;
    SplitRendering(p, 0, |p|, its);
    SameSize(it);
    ScanGroup(p, 0, st, numCaps, it);
    var d := |RenderBase(it)|;
    var st' := st.(brackets := st.brackets + [Bracket(1, |RenderAlts(it.alts)|, 0, 0)],
                   branches := st.branches + BarsOf(it.alts, 1, 1));
    PlainFlat(post);
    ScanGroupless(p, d, st', numCaps, post);
    ScanEnd(p, st', numCaps);
  }

  lemma {:induction false} GroupFlat(it: Item, post: seq<Item>)
    requires it.Group? && it.q.One? && FlatGroup(it) && Plain(post) && (post != [] ==> !SetInside(it))
    requires |it.alts| <= 2
    ensures FlatRegex([Alternative([it] + post)]) && !StartsWithBol([it] + post)
    ensures RenderAlts([Alternative([it] + post)]) == RenderSeq([it] + post) == RenderBase(it) + RenderSeq(post)
  {
    hide ValidAtom, RenderSeq, RenderAlts, RenderBase, FlatGroup;
    var its := [it] + post;
    PlainFlat(post);
    assert forall k :: 0 < k < |its| ==> its[k] == post[k - 1];
    assert forall k :: 0 <= k < |its| ==> FlatItem(its[k], k == 0);
    GroupRendered(it, post);
  }

  lemma {:induction false} GroupRendered(it: Item, post: seq<Item>)
    requires it.Group? && it.q.One?
    ensures RenderAlts([Alternative([it] + post)]) == RenderSeq([it] + post) == RenderBase(it) + RenderSeq(post)
  {
    hide RenderBase;
    assert ([it] + post)[1..] == post;
    SameSize(it);
  }

  /** The search for a group with plain atoms behind it. */
  lemma {:induction false} GroupSearch(it: Item, post: seq<Item>, t: Text, numCaps: int, fold: bool, spare: int)
    requires it.Group? && it.q.One? && FlatGroup(it) && Plain(post) && (post != [] ==> !SetInside(it))
    requires |it.alts| <= 2 && RenderAlts(it.alts)[|RenderAlts(it.alts)| - 1] != 40
    ensures var r := E.MatchResult(RenderBase(it) + RenderSeq(post), t, numCaps, fold, spare);
      && r.Some?
      && if r.value >= 0 then exists s: nat :: FirstEndAt([it] + post, t, fold, s, r.value)
         else r.value == -1 && forall s: nat :: s <= |t| ==> End([it] + post, t, fold, s, |t|) == None
  {
    hide Scan, RenderSeq, RenderBase, RenderAlts, End, FlatTop, FlatGroup, Plain, FlatRegex, SetInside;
    var its := [it] + post;
    var alts := [Alternative(its)];
    GroupFlat(it, post);
    GroupAccepted(it, post, numCaps);
    MatchEnds(alts, t, numCaps, fold, spare);
    EndsAlone(its, t, numCaps, fold, spare);
  }

  /** The end of a group with plain atoms behind it: the longest stretch of text that the group may be given decides. */
  lemma {:induction false} GroupEnd(it: Item, post: seq<Item>, t: Text, fold: bool, i: nat)
    requires it.Group? && it.q.One? && Plain(post) && i <= |t|
    ensures End([it] + post, t, fold, i, |t|) ==
      if post == [] then AltsEnd(it.alts, 0, t, fold, i, |t|) else Behind([it] + post, t, fold, i, |t|, |t|)
  {
    hide AltsEnd, Behind, Plain;
    EndAtGroup([it] + post, t, fold, i, |t|);
    assert ([it] + post)[1..] == post;
  }

  // ---- A repetition in a group ----------------------------------------------------------------------

  /** The atoms of `post` end at `e`, behind as many of the bytes that the repetition can take as leave room. */
  ghost predicate MostRoom(a: Atom, post: seq<Item>, t: Text, fold: bool, i: nat, e: int)
    requires Plain(post)
  {
    && Room(a, post, t, fold, i, e - |post|)
    && forall l: nat :: e - |post| < l ==> !Room(a, post, t, fold, i, l)
  }

  /** The run of the atom in the text before `y`. */
  lemma {:induction false} RunWithin(a: Atom, t: Text, fold: bool, i: nat, y: nat)
    requires i <= y <= |t|
    ensures var k := AltsEnd([Alternative([Single(a, ZeroMore(false))])], 0, t, fold, i, y);
      && k.Some? && i <= k.value <= y && AllAccepted(a, t, fold, i, k.value)
      && (k.value < y ==> !Accepts(a, fold, t[k.value]))
  {
    hide Accepts, Last, More;
    var its := [Single(a, ZeroMore(false))];
    assert its[1..] == [];
    RunBefore(a, t, fold, i, y);
    EndRepeated(its, t, fold, i, y);
    var last := Last(its, t, fold, i, y);
    assert Once(its[0], t, fold, last, y) == None;
  }

  lemma {:induction false} RunBefore(a: Atom, t: Text, fold: bool, i: nat, y: nat)
    requires i <= y <= |t|
    ensures var one := [Single(a, ZeroMore(false))];
      var last := Last(one, t, fold, i, y);
      && AllAccepted(a, t, fold, i, last) && last <= y && (last < y ==> !Accepts(a, fold, t[last]))
      && More(one, t, fold, i, y) == if last == i then None else Some(last)
    decreases y - i
  {
    hide End, Accepts;
    var one := [Single(a, ZeroMore(false))];
    assert one[1..] == [];
    if i < y && Accepts(a, fold, t[i]) {
      assert Once(one[0], t, fold, i, y) == Some(i + 1);
      RunBefore(a, t, fold, i + 1, y);
      EmptyEnd(t, fold, i + 1, y);
    }
  }

  lemma {:induction false} RunBehind(a: Atom, post: seq<Item>, t: Text, fold: bool, i: nat, y: nat)
    requires Plain(post) && i <= y <= |t|
    requires forall l: nat :: y < l ==> !Room(a, post, t, fold, i, l)
    ensures var x := Behind([Group([Alternative([Single(a, ZeroMore(false))])], One)] + post, t, fold, i, |t|, y);
      if x.Some? then MostRoom(a, post, t, fold, i, x.value) else NoRoom(a, post, t, fold, i)
    decreases y
  {
    hide End, Accepts, AltsEnd, Behind, PlainAt, Plain, AllAccepted;
    var its := [Group([Alternative([Single(a, ZeroMore(false))])], One)] + post;
    assert its[1..] == post;
    BehindStep(its, t, fold, i, |t|, y);
    RunWithin(a, t, fold, i, y);
    var k := AltsEnd(its[0].alts, 0, t, fold, i, y).value;
    PlainOnly(post, t, fold, k);
    forall l: int ensures Room(a, post, t, fold, i, l) ==> i <= l <= y && l <= k {
      WithinRun(a, post, t, fold, i, y, k, l);
    }
    if !PlainAt(post, t, fold, k) && y > i {
      RunBehind(a, post, t, fold, i, y - 1);
    }
  }

  lemma {:induction false} WithinRun(a: Atom, post: seq<Item>, t: Text, fold: bool, i: nat, y: nat, k: nat, l: int)
    requires Plain(post) && i <= k <= y <= |t| && (k < y ==> !Accepts(a, fold, t[k]))
    requires forall l: nat :: y < l ==> !Room(a, post, t, fold, i, l)
    ensures Room(a, post, t, fold, i, l) ==> i <= l <= y && l <= k
  {
    hide Accepts, PlainAt, Plain;
    if Room(a, post, t, fold, i, l) {
      assert AllAccepted(a, t, fold, i, l);
    }
  }

  /** A greedy `*` in a group gives back byte after byte until the atoms behind the group are found. */
  lemma {:induction false} GroupGivesBack(a: Atom, post: seq<Item>, t: Text, numCaps: int, fold: bool, spare: int)
    requires ValidAtom(a) && !a.Set? && Plain(post) && post != []
    ensures var r := E.MatchResult([40] + RenderAtom(a) + [42, 41] + RenderSeq(post), t, numCaps, fold, spare);
      && r.Some?
      && if r.value >= 0 then
           exists s: nat :: MostRoom(a, post, t, fold, s, r.value)
             && forall x: nat :: x < s ==> NoRoom(a, post, t, fold, x)
         else r.value == -1 && forall s: nat, k: int :: !Room(a, post, t, fold, s, k)
  {
    hide RenderSeq, RenderAtom, End, Room, Plain, ValidAtom, Behind, AltsEnd;
    var it := Group([Alternative([Single(a, ZeroMore(false))])], One);
    StarGroup(a);
    var p := [40] + RenderAtom(a) + [42, 41] + RenderSeq(post);
    assert p == RenderBase(it) + RenderSeq(post);
    GroupSearch(it, post, t, numCaps, fold, spare);
    forall s: nat
      ensures s > |t| ==> NoRoom(a, post, t, fold, s)
      ensures s <= |t| ==>
        var x := End([it] + post, t, fold, s, |t|);
        if x.Some? then MostRoom(a, post, t, fold, s, x.value) else NoRoom(a, post, t, fold, s)
    {
      NoneBeyond(a, post, t, fold, s);
      if s <= |t| {
        GroupEnd(it, post, t, fold, s);
        RunBehind(a, post, t, fold, s, |t|);
      }
    }
    var r := E.MatchResult(p, t, numCaps, fold, spare).value;
    if r >= 0 {
      var s: nat :| FirstEndAt([it] + post, t, fold, s, r);
      assert MostRoom(a, post, t, fold, s, r);
    } else {
      forall s: nat, k: int ensures !Room(a, post, t, fold, s, k) {
        assert s <= |t| ==> End([it] + post, t, fold, s, |t|) == None;
        assert NoRoom(a, post, t, fold, s);
      }
    }
  }

  lemma {:induction false} NoneBeyond(a: Atom, post: seq<Item>, t: Text, fold: bool, s: nat)
    requires Plain(post)
    ensures forall l: int :: Room(a, post, t, fold, s, l) ==> l <= |t| && s <= |t|
  {
    hide Accepts, PlainAt, Plain;
  }

  lemma {:induction false} StarGroup(a: Atom)
    requires ValidAtom(a) && !a.Set?
    ensures var it := Group([Alternative([Single(a, ZeroMore(false))])], One);
      && FlatGroup(it) && !SetInside(it)
      && RenderBase(it) == [40] + RenderAtom(a) + [42, 41]
      && RenderAlts(it.alts) == RenderAtom(a) + [42]
  {
    hide ValidAtom, RenderAtom, RenderItem;
    OneRendered(Single(a, ZeroMore(false)));
    StarRendered(a, false);
  }

  // ---- Alternatives in a group ----------------------------------------------------------------------

  /** Where `(left|right)post` ends, started at `i`: the group settles for a left side that matches, unless the right
      side is the shorter one and the left side is not followed as it should be. */
  function ChoiceEnd(left: seq<Item>, right: seq<Item>, post: seq<Item>, t: Text, fold: bool, i: nat): (e: Option<nat>)
    requires Plain(left) && Plain(right) && Plain(post) && left != []
    ensures e.Some? ==> i <= e.value
  {
    var first := PlainAt(left, t, fold, i);
    if first && PlainAt(post, t, fold, i + |left|) then Some(i + |left| + |post|)
    else if (first ==> |right| < |left|) && PlainAt(right, t, fold, i) && PlainAt(post, t, fold, i + |right|) then
      Some(i + |right| + |post|)
    else None
  }

  lemma {:induction false} ChoiceBehind(left: seq<Item>, right: seq<Item>, post: seq<Item>, t: Text, fold: bool, i: nat,
                                        y: nat)
    requires Plain(left) && Plain(right) && Plain(post) && left != [] && i <= y <= |t|
    requires y < |t| ==> !(PlainAt(left, t, fold, i) && PlainAt(post, t, fold, i + |left|))
    requires y < |t| && (PlainAt(left, t, fold, i) ==> y + 1 < i + |left|) ==>
      ChoiceEnd(left, right, post, t, fold, i) == None
    ensures Behind([Group([Alternative(left), Alternative(right)], One)] + post, t, fold, i, |t|, y) ==
      ChoiceEnd(left, right, post, t, fold, i)
    decreases y
  {
    hide End, AltsEnd, Behind, PlainAt, Plain;
    var its := [Group([Alternative(left), Alternative(right)], One)] + post;
    assert its[1..] == post;
    BehindStep(its, t, fold, i, |t|, y);
    EitherEnd(left, right, t, fold, i, y);
    forall k: nat | k <= |t|
      ensures End(post, t, fold, k, |t|) == if PlainAt(post, t, fold, k) then Some(k + |post|) else None
    {
      PlainOnly(post, t, fold, k);
    }
    if PlainAt(left, t, fold, i) {
      PlainFits(left, t, fold, i);
    }
    if PlainAt(right, t, fold, i) {
      PlainFits(right, t, fold, i);
    }
    var x := AltsEnd(its[0].alts, 0, t, fold, i, y);
    if y > i && (x == None || !PlainAt(post, t, fold, x.value)) {
      ChoiceBehind(left, right, post, t, fold, i, y - 1);
    }
  }

  lemma {:induction false} ChoiceGroup(left: seq<Item>, right: seq<Item>)
    requires Plain(left) && Plain(right) && left != [] && NoSets(left) && NoSets(right)
    ensures var it := Group([Alternative(left), Alternative(right)], One);
      && FlatGroup(it) && !SetInside(it)
      && RenderAlts(it.alts) == RenderSeq(left) + [124] + RenderSeq(right)
      && RenderBase(it) == [40] + (RenderSeq(left) + [124] + RenderSeq(right)) + [41]
  {
    hide ValidAtom, RenderSeq;
    EitherFlat(left, right);
    PlainFlat(left);
    PlainFlat(right);
  }

  predicate NoSets(its: seq<Item>) {
    forall k :: 0 <= k < |its| ==> its[k].Single? && !its[k].a.Set?
  }

  /** `(left|right)post`: the first start at which the group's choice is followed as it should be. With "a" to the left
      and "ab" to the right of the bar, "abc" is not matched by `(a|ab)c`. */
  lemma {:induction false} GroupChoice(left: seq<Item>, right: seq<Item>, post: seq<Item>, t: Text, numCaps: int,
                                       fold: bool, spare: int)
    requires Plain(left) && Plain(right) && Plain(post) && left != [] && post != [] && NoSets(left) && NoSets(right)
    requires var s := RenderSeq(left) + [124] + RenderSeq(right); s[|s| - 1] != 40
    ensures var p := [40] + (RenderSeq(left) + [124] + RenderSeq(right)) + [41] + RenderSeq(post);
      var r := E.MatchResult(p, t, numCaps, fold, spare);
      && r.Some?
      && if r.value >= 0 then
           exists s: nat :: s <= |t| && ChoiceEnd(left, right, post, t, fold, s) == Some(r.value)
             && forall x: nat :: x < s ==> ChoiceEnd(left, right, post, t, fold, x) == None
         else r.value == -1 && forall s: nat :: s <= |t| ==> ChoiceEnd(left, right, post, t, fold, s) == None
  {
    hide RenderSeq, End, Plain, NoSets, Behind, ChoiceEnd, FlatGroup, SetInside, RenderAlts, RenderBase;
    var it := Group([Alternative(left), Alternative(right)], One);
    ChoiceGroup(left, right);
    GroupSearch(it, post, t, numCaps, fold, spare);
    forall s: nat | s <= |t|
      ensures End([it] + post, t, fold, s, |t|) == ChoiceEnd(left, right, post, t, fold, s)
    {
      GroupEnd(it, post, t, fold, s);
      ChoiceBehind(left, right, post, t, fold, s, |t|);
    }
    var r := E.MatchResult(RenderBase(it) + RenderSeq(post), t, numCaps, fold, spare).value;
    if r >= 0 {
      var s: nat :| FirstEndAt([it] + post, t, fold, s, r);
      assert ChoiceEnd(left, right, post, t, fold, s) == Some(r);
      forall x: nat | x < s ensures ChoiceEnd(left, right, post, t, fold, x) == None {
        assert End([it] + post, t, fold, x, |t|) == None;
      }
    }
  }

  /** A group whose last atom is `\(` is taken for an empty one: the pattern is refused. */
  lemma {:induction false} EscapedParenRefused(pre: seq<Item>, rest: Text, t: Text, fold: bool, spare: int)
    requires Plain(pre)
    ensures E.MatchResult([40] + RenderSeq(pre) + [92, 40, 41] + rest, t, 0, fold, spare) == Some(-1)
  {
    hide RenderSeq, Scan, Plain;
    var p := [40] + RenderSeq(pre) + [92, 40, 41] + rest;
    var st, k := InitialScan(p), 1 + |RenderSeq(pre)|;
    ScanOpen(p, 0, st, 0);
    var st' := st.(brackets := st.brackets + [Bracket(1, -1, 0, 0)], depth := 1);
    PlainFlat(pre);
    assert p[1..k] == RenderSeq(pre);
    ScanGroupless(p, 1, st', 0, pre);
    assert p[k] == 92 && p[k + 1] == 40 && p[k + 2] == 41;
    ParenScan(p, k, st');
  }

  lemma {:induction false} ParenScan(p: Text, k: nat, st: ScanState)
    requires st.WellFormed() && k + 2 < |p| && p[k] == 92 && p[k + 1] == 40 && p[k + 2] == 41 && 0 < st.depth
    ensures Scan(p, k, st, 0) == Rejected(-1)
  {
    assert GetOpLen(p, k, |p| - k) == 2;
    assert Scan(p, k, st, 0) == Scan(p, k + 2, st, 0);
  }
}
