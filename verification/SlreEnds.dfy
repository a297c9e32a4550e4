/** Where a match ends: the matcher's result, told on the expression and the text alone. */
module SlreEnds {
  import opened Bytes
  import opened SlreTables
  import opened SlreMatcher
  import opened SlreSyntax
  import opened SlreSoundness
  import opened SlreScan
  import opened SlreParsing
  import opened SlreExactness
  import A = SlreAlternatives
  import R = SlreRuns
  import T = SlreTheorems
  import E = SlreEngine

  // ---- The end of a match ------------------------------------------------------------------------

  /** Where the sequence that starts at `i` ends, in the text before `z`. Items are taken in order, and what one has
      taken is given back only by a repetition and by a group with items behind it. */
  function End(its: seq<Item>, t: Text, fold: bool, i: nat, z: nat): (e: Option<nat>)
    requires i <= z <= |t|
    ensures e.Some? ==> i <= e.value <= z
    decreases its, 2, 0
  {
    if its == [] then Some(i)
    else
      var it, rest := its[0], its[1..];
      var q := QuantOf(it);
      if q.One? && it.Group? && rest != [] then Behind(its, t, fold, i, z, z)
      else
        var x := Once(it, t, fold, i, z);
        if q.One? then if x.Some? then End(rest, t, fold, x.value, z) else None
        else if q.Opt? then End(rest, t, fold, if x.Some? then x.value else i, z)
        else
          var none := End(rest, t, fold, i, z);
          if x == None || x.value == i then
            if q.OneMore? && (x == None || none == Some(i)) then None else none
          else
            var some, last := More(its, t, fold, i, z), Last(its, t, fold, i, z);
            if q.OneMore? || Once(it, t, fold, last, z).Some? then some
            else if none.Some? && GivesUp(its, t, fold, last, z) && (some == None || (!q.lazy && none.value > i))
            then none
            else some
  }

  /** One match of the item, its quantifier disregarded. */
  function Once(it: Item, t: Text, fold: bool, i: nat, z: nat): (e: Option<nat>)
    requires i <= z <= |t|
    ensures e.Some? ==> i <= e.value <= z
    decreases it, 0, 0
  {
    match it
    case Bol => if i == 0 then Some(i) else None
    case Eol => if i == z then Some(i) else None
    case Single(a, _) => if i < z && Accepts(a, fold, t[i]) then Some(i + 1) else None
    case Group(alts, _) => AltsEnd(alts, 0, t, fold, i, z)
  }

  /** The first alternative that matches some text, or else the last one. */
  function AltsEnd(alts: seq<Alternative>, k: nat, t: Text, fold: bool, i: nat, z: nat): (e: Option<nat>)
    requires i <= z <= |t|
    ensures e.Some? ==> i <= e.value <= z
    decreases alts, 0, |alts| - k
  {
    if k >= |alts| then None
    else
      var x := End(alts[k].items, t, fold, i, z);
      if k + 1 == |alts| || (x.Some? && x.value > i) then x else AltsEnd(alts, k + 1, t, fold, i, z)
  }

  predicate GivesUp(its: seq<Item>, t: Text, fold: bool, i: nat, z: nat)
    requires i <= z <= |t| && its != []
    decreases its, 1, 0
  {
    End(its[1..], t, fold, i, z) == None
  }

  /** The rest behind one or more matches of a repeated item: behind as many of them as it can be found behind, or
      as few if the repetition is not greedy. */
  function More(its: seq<Item>, t: Text, fold: bool, i: nat, z: nat): (e: Option<nat>)
    requires i <= z <= |t| && its != []
    ensures e.Some? ==> i < e.value <= z
    decreases its, 1, z - i
  {
    var x := Once(its[0], t, fold, i, z);
    if x == None || x.value == i then None
    else
      var here, later := End(its[1..], t, fold, x.value, z), More(its, t, fold, x.value, z);
      if Lazy(its[0]) then if here.Some? then here else later
      else if later.Some? then later else here
  }

  predicate Lazy(it: Item) {
    var q := QuantOf(it);
    (q.ZeroMore? || q.OneMore?) && q.lazy
  }

  /** Where the matches of a repeated item, as many as there are, end. */
  function Last(its: seq<Item>, t: Text, fold: bool, i: nat, z: nat): (e: nat)
    requires i <= z <= |t| && its != []
    ensures i <= e <= z
    decreases its, 1, z - i
  {
    var x := Once(its[0], t, fold, i, z);
    if x == None || x.value == i then i else Last(its, t, fold, x.value, z)
  }

  /** A group and the rest behind it: the group is given ever less text, up to `y`, until the rest is found. */
  function Behind(its: seq<Item>, t: Text, fold: bool, i: nat, z: nat, y: nat): (e: Option<nat>)
    requires i <= y <= z <= |t| && its != []
    ensures e.Some? ==> i <= e.value <= z
    decreases its, 1, y
  {
    var x := Once(its[0], t, fold, i, y);
    var e := if x.Some? then End(its[1..], t, fold, x.value, z) else None;
    if e.Some? || y == i then e else Behind(its, t, fold, i, z, y - 1)
  }

  // ---- The matcher --------------------------------------------------------------------------------

  /** A result relative to `so` is this end. */
  predicate Reaches(r: int, x: Option<nat>, so: int) {
    if x.Some? then r == x.value - so else r == -1
  }

  /** `bar` finds exactly this end. */
  lemma {:induction false} BarEnds(e: Env, its: seq<Item>, lo: int, n: int, so: int, m: int, bi: nat, j: int)
    requires Situated(e, its, lo, n, so, m, bi) && 0 <= j <= m
    ensures Reaches(Bar(e, lo, n, so, m, bi, j), End(its, e.t, e.fold, so + j, so + m), so)
    decreases |e.tb.brackets| - bi, 0, n, 5, 0
  {
    hide Bar, Round, RenderSeq, RenderAlts, RenderBase, RenderItem, FlatTop, GroupsAt, HasGroup, SeesEnd, Written, Seen,
      More, Last, Once, Behind;
    if its == [] {
      NoPattern(e, its, lo, n, so, m, bi, j);
    } else {
      match QuantOf(its[0])
      case One =>
        if its[0].Group? {
          GroupEnds(e, its, lo, n, so, m, bi, j);
        } else {
          OneEnds(e, its, lo, n, so, m, bi, j);
        }
      case Opt => OptionEnds(e, its, lo, n, so, m, bi, j);
      case _ => RepeatEnds(e, its, lo, n, so, m, bi, j);
    }
  }

  /** An unquantified item, not a group. */
  lemma {:induction false} OneEnds(e: Env, its: seq<Item>, lo: int, n: int, so: int, m: int, bi: nat, j: int)
    requires its != [] && Situated(e, its, lo, n, so, m, bi) && 0 <= j <= m
    requires QuantOf(its[0]).One? && !its[0].Group?
    ensures Reaches(Bar(e, lo, n, so, m, bi, j), End(its, e.t, e.fold, so + j, so + m), so)
    decreases |e.tb.brackets| - bi, 0, n, 4, 0
  {
    hide Bar, Round, RenderSeq, RenderAlts, RenderBase, RenderItem, FlatTop, GroupsAt, HasGroup, SeesEnd, Written, Seen,
      More, Last, Behind, Accepts;
    var d := |RenderItem(its[0])|;
    TailSituated(e, its, lo, n, so, m, bi, so, m);
    var x := Once(its[0], e.t, e.fold, so + j, so + m);
    if x.Some? {
      BarEnds(e, its[1..], lo + d, n - d, so, m, bi, x.value - so);
    }
    if its[0].Single? {
      AtomStep(e, its, lo, n, so, m, bi, j);
    } else {
      AnchorStep(e, its, lo, n, so, m, bi, j);
    }
  }

  lemma {:induction false} AnchorStep(e: Env, its: seq<Item>, lo: int, n: int, so: int, m: int, bi: nat, j: int)
    requires its != [] && Situated(e, its, lo, n, so, m, bi) && (its[0].Bol? || its[0].Eol?) && 0 <= j <= m
    ensures var d, r := |RenderItem(its[0])|, Bar(e, lo, n, so, m, bi, j);
      if so + j == (if its[0].Bol? then 0 else so + m) then r == Bar(e, lo + d, n - d, so, m, bi, j) else r == -1
  {
    hide Bar, RenderSeq, RenderItem, RenderAlts, FlatTop, GroupsAt, HasGroup, SeesEnd, Seen, Written;
    ItemSeen(e, its, lo, n, so, m, bi);
    HeadFacts(e, its, lo, n, so, m, bi);
    AnchorSize(its[0]);
    BarAtAnchor(e, its[0], lo, n, so, m, bi, j);
  }

  /** A quantified item, called on its own. */
  lemma {:induction false} OnceEnds(e: Env, its: seq<Item>, lo: int, n: int, so: int, m: int, bi: nat, j: int)
    requires its != [] && Situated(e, its, lo, n, so, m, bi) && !QuantOf(its[0]).One? && 0 <= j <= m
    ensures var step := |RenderBase(its[0])|;
      && 0 < step < n
      && Reaches(Bar(e, lo, step, so + j, m - j, bi, 0), Once(its[0], e.t, e.fold, so + j, so + m), so + j)
    decreases |e.tb.brackets| - bi, 0, n, 0, 0
  {
    hide Bar, Round, RenderSeq, RenderAlts, RenderBase, RenderItem, FlatTop, GroupsAt, HasGroup, SeesEnd, Written, End;
    ItemSeen(e, its, lo, n, so, m, bi);
    AloneSituated(e, its, lo, n, so, m, bi, so + j, m - j);
    QuantShows(its[0]);
    BarEnds(e, [Unquantified(its[0])], lo, |RenderBase(its[0])|, so + j, m - j, bi, 0);
    AloneEnd(its[0], e.t, e.fold, so + j, so + m);
  }

  lemma {:induction false} QuantShows(it: Item)
    requires !QuantOf(it).One?
    ensures RenderQuant(QuantOf(it)) != []
  {
  }

  lemma {:induction false} AloneEnd(it: Item, t: Text, fold: bool, i: nat, z: nat)
    requires i <= z <= |t|
    ensures End([Unquantified(it)], t, fold, i, z) == Once(it, t, fold, i, z)
  {
    hide AltsEnd;
    var one := [Unquantified(it)];
    assert one[1..] == [];
    assert Once(one[0], t, fold, i, z) == Once(it, t, fold, i, z);
  }

  /** The rest of the region behind `k` bytes, a quantified item before it. */
  lemma {:induction false} RestEnds(e: Env, its: seq<Item>, lo: int, n: int, so: int, m: int, bi: nat, k: int)
    requires its != [] && Situated(e, its, lo, n, so, m, bi) && !QuantOf(its[0]).One? && 0 <= k <= m
    ensures var ni := |RenderItem(its[0])|;
      && 0 < ni <= n && (ni == n <==> its[1..] == [])
      && Reaches(Bar(e, lo + ni, n - ni, so + k, m - k, bi, 0), End(its[1..], e.t, e.fold, so + k, so + m), so + k)
      && (its[1..] == [] ==> End(its[1..], e.t, e.fold, so + k, so + m) == Some(so + k))
    decreases |e.tb.brackets| - bi, 0, n, 0, 0
  {
    hide Bar, RenderSeq, RenderItem, RenderAlts, FlatTop, GroupsAt, HasGroup, SeesEnd, Written, End;
    WholeItem(e, its, lo, n, so, m, bi);
    TailSituated(e, its, lo, n, so, m, bi, so + k, m - k);
    var ni := |RenderItem(its[0])|;
    BarEnds(e, its[1..], lo + ni, n - ni, so + k, m - k, bi, 0);
    EmptyEnd(e.t, e.fold, so + k, so + m);
  }

  lemma {:induction false} EmptyEnd(t: Text, fold: bool, i: nat, z: nat)
    requires i <= z <= |t|
    ensures End([], t, fold, i, z) == Some(i)
  {
  }

  lemma {:induction false} OptionEnds(e: Env, its: seq<Item>, lo: int, n: int, so: int, m: int, bi: nat, j: int)
    requires its != [] && Situated(e, its, lo, n, so, m, bi) && QuantOf(its[0]).Opt? && 0 <= j <= m
    ensures Reaches(Bar(e, lo, n, so, m, bi, j), End(its, e.t, e.fold, so + j, so + m), so)
    decreases |e.tb.brackets| - bi, 0, n, 4, 0
  {
    hide Bar, Round, RenderSeq, RenderAlts, RenderBase, RenderItem, FlatTop, GroupsAt, HasGroup, SeesEnd, Written, Seen,
      More, Last, Behind, Once;
    ItemSeen(e, its, lo, n, so, m, bi);
    BarAtOption(e, its[0], lo, n, so, m, bi, j);
    OnceEnds(e, its, lo, n, so, m, bi, j);
    TailSituated(e, its, lo, n, so, m, bi, so, m);
    var x, d := Once(its[0], e.t, e.fold, so + j, so + m), |RenderItem(its[0])|;
    BarEnds(e, its[1..], lo + d, n - d, so, m, bi, if x.Some? then x.value - so else j);
  }

  // ---- Groups -------------------------------------------------------------------------------------

  lemma {:induction false} DohEnds(e: Env, alts: seq<Alternative>, so: int, m: int, k: nat, pos: int, i: nat)
    requires AltsSituated(e, alts, so, m, k, pos) && i < |alts| && 0 <= so && so + m <= |e.t|
    ensures Reaches(DohFrom(e, so, m, k, i), AltsEnd(alts, i, e.t, e.fold, so, so + m), so)
    decreases |e.tb.brackets| - k, 1, 0, 0, |alts| - i
  {
    hide Bar, RenderSeq, RenderBase, RenderItem, RenderAlts, FlatTop, GroupsAt, Written, SeesEnd, HasGroup, End;
    PieceLocated(e.tb, alts, k, pos, i);
    BarEnds(e, alts[i].items, pos + AltStart(alts, i), |RenderSeq(alts[i].items)|, so, m, k, 0);
    if i + 1 < |alts| {
      DohEnds(e, alts, so, m, k, pos, i + 1);
    }
  }

  lemma {:induction false} GroupEnds(e: Env, its: seq<Item>, lo: int, n: int, so: int, m: int, bi: nat, j: int)
    requires its != [] && Situated(e, its, lo, n, so, m, bi) && QuantOf(its[0]).One? && its[0].Group? && 0 <= j <= m
    ensures Reaches(Bar(e, lo, n, so, m, bi, j), End(its, e.t, e.fold, so + j, so + m), so)
    decreases |e.tb.brackets| - bi, 0, n, 4, 0
  {
    hide Bar, RenderSeq, RenderAlts, RenderBase, RenderItem, FlatTop, GroupsAt, HasGroup, SeesEnd, Written, End;
    var d := |RenderBase(its[0])|;
    SameSize(its[0]);
    TailSituated(e, its, lo, n, so, m, bi, so, m);
    var x := GroupTakes(e, its, lo, n, so, m, bi, j);
    if x >= 0 {
      BarEnds(e, its[1..], lo + d, n - d, so, m, bi + 1, j + x);
    }
  }

  /** How far the group goes. */
  lemma {:induction false} GroupTakes(e: Env, its: seq<Item>, lo: int, n: int, so: int, m: int, bi: nat, j: int)
    returns (x: int)
    requires its != [] && Situated(e, its, lo, n, so, m, bi) && QuantOf(its[0]).One? && its[0].Group? && 0 <= j <= m
    ensures var d := |RenderBase(its[0])|;
      && x <= m - j && bi + 1 < |e.tb.brackets| && (x < 0 ==> x == -1)
      && Bar(e, lo, n, so, m, bi, j) == (if x < 0 then x else Bar(e, lo + d, n - d, so, m, bi + 1, j + x))
      && End(its, e.t, e.fold, so + j, so + m) ==
         if x < 0 then None else End(its[1..], e.t, e.fold, so + j + x, so + m)
    decreases |e.tb.brackets| - bi, 0, n, 3, 0
  {
    hide Bar, Doh, GroupLoop, RenderSeq, RenderAlts, RenderBase, RenderItem, FlatTop, GroupsAt, HasGroup, SeesEnd,
      Written, Seen, BracketIs, End, AltsEnd;
    var it, d := its[0], |RenderBase(its[0])|;
    ItemSeen(e, its, lo, n, so, m, bi);
    HeadFacts(e, its, lo, n, so, m, bi);
    SameSize(it);
    WholeItem(e, its, lo, n, so, m, bi);
    BarAtGroup(e, it, lo, n, so, m, bi, j);
    EndAtGroup(its, e.t, e.fold, so + j, so + m);
    if its[1..] == [] {
      x := Doh(e, so + j, m - j, bi + 1);
      LastGroupEnds(e, its, lo, n, so, m, bi, j);
    } else {
      x := GroupLoop(e, lo + d, n - d, so, m, bi + 1, j, 0);
      if SetInside(it) {
        SetGroupLast(e, its, lo, n, so, m, bi);
      }
      LoopBehind(e, its, lo, n, so, m, bi, j, 0);
    }
  }

  lemma {:induction false} LastGroupEnds(e: Env, its: seq<Item>, lo: int, n: int, so: int, m: int, bi: nat, j: int)
    requires its != [] && Situated(e, its, lo, n, so, m, bi) && its[0].Group? && 0 <= j <= m
    requires bi + 1 < |e.tb.brackets|
    ensures Reaches(Doh(e, so + j, m - j, bi + 1), AltsEnd(its[0].alts, 0, e.t, e.fold, so + j, so + m), so + j)
    decreases |e.tb.brackets| - bi - 1, 2
  {
    hide Bar, Doh, DohFrom, RenderSeq, RenderAlts, RenderBase, RenderItem, FlatTop, GroupsAt, HasGroup, SeesEnd,
      Written, BracketIs, AltsEnd, StartsWithBol;
    HeadFacts(e, its, lo, n, so, m, bi);
    GroupSituated(e, its, lo, n, so, m, bi, so + j, m - j);
    DohEnds(e, its[0].alts, so + j, m - j, bi + 1, lo + 1, 0);
    DohStart(e, so + j, m - j, bi + 1);
  }

  lemma {:induction false} EndAtGroup(its: seq<Item>, t: Text, fold: bool, i: nat, z: nat)
    requires its != [] && its[0].Group? && its[0].q.One? && i <= z <= |t|
    ensures var x := AltsEnd(its[0].alts, 0, t, fold, i, z);
      End(its, t, fold, i, z) ==
        if its[1..] != [] then Behind(its, t, fold, i, z, z)
        else if x.Some? then End(its[1..], t, fold, x.value, z) else None
  {
    hide AltsEnd, Behind;
  }

  lemma {:induction false} SameSize(it: Item)
    requires QuantOf(it).One?
    ensures RenderItem(it) == RenderBase(it)
  {
  }

  lemma {:induction false} DohStart(e: Env, so: int, m: int, bi: nat)
    requires e.tb.WellFormed() && bi < |e.tb.brackets| && 0 <= m
    ensures Doh(e, so, m, bi) == DohFrom(e, so, m, bi, 0)
  {
  }

  lemma {:induction false} LoopBehind(e: Env, its: seq<Item>, lo: int, n: int, so: int, m: int, bi: nat,
                                      j: int, j2: int)
    requires its != [] && Situated(e, its, lo, n, so, m, bi) && 0 <= j <= m && 0 <= j2 <= m - j
    requires its[0].Group? && its[0].q.One? && bi + 1 < |e.tb.brackets| && !SetInside(its[0])
    ensures var d := |RenderBase(its[0])|;
      var r := GroupLoop(e, lo + d, n - d, so, m, bi + 1, j, j2);
      && r <= m - j && (r < 0 ==> r == -1)
      && Behind(its, e.t, e.fold, so + j, so + m, so + m - j2) ==
         if r < 0 then None else End(its[1..], e.t, e.fold, so + j + r, so + m)
    decreases |e.tb.brackets| - bi - 1, 3, 0, 0, m - j - j2
  {
    hide Bar, Doh, GroupLoop, RenderSeq, RenderBase, RenderItem, RenderAlts, FlatTop, GroupsAt, Written, SeesEnd,
      HasGroup, BracketIs, End, AltsEnd, Behind, StartsWithBol;
    var d := |RenderBase(its[0])|;
    BehindStep(its, e.t, e.fold, so + j, so + m, so + m - j2);
    R.AtLoop(e, lo + d, n - d, so, m, bi + 1, j, j2);
    LoopTry(e, its, lo, n, so, m, bi, j, j2);
    if j2 < m - j {
      LoopBehind(e, its, lo, n, so, m, bi, j, j2 + 1);
    }
  }

  lemma {:induction false} LoopTry(e: Env, its: seq<Item>, lo: int, n: int, so: int, m: int, bi: nat, j: int, j2: int)
    requires its != [] && Situated(e, its, lo, n, so, m, bi) && 0 <= j <= m && 0 <= j2 <= m - j
    requires its[0].Group? && its[0].q.One? && bi + 1 < |e.tb.brackets| && !SetInside(its[0])
    ensures var d, r, z := |RenderBase(its[0])|, Doh(e, so + j, m - (j + j2), bi + 1), so + m;
      && Reaches(r, AltsEnd(its[0].alts, 0, e.t, e.fold, so + j, z - j2), so + j)
      && r <= m - j - j2
      && (r >= 0 ==>
            var k := so + j + r;
            Reaches(Bar(e, lo + d, n - d, k, m - (j + r), bi + 1, 0), End(its[1..], e.t, e.fold, k, z), k))
    decreases |e.tb.brackets| - bi - 1, 2
  {
    hide Bar, Doh, DohFrom, RenderSeq, RenderBase, RenderItem, RenderAlts, FlatTop, GroupsAt, Written, SeesEnd,
      HasGroup, BracketIs, End, AltsEnd, StartsWithBol;
    var d := |RenderBase(its[0])|;
    SameSize(its[0]);
    GroupSituated(e, its, lo, n, so, m, bi, so + j, m - (j + j2));
    DohEnds(e, its[0].alts, so + j, m - (j + j2), bi + 1, lo + 1, 0);
    DohStart(e, so + j, m - (j + j2), bi + 1);
    var r := Doh(e, so + j, m - (j + j2), bi + 1);
    if r >= 0 {
      TailSituated(e, its, lo, n, so, m, bi, so + j + r, m - (j + r));
      BarEnds(e, its[1..], lo + d, n - d, so + j + r, m - (j + r), bi + 1, 0);
    }
  }

  lemma {:induction false} BehindStep(its: seq<Item>, t: Text, fold: bool, i: nat, z: nat, y: nat)
    requires i <= y <= z <= |t| && its != [] && its[0].Group?
    ensures var x := AltsEnd(its[0].alts, 0, t, fold, i, y);
      var e := if x.Some? then End(its[1..], t, fold, x.value, z) else None;
      Behind(its, t, fold, i, z, y) == if e.Some? || y == i then e else Behind(its, t, fold, i, z, y - 1)
  {
    hide End, AltsEnd;
  }

  // ---- Repetitions --------------------------------------------------------------------------------

  predicate Repeated(its: seq<Item>) {
    its != [] && (QuantOf(its[0]).ZeroMore? || QuantOf(its[0]).OneMore?)
  }

  /** The end found so far, when the rest has been tried once more. */
  function Further(x: Option<nat>, so: int, nj: int): int {
    if x.Some? then x.value - so else nj
  }

  /** A pass of the loop that takes a byte or more. */
  lemma {:induction false} LapTakes(e: Env, its: seq<Item>, lo: int, n: int, so: int, m: int, bi: nat, j: int,
                                    j2: int, nj: int, n2: int)
    requires Repeated(its) && Situated(e, its, lo, n, so, m, bi) && 0 <= j <= j2 <= m && nj <= m + 1
    requires var x := Once(its[0], e.t, e.fold, so + j2, so + m); x.Some? && x.value > so + j2
    ensures var step, x := |RenderBase(its[0])|, Once(its[0], e.t, e.fold, so + j2, so + m).value;
      && 0 < step < n
      && var lap := RepeatLap(e, lo, n, so, m, bi, j, step, j2, nj, n2);
      var nj' := Further(End(its[1..], e.t, e.fold, x, so + m), so, nj);
      if nj' > j && Lazy(its[0]) then lap.Stop? && lap.l.nj == nj' && lap.l.n1 > 0
      else lap.Again? && lap.j2 == x - so && lap.nj == nj' && (its[1..] == [] ==> lap.n2 == n2)
    decreases |e.tb.brackets| - bi, 0, n, 1, 0
  {
    hide Bar, Round, RepeatLoop, RenderSeq, RenderAlts, RenderBase, RenderItem, FlatTop, GroupsAt, HasGroup, SeesEnd,
      Seen, Written, Once, End;
    ItemSeen(e, its, lo, n, so, m, bi);
    BarAtRepeat(e, its[0], lo, n, so, m, bi, j);
    OnceEnds(e, its, lo, n, so, m, bi, j2);
    RestEnds(e, its, lo, n, so, m, bi, Once(its[0], e.t, e.fold, so + j2, so + m).value - so);
  }

  /** A pass that takes none: the loop is left. */
  lemma {:induction false} LapStops(e: Env, its: seq<Item>, lo: int, n: int, so: int, m: int, bi: nat, j: int,
                                    j2: int, nj: int, n2: int)
    requires Repeated(its) && Situated(e, its, lo, n, so, m, bi) && 0 <= j <= j2 <= m && nj <= m + 1
    requires var x := Once(its[0], e.t, e.fold, so + j2, so + m); x == None || x.value == so + j2
    ensures var step, stuck := |RenderBase(its[0])|, Once(its[0], e.t, e.fold, so + j2, so + m) == None;
      && 0 < step < n
      && var lap := RepeatLap(e, lo, n, so, m, bi, j, step, j2, nj, n2);
      var x := End(its[1..], e.t, e.fold, so + j2, so + m);
      && lap.Stop? && (lap.l.n1 < 0 <==> stuck)
      && lap.l.nj == (if QuantOf(its[0]).OneMore? && stuck then nj else Further(x, so, nj))
      && (QuantOf(its[0]).ZeroMore? ==> (lap.l.n2 < 0 <==> if its[1..] == [] then n2 < 0 else x == None))
    decreases |e.tb.brackets| - bi, 0, n, 1, 0
  {
    hide Bar, Round, RepeatLoop, RenderSeq, RenderAlts, RenderBase, RenderItem, FlatTop, GroupsAt, HasGroup, SeesEnd,
      Seen, Written, Once, End;
    ItemSeen(e, its, lo, n, so, m, bi);
    BarAtRepeat(e, its[0], lo, n, so, m, bi, j);
    OnceEnds(e, its, lo, n, so, m, bi, j2);
    RestEnds(e, its, lo, n, so, m, bi, j2);
  }

  /** What the loop leaves, entered at `i` with `nj`: `taken` tells whether a byte was taken before. */
  ghost predicate Left(l: Repeats, its: seq<Item>, t: Text, fold: bool, so: int, i: nat, z: nat, nj: int, taken: bool)
    requires its != [] && i <= z <= |t|
  {
    var some, last := More(its, t, fold, i, z), Last(its, t, fold, i, z);
    var stuck, rest := Once(its[0], t, fold, last, z) == None, End(its[1..], t, fold, last, z);
    if Lazy(its[0]) && some.Some? then l.nj == some.value - so && l.n1 > 0
    else
      && l.nj == (if taken || last > i then Further(some, so, nj)
                  else if QuantOf(its[0]).OneMore? && stuck then nj else Further(rest, so, nj))
      && (l.n1 < 0 <==> stuck)
      && (QuantOf(its[0]).ZeroMore? ==> (l.n2 < 0 <==> its[1..] == [] || rest == None))
      && (last > i && some == None ==> rest == None)
  }

  /** More matches of the item from `i` on, one of them at a time. */
  lemma {:induction false} OneTaken(its: seq<Item>, t: Text, fold: bool, i: nat, z: nat)
    requires its != [] && i <= z <= |t|
    ensures var x, rest := Once(its[0], t, fold, i, z), its[1..];
      if x == None || x.value == i then More(its, t, fold, i, z) == None && Last(its, t, fold, i, z) == i
      else
        var here, later := End(rest, t, fold, x.value, z), More(its, t, fold, x.value, z);
        && More(its, t, fold, i, z) == (if Lazy(its[0]) then if here.Some? then here else later
                                        else if later.Some? then later else here)
        && Last(its, t, fold, i, z) == Last(its, t, fold, x.value, z) > i
  {
    hide End, Once;
  }

  lemma {:induction false} LeftAt(l: Repeats, its: seq<Item>, t: Text, fold: bool, so: int, i: nat, z: nat, nj: int,
                                  taken: bool)
    requires its != [] && i <= z <= |t| && More(its, t, fold, i, z) == None && Last(its, t, fold, i, z) == i
    requires var stuck, rest := Once(its[0], t, fold, i, z) == None, End(its[1..], t, fold, i, z);
      && l.nj == (if QuantOf(its[0]).OneMore? && stuck then nj else Further(rest, so, nj))
      && (taken ==> Further(rest, so, nj) == nj)
      && (l.n1 < 0 <==> stuck)
      && (QuantOf(its[0]).ZeroMore? ==> (l.n2 < 0 <==> its[1..] == [] || rest == None))
    ensures Left(l, its, t, fold, so, i, z, nj, taken)
  {
    hide End, Once, More, Last;
  }

  lemma {:induction false} LeftStep(l: Repeats, its: seq<Item>, t: Text, fold: bool, so: int, i: nat, z: nat, nj: int,
                                    taken: bool)
    requires its != [] && 0 <= so <= i <= z <= |t|
    requires var x := Once(its[0], t, fold, i, z);
      && x.Some? && x.value > i
      && var here := End(its[1..], t, fold, x.value, z);
      if Lazy(its[0]) && here.Some? then l.nj == here.value - so && l.n1 > 0
      else Left(l, its, t, fold, so, x.value, z, Further(here, so, nj), true)
    ensures Left(l, its, t, fold, so, i, z, nj, taken)
  {
    hide End, Once, More, Last;
    OneTaken(its, t, fold, i, z);
    OneTaken(its, t, fold, Once(its[0], t, fold, i, z).value, z);
  }

  lemma {:induction false} SituatedFacts(e: Env, its: seq<Item>, lo: int, n: int, so: int, m: int, bi: nat)
    requires Situated(e, its, lo, n, so, m, bi) && Repeated(its)
    ensures e.tb.WellFormed() && bi < |e.tb.brackets| && 0 <= so && 0 <= m && so + m <= |e.t|
    ensures 0 < |RenderBase(its[0])| < n
  {
    hide RenderSeq, RenderBase, RenderItem, FlatTop, GroupsAt, SeesEnd, Seen, Written;
    ItemSeen(e, its, lo, n, so, m, bi);
    BarAtRepeat(e, its[0], lo, n, so, m, bi, 0);
  }

  lemma {:induction false} LoopLeaves(e: Env, its: seq<Item>, lo: int, n: int, so: int, m: int, bi: nat, j: int,
                                      j2: int, nj: int, n2: int)
    requires Repeated(its) && Situated(e, its, lo, n, so, m, bi) && 0 <= j <= j2 <= m && nj <= m + 1
    requires its[1..] == [] ==> n2 == -1
    requires j2 > j ==> Further(End(its[1..], e.t, e.fold, so + j2, so + m), so, nj) == nj
    requires Lazy(its[0]) ==> nj == j
    ensures var step := |RenderBase(its[0])|;
      && 0 < step < n
      && Left(RepeatLoop(e, lo, n, so, m, bi, j, step, j2, nj, n2), its, e.t, e.fold, so, so + j2, so + m, nj, j2 > j)
    decreases |e.tb.brackets| - bi, 0, n, 2, m - j2
  {
    hide Bar, Round, RepeatLap, RepeatLoop, RenderSeq, RenderAlts, RenderBase, RenderItem, FlatTop, GroupsAt, HasGroup,
      SeesEnd, Seen, Written, Once, More, Last, End, Situated, Left;
    SituatedFacts(e, its, lo, n, so, m, bi);
    var step, i, z := |RenderBase(its[0])|, so + j2, so + m;
    var x := Once(its[0], e.t, e.fold, i, z);
    RepeatLoopLap(e, lo, n, so, m, bi, j, step, j2, nj, n2);
    var lap := RepeatLap(e, lo, n, so, m, bi, j, step, j2, nj, n2);
    OneTaken(its, e.t, e.fold, i, z);
    if x == None || x.value == i {
      LapStops(e, its, lo, n, so, m, bi, j, j2, nj, n2);
      LeftAt(lap.l, its, e.t, e.fold, so, i, z, nj, j2 > j);
    } else {
      LapTakes(e, its, lo, n, so, m, bi, j, j2, nj, n2);
      if lap.Again? {
        LoopLeaves(e, its, lo, n, so, m, bi, j, lap.j2, lap.nj, lap.n2);
      }
      LeftStep(RepeatLoop(e, lo, n, so, m, bi, j, step, j2, nj, n2), its, e.t, e.fold, so, i, z, nj, j2 > j);
    }
  }

  /** What is made of the loop's result: `zero` is what the rest gives without any byte taken. */
  function Finish(l: Repeats, star: bool, last: bool, j: int, zero: int): int {
    var retry := l.n1 < 0 && l.n2 < 0 && star;
    var n2, nj := if retry then zero else l.n2, if retry && zero > 0 then j + zero else l.nj;
    if !star && nj == j then NO_MATCH else if nj == j && !last && n2 < 0 then NO_MATCH else nj
  }

  lemma {:induction false} FinishEnds(l: Repeats, its: seq<Item>, t: Text, fold: bool, so: int, j: int, z: nat,
                                      zero: int)
    requires Repeated(its) && 0 <= so && 0 <= j && so + j <= z <= |t|
    requires Left(l, its, t, fold, so, so + j, z, j, false)
    requires Reaches(zero, End(its[1..], t, fold, so + j, z), so + j)
    ensures Reaches(Finish(l, QuantOf(its[0]).ZeroMore?, its[1..] == [], j, zero), End(its, t, fold, so + j, z), so)
  {
    hide Once, More, Last, End;
    OneTaken(its, t, fold, so + j, z);
    EndRepeated(its, t, fold, so + j, z);
  }

  lemma {:induction false} EndRepeated(its: seq<Item>, t: Text, fold: bool, i: nat, z: nat)
    requires Repeated(its) && i <= z <= |t|
    ensures var q, x, none := QuantOf(its[0]), Once(its[0], t, fold, i, z), End(its[1..], t, fold, i, z);
      var some, last := More(its, t, fold, i, z), Last(its, t, fold, i, z);
      End(its, t, fold, i, z) ==
        if x == None || x.value == i then if q.OneMore? && (x == None || none == Some(i)) then None else none
        else if q.OneMore? || Once(its[0], t, fold, last, z).Some? then some
        else if none.Some? && End(its[1..], t, fold, last, z) == None && (some == None || (!q.lazy && none.value > i))
        then none
        else some
    ensures its[1..] == [] ==> forall k :: i <= k <= z ==> End(its[1..], t, fold, k, z) == Some(k)
  {
    hide Once, More, Last;
  }

  lemma {:induction false} RepeatFinish(e: Env, its: seq<Item>, lo: int, n: int, so: int, m: int, bi: nat, j: int)
    requires Repeated(its) && Situated(e, its, lo, n, so, m, bi) && 0 <= j <= m
    ensures var ni, step := |RenderItem(its[0])|, |RenderBase(its[0])|;
      && 0 < step < n
      && Bar(e, lo, n, so, m, bi, j) ==
         Finish(RepeatLoop(e, lo, n, so, m, bi, j, step, j, j, -1), QuantOf(its[0]).ZeroMore?, its[1..] == [], j,
                Bar(e, lo + ni, n - ni, so + j, m - j, bi, 0))
  {
    hide Bar, Round, RepeatLap, RepeatLoop, RenderSeq, RenderAlts, RenderBase, RenderItem, FlatTop, GroupsAt, HasGroup,
      SeesEnd, Seen, Written;
    ItemSeen(e, its, lo, n, so, m, bi);
    BarAtRepeat(e, its[0], lo, n, so, m, bi, j);
    WholeItem(e, its, lo, n, so, m, bi);
  }

  lemma {:induction false} RepeatEnds(e: Env, its: seq<Item>, lo: int, n: int, so: int, m: int, bi: nat, j: int)
    requires Repeated(its) && Situated(e, its, lo, n, so, m, bi) && 0 <= j <= m
    ensures Reaches(Bar(e, lo, n, so, m, bi, j), End(its, e.t, e.fold, so + j, so + m), so)
    decreases |e.tb.brackets| - bi, 0, n, 4, 0
  {
    hide Bar, Round, RepeatLap, RepeatLoop, RenderSeq, RenderAlts, RenderBase, RenderItem, FlatTop, GroupsAt, HasGroup,
      SeesEnd, Seen, Written, Once, More, Last, End, Left, Finish, Situated;
    SituatedFacts(e, its, lo, n, so, m, bi);
    RepeatFinish(e, its, lo, n, so, m, bi, j);
    LoopLeaves(e, its, lo, n, so, m, bi, j, j, j, -1);
    RestEnds(e, its, lo, n, so, m, bi, j);
    var d, step := |RenderItem(its[0])|, |RenderBase(its[0])|;
    FinishEnds(RepeatLoop(e, lo, n, so, m, bi, j, step, j, j, -1), its, e.t, e.fold, so, j, so + m,
               Bar(e, lo + d, n - d, so + j, m - j, bi, 0));
  }

  // ---- The search ---------------------------------------------------------------------------------

  /** Where a match of the expression that starts at `s` ends. */
  function EndFrom(alts: seq<Alternative>, t: Text, fold: bool, s: nat): (e: Option<nat>)
    requires s <= |t|
    ensures e.Some? ==> s <= e.value <= |t|
  {
    AltsEnd(alts, 0, t, fold, s, |t|)
  }

  /** The first start, among those that `^` leaves, at which there is an end decides the result. */
  ghost predicate FirstEnd(alts: seq<Alternative>, t: Text, fold: bool, from: nat, r: int)
    requires alts != []
  {
    var tied := StartsWithBol(alts[0].items);
    if r >= 0 then
      exists s: nat :: from <= s <= |t| && (tied ==> s == 0) && EndFrom(alts, t, fold, s) == Some(r)
                       && forall x: nat :: from <= x < s ==> EndFrom(alts, t, fold, x) == None
    else r == -1 && forall s: nat :: from <= s <= |t| && (tied ==> s == 0) ==> EndFrom(alts, t, fold, s) == None
  }

  lemma {:induction false} SearchEnds(alts: seq<Alternative>, e: Env, i: nat)
    requires FlatRegex(alts) && e.p == RenderAlts(alts) && e.tb.WellFormed() && 0 < |e.tb.brackets|
    requires BracketIs(e.tb, 0, 0, alts) && GroupsAt(e.tb, GroupItems(alts), GroupStart(alts), 0)
    requires i <= |e.t| && (StartsWithBol(alts[0].items) ==> i == 0)
    ensures FirstEnd(alts, e.t, e.fold, i, BazFrom(e, i))
    decreases |e.t| - i
  {
    hide Bar, DohFrom, RenderAlts, RenderSeq, AltStart, GroupsAt, FlatRegex, BracketIs, AltsEnd, StartsWithBol;
    T.TopSituated(alts, e, i);
    DohEnds(e, alts, i, |e.t| - i, 0, 0, 0);
    DohStart(e, i, |e.t| - i, 0);
    A.WholeBracket(e.tb, alts);
    T.AnchorSeen(alts, e);
    var x := EndFrom(alts, e.t, e.fold, i);
    if x == None && i < |e.t| && !StartsWithBol(alts[0].items) {
      SearchEnds(alts, e, i + 1);
    }
  }

  /** For every flat expression that the scan accepts, `slre_match` reports the end of the match from the first start
      that has one, and nothing if none has. */
  lemma {:induction false} MatchEnds(alts: seq<Alternative>, t: Text, numCaps: int, fold: bool, spare: int)
    requires FlatRegex(alts)
    ensures var p := RenderAlts(alts);
      && alts != [] && !Compile(p, numCaps).Diverges?
      && var r := E.MatchResult(p, t, numCaps, fold, spare);
      if Compile(p, numCaps).Rejected? then r == Some(Compile(p, numCaps).code)
      else r.Some? && FirstEnd(alts, t, fold, 0, r.value)
  {
    hide Scan, Setup, RenderAlts, RenderSeq, AltStart, FlatRegex, BracketIs, GroupsAt, BazFrom, FirstEnd;
    FlatRegexNonempty(alts);
    T.FlatScanEnds(alts, numCaps);
    if Compile(RenderAlts(alts), numCaps).Scanned? {
      TablesExact(alts, numCaps, spare);
      var e := Env(RenderAlts(alts), t, fold, Setup(Compile(RenderAlts(alts), numCaps).state, spare));
      SearchEnds(alts, e, 0);
    }
  }
}
