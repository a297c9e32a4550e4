/** Regular expressions as trees: how they are written down, and which stretches of a text they match.
    Nothing here mentions the tables or the loops of the engine. */
module SlreSyntax {
  import opened Bytes
  import opened SlreTables

  /** An element of a set: a character, a range, an escape or a character code. */
  datatype Elem = Char(c: Byte) | Range(low: Byte, high: Byte) | Class(c: Byte) | Code(h: Byte, l: Byte)

  datatype Atom = Lit(c: Byte) | Any | Esc(c: Byte) | Hex(h: Byte, l: Byte) | Set(negated: bool, elems: seq<Elem>)

  datatype Quant = One | Opt | ZeroMore(lazy: bool) | OneMore(lazy: bool)

  datatype Item =
    | Bol
    | Eol
    | Single(a: Atom, q: Quant)
    | Group(alts: seq<Alternative>, q: Quant)

  datatype Alternative = Alternative(items: seq<Item>)

  // ---- How an expression is written -----------------------------------------------------------

  /** Characters that stand for themselves. */
  predicate IsPlain(c: Byte) {
    && c != 0 && c != CARET && c != DOLLAR && c != LPAREN && c != RPAREN && c != DOT && c != LBRACKET
    && !IsQuantifier(c) && c != PIPE && c != BACKSLASH
  }

  /** Characters that stand for themselves at an end of a range, and, unless they are `.`, `$` or `|`, in a set. */
  predicate IsEnd(c: Byte) {
    c != 0 && c < 128 && c != RBRACKET && c != BACKSLASH && c != DASH
  }

  predicate ValidElem(el: Elem) {
    match el
    case Char(c) => c != 0 && c != RBRACKET && c != BACKSLASH && c != DASH && c != DOT && c != DOLLAR && c != PIPE
    case Range(low, high) => IsEnd(low) && IsEnd(high)
    case Class(c) => IsMetacharacter(c) && c != 0
    case Code(h, l) => IsHexDigit(h) && IsHexDigit(l)
  }

  /** A set does not accept 0, and is not negated by its first element. */
  predicate ValidAtom(a: Atom) {
    match a
    case Lit(c) => IsPlain(c)
    case Any => true
    case Esc(c) => IsMetacharacter(c) && c != 0
    case Hex(h, l) => IsHexDigit(h) && IsHexDigit(l)
    case Set(negated, elems) =>
      && (forall k :: 0 <= k < |elems| ==> ValidElem(elems[k]))
      && (!negated && elems != [] ==> RenderElem(elems[0])[0] != CARET)
      && !Accepts(a, false, 0) && !Accepts(a, true, 0)
  }

  function RenderElem(el: Elem): (s: Text)
    ensures 0 < |s|
  {
    match el
    case Char(c) => [c]
    case Range(low, high) => [low, DASH, high]
    case Class(c) => [BACKSLASH, c]
    case Code(h, l) => [BACKSLASH, LOWER_X, h, l]
  }

  function RenderElems(elems: seq<Elem>): Text {
    if elems == [] then [] else RenderElem(elems[0]) + RenderElems(elems[1..])
  }

  function RenderAtom(a: Atom): (s: Text)
    ensures 0 < |s|
  {
    match a
    case Lit(c) => [c]
    case Any => [DOT]
    case Esc(c) => [BACKSLASH, c]
    case Hex(h, l) => [BACKSLASH, LOWER_X, h, l]
    case Set(negated, elems) => [LBRACKET] + (if negated then [CARET] else []) + RenderElems(elems) + [RBRACKET]
  }

  function RenderQuant(q: Quant): Text {
    match q
    case One => []
    case Opt => [QUESTION]
    case ZeroMore(lazy) => if lazy then [STAR, QUESTION] else [STAR]
    case OneMore(lazy) => if lazy then [PLUS, QUESTION] else [PLUS]
  }

  /** The item without its quantifier. */
  function RenderBase(it: Item): (s: Text)
    ensures 0 < |s|
    decreases it, 0
  {
    match it
    case Bol => [CARET]
    case Eol => [DOLLAR]
    case Single(a, _) => RenderAtom(a)
    case Group(alts, _) => [LPAREN] + RenderAlts(alts) + [RPAREN]
  }

  function QuantOf(it: Item): Quant {
    match it
    case Single(_, q) => q
    case Group(_, q) => q
    case _ => One
  }

  function RenderItem(it: Item): (s: Text)
    ensures 0 < |s|
    decreases it, 1
  {
    RenderBase(it) + RenderQuant(QuantOf(it))
  }

  function RenderSeq(its: seq<Item>): Text
    decreases its
  {
    if its == [] then [] else RenderItem(its[0]) + RenderSeq(its[1..])
  }

  /** Alternatives separated by `|`. */
  function RenderAlts(alts: seq<Alternative>): Text
    decreases alts
  {
    if alts == [] then []
    else if |alts| == 1 then RenderSeq(alts[0].items)
    else RenderSeq(alts[0].items) + [PIPE] + RenderAlts(alts[1..])
  }

  // ---- What an expression means ---------------------------------------------------------------

  predicate SameChar(c: Byte, fold: bool, b: Byte) {
    if fold then ToLower(c) == ToLower(b) else c == b
  }

  predicate ClassAccepts(c: Byte, b: Byte) {
    if c == 83 then !IsSpace(b)
    else if c == 115 then IsSpace(b)
    else if c == 100 then IsDigit(b)
    else if c == 98 then b == 8
    else if c == 102 then b == 12
    else if c == 110 then b == 10
    else if c == 114 then b == 13
    else if c == 116 then b == 9
    else if c == 118 then b == 11
    else c == b
  }

  predicate CodeIs(h: Byte, l: Byte, b: Byte) {
    IsHexDigit(h) && IsHexDigit(l) && b == 16 * HexDigit(h) + HexDigit(l)
  }

  predicate ElemAccepts(el: Elem, fold: bool, b: Byte) {
    match el
    case Char(c) => SameChar(c, fold, b)
    case Range(low, high) => if fold then ToLower(low) <= ToLower(b) <= ToLower(high) else low <= b <= high
    case Class(c) => ClassAccepts(c, b)
    case Code(h, l) => CodeIs(h, l, b)
  }

  /** Does the atom accept the byte? Only characters and ranges fold case. */
  predicate Accepts(a: Atom, fold: bool, b: Byte) {
    match a
    case Lit(c) => SameChar(c, fold, b)
    case Any => true
    case Esc(c) => ClassAccepts(c, b)
    case Hex(h, l) => CodeIs(h, l, b)
    case Set(negated, elems) => negated != exists k :: 0 <= k < |elems| && ElemAccepts(elems[k], fold, b)
  }

  /** `t[i..e]` is matched by the item, its quantifier disregarded. */
  ghost predicate MatchesBase(it: Item, t: Text, fold: bool, i: int, e: int)
    decreases it, 0
  {
    match it
    case Bol => i == e == 0
    case Eol => i == e == |t|
    case Single(a, _) => 0 <= i < |t| && e == i + 1 && Accepts(a, fold, t[i])
    case Group(alts, _) => exists k :: 0 <= k < |alts| && Matches(alts[k].items, t, fold, i, e)
  }

  /** `t[i..e]` is `n` consecutive matches of the item. */
  ghost predicate Iterates(it: Item, n: nat, t: Text, fold: bool, i: int, e: int)
    decreases it, 1, n
  {
    if n == 0 then i == e
    else exists k :: i <= k <= e && Iterates(it, n - 1, t, fold, i, k) && MatchesBase(it, t, fold, k, e)
  }

  ghost predicate MatchesItem(it: Item, t: Text, fold: bool, i: int, e: int)
    decreases it, 2
  {
    match QuantOf(it)
    case One => MatchesBase(it, t, fold, i, e)
    case Opt => i == e || MatchesBase(it, t, fold, i, e)
    case ZeroMore(_) => exists n: nat :: Iterates(it, n, t, fold, i, e)
    case OneMore(_) => exists n: nat :: 0 < n && Iterates(it, n, t, fold, i, e)
  }

  /** `t[i..e]` is in the language of the sequence. */
  ghost predicate Matches(its: seq<Item>, t: Text, fold: bool, i: int, e: int)
    decreases its
  {
    if its == [] then i == e
    else exists k :: i <= k <= e && MatchesItem(its[0], t, fold, i, k) && Matches(its[1..], t, fold, k, e)
  }

  // ---- The flat fragment ----------------------------------------------------------------------

  /** Atoms that are sets look one byte behind the stretch of text they are given. */
  predicate HasSet(its: seq<Item>) {
    exists k :: 0 <= k < |its| && its[k].Single? && its[k].a.Set?
  }

  predicate SetInside(it: Item) {
    it.Group? && exists k :: 0 <= k < |it.alts| && HasSet(it.alts[k].items)
  }

  /** Quantified atoms only. */
  predicate FlatSeq(its: seq<Item>) {
    forall k :: 0 <= k < |its| ==> its[k].Single? && ValidAtom(its[k].a)
  }

  predicate FlatGroup(it: Item)
    requires it.Group?
  {
    && RenderAlts(it.alts) != []
    && forall k :: 0 <= k < |it.alts| ==> FlatSeq(it.alts[k].items)
  }

  predicate HasGroup(its: seq<Item>) {
    exists k :: 0 <= k < |its| && its[k].Group?
  }

  predicate FlatItem(it: Item, first: bool) {
    match it
    case Bol => first
    case Eol => true
    case Single(a, _) => ValidAtom(a)
    case Group(_, _) => FlatGroup(it)
  }

  /** Groups are flat, a quantified group is the last one, and `^` comes first or not at all. No item follows an
      unquantified group with sets, which would be tried on ever shorter stretches of text. */
  predicate FlatTop(its: seq<Item>) {
    && (forall k :: 0 <= k < |its| ==> FlatItem(its[k], k == 0))
    && (forall k :: 0 <= k < |its| - 1 && its[k].Group? && its[k].q.One? ==> !SetInside(its[k]))
    && (forall k, l :: 0 <= k < l < |its| && its[k].Group? && !its[k].q.One? ==> !its[l].Group?)
  }

  predicate StartsWithBol(its: seq<Item>) {
    its != [] && its[0].Bol?
  }

  /** The first alternative with groups, or the last one if none has. */
  function GroupAlt(alts: seq<Alternative>): (g: nat)
    requires alts != []
    ensures g < |alts|
  {
    if |alts| == 1 || HasGroup(alts[0].items) then 0 else 1 + GroupAlt(alts[1..])
  }

  /** The sort of the branches spares the alternatives of the groups: the bars of every group divide the alternatives
      behind the one with the groups. */
  predicate BarsFit(alts: seq<Alternative>)
    requires alts != []
  {
    var its, behind := alts[GroupAlt(alts)].items, |alts| - 1 - GroupAlt(alts);
    forall k :: 0 <= k < |its| ==> GroupFits(its[k], behind)
  }

  predicate GroupFits(it: Item, behind: nat) {
    it.Group? && |it.alts| > 1 ==> behind % (|it.alts| - 1) == 0
  }

  /** A whole expression: one or more alternatives, of which only the first may start with `^`, and only one may
      contain groups. */
  predicate FlatRegex(alts: seq<Alternative>) {
    && alts != []
    && (forall k :: 0 <= k < |alts| ==> FlatTop(alts[k].items))
    && (forall k :: 0 < k < |alts| ==> !StartsWithBol(alts[k].items))
    && (forall k :: 0 <= k < |alts| && k != GroupAlt(alts) ==> !HasGroup(alts[k].items))
    && BarsFit(alts)
  }

  ghost predicate MatchesRegex(alts: seq<Alternative>, t: Text, fold: bool, i: int, e: int) {
    exists k :: 0 <= k < |alts| && Matches(alts[k].items, t, fold, i, e)
  }

  /** Where alternative `k` starts in the rendering. */
  function AltStart(alts: seq<Alternative>, k: nat): (r: nat)
    requires k < |alts|
  {
    if k == 0 then 0 else |RenderSeq(alts[0].items)| + 1 + AltStart(alts[1..], k - 1)
  }

  /** The alternatives lie side by side in the rendering, one `|` between neighbours. */
  lemma {:induction false} AltsLayout(alts: seq<Alternative>, k: nat)
    requires k < |alts|
    ensures k == 0 ==> AltStart(alts, k) == 0
    ensures AltStart(alts, k) + |RenderSeq(alts[k].items)| <= |RenderAlts(alts)|
    ensures RenderAlts(alts)[AltStart(alts, k)..AltStart(alts, k) + |RenderSeq(alts[k].items)|] ==
      RenderSeq(alts[k].items)
    ensures k + 1 < |alts| ==>
      && AltStart(alts, k + 1) == AltStart(alts, k) + |RenderSeq(alts[k].items)| + 1 <= |RenderAlts(alts)|
      && RenderAlts(alts)[AltStart(alts, k + 1) - 1] == PIPE
    ensures k + 1 == |alts| ==> AltStart(alts, k) + |RenderSeq(alts[k].items)| == |RenderAlts(alts)|
    decreases k
  {
    hide RenderSeq, RenderAlts, AltStart;
    var first, r := RenderSeq(alts[0].items), RenderAlts(alts[1..]);
    FirstAlternative(alts);
    if |alts| > 1 {
      StartBehind(alts, 1);
    }
    if k > 0 {
      var own := RenderSeq(alts[k].items);
      assert alts[1..][k - 1] == alts[k];
      AltsLayout(alts[1..], k - 1);
      StartBehind(alts, k);
      ShiftedSlice(first + [PIPE], r, AltStart(alts[1..], k - 1), |own|);
      if k + 1 < |alts| {
        StartBehind(alts, k + 1);
        ShiftedSlice(first + [PIPE], r, AltStart(alts[1..], k) - 1, 1);
      }
    }
  }

  lemma {:induction false} FirstAlternative(alts: seq<Alternative>)
    requires alts != []
    ensures AltStart(alts, 0) == 0
    ensures var first, s := RenderSeq(alts[0].items), RenderAlts(alts);
      if |alts| == 1 then s == first
      else s == (first + [PIPE]) + RenderAlts(alts[1..]) && s[..|first|] == first && s[|first|] == PIPE
  {
    hide RenderSeq;
  }

  lemma {:induction false} StartBehind(alts: seq<Alternative>, k: nat)
    requires 0 < k < |alts|
    ensures AltStart(alts, k) == |RenderSeq(alts[0].items)| + 1 + AltStart(alts[1..], k - 1)
    ensures AltStart(alts[1..], 0) == 0
  {
    hide RenderSeq;
  }

  lemma {:induction false} ShiftedSlice(a: Text, b: Text, i: nat, n: nat)
    requires i + n <= |b|
    ensures (a + b)[|a| + i..|a| + i + n] == b[i..i + n]
  {
  }
}
