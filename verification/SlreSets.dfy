/** A set as it is written: the scan steps over it, and the matcher decides exactly what it means. */
module SlreSets {
  import opened Bytes
  import opened SlreTables
  import opened SlreSyntax

  /** The text is written at `lo`. */
  predicate Stands(p: Text, lo: nat, s: Text) {
    lo + |s| <= |p| && p[lo..lo + |s|] == s
  }

  lemma {:induction false} StandsParts(p: Text, lo: nat, a: Text, b: Text)
    requires Stands(p, lo, a + b)
    ensures Stands(p, lo, a) && Stands(p, lo + |a|, b)
  {
    SplitSlice(p, lo, a, b);
  }

  lemma {:induction false} StandsByte(p: Text, lo: nat, s: Text, k: nat)
    requires Stands(p, lo, s) && k < |s|
    ensures lo + k < |p| && At(p, lo + k) == p[lo + k] == s[k]
  {
    assert p[lo..lo + |s|][k] == p[lo + k];
  }

  /** The elements stand at `lo`, and the closing bracket behind them. */
  predicate ElemsStand(p: Text, lo: nat, elems: seq<Elem>) {
    && (forall k :: 0 <= k < |elems| ==> ValidElem(elems[k]))
    && Stands(p, lo, RenderElems(elems)) && At(p, lo + |RenderElems(elems)|) == RBRACKET
  }

  lemma {:induction false} FirstElem(p: Text, lo: nat, elems: seq<Elem>)
    requires ElemsStand(p, lo, elems) && elems != []
    ensures var d := |RenderElem(elems[0])|;
      && Stands(p, lo, RenderElem(elems[0])) && ValidElem(elems[0])
      && ElemsStand(p, lo + d, elems[1..]) && |RenderElems(elems)| == d + |RenderElems(elems[1..])|
    ensures At(p, lo + |RenderElem(elems[0])|) != DASH
  {
    hide ValidElem, RenderElem, Stands;
    var rest := elems[1..];
    StandsParts(p, lo, RenderElem(elems[0]), RenderElems(rest));
    assert forall k :: 0 <= k < |rest| ==> rest[k] == elems[k + 1];
    if rest != [] {
      var next := lo + |RenderElem(elems[0])|;
      StandsParts(p, next, RenderElem(rest[0]), RenderElems(rest[1..]));
      StandsByte(p, next, RenderElem(rest[0]), 0);
      assert ValidElem(rest[0]);
      NoDash(rest[0]);
    }
  }

  lemma {:induction false} NoDash(el: Elem)
    requires ValidElem(el)
    ensures RenderElem(el)[0] != DASH
  {
  }

  // ---- The scan -----------------------------------------------------------------------------------

  /** One element is as many bytes as its operations have. */
  lemma {:induction false} ElemLength(p: Text, lo: nat, n: int, len: nat, el: Elem)
    requires ValidElem(el) && Stands(p, lo + len, RenderElem(el)) && len + |RenderElem(el)| <= n
    ensures SetLenFrom(p, lo, n, len) == SetLenFrom(p, lo, n, len + |RenderElem(el)|)
  {
    var s := RenderElem(el);
    StandsByte(p, lo + len, s, 0);
    if |s| > 1 {
      StandsByte(p, lo + len, s, 1);
    }
    if el.Range? {
      StandsByte(p, lo + len, s, 2);
      assert SetLenFrom(p, lo, n, len) == SetLenFrom(p, lo, n, len + 1) == SetLenFrom(p, lo, n, len + 2);
    }
  }

  lemma {:induction false} ElemsLength(p: Text, lo: nat, n: int, len: nat, elems: seq<Elem>)
    requires ElemsStand(p, lo + len, elems) && len + |RenderElems(elems)| <= n
    ensures SetLenFrom(p, lo, n, len) == len + |RenderElems(elems)| + 1
    decreases |elems|
  {
    hide ValidElem, RenderElem, ElemsStand, Stands, SetLenFrom;
    if elems == [] {
      SetCloses(p, lo, n, len);
    } else {
      FirstElem(p, lo + len, elems);
      ElemLength(p, lo, n, len, elems[0]);
      ElemsLength(p, lo, n, len + |RenderElem(elems[0])|, elems[1..]);
    }
  }

  lemma {:induction false} SetCloses(p: Text, lo: nat, n: int, len: nat)
    requires ElemsStand(p, lo + len, []) && len <= n
    ensures SetLenFrom(p, lo, n, len) == len + 1
  {
  }

  lemma {:induction false} SetParts(p: Text, lo: nat, a: Atom)
    requires a.Set? && ValidAtom(a) && Stands(p, lo, RenderAtom(a))
    ensures At(p, lo) == LBRACKET && (a.negated <==> At(p, lo + 1) == CARET)
    ensures var from := if a.negated then lo + 2 else lo + 1;
      && ElemsStand(p, from, a.elems) && |RenderAtom(a)| == from - lo + |RenderElems(a.elems)| + 1
  {
    hide ValidElem, RenderElem, RenderElems, Stands;
    var head: Text := [LBRACKET] + if a.negated then [CARET] else [];
    var inner := RenderElems(a.elems);
    assert RenderAtom(a) == head + (inner + [RBRACKET]);
    StandsParts(p, lo, head, inner + [RBRACKET]);
    StandsByte(p, lo, head, 0);
    StandsParts(p, lo + |head|, inner, [RBRACKET]);
    StandsByte(p, lo + |head| + |inner|, [RBRACKET], 0);
    if a.negated {
      StandsByte(p, lo, head, 1);
    } else if a.elems != [] {
      FirstElem(p, lo + 1, a.elems);
      StandsByte(p, lo + 1, RenderElem(a.elems[0]), 0);
    } else {
      NoRender();
    }
  }

  lemma {:induction false} NoRender()
    ensures RenderElems([]) == []
  {
  }

  /** The whole set is one operation. */
  lemma {:induction false} SetLength(p: Text, lo: nat, n: int, a: Atom)
    requires a.Set? && ValidAtom(a) && Stands(p, lo, RenderAtom(a)) && |RenderAtom(a)| <= n
    ensures GetOpLen(p, lo, n) == |RenderAtom(a)|
  {
    hide ValidAtom, ValidElem, RenderAtom, RenderElems, ElemsStand, Stands;
    SetParts(p, lo, a);
    if a.negated {
      ElemsLength(p, lo + 1, n - 1, 1, a.elems);
      CaretLength(p, lo + 1, n - 1);
    } else {
      ElemsLength(p, lo + 1, n - 1, 0, a.elems);
    }
  }

  lemma {:induction false} CaretLength(p: Text, lo: nat, n: int)
    requires At(p, lo) == CARET && 0 < n
    ensures SetLenFrom(p, lo, n, 0) == SetLenFrom(p, lo, n, 1)
  {
  }

  // ---- The matcher --------------------------------------------------------------------------------

  predicate SomeAccepts(elems: seq<Elem>, fold: bool, b: Byte) {
    exists k :: 0 <= k < |elems| && ElemAccepts(elems[k], fold, b)
  }

  lemma {:induction false} SomeSplit(elems: seq<Elem>, fold: bool, b: Byte)
    requires elems != []
    ensures SomeAccepts(elems, fold, b) <==> ElemAccepts(elems[0], fold, b) || SomeAccepts(elems[1..], fold, b)
  {
    hide ElemAccepts;
    var rest := elems[1..];
    assert forall k :: 0 <= k < |rest| ==> rest[k] == elems[k + 1];
    if k :| 0 <= k < |elems| && ElemAccepts(elems[k], fold, b) {
      assert k > 0 ==> ElemAccepts(rest[k - 1], fold, b);
    }
  }

  /** One element is decided as it is meant. */
  lemma {:induction false} ElemDecided(p: Text, k: nat, el: Elem, b: Byte, fold: bool)
    requires ValidElem(el) && Stands(p, k, RenderElem(el)) && At(p, k + |RenderElem(el)|) != DASH
    ensures IsRange(p, k) <==> el.Range?
    ensures el.Range? ==> (InRange(At(p, k), At(p, k + 2), b, fold) <==> ElemAccepts(el, fold, b))
    ensures !el.Range? ==>
      OpLen(p, k) == |RenderElem(el)| && (MatchOp(p, k, b, fold) == 1 <==> ElemAccepts(el, fold, b))
  {
    var s := RenderElem(el);
    forall i | 0 <= i < |s| ensures At(p, k + i) == s[i] {
      StandsByte(p, k, s, i);
    }
    assert At(p, k + 0) == s[0];
    assert |s| > 1 ==> At(p, k + 1) == s[1];
    assert |s| > 2 ==> At(p, k + 2) == s[2];
    assert |s| > 3 ==> At(p, k + 3) == s[3];
  }

  lemma {:induction false} ElemsDecided(p: Text, lo: nat, n: int, b: Byte, fold: bool, len: nat, result: int,
                                        elems: seq<Elem>)
    requires ElemsStand(p, lo + len, elems) && len + |RenderElems(elems)| <= n && result <= 1
    ensures SetScan(p, lo, n, b, fold, len, result) > 0 <==> result > 0 || SomeAccepts(elems, fold, b)
    decreases |elems|
  {
    hide ValidElem, RenderElem, ElemsStand, Stands, ElemAccepts, IsRange, InRange, MatchOp, OpLen, SomeAccepts;
    if elems == [] {
      NoElems(p, lo + len, fold, b);
    } else if result <= 0 {
      FirstElem(p, lo + len, elems);
      SomeSplit(elems, fold, b);
      ElemDecided(p, lo + len, elems[0], b, fold);
      NotClosing(p, lo + len, elems);
      var len' := len + |RenderElem(elems[0])|;
      var r := if elems[0].Range? then (if InRange(At(p, lo + len), At(p, lo + len + 2), b, fold) then 1 else 0)
               else MatchOp(p, lo + len, b, fold);
      RangeLength(elems[0]);
      assert SetScan(p, lo, n, b, fold, len, result) == SetScan(p, lo, n, b, fold, len', r);
      ElemsDecided(p, lo, n, b, fold, len', r, elems[1..]);
    }
  }

  lemma {:induction false} NoElems(p: Text, lo: nat, fold: bool, b: Byte)
    requires ElemsStand(p, lo, [])
    ensures At(p, lo) == RBRACKET && !SomeAccepts([], fold, b)
  {
  }

  lemma {:induction false} RangeLength(el: Elem)
    ensures el.Range? ==> |RenderElem(el)| == 3
  {
  }

  lemma {:induction false} NotClosing(p: Text, lo: nat, elems: seq<Elem>)
    requires ElemsStand(p, lo, elems) && elems != []
    ensures At(p, lo) != RBRACKET
  {
    FirstElem(p, lo, elems);
    StandsByte(p, lo, RenderElem(elems[0]), 0);
  }

  /** `match_set` decides exactly what the set means, wherever its region ends. */
  lemma {:induction false} SetDecided(p: Text, lo: nat, n: int, a: Atom, b: Byte, fold: bool)
    requires a.Set? && ValidAtom(a) && Stands(p, lo, RenderAtom(a)) && |RenderAtom(a)| <= n
    ensures SetResult(p, lo + 1, n - 2, b, fold) > 0 <==> Accepts(a, fold, b)
  {
    hide ValidAtom, ValidElem, RenderAtom, RenderElems, ElemsStand, Stands, SetScan, ElemAccepts;
    SetParts(p, lo, a);
    assert Accepts(a, fold, b) <==> a.negated != SomeAccepts(a.elems, fold, b);
    if a.negated {
      ElemsDecided(p, lo + 2, n - 3, b, fold, 0, -1, a.elems);
    } else {
      ElemsDecided(p, lo + 1, n - 2, b, fold, 0, -1, a.elems);
    }
  }
}
