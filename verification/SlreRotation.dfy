/** What the exchange sort of sys/slre/slre.c does to equal branches: those of each bracket come out rotated by the
    number of branches of lower brackets behind them. */
module SlreRotation {
  import opened SlreTables
  import opened SlreScan

  ghost predicate AllOf(s: seq<Branch>, k: int) {
    forall j :: 0 <= j < |s| ==> s[j].bracketIndex == k
  }

  /** The first branch goes to the end, `n` times over. */
  function Rotated(g: seq<Branch>, n: nat): (r: seq<Branch>)
    ensures |r| == |g|
    decreases n
  {
    if n == 0 || g == [] then g else Rotated(g[1..] + [g[0]], n - 1)
  }

  lemma {:induction false} RotatedBy(g: seq<Branch>, n: nat)
    requires g != []
    ensures Rotated(g, n) == g[n % |g|..] + g[..n % |g|]
    decreases n
  {
    if n > 0 {
      var g', r := g[1..] + [g[0]], (n - 1) % |g|;
      RotatedBy(g', n - 1);
      NextRemainder(n, |g|);
      if r + 1 < |g| {
        assert g'[r..] == g[r + 1..] + [g[0]] && g'[..r] == g[1..r + 1];
        assert g[..r + 1] == [g[0]] + g[1..r + 1];
      } else {
        assert g'[r..] == [g[0]] && g'[..r] == g[1..];
        assert g[0..] + g[..0] == g;
      }
    }
  }

  lemma {:induction false} NextRemainder(n: nat, b: nat)
    requires 0 < n && 0 < b
    ensures n % b == if (n - 1) % b + 1 < b then (n - 1) % b + 1 else 0
  {
    var q, r := (n - 1) / b, (n - 1) % b;
    if r + 1 < b {
      SameRemainder(n / b, n % b, q, r + 1, b);
    } else {
      assert q * b + b == (q + 1) * b;
      SameRemainder(n / b, n % b, q + 1, 0, b);
    }
  }

  lemma {:induction false} SameRemainder(x: int, m: int, q: int, r: int, b: int)
    requires x * b + m == q * b + r && 0 <= m < b && 0 <= r < b
    ensures m == r
  {
    assert x * b == q * b + (x - q) * b && q * b == x * b + (q - x) * b;
    if x > q {
      Multiple(x - q, b);
    } else if x < q {
      Multiple(q - x, b);
    }
  }

  lemma {:induction false} Multiple(d: nat, b: nat)
    requires 0 < d
    ensures b <= d * b
    decreases d
  {
    if d > 1 {
      Multiple(d - 1, b);
      assert d * b == (d - 1) * b + b;
    }
  }

  // ---- One bracket's branches ---------------------------------------------------------------------

  /** The branches of bracket `k`, in order. */
  function Of(s: seq<Branch>, k: int): (r: seq<Branch>)
    ensures AllOf(r, k)
  {
    if s == [] then [] else (if s[0].bracketIndex == k then [s[0]] else []) + Of(s[1..], k)
  }

  /** The number of branches of lower brackets. */
  function Lower(s: seq<Branch>, k: int): nat {
    if s == [] then 0 else (if s[0].bracketIndex < k then 1 else 0) + Lower(s[1..], k)
  }

  /** No branch of bracket `k` stands behind one of a lower bracket. */
  ghost predicate Leading(s: seq<Branch>, k: int)
    decreases |s|
  {
    s == [] || ((s[0].bracketIndex < k ==> Of(s[1..], k) == []) && Leading(s[1..], k))
  }

  lemma {:induction false} OfJoined(a: seq<Branch>, b: seq<Branch>, k: int)
    ensures Of(a + b, k) == Of(a, k) + Of(b, k) && Lower(a + b, k) == Lower(a, k) + Lower(b, k)
    decreases |a|
  {
    if a == [] {
      assert a + b == b && [] + Of(b, k) == Of(b, k);
    } else {
      assert (a + b)[1..] == a[1..] + b;
      OfJoined(a[1..], b, k);
    }
  }

  lemma {:induction false} OfFront(x: Branch, s: seq<Branch>, k: int)
    ensures Of([x] + s, k) == (if x.bracketIndex == k then [x] else []) + Of(s, k)
    ensures Lower([x] + s, k) == (if x.bracketIndex < k then 1 else 0) + Lower(s, k)
    ensures Leading([x] + s, k) <==> (x.bracketIndex < k ==> Of(s, k) == []) && Leading(s, k)
  {
    assert ([x] + s)[1..] == s;
  }

  lemma {:induction false} OfAll(s: seq<Branch>, j: int, k: int)
    requires AllOf(s, j)
    ensures Of(s, k) == (if j == k then s else []) && Lower(s, k) == if j < k then |s| else 0
    decreases |s|
  {
    if s != [] {
      OfAll(s[1..], j, k);
      assert [s[0]] + s[1..] == s;
    }
  }

  /** Without branches of the bracket, or without lower ones, none stands behind a lower one. */
  lemma {:induction false} EitherLeads(s: seq<Branch>, k: int)
    requires Of(s, k) == [] || Lower(s, k) == 0
    ensures Leading(s, k)
    decreases |s|
  {
    if s != [] {
      EitherLeads(s[1..], k);
    }
  }

  lemma {:induction false} LeadsJoined(a: seq<Branch>, b: seq<Branch>, k: int)
    requires Lower(a, k) == 0 && Of(b, k) == []
    ensures Leading(a + b, k)
    decreases |a|
  {
    if a == [] {
      assert a + b == b;
      EitherLeads(b, k);
    } else {
      assert (a + b)[1..] == a[1..] + b;
      LeadsJoined(a[1..], b, k);
    }
  }

  // ---- One pass, branch by branch -----------------------------------------------------------------

  datatype Pulled = Pulled(least: Branch, rest: seq<Branch>)

  /** The pass with `x` in hand: it is laid down for every smaller branch met. */
  function Pull(x: Branch, s: seq<Branch>): (r: Pulled)
    ensures |r.rest| == |s|
    decreases |s|
  {
    if s == [] then Pulled(x, [])
    else if x.bracketIndex > s[0].bracketIndex then
      var r := Pull(s[0], s[1..]); Pulled(r.least, [x] + r.rest)
    else
      var r := Pull(x, s[1..]); Pulled(r.least, [s[0]] + r.rest)
  }

  lemma {:induction false} PassPulls(s: seq<Branch>, i: nat, j: nat)
    requires i < j <= |s|
    ensures var r := Pull(s[i], s[j..]); InnerPass(s, i, j) == s[..i] + [r.least] + s[i + 1..j] + r.rest
    decreases |s| - j
  {
    if j == |s| {
      assert s[..i] + [s[i]] + s[i + 1..j] + [] == s;
    } else {
      var s' := Exchange(s, i, j);
      PassPulls(s', i, j + 1);
      var x, y := s'[i], s'[j];
      ExchangeParts(s, i, j);
      var q := Pull(x, s[j..][1..]);
      assert Pull(s[i], s[j..]) == Pulled(q.least, [y] + q.rest);
      Together(s[..i] + [q.least], s[i + 1..j], [y], q.rest);
    }
  }

  lemma {:induction false} ExchangeParts(s: seq<Branch>, i: nat, j: nat)
    requires i < j < |s|
    ensures var s' := Exchange(s, i, j);
      && s[j..][0] == s[j] && s'[j + 1..] == s[j..][1..] && s'[..i] == s[..i]
      && s'[i + 1..j + 1] == s[i + 1..j] + [s'[j]]
  {
  }

  lemma {:induction false} Together(a: seq<Branch>, b: seq<Branch>, c: seq<Branch>, d: seq<Branch>)
    ensures a + (b + c) + d == a + b + (c + d)
  {
  }

  /** The sort of what is left, pass after pass. */
  function Drawn(s: seq<Branch>): (r: seq<Branch>)
    decreases |s|
  {
    if s == [] then [] else var q := Pull(s[0], s[1..]); [q.least] + Drawn(q.rest)
  }

  lemma {:induction false} SortDraws(s: seq<Branch>, i: nat)
    requires i <= |s|
    ensures SortFrom(s, i) == s[..i] + Drawn(s[i..])
    decreases |s| - i
  {
    hide InnerPass, Pull, SortFrom, Drawn;
    if i == |s| {
      DrawsNothing(s);
    } else {
      var q, head := Pull(s[i], s[i + 1..]), s[..i];
      PassPulls(s, i, i + 1);
      SortStep(s, i);
      assert s[i + 1..i + 1] == [];
      DrawsOne(s, i, head, q.least, q.rest);
      SortDraws(InnerPass(s, i, i + 1), i + 1);
    }
  }

  lemma {:induction false} DrawsNothing(s: seq<Branch>)
    ensures SortFrom(s, |s|) == s[..|s|] + Drawn(s[|s|..])
  {
  }

  lemma {:induction false} SortStep(s: seq<Branch>, i: nat)
    requires i < |s|
    ensures SortFrom(s, i) == SortFrom(InnerPass(s, i, i + 1), i + 1)
  {
  }

  lemma {:induction false} DrawsOne(s: seq<Branch>, i: nat, head: seq<Branch>, x: Branch, rest: seq<Branch>)
    requires i < |s| && head == s[..i] && Pull(s[i], s[i + 1..]) == Pulled(x, rest)
    ensures var s' := head + [x] + [] + rest; s'[..i + 1] == head + [x] && s'[i + 1..] == rest
    ensures head + [x] + Drawn(rest) == head + Drawn(s[i..])
  {
    hide Pull;
    assert s[i..][0] == s[i] && s[i..][1..] == s[i + 1..];
    assert Drawn(s[i..]) == [x] + Drawn(rest);
  }

  // ---- What a pass does to one bracket's branches -------------------------------------------------

  /** A branch of a lower bracket in hand: only lower ones change hands. */
  lemma {:induction false} PullLower(x: Branch, s: seq<Branch>, k: int)
    requires x.bracketIndex < k
    ensures var r := Pull(x, s);
      && r.least.bracketIndex < k && Of(r.rest, k) == Of(s, k) && Lower(r.rest, k) == Lower(s, k)
      && (Leading(s, k) ==> Leading(r.rest, k))
      && forall j :: 0 <= j < |s| ==> (r.rest[j].bracketIndex < k <==> s[j].bracketIndex < k)
    decreases |s|
  {
    if s != [] {
      var y := if x.bracketIndex > s[0].bracketIndex then s[0] else x;
      PullLower(y, s[1..], k);
      OfFront(if x.bracketIndex > s[0].bracketIndex then x else s[0], Pull(y, s[1..]).rest, k);
    }
  }

  /** One of the bracket itself: it goes behind the others, if there is a lower one to come to the front. */
  lemma {:induction false} PullSame(x: Branch, s: seq<Branch>, k: int)
    requires x.bracketIndex == k && Leading(s, k)
    ensures var r := Pull(x, s);
      if Lower(s, k) == 0 then r == Pulled(x, s)
      else
        && r.least.bracketIndex < k && Of(r.rest, k) == Of(s, k) + [x]
        && Lower(r.rest, k) == Lower(s, k) - 1 && Leading(r.rest, k)
    decreases |s|
  {
    if s != [] {
      if s[0].bracketIndex < k {
        PullLower(s[0], s[1..], k);
        OfFront(x, Pull(s[0], s[1..]).rest, k);
        assert [x] + [] == [] + [x];
      } else {
        PullSame(x, s[1..], k);
        var r := Pull(x, s[1..]).rest;
        OfFront(s[0], r, k);
        assert [s[0]] + s[1..] == s;
        var own: seq<Branch> := if s[0].bracketIndex == k then [s[0]] else [];
        assert own + (Of(s[1..], k) + [x]) == (own + Of(s[1..], k)) + [x];
      }
    }
  }

  /** One of a higher bracket: the first of the bracket is taken up on the way. */
  lemma {:induction false} PullHigher(x: Branch, s: seq<Branch>, k: int)
    requires x.bracketIndex > k && Leading(s, k)
    ensures var r, own := Pull(x, s), Of(s, k);
      if Lower(s, k) > 0 then
        && r.least.bracketIndex < k && Lower(r.rest, k) == Lower(s, k) - 1 && Leading(r.rest, k)
        && Of(r.rest, k) == if own == [] then [] else own[1..] + [own[0]]
      else
        && Lower(r.rest, k) == 0
        && if own == [] then r.least.bracketIndex > k && Of(r.rest, k) == []
           else r.least == own[0] && Of(r.rest, k) == own[1..]
    decreases |s|
  {
    if s != [] {
      var c := s[0].bracketIndex;
      if c < k {
        PullLower(s[0], s[1..], k);
        OfFront(x, Pull(s[0], s[1..]).rest, k);
      } else if c == k {
        PullSame(s[0], s[1..], k);
        OfFront(x, Pull(s[0], s[1..]).rest, k);
        assert ([s[0]] + Of(s[1..], k))[1..] == Of(s[1..], k);
      } else {
        var y := if x.bracketIndex > c then s[0] else x;
        PullHigher(y, s[1..], k);
        OfFront(if x.bracketIndex > c then x else s[0], Pull(y, s[1..]).rest, k);
        assert [] + Of(s[1..], k) == Of(s[1..], k);
      }
    }
  }

  // ---- The sort -----------------------------------------------------------------------------------

  ghost predicate Below(s: seq<Branch>, k: int) {
    forall j :: 0 <= j < |s| ==> s[j].bracketIndex < k
  }

  lemma {:induction false} BelowNone(s: seq<Branch>, k: int)
    requires Below(s, k)
    ensures Of(s, k) == [] && Lower(s, k) == |s|
    decreases |s|
  {
    if s != [] {
      BelowNone(s[1..], k);
    }
  }

  /** Behind branches of lower brackets stand those of bracket `k`, and then, among higher ones, the lower ones that
      still have to come to the front: each of them rotates the bracket's branches once. */
  lemma {:induction false} DrawnRotates(pre: seq<Branch>, s: seq<Branch>, k: int)
    requires Below(pre, k) && Leading(s, k)
    ensures Of(Drawn(pre + s), k) == Rotated(Of(s, k), Lower(s, k))
    decreases |pre| + |s|
  {
    hide Leading, Pull;
    if pre != [] {
      DrawnPast(pre, s, k);
    } else if s != [] {
      assert pre + s == s;
      DrawnFront(s, k);
    } else {
      assert pre + s == [];
    }
  }

  lemma {:induction false} DrawnPast(pre: seq<Branch>, s: seq<Branch>, k: int)
    requires Below(pre, k) && Leading(s, k) && pre != []
    ensures Of(Drawn(pre + s), k) == Rotated(Of(s, k), Lower(s, k))
    decreases |pre| + |s|, 0
  {
    hide Leading, Of, Lower, Pull, Rotated;
    var w := pre[1..] + s;
    assert (pre + s)[0] == pre[0] && (pre + s)[1..] == w;
    var q := Pull(pre[0], w);
    PullParts(pre[0], pre[1..], s, k);
    var n := |pre| - 1;
    assert q.rest == q.rest[..n] + q.rest[n..];
    DrawnRotates(q.rest[..n], q.rest[n..], k);
    OfFront(q.least, Drawn(q.rest), k);
    assert [] + Of(Drawn(q.rest), k) == Of(Drawn(q.rest), k);
  }

  lemma {:induction false} PullParts(x: Branch, pre: seq<Branch>, s: seq<Branch>, k: int)
    requires x.bracketIndex < k && Below(pre, k) && Leading(s, k)
    ensures var r := Pull(x, pre + s);
      && r.least.bracketIndex < k && Below(r.rest[..|pre|], k)
      && Of(r.rest[|pre|..], k) == Of(s, k) && Lower(r.rest[|pre|..], k) == Lower(s, k) && Leading(r.rest[|pre|..], k)
    decreases |pre|
  {
    hide Of, Lower, Leading;
    if pre == [] {
      assert pre + s == s;
      PullLower(x, s, k);
      var r := Pull(x, s);
      assert r.rest[0..] == r.rest;
    } else {
      var w := pre + s;
      assert w[0] == pre[0] && w[1..] == pre[1..] + s;
      var y := if x.bracketIndex > w[0].bracketIndex then w[0] else x;
      var z := if x.bracketIndex > w[0].bracketIndex then x else w[0];
      PullParts(y, pre[1..], s, k);
      var r, q := Pull(x, w), Pull(y, w[1..]);
      assert r.rest == [z] + q.rest;
      assert r.rest[|pre|..] == q.rest[|pre| - 1..] && r.rest[..|pre|] == [z] + q.rest[..|pre| - 1];
    }
  }

  lemma {:induction false} DrawnFront(s: seq<Branch>, k: int)
    requires Leading(s, k) && s != []
    ensures Of(Drawn(s), k) == Rotated(Of(s, k), Lower(s, k))
    decreases |s|, 0
  {
    hide Leading, Pull, Of, Lower, Rotated;
    var x, rest := s[0], s[1..];
    var q, own := Pull(x, rest), Of(rest, k);
    assert s == [x] + rest;
    OfFront(x, rest, k);
    OfFront(q.least, Drawn(q.rest), k);
    assert [] + q.rest == q.rest && [] + own == own && [] + Of(Drawn(q.rest), k) == Of(Drawn(q.rest), k);
    if x.bracketIndex < k {
      PullLower(x, rest, k);
      DrawnRotates([], q.rest, k);
      NoRotation([], Lower(s, k));
      NoRotation([], Lower(q.rest, k));
    } else if x.bracketIndex == k {
      PullSame(x, rest, k);
      DrawnRotates([], q.rest, k);
      RotatesOnce(x, own, Lower(rest, k));
    } else {
      PullHigher(x, rest, k);
      if Lower(rest, k) == 0 {
        EitherLeads(q.rest, k);
      }
      DrawnRotates([], q.rest, k);
      if own != [] {
        assert own == [own[0]] + own[1..];
        RotatesOnce(own[0], own[1..], Lower(rest, k));
      } else {
        NoRotation([], Lower(s, k));
        NoRotation([], Lower(q.rest, k));
      }
    }
  }

  lemma {:induction false} RotatesOnce(x: Branch, s: seq<Branch>, n: nat)
    ensures Rotated([x] + s, n) == if n == 0 then [x] + s else Rotated(s + [x], n - 1)
    ensures Rotated(s, 0) == s
  {
    assert ([x] + s)[1..] == s;
  }

  lemma {:induction false} NoRotation(g: seq<Branch>, n: nat)
    requires g == [] || n == 0
    ensures Rotated(g, n) == g
  {
  }

  /** The sort of any branches in which, behind a stretch of lower ones, no branch of bracket `k` follows a lower
        one. */
  lemma {:induction false} SortRotates(pre: seq<Branch>, s: seq<Branch>, k: int)
    requires Below(pre, k) && Leading(s, k)
    ensures Of(SortFrom(pre + s, 0), k) == Rotated(Of(s, k), Lower(s, k)) && Of(pre + s, k) == Of(s, k)
  {
    hide SortFrom, Drawn, Leading;
    SortDraws(pre + s, 0);
    assert (pre + s)[0..] == pre + s && (pre + s)[..0] + Drawn(pre + s) == Drawn(pre + s);
    DrawnRotates(pre, s, k);
    OfJoined(pre, s, k);
    BelowNone(pre, k);
    assert [] + Of(s, k) == Of(s, k);
  }

  /** So bracket `k` keeps the order of its branches, as it has to, if and only if it has none or their number divides
      the number of lower ones behind them. */
  lemma {:induction false} OrderKept(pre: seq<Branch>, s: seq<Branch>, k: int)
    requires Below(pre, k) && Leading(s, k)
    requires var own := Of(s, k); forall x, y :: 0 <= x < y < |own| ==> own[x] != own[y]
    ensures Of(SortFrom(pre + s, 0), k) == Of(pre + s, k) <==> Of(s, k) == [] || Lower(s, k) % |Of(s, k)| == 0
  {
    hide SortFrom, Leading, Of, Lower, Rotated;
    SortRotates(pre, s, k);
    RotatedKept(Of(s, k), Lower(s, k));
  }

  lemma {:induction false} RotatedKept(g: seq<Branch>, n: nat)
    requires forall x, y :: 0 <= x < y < |g| ==> g[x] != g[y]
    ensures Rotated(g, n) == g <==> g == [] || n % |g| == 0
  {
    if g == [] {
      NoRotation(g, n);
    } else {
      RotatedBy(g, n);
      var d := n % |g|;
      if d == 0 {
        assert g[0..] + g[..0] == g;
      } else {
        assert (g[d..] + g[..d])[0] == g[d];
      }
    }
  }

  /** Branches in order of their brackets are determined by what they hold of each bracket. */
  lemma {:induction false} SortedByBrackets(a: seq<Branch>, b: seq<Branch>)
    requires Sorted(a) && Sorted(b) && forall k :: Of(a, k) == Of(b, k)
    ensures a == b
    decreases |a| + |b|
  {
    if a == [] {
      NoneOfAny(b);
    } else if b == [] {
      NoneOfAny(a);
    } else {
      FirstBracket(a, b);
      FirstBracket(b, a);
      var k := a[0].bracketIndex;
      assert Of(a, k)[0] == a[0] && Of(b, k)[0] == b[0];
      forall j ensures Of(a[1..], j) == Of(b[1..], j) {
        assert Of(a, j) == Of(b, j);
        if j == k {
          assert Of(a[1..], j) == Of(a, j)[1..] && Of(b[1..], j) == Of(b, j)[1..];
        } else {
          assert [] + Of(a[1..], j) == Of(a[1..], j) && [] + Of(b[1..], j) == Of(b[1..], j);
        }
      }
      assert Sorted(a[1..]) && Sorted(b[1..]);
      SortedByBrackets(a[1..], b[1..]);
      assert a == [a[0]] + a[1..] && b == [b[0]] + b[1..];
    }
  }

  lemma {:induction false} NoneOfAny(s: seq<Branch>)
    requires forall k :: Of(s, k) == []
    ensures s == []
  {
    assert s != [] ==> Of(s, s[0].bracketIndex) != [];
  }

  lemma {:induction false} FirstBracket(a: seq<Branch>, b: seq<Branch>)
    requires a != [] && b != [] && Sorted(b) && Of(a, a[0].bracketIndex) == Of(b, a[0].bracketIndex)
    ensures b[0].bracketIndex <= a[0].bracketIndex
  {
    assert a[0] in Of(a, a[0].bracketIndex);
    OfMember(b, a[0].bracketIndex, a[0]);
  }

  lemma {:induction false} OfMember(s: seq<Branch>, k: int, x: Branch)
    requires x in Of(s, k)
    ensures x in s && x.bracketIndex == k
    decreases |s|
  {
    if s != [] && !(s[0].bracketIndex == k && x == s[0]) {
      OfMember(s[1..], k, x);
    }
  }
}
