/** Sequences without repetition, and singly linked chains over them: the shape of the delete list of
    sys/tdi_fw/src/conn_state.c and of the hash chains of sys/tdi_fw/src/obj_tbl.c. */
module Chains {
  ghost predicate NoDup<T>(s: seq<T>) {
    forall i, j :: 0 <= i < j < |s| ==> s[i] != s[j]
  }

  ghost function Remove<T>(s: seq<T>, e: T): (r: seq<T>)
    ensures e !in s ==> r == s
    ensures |r| <= |s|
    ensures forall x :: x in r ==> x in s
  {
    if s == [] then [] else if s[0] == e then s[1..] else [s[0]] + Remove(s[1..], e)
  }

  lemma {:induction false} NoDupFront<T>(s: seq<T>, e: T)
    requires NoDup(s) && e !in s
    ensures NoDup([e] + s)
  {
  }

  lemma {:induction false} NoDupBack<T>(s: seq<T>, e: T)
    requires NoDup(s) && e !in s
    ensures NoDup(s + [e])
  {
  }

  lemma {:induction false} NoDupTail<T>(s: seq<T>)
    requires NoDup(s) && s != []
    ensures NoDup(s[1..]) && s[0] !in s[1..]
  {
  }

  lemma {:induction false} RemoveFirst<T>(s: seq<T>, e: T, k: nat)
    requires k < |s| && s[k] == e && forall i :: 0 <= i < k ==> s[i] != e
    ensures Remove(s, e) == s[..k] + s[k + 1..]
    decreases k
  {
    if k > 0 {
      var rest := s[1..];
      assert forall i :: 0 <= i < |rest| ==> rest[i] == s[i + 1];
      RemoveFirst(rest, e, k - 1);
      assert [s[0]] + (rest[..k - 1] + rest[k..]) == s[..k] + s[k + 1..];
    }
  }

  /** Where nothing is repeated, removal takes out the one occurrence and keeps the rest in order. */
  lemma {:induction false} RemoveAt<T>(s: seq<T>, e: T, k: nat)
    requires NoDup(s) && k < |s| && s[k] == e
    ensures Remove(s, e) == s[..k] + s[k + 1..] && NoDup(Remove(s, e)) && e !in Remove(s, e)
    ensures forall x :: x in s ==> x == e || x in Remove(s, e)
  {
    hide Remove;
    RemoveFirst(s, e, k);
    var r := s[..k] + s[k + 1..];
    assert forall i :: 0 <= i < |r| ==> r[i] == s[if i < k then i else i + 1];
    forall x | x in s ensures x == e || x in r {
      var i :| 0 <= i < |s| && s[i] == x;
      if i < k { assert r[i] == x; } else if i > k { assert r[i - 1] == x; }
    }
  }

  /** From `head` on, `next` runs through the chain and ends in `nil`. */
  ghost predicate Chained<T>(head: T, c: seq<T>, next: map<T, T>, nil: T) {
    && head == (if c == [] then nil else c[0])
    && (forall i :: 0 <= i < |c| ==> c[i] in next)
    && (forall i {:trigger next[c[i]]} :: 0 <= i < |c| ==> next[c[i]] == if i + 1 < |c| then c[i + 1] else nil)
  }

  lemma {:induction false} ChainedFront<T>(head: T, c: seq<T>, next: map<T, T>, nil: T, e: T)
    requires Chained(head, c, next, nil) && e !in c
    ensures Chained(e, [e] + c, next[e := head], nil)
  {
  }

  lemma {:induction false} ChainedSame<T>(head: T, c: seq<T>, next: map<T, T>, next': map<T, T>, nil: T)
    requires Chained(head, c, next, nil) && forall x :: x in c && x in next ==> x in next' && next'[x] == next[x]
    ensures Chained(head, c, next', nil)
  {
  }

  lemma {:induction false} Apart<T>(a: seq<T>, e: T, b: seq<T>)
    requires NoDup(a + [e] + b)
    ensures e !in a && e !in b && NoDup(a + b)
  {
    var d, r := a + [e] + b, a + b;
    assert d[|a|] == e;
    assert forall i :: 0 <= i < |r| ==> r[i] == d[if i < |a| then i else i + 1];
    assert forall i :: 0 <= i < |a| ==> a[i] == d[i];
    assert forall i :: 0 <= i < |b| ==> b[i] == d[|a| + 1 + i];
  }

  /** The links after `e` has been taken out behind `a`. */
  ghost function Skipping<T>(next: map<T, T>, a: seq<T>, e: T): map<T, T>
    requires e in next
  {
    if a == [] then next else next[a[|a| - 1] := next[e]]
  }

  /** Unlinking an entry behind its predecessor leaves the chain without it. */
  lemma {:induction false} ChainedCut<T>(head: T, a: seq<T>, e: T, b: seq<T>, next: map<T, T>, nil: T)
    requires Chained(head, a + [e] + b, next, nil) && NoDup(a + [e] + b)
    ensures e in next && next[e] == if b == [] then nil else b[0]
    ensures Chained(if a == [] then next[e] else head, a + b, Skipping(next, a, e), nil)
  {
    var d, r := a + [e] + b, a + b;
    assert d[|a|] == e && (b != [] ==> d[|a| + 1] == b[0]);
    var next' := Skipping(next, a, e);
    forall i | 0 <= i < |r| ensures r[i] in next' && next'[r[i]] == if i + 1 < |r| then r[i + 1] else nil {
      CutAt(head, a, e, b, next, nil, i);
    }
    hide NoDup, Skipping;
    assert forall i {:trigger next'[r[i]]} :: 0 <= i < |r| ==> next'[r[i]] == if i + 1 < |r| then r[i + 1] else nil;
    assert (if a == [] then next[e] else head) == if r == [] then nil else r[0];
  }

  lemma {:induction false} CutAt<T>(head: T, a: seq<T>, e: T, b: seq<T>, next: map<T, T>, nil: T, i: nat)
    requires Chained(head, a + [e] + b, next, nil) && NoDup(a + [e] + b) && i < |a + b| && e in next
    ensures var r, next' := a + b, Skipping(next, a, e);
      r[i] in next' && next'[r[i]] == if i + 1 < |r| then r[i + 1] else nil
  {
    var d, r, n := a + [e] + b, a + b, |a|;
    var o := if i < n then i else i + 1;
    assert d[o] == r[i] && next[d[o]] == (if o + 1 < |d| then d[o + 1] else nil);
    assert d[n] == e && next[d[n]] == if n + 1 < |d| then d[n + 1] else nil;
    assert o + 1 < |d| && o != n - 1 ==> d[o + 1] == r[i + 1];
    assert o == n - 1 && n + 1 < |d| ==> d[n + 1] == r[n];
    assert a != [] ==> a[n - 1] == d[n - 1] && (o != n - 1 ==> d[o] != d[n - 1]);
  }
}
