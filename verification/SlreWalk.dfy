/** A pattern as a walk from operation to operation, and when the scan along it comes to an end: stated on
    the bytes of the pattern. */
module SlreWalk {
  import opened Bytes
  import opened SlreTables
  import opened SlreScan

  /** How far the scan steps from here. */
  function Ahead(p: Text, i: nat): nat {
    GetOpLen(p, i, |p| - i)
  }

  /** Where the elements of a set stop: at its closing bracket, or at or behind the end of the pattern. */
  function SetEnd(p: Text, i: nat): (r: nat)
    ensures i <= r && (r < |p| ==> p[r] == RBRACKET)
    decreases |p| - i
  {
    if i >= |p| || p[i] == RBRACKET then i else SetEnd(p, i + OpLen(p, i))
  }

  /** A set that does not close, and whose last escape runs over the end of the pattern. */
  predicate CutSet(p: Text, i: nat) {
    i < |p| && p[i] == LBRACKET && SetEnd(p, i + 1) > |p|
  }

  /** No operation of the walk is such a set. */
  predicate SetsEnd(p: Text, i: nat)
    decreases |p| - i
  {
    i >= |p| || (!CutSet(p, i) && (Ahead(p, i) > 0 ==> SetsEnd(p, i + Ahead(p, i))))
  }

  lemma {:induction false} SetLenIs(p: Text, lo: nat, len: nat)
    requires lo <= |p|
    ensures SetLenFrom(p, lo, |p| - lo, len) == var r := SetEnd(p, lo + len); if r <= |p| then r - lo + 1 else -1
    decreases |p| - lo - len
  {
    if lo + len < |p| && p[lo + len] != RBRACKET {
      SetLenIs(p, lo, len + OpLen(p, lo + len));
    }
  }

  /** The scan stands still on a cut set and on nothing else. */
  lemma {:induction false} StandsStill(p: Text, i: nat)
    requires i < |p|
    ensures Ahead(p, i) == 0 <==> CutSet(p, i)
    ensures p[i] == LBRACKET && !CutSet(p, i) ==> Ahead(p, i) == SetEnd(p, i + 1) + 1 - i
  {
    if p[i] == LBRACKET {
      SetLenIs(p, i + 1, 0);
    }
  }

  lemma {:induction false} ScanEndsFrom(p: Text, i: nat, st: ScanState, numCaps: int)
    requires st.WellFormed()
    ensures Scan(p, i, st, numCaps).Diverges? <==> !SetsEnd(p, i) && !Scan(p, i, st, numCaps).Rejected?
    decreases |p| - i
  {
    if i < |p| {
      StandsStill(p, i);
      var r := ScanOp(p, i, st, numCaps);
      if r.Scanned? && Ahead(p, i) > 0 {
        ScanEndsFrom(p, i + Ahead(p, i), r.state, numCaps);
      }
    }
  }

  /** Termination: the scan of a pattern without a cut set ends; with one it does not, unless an operation
      before it is rejected. */
  lemma {:induction false} ScanEnds(p: Text, numCaps: int)
    ensures Compile(p, numCaps).Diverges? <==> !SetsEnd(p, 0) && !Compile(p, numCaps).Rejected?
  {
    ScanEndsFrom(p, 0, InitialScan(p), numCaps);
  }

  /** Every escape of the pattern has its bytes. */
  predicate EscapesFit(p: Text) {
    forall k :: 0 <= k < |p| ==> k + OpLen(p, k) <= |p|
  }

  lemma {:induction false} FittingSetEnds(p: Text, i: nat)
    requires EscapesFit(p) && i <= |p|
    ensures SetEnd(p, i) <= |p|
    decreases |p| - i
  {
    if i < |p| && p[i] != RBRACKET {
      FittingSetEnds(p, i + OpLen(p, i));
    }
  }

  /** Where no escape is cut short, no set is. */
  lemma {:induction false} FittingEnds(p: Text, i: nat)
    requires EscapesFit(p)
    ensures SetsEnd(p, i)
    decreases |p| - i
  {
    if i < |p| {
      FittingSetEnds(p, i + 1);
      if Ahead(p, i) > 0 {
        FittingEnds(p, i + Ahead(p, i));
      }
    }
  }

  // ---- Regions ------------------------------------------------------------------------------------

  /** The walk from `i` comes exactly to `j`. */
  predicate Reaches(p: Text, i: nat, j: nat)
    decreases j - i
  {
    i == j || (i < j && i < |p| && Ahead(p, i) > 0 && Reaches(p, i + Ahead(p, i), j))
  }

  lemma {:induction false} ReachesOn(p: Text, i: nat, j: nat, k: nat)
    requires Reaches(p, i, j) && Reaches(p, j, k)
    ensures Reaches(p, i, k)
    decreases j - i
  {
    if i < j {
      ReachesOn(p, i + Ahead(p, i), j, k);
      ReachesMore(p, j, k);
    }
  }

  lemma {:induction false} ReachesMore(p: Text, j: nat, k: nat)
    requires Reaches(p, j, k)
    ensures j <= k
  {
  }

  /** There is one walk: of two places on it the first reaches the second. */
  lemma {:induction false} OneWalk(p: Text, i: nat, a: nat, b: nat)
    requires Reaches(p, i, a) && Reaches(p, i, b) && a <= b
    ensures Reaches(p, a, b)
    decreases a - i
  {
    if i < a {
      ReachesMore(p, i + Ahead(p, i), a);
      OneWalk(p, i + Ahead(p, i), a, b);
    }
  }

  lemma {:induction false} SetEndLocal(p: Text, lo: nat, n: nat, len: nat)
    requires lo + n <= |p| && SetEnd(p, lo + len) < lo + n
    ensures SetLenFrom(p, lo, n, len) == SetEnd(p, lo + len) - lo + 1
    decreases n - len
  {
    if p[lo + len] != RBRACKET {
      assert SetEnd(p, lo + len) == SetEnd(p, lo + len + OpLen(p, lo + len));
      SetEndLocal(p, lo, n, len + OpLen(p, lo + len));
    }
  }

  /** In a region that its walk does not leave, the matcher sees operations as long as the scan does. */
  lemma {:induction false} SameLength(p: Text, i: nat, n: nat)
    requires 0 < n && i + n <= |p| && (i + Ahead(p, i) <= i + n || i + n == |p|) && Ahead(p, i) > 0
    ensures GetOpLen(p, i, n) == Ahead(p, i)
  {
    if p[i] == LBRACKET && i + n < |p| {
      StandsStill(p, i);
      SetEndLocal(p, i + 1, n - 1, 0);
    }
  }
}
