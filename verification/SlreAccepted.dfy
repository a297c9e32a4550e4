/** Which patterns the scan refuses, and with which code: stated on the bytes along the walk from operation to
    operation, and on how many parentheses and bars it has met. */
module SlreAccepted {
  import opened Bytes
  import opened SlreTables
  import opened SlreScan
  import opened SlreWalk

  /** How many operations of the walk from `i` to `j` start with this byte. */
  function Count(p: Text, i: nat, j: nat, c: Byte): (n: nat)
    requires SlreWalk.Reaches(p, i, j)
    decreases j - i
  {
    if i == j then 0 else (if p[i] == c then 1 else 0) + Count(p, i + Ahead(p, i), j, c)
  }

  predicate HexDigitByte(b: Byte) {
    48 <= b <= 57 || 65 <= b <= 70 || 97 <= b <= 102
  }

  /** The backslash at `i` is followed by `x` and two digits, or by one of 22 other bytes. */
  predicate EscapeFits(p: Text, i: nat) {
    && i + 1 < |p|
    && if p[i + 1] == 120 then i + 3 < |p| && HexDigitByte(p[i + 2]) && HexDigitByte(p[i + 3])
       else p[i + 1] in {0, 36, 40, 41, 42, 43, 46, 63, 91, 92, 93, 94, 124, 83, 98, 100, 102, 110, 114, 115, 116, 118}
  }

  /** The code with which the operation at `i` is refused; 0 if it is not. */
  function Fault(p: Text, i: nat, numCaps: int): int
    requires i < |p| && SlreWalk.Reaches(p, 0, i)
  {
    if p[i] == 124 && Count(p, 0, i, 124) >= 100 then -8
    else if p[i] == 92 && !EscapeFits(p, i) then -6
    else if p[i] == 40 && Count(p, 0, i, 40) >= 99 then -9
    else if p[i] == 40 && 0 < numCaps <= Count(p, 0, i, 40) then -7
    else if p[i] == 41 && Count(p, 0, i, 41) >= Count(p, 0, i, 40) then -3
    else if p[i] == 41 && 0 < i && p[i - 1] == 40 then -1
    else 0
  }

  ghost predicate Faultless(p: Text, i: nat, numCaps: int) {
    forall j: nat :: j < i && j < |p| && SlreWalk.Reaches(p, 0, j) ==> Fault(p, j, numCaps) == 0
  }

  /** The walk comes without a fault to `j`, where it meets one, or to the end with a parenthesis left open. */
  ghost predicate RefusedAt(p: Text, j: nat, numCaps: int, code: int) {
    && SlreWalk.Reaches(p, 0, j) && Faultless(p, j, numCaps)
    && if j < |p| then Fault(p, j, numCaps) == code != 0
       else code == -3 && Count(p, 0, j, 40) != Count(p, 0, j, 41)
  }

  lemma {:induction false} CountOn(p: Text, i: nat, j: nat, c: Byte)
    requires SlreWalk.Reaches(p, i, j) && j < |p| && Ahead(p, j) > 0
    ensures SlreWalk.Reaches(p, i, j + Ahead(p, j))
    ensures Count(p, i, j + Ahead(p, j), c) == Count(p, i, j, c) + if p[j] == c then 1 else 0
    decreases j - i
  {
    hide GetOpLen;
    var k := j + Ahead(p, j);
    assert SlreWalk.Reaches(p, k, k);
    if i == j {
      assert Count(p, k, k, c) == 0;
    } else {
      CountOn(p, i + Ahead(p, i), j, c);
      ReachesMore(p, i + Ahead(p, i), j);
    }
  }

  /** What the scan remembers are these numbers. */
  predicate Counted(p: Text, i: nat, st: ScanState)
    requires SlreWalk.Reaches(p, 0, i)
  {
    && |st.brackets| == 1 + Count(p, 0, i, 40) && |st.branches| == Count(p, 0, i, 124)
    && st.depth == Count(p, 0, i, 40) - Count(p, 0, i, 41)
  }

  lemma {:induction false} OpFaults(p: Text, i: nat, st: ScanState, numCaps: int)
    requires st.WellFormed() && i < |p| && SlreWalk.Reaches(p, 0, i) && Counted(p, i, st)
    ensures var r, f := ScanOp(p, i, st, numCaps), Fault(p, i, numCaps);
      if f != 0 then r == Rejected(f)
      else
        && r.Scanned?
        && |r.state.brackets| == |st.brackets| + (if p[i] == 40 then 1 else 0)
        && |r.state.branches| == |st.branches| + (if p[i] == 124 then 1 else 0)
        && r.state.depth == st.depth + (if p[i] == 40 then 1 else 0) - (if p[i] == 41 then 1 else 0)
  {
    hide Count, GetOpLen;
  }

  lemma {:induction false} NextCounted(p: Text, i: nat, st: ScanState, st': ScanState)
    requires SlreWalk.Reaches(p, 0, i) && i < |p| && Ahead(p, i) > 0 && Counted(p, i, st)
    requires |st'.brackets| == |st.brackets| + (if p[i] == 40 then 1 else 0)
    requires |st'.branches| == |st.branches| + (if p[i] == 124 then 1 else 0)
    requires st'.depth == st.depth + (if p[i] == 40 then 1 else 0) - (if p[i] == 41 then 1 else 0)
    ensures SlreWalk.Reaches(p, 0, i + Ahead(p, i)) && Counted(p, i + Ahead(p, i), st')
  {
    hide Count, GetOpLen;
    CountOn(p, 0, i, 40);
    CountOn(p, 0, i, 41);
    CountOn(p, 0, i, 124);
  }

  /** Between an operation and the next the walk has no place. */
  lemma {:induction false} NextFaultless(p: Text, i: nat, numCaps: int)
    requires SlreWalk.Reaches(p, 0, i) && i < |p| && Ahead(p, i) > 0 && Faultless(p, i, numCaps)
    requires Fault(p, i, numCaps) == 0
    ensures Faultless(p, i + Ahead(p, i), numCaps)
  {
    hide Fault, GetOpLen;
    forall j: nat | j < i + Ahead(p, i) && j < |p| && SlreWalk.Reaches(p, 0, j) ensures Fault(p, j, numCaps) == 0 {
      WalkGoesOn(p, i, j);
    }
  }

  lemma {:induction false} ScanFaults(p: Text, i: nat, st: ScanState, numCaps: int)
    requires st.WellFormed() && SlreWalk.Reaches(p, 0, i) && Counted(p, i, st) && Faultless(p, i, numCaps)
    ensures var r := Scan(p, i, st, numCaps);
      if r.Rejected? then exists j: nat :: RefusedAt(p, j, numCaps, r.code)
      else forall j: nat, code :: i <= j ==> !RefusedAt(p, j, numCaps, code)
    decreases |p| - i
  {
    hide ScanOp, Fault, Count, Faultless, GetOpLen, Counted;
    if i >= |p| {
      EndFaults(p, i, st, numCaps);
    } else {
      OpFaults(p, i, st, numCaps);
      var r, next := ScanOp(p, i, st, numCaps), i + Ahead(p, i);
      if Fault(p, i, numCaps) != 0 {
        assert RefusedAt(p, i, numCaps, Fault(p, i, numCaps));
      } else {
        if Ahead(p, i) > 0 {
          NextCounted(p, i, st, r.state);
          NextFaultless(p, i, numCaps);
          ScanFaults(p, next, r.state, numCaps);
        }
        forall j: nat, code | i <= j && RefusedAt(p, j, numCaps, code) ensures Ahead(p, i) > 0 && next <= j {
          WalkGoesOn(p, i, j);
          assert i < j;
        }
      }
    }
  }

  lemma {:induction false} WalkGoesOn(p: Text, i: nat, j: nat)
    requires SlreWalk.Reaches(p, 0, i) && SlreWalk.Reaches(p, 0, j) && i < |p|
    ensures i < j ==> Ahead(p, i) > 0 && i + Ahead(p, i) <= j
  {
    hide GetOpLen;
    if i < j {
      OneWalk(p, 0, i, j);
      ReachesMore(p, i + Ahead(p, i), j);
    }
  }

  lemma {:induction false} EndFaults(p: Text, i: nat, st: ScanState, numCaps: int)
    requires st.WellFormed() && SlreWalk.Reaches(p, 0, i) && Counted(p, i, st) && Faultless(p, i, numCaps) && i >= |p|
    ensures Scan(p, i, st, numCaps) == if st.depth != 0 then Rejected(-3) else Scanned(st)
    ensures st.depth != 0 ==> RefusedAt(p, i, numCaps, -3)
    ensures st.depth == 0 ==> forall j: nat, code :: i <= j ==> !RefusedAt(p, j, numCaps, code)
  {
    hide Count, Faultless, GetOpLen, Fault;
    forall j: nat | i <= j && SlreWalk.Reaches(p, 0, j) ensures j == i {
      OneWalk(p, 0, i, j);
    }
  }

  /** Refusal is exact: the scan returns this code if and only if the walk meets it first. */
  lemma {:induction false} ScanRefuses(p: Text, numCaps: int, code: int)
    ensures Compile(p, numCaps) == Rejected(code) <==> exists j: nat :: RefusedAt(p, j, numCaps, code)
  {
    hide Scan, Fault, Count, GetOpLen, Faultless;
    Start(p, numCaps);
    ScanFaults(p, 0, InitialScan(p), numCaps);
    var r := Compile(p, numCaps);
    if j: nat :| RefusedAt(p, j, numCaps, code) {
      if r.Rejected? {
        var k: nat :| RefusedAt(p, k, numCaps, r.code);
        RefusedOnce(p, j, k, numCaps, code, r.code);
      }
    }
  }

  lemma {:induction false} Start(p: Text, numCaps: int)
    ensures InitialScan(p).WellFormed() && SlreWalk.Reaches(p, 0, 0) && Counted(p, 0, InitialScan(p))
    ensures Faultless(p, 0, numCaps)
  {
  }

  lemma {:induction false} RefusedOnce(p: Text, j: nat, k: nat, numCaps: int, c: int, d: int)
    requires RefusedAt(p, j, numCaps, c) && RefusedAt(p, k, numCaps, d)
    ensures c == d
  {
    hide Fault, Count, GetOpLen;
    if j < k {
      WalkEnds(p, j, k);
    } else if k < j {
      WalkEnds(p, k, j);
    }
  }

  lemma {:induction false} WalkEnds(p: Text, j: nat, k: nat)
    requires SlreWalk.Reaches(p, 0, j) && SlreWalk.Reaches(p, 0, k) && j < k
    ensures j < |p|
  {
    hide GetOpLen;
    OneWalk(p, 0, j, k);
  }
}
