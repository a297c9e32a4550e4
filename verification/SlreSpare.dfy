/** A pattern and a text on which the verdict of the engine is up to memory that was never set. */
module SlreSpare {
  import opened Bytes
  import opened SlreTables
  import opened SlreScan
  import opened SlreMatcher
  import opened SlreRuns
  import E = SlreEngine

  const A: Byte := 97
  const B: Byte := 98
  const C: Byte := 99
  const X: Byte := 120

  /** `^(a)?(b\(c)xx\(?`: behind the option the bracket number lags one group behind, so that the second group is
      given the first one's length. What follows is read from inside it, where the escaped parenthesis passes
      for a group, and so does the last one, for which there is no bracket. */
  const PATTERN: Text :=
    [CARET, LPAREN, A, RPAREN, QUESTION, LPAREN, B, BACKSLASH, LPAREN, C, RPAREN, X, X, BACKSLASH, LPAREN, QUESTION]

  const TEXT: Text := [A, A, B, LPAREN, C]

  const BRACKETS: seq<Bracket> := [Bracket(0, 16, 0, 0), Bracket(2, 1, 0, 0), Bracket(6, 4, 0, 0)]

  function Run(spare: int): Env {
    Env(PATTERN, TEXT, false, Tables(BRACKETS, [], spare))
  }

  /** With -1 behind the tables the whole text matches, with 0 nothing does. */
  lemma {:induction false} SpareDecides(numCaps: int)
    requires numCaps <= 0
    ensures E.MatchResult(PATTERN, TEXT, numCaps, false, -1) == Some(|TEXT|)
    ensures E.MatchResult(PATTERN, TEXT, numCaps, false, 0) == Some(NO_MATCH)
  {
    hide Doh, Setup, Scan;
    Scanning(numCaps);
    TablesAre(-1);
    TablesAre(0);
    Matches();
    Fails();
    assert |PATTERN| == 16;
  }

  const S0 := ScanState([Bracket(0, 16, 0, 0)], [], 0)
  const S2 := ScanState([Bracket(0, 16, 0, 0), Bracket(2, 1, 0, 0)], [], 0)

  lemma {:induction false} Scanning(numCaps: int)
    requires numCaps <= 0
    ensures Compile(PATTERN, numCaps) == Scanned(ScanState(BRACKETS, [], 0))
  {
    hide Scan;
    FirstGroup(numCaps);
    SecondGroup(numCaps);
    Rest(numCaps);
  }

  lemma {:induction false} FirstGroup(numCaps: int)
    requires numCaps <= 0
    ensures Compile(PATTERN, numCaps) == Scan(PATTERN, 5, S2, numCaps)
  {
    hide Scan;
    var p, s1 := PATTERN, ScanState([Bracket(0, 16, 0, 0), Bracket(2, -1, 0, 0)], [], 1);
    ScansOver(p, 0, S0, numCaps);
    ScansOpening(p, 1, S0, numCaps);
    assert S0.brackets + [Bracket(2, -1, 0, 0)] == s1.brackets;
    ScansOver(p, 2, s1, numCaps);
    ScansClosing(p, 3, s1, numCaps);
    assert s1.brackets[..1] + [Bracket(2, 1, 0, 0)] == S2.brackets;
    ScansOver(p, 4, S2, numCaps);
  }

  lemma {:induction false} SecondGroup(numCaps: int)
    requires numCaps <= 0
    ensures Scan(PATTERN, 5, S2, numCaps) == Scan(PATTERN, 11, ScanState(BRACKETS, [], 0), numCaps)
  {
    hide Scan;
    var p, s3 := PATTERN, ScanState([Bracket(0, 16, 0, 0), Bracket(2, 1, 0, 0), Bracket(6, -1, 0, 0)], [], 1);
    ScansOpening(p, 5, S2, numCaps);
    assert S2.brackets + [Bracket(6, -1, 0, 0)] == s3.brackets;
    ScansOver(p, 6, s3, numCaps);
    ScansOver(p, 7, s3, numCaps);
    ScansOver(p, 9, s3, numCaps);
    ScansClosing(p, 10, s3, numCaps);
    assert s3.brackets[..2] + [Bracket(6, 4, 0, 0)] == BRACKETS;
  }

  lemma {:induction false} Rest(numCaps: int)
    ensures Scan(PATTERN, 11, ScanState(BRACKETS, [], 0), numCaps) == Scanned(ScanState(BRACKETS, [], 0))
  {
    hide Scan;
    var p, s4 := PATTERN, ScanState(BRACKETS, [], 0);
    ScansOver(p, 11, s4, numCaps);
    ScansOver(p, 12, s4, numCaps);
    ScansOver(p, 13, s4, numCaps);
    ScansOver(p, 15, s4, numCaps);
    ScansEnd(p, s4, numCaps);
  }

  lemma {:induction false} TablesAre(spare: int)
    ensures Setup(ScanState(BRACKETS, [], 0), spare) == Tables(BRACKETS, [], spare)
  {
    var bs := BRACKETS;
    assert forall k :: 0 <= k < 3 ==> bs[k := bs[k].(branches := 0, numBranches := 0)] == bs;
    assert SliceFrom(bs, [], 2, 0) == SliceFrom(bs, [], 3, 0) == bs;
    assert SliceFrom(bs, [], 0, 0) == SliceFrom(bs, [], 1, 0) == SliceFrom(bs, [], 2, 0);
  }

  // ---- Both runs ----------------------------------------------------------------------------------

  /** The first group's bracket takes an `a`, and the second one's `b(c`. */
  lemma {:induction false} Groups(spare: int)
    ensures forall m: nat :: 0 < m ==> Doh(Run(spare), 0, m, 1) == 1 && Doh(Run(spare), 1, m, 1) == 1
    ensures Doh(Run(spare), 1, 0, 1) == NO_MATCH
    ensures Doh(Run(spare), 2, 3, 2) == 3
    ensures forall m: nat :: m < 3 ==> Doh(Run(spare), 2, m, 2) == NO_MATCH
  {
    hide Bar, Doh;
    var e := Run(spare);
    forall so, m: nat | so == 0 || so == 1
      ensures Doh(e, so, m, 1) == if 0 < m then 1 else NO_MATCH
    {
      AtBracket(e, so, m, 1);
      AtByte(e, 2, 1, so, m, 1, 0);
      if 0 < m {
        AtEnd(e, 3, so, m, 1, 1);
      }
    }
    forall m: nat | m <= 3
      ensures Doh(e, 2, m, 2) == if m == 3 then 3 else NO_MATCH
    {
      AtBracket(e, 2, m, 2);
      AtByte(e, 6, 4, 2, m, 2, 0);
      if 0 < m {
        AtByte(e, 7, 3, 2, m, 2, 1);
        if 1 < m {
          AtByte(e, 9, 1, 2, m, 2, 2);
          if 2 < m {
            AtEnd(e, 10, 2, m, 2, 3);
          }
        }
      }
    }
  }

  /** The run up to the second group, which is taken for the first. */
  lemma {:induction false} Opening(spare: int)
    ensures Doh(Run(spare), 0, 5, 0) == Bar(Run(spare), 5, 11, 0, 5, 0, 1)
  {
    hide Bar, Doh, GroupLoop;
    var e := Run(spare);
    Groups(spare);
    AtBracket(e, 0, 5, 0);
    AtStart(e, 0, 16, 0, 5, 0);
    AtGroup(e, 1, 3, 0, 5, 0, 0);
    AtEnd(e, 4, 0, 5, 1, 1);
    AtOption(e, 1, 15, 0, 5, 0, 0, 3);
  }

  // ---- A length of -1 -----------------------------------------------------------------------------

  lemma {:induction false} Last(so: int, m: int, j: int)
    requires 0 <= j <= m
    ensures Bar(Run(-1), 14, 2, so, m, 2, j) == j
  {
    hide Bar;
    var e := Run(-1);
    AtLastGroup(e, 14, 1, so + j, m - j, 2, 0);
    AtOption(e, 14, 2, so, m, 2, j, 1);
    AtEnd(e, 16, so, m, 2, j);
  }

  lemma {:induction false} Matches()
    ensures BazFrom(Run(-1), 0) == 5
  {
    hide Bar, Doh, GroupLoop;
    var e := Run(-1);
    Groups(-1);
    Opening(-1);
    Last(5, 0, 0);
    Last(2, 3, 3);
    Last(0, 5, 5);
    AtLoop(e, 14, 2, 2, 3, 2, 0, 0);
    AtGroup(e, 8, 8, 2, 3, 1, 0);
    AtLoop(e, 8, 8, 0, 5, 1, 1, 0);
    AtLoop(e, 14, 2, 0, 5, 2, 2, 0);
    AtGroup(e, 8, 8, 0, 5, 1, 2);
    AtGroup(e, 5, 11, 0, 5, 0, 1);
  }

  // ---- A length of 0 ------------------------------------------------------------------------------

  lemma {:induction false} NoLast()
    ensures Bar(Run(0), 8, 8, 2, 3, 1, 0) == NO_MATCH
  {
    hide Bar, Doh, GroupLoop;
    var e := Run(0);
    Groups(0);
    AtLastGroup(e, 14, 2, 5, 0, 2, 0);
    AtLoop(e, 14, 2, 2, 3, 2, 0, 3);
    AtLoop(e, 14, 2, 2, 3, 2, 0, 2);
    AtLoop(e, 14, 2, 2, 3, 2, 0, 1);
    AtLoop(e, 14, 2, 2, 3, 2, 0, 0);
    AtGroup(e, 8, 8, 2, 3, 1, 0);
  }

  lemma {:induction false} Fails()
    ensures BazFrom(Run(0), 0) == NO_MATCH
  {
    hide Bar, Doh, GroupLoop;
    var e := Run(0);
    Groups(0);
    Opening(0);
    NoLast();
    AtLoop(e, 8, 8, 0, 5, 1, 1, 4);
    AtLoop(e, 8, 8, 0, 5, 1, 1, 3);
    AtLoop(e, 8, 8, 0, 5, 1, 1, 2);
    AtLoop(e, 8, 8, 0, 5, 1, 1, 1);
    AtLoop(e, 8, 8, 0, 5, 1, 1, 0);
    AtGroup(e, 5, 11, 0, 5, 0, 1);
  }
}
