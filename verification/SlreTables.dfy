/** The bracket and branch tables of sys/slre/slre.c, and the parts of the engine
    that look at the pattern alone: operation lengths and single-character tests. */
module SlreTables {
  import opened Bytes

  const MAX_BRANCHES := 100
  const MAX_BRACKETS := 100

  const DOLLAR: Byte := 36
  const LPAREN: Byte := 40
  const RPAREN: Byte := 41
  const STAR: Byte := 42
  const PLUS: Byte := 43
  const DASH: Byte := 45
  const DOT: Byte := 46
  const QUESTION: Byte := 63
  const LBRACKET: Byte := 91
  const BACKSLASH: Byte := 92
  const RBRACKET: Byte := 93
  const CARET: Byte := 94
  const LOWER_X: Byte := 120
  const PIPE: Byte := 124

  const NO_MATCH := -1
  const UNEXPECTED_QUANTIFIER := -2
  const UNBALANCED_BRACKETS := -3
  const INTERNAL_ERROR := -4
  const INVALID_CHARACTER_SET := -5
  const INVALID_METACHARACTER := -6
  const CAPS_ARRAY_TOO_SMALL := -7
  const TOO_MANY_BRANCHES := -8
  const TOO_MANY_BRACKETS := -9

  /** Pointers into the pattern are offsets; `branches` and `numBranches` are a slice of the branch table. */
  datatype Bracket = Bracket(ptr: int, len: int, branches: int, numBranches: int)

  datatype Branch = Branch(bracketIndex: int, schlong: int)

  /** The tables as the matcher reads them. `spare` is the length found in the entry behind the last bracket,
      which was never set; the engine may take it for the length of a group. */
  datatype Tables = Tables(brackets: seq<Bracket>, branches: seq<Branch>, spare: int) {

    predicate WellFormed() {
      forall k :: 0 <= k < |brackets| ==>
        && 0 <= brackets[k].branches
        && 0 <= brackets[k].numBranches
        && brackets[k].branches + brackets[k].numBranches <= |branches|
    }

    function LenAt(k: nat): int {
      if k < |brackets| then brackets[k].len else spare
    }
  }

  predicate IsQuantifier(b: Byte) {
    b == STAR || b == PLUS || b == QUESTION
  }

  /** The characters that may follow a backslash. */
  predicate IsMetacharacter(b: Byte) {
    || b == CARET || b == DOLLAR || b == LPAREN || b == RPAREN || b == DOT || b == LBRACKET || b == RBRACKET
    || IsQuantifier(b) || b == PIPE || b == BACKSLASH
    || b == 83 || b == 115 || b == 100 || b == 98 || b == 102 || b == 110 || b == 114 || b == 116 || b == 118
    || b == 0
  }

  function OpLen(p: Text, k: int): (len: nat)
    ensures len == 1 || len == 2 || len == 4
  {
    if At(p, k) == BACKSLASH then if At(p, k + 1) == LOWER_X then 4 else 2 else 1
  }

  /** How far `set_len` counts from offset `lo + len`, looking at `n` bytes in all. */
  function SetLenFrom(p: Text, lo: int, n: int, len: nat): (r: int)
    ensures r == -1 || len < r <= Max(n, len) + 1
    decreases n - len
  {
    if len < n && At(p, lo + len) != RBRACKET then SetLenFrom(p, lo, n, len + OpLen(p, lo + len))
    else if len <= n then len + 1
    else -1
  }

  function GetOpLen(p: Text, lo: int, n: int): (r: int)
    ensures 0 <= r
    ensures At(p, lo) != LBRACKET ==> r == OpLen(p, lo)
  {
    if At(p, lo) == LBRACKET then SetLenFrom(p, lo + 1, n - 1, 0) + 1 else OpLen(p, lo)
  }

  method SetLen(p: Text, lo: int, n: int) returns (r: int)
    ensures r == SetLenFrom(p, lo, n, 0)
  {
    var len := 0;
    while len < n && At(p, lo + len) != RBRACKET
      invariant 0 <= len
      invariant SetLenFrom(p, lo, n, 0) == SetLenFrom(p, lo, n, len)
      decreases n - len
    {
      len := len + OpLen(p, lo + len);
    }
    r := if len <= n then len + 1 else -1;
  }

  /** The value of two hexadecimal digits; other bytes have no value here. */
  function HexToInt(h: Byte, l: Byte): int {
    if IsHexDigit(h) && IsHexDigit(l) then 16 * HexDigit(h) + HexDigit(l) else -1
  }

  function HexDigit(b: Byte): (v: int)
    requires IsHexDigit(b)
    ensures 0 <= v < 16
  {
    if IsDigit(b) then b - 48 else ToLower(b) - 87
  }

  /** Does the escape whose backslash is at `k` accept byte `b`? */
  predicate EscapeAccepts(p: Text, k: int, b: Byte) {
    var d := At(p, k + 1);
    if d == 83 then !IsSpace(b)
    else if d == 115 then IsSpace(b)
    else if d == 100 then IsDigit(b)
    else if d == 98 then b == 8
    else if d == 102 then b == 12
    else if d == 110 then b == 10
    else if d == 114 then b == 13
    else if d == 116 then b == 9
    else if d == 118 then b == 11
    else if d == LOWER_X then HexToInt(At(p, k + 2), At(p, k + 3)) == b
    else d == b
  }

  function MatchOp(p: Text, k: int, b: Byte, fold: bool): (r: int)
    ensures r <= 1 && r != 0
  {
    var c := At(p, k);
    if c == BACKSLASH then if EscapeAccepts(p, k, b) then 1 else NO_MATCH
    else if c == PIPE then INTERNAL_ERROR
    else if c == DOLLAR then NO_MATCH
    else if c == DOT then 1
    else if (if fold then ToLower(c) == ToLower(b) else c == b) then 1
    else NO_MATCH
  }

  predicate InRange(low: Byte, high: Byte, b: Byte, fold: bool) {
    if fold then ToLower(Signed(low)) <= ToLower(Signed(b)) <= ToLower(Signed(high))
    else Signed(low) <= Signed(b) <= Signed(high)
  }

  predicate IsRange(p: Text, k: int) {
    At(p, k) != DASH && At(p, k + 1) == DASH && At(p, k + 2) != RBRACKET && At(p, k + 2) != 0
  }

  /** The result of the scan in `match_set` once `result` has been found for the elements before `len`. */
  function SetScan(p: Text, lo: int, n: int, b: Byte, fold: bool, len: nat, result: int): int
    decreases n + 1 - len
  {
    if len <= n && At(p, lo + len) != RBRACKET && result <= 0 then
      if IsRange(p, lo + len) then
        SetScan(p, lo, n, b, fold, len + 3, if InRange(At(p, lo + len), At(p, lo + len + 2), b, fold) then 1 else 0)
      else
        SetScan(p, lo, n, b, fold, len + OpLen(p, lo + len), MatchOp(p, lo + len, b, fold))
    else result
  }

  function SetResult(p: Text, lo: int, n: int, b: Byte, fold: bool): (r: int)
    ensures r == 1 || r == -1
  {
    var invert := At(p, lo) == CARET;
    var result := if invert then SetScan(p, lo + 1, n - 1, b, fold, 0, -1) else SetScan(p, lo, n, b, fold, 0, -1);
    if invert == (result <= 0) then 1 else -1
  }

  method MatchSet(p: Text, lo0: int, n0: int, b: Byte, fold: bool) returns (r: int)
    ensures r == SetResult(p, lo0, n0, b, fold)
  {
    var lo, n, len, result := lo0, n0, 0, -1;
    var invert := At(p, lo) == CARET;
    if invert { lo, n := lo + 1, n - 1; }
    while len <= n && At(p, lo + len) != RBRACKET && result <= 0
      invariant 0 <= len
      invariant SetScan(p, lo, n, b, fold, 0, -1) == SetScan(p, lo, n, b, fold, len, result)
      decreases n + 1 - len
    {
      if IsRange(p, lo + len) {
        result := if InRange(At(p, lo + len), At(p, lo + len + 2), b, fold) then 1 else 0;
        len := len + 3;
      } else {
        result := MatchOp(p, lo + len, b, fold);
        len := len + OpLen(p, lo + len);
      }
    }
    r := if (!invert && result > 0) || (invert && result <= 0) then 1 else -1;
  }
}
