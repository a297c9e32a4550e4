/** The SID list of sys/tdi_fw/src/sids.c: `set_sid_list` on a buffer of length-prefixed records. */
module Sids {
  import opened Bytes

  const MAX_SIDS_COUNT := 128

  /** `sizeof(struct sid_nfo)`: the length field alone. */
  const NFO_SIZE := 4

  // ---- The format -------------------------------------------------------------------------------

  /** Every record behind its length in four bytes, the lowest first. */
  function EncodeSids(rs: seq<Text>): Text {
    if rs == [] then []
    else
      var n := |rs[0]|;
      [n % 256, n / 256 % 256, n / 65536 % 256, n / 16777216 % 256] + rs[0] + EncodeSids(rs[1..])
  }

  lemma {:induction false} EncodeFirst(rs: seq<Text>)
    requires rs != [] && |rs[0]| < ULONG_RANGE
    ensures EncodeSids(rs) == Le32(|rs[0]|) + rs[0] + EncodeSids(rs[1..])
  {
    hide Le32;
    Le32Bytes(|rs[0]|);
  }

  /** What `set_sid_list` accepts: nothing, or 1 to 128 records of which the last is not empty. */
  ghost predicate Acceptable(rs: seq<Text>) {
    |rs| <= 128 && (rs != [] ==> rs[|rs| - 1] != [])
  }

  // ---- The parse --------------------------------------------------------------------------------

  function LengthAt(buf: Text, pos: nat): (n: nat)
    requires pos + NFO_SIZE <= |buf|
    ensures n < ULONG_RANGE
  {
    ReadLe32RoundTrip(buf[pos..pos + NFO_SIZE]);
    ReadLe32(buf[pos..pos + NFO_SIZE])
  }

  /** Where the record behind this one starts, in 32-bit arithmetic. */
  function Next(buf: Text, pos: nat): (p: nat)
    requires pos + NFO_SIZE <= |buf|
    ensures p < ULONG_RANGE
  {
    (pos + NFO_SIZE + LengthAt(buf, pos)) % ULONG_RANGE
  }

  predicate Goes(buf: Text, pos: nat, i: nat) {
    pos + NFO_SIZE < |buf| && i < MAX_SIDS_COUNT && Next(buf, pos) <= |buf|
  }

  /** The offsets that the loop lists from `pos` on, with `i` entries listed already. */
  function Offsets(buf: Text, pos: nat, i: nat): (r: seq<nat>)
    requires |buf| < ULONG_RANGE && i <= MAX_SIDS_COUNT
    ensures i + |r| <= MAX_SIDS_COUNT
    ensures forall k :: 0 <= k < |r| ==> r[k] + NFO_SIZE <= |buf|
    decreases MAX_SIDS_COUNT - i
  {
    if Goes(buf, pos, i) then [pos] + Offsets(buf, Next(buf, pos), i + 1) else []
  }

  function End(buf: Text, pos: nat, i: nat): nat
    requires |buf| < ULONG_RANGE && i <= MAX_SIDS_COUNT
    decreases MAX_SIDS_COUNT - i
  {
    if Goes(buf, pos, i) then End(buf, Next(buf, pos), i + 1) else pos
  }

  predicate Accepted(buf: Text)
    requires |buf| < ULONG_RANGE
  {
    buf == [] || End(buf, 0, 0) == |buf|
  }

  /** No length field that the parse meets carries it around the end of the 32-bit range. */
  predicate Unwrapped(buf: Text, pos: nat, i: nat)
    requires |buf| < ULONG_RANGE && i <= MAX_SIDS_COUNT
    decreases MAX_SIDS_COUNT - i
  {
    Goes(buf, pos, i) ==>
      && pos + NFO_SIZE + LengthAt(buf, pos) < ULONG_RANGE
      && Unwrapped(buf, Next(buf, pos), i + 1)
  }

  /** The data of the record listed at an offset, as far as the buffer holds it. */
  function RecordAt(buf: Text, pos: nat): Text
    requires pos + NFO_SIZE <= |buf|
  {
    buf[pos + NFO_SIZE..Min(pos + NFO_SIZE + LengthAt(buf, pos), |buf|)]
  }

  function RecordsAt(buf: Text, offsets: seq<nat>): (r: seq<Text>)
    requires forall k :: 0 <= k < |offsets| ==> offsets[k] + NFO_SIZE <= |buf|
    ensures |r| == |offsets|
  {
    seq(|offsets|, k requires 0 <= k < |offsets| => RecordAt(buf, offsets[k]))
  }

  class SidTable {
    var buf: Text
    var list: seq<nat>
    var count: nat

    constructor ()
      ensures buf == [] && list == [] && count == 0
    {
      buf, list, count := [], [], 0;
    }

    /** `set_sid_list`: the new table is that of the new buffer alone, whether it is accepted or not. */
    method SetSidList(input: Text) returns (ok: bool)
      requires |input| < ULONG_RANGE
      modifies this
      ensures buf == input && list == Offsets(input, 0, 0) && count == |list|
      ensures ok == Accepted(input)
    {
      hide Le32, ReadLe32, LengthAt, Next;
      buf, list, count := [], [], 0;
      if |input| != 0 {
        buf := input;
        var pos, i := 0, 0;
        while pos + NFO_SIZE < |input| && i < MAX_SIDS_COUNT
          invariant 0 <= pos && 0 <= i <= MAX_SIDS_COUNT && buf == input && |list| == i
          invariant list + Offsets(input, pos, i) == Offsets(input, 0, 0)
          invariant End(input, pos, i) == End(input, 0, 0)
          decreases MAX_SIDS_COUNT - i
        {
          var end := Next(buf, pos);
          if end > |input| { break; }
          assert (list + [pos]) + Offsets(input, end, i + 1) == list + ([pos] + Offsets(input, end, i + 1));
          list := list + [pos];
          pos := end;
          i := i + 1;
        }
        count := i;
        ok := pos == |input|;
        assert list + [] == list;
      } else {
        ok := true;
      }
    }
  }

  // ---- Exactness --------------------------------------------------------------------------------

  /** A buffer that holds encoded records from `pos` on is parsed to just these records. */
  lemma {:induction false} ParsesEncoded(buf: Text, pos: nat, i: nat, rs: seq<Text>)
    requires |buf| < ULONG_RANGE && i + |rs| <= MAX_SIDS_COUNT && pos <= |buf|
    requires buf[pos..] == EncodeSids(rs) && (rs != [] ==> rs[|rs| - 1] != [])
    ensures End(buf, pos, i) == |buf| && Unwrapped(buf, pos, i)
    ensures RecordsAt(buf, Offsets(buf, pos, i)) == rs
    decreases |rs|
  {
    hide Le32, ReadLe32, LengthAt, Next, RecordAt;
    if rs != [] {
      var n, tail := |rs[0]|, EncodeSids(rs[1..]);
      FirstFits(rs);
      EncodeFirst(rs);
      ReadRecord(buf, pos, rs[0], tail);
      var next := pos + NFO_SIZE + n;
      if |rs| > 1 {
        assert |tail| >= NFO_SIZE by { EncodedSize(rs[1..]); }
      }
      ParsesEncoded(buf, next, i + 1, rs[1..]);
      var rest := Offsets(buf, next, i + 1);
      assert RecordsAt(buf, [pos] + rest) == [rs[0]] + RecordsAt(buf, rest);
    } else {
      assert RecordsAt(buf, Offsets(buf, pos, i)) == [];
    }
  }

  lemma {:induction false} FirstFits(rs: seq<Text>)
    requires rs != []
    ensures |EncodeSids(rs)| >= 4 + |rs[0]|
  {
  }

  lemma {:induction false} EncodedSize(rs: seq<Text>)
    requires rs != []
    ensures |EncodeSids(rs)| >= NFO_SIZE
  {
  }

  lemma {:induction false} ReadRecord(buf: Text, pos: nat, r: Text, tail: Text)
    requires |buf| < ULONG_RANGE && pos <= |buf| && buf[pos..] == Le32(|r|) + r + tail
    ensures var next := pos + NFO_SIZE + |r|;
      && next <= |buf| && |buf| == next + |tail|
      && LengthAt(buf, pos) == |r| && Next(buf, pos) == next
      && RecordAt(buf, pos) == r && buf[next..] == tail
  {
    hide Le32, ReadLe32;
    var s, next := buf[pos..], pos + NFO_SIZE + |r|;
    assert s == Le32(|r|) + (r + tail);
    assert buf[pos..pos + NFO_SIZE] == s[..NFO_SIZE] == Le32(|r|);
    Le32RoundTrip(|r|);
    assert buf[next..] == s[NFO_SIZE + |r|..] == tail;
    assert buf[pos + NFO_SIZE..next] == s[NFO_SIZE..NFO_SIZE + |r|] == r;
  }

  lemma {:induction false} SplitRecord(buf: Text, pos: nat)
    requires |buf| < ULONG_RANGE && pos + NFO_SIZE <= |buf|
    requires pos + NFO_SIZE + LengthAt(buf, pos) <= |buf|
    ensures var next := pos + NFO_SIZE + LengthAt(buf, pos);
      && Next(buf, pos) == next
      && buf[pos..] == Le32(|RecordAt(buf, pos)|) + RecordAt(buf, pos) + buf[next..]
  {
    hide Le32, ReadLe32;
    ReadLe32RoundTrip(buf[pos..pos + NFO_SIZE]);
    var next := pos + NFO_SIZE + LengthAt(buf, pos);
    assert buf[pos..] == buf[pos..pos + NFO_SIZE] + buf[pos + NFO_SIZE..next] + buf[next..];
  }

  /** A parse that ends with the buffer has read encoded records, the last of them not empty. */
  lemma {:induction false} AcceptedIsEncoded(buf: Text, pos: nat, i: nat)
    requires |buf| < ULONG_RANGE && i <= MAX_SIDS_COUNT && pos <= |buf|
    requires End(buf, pos, i) == |buf| && Unwrapped(buf, pos, i)
    ensures var rs := RecordsAt(buf, Offsets(buf, pos, i));
      buf[pos..] == EncodeSids(rs) && (rs != [] ==> rs[|rs| - 1] != [])
    decreases MAX_SIDS_COUNT - i
  {
    hide Le32, ReadLe32, LengthAt, RecordAt, Next, EncodeSids;
    var rs := RecordsAt(buf, Offsets(buf, pos, i));
    NothingEncoded();
    if Goes(buf, pos, i) {
      var next := Next(buf, pos);
      assert pos + NFO_SIZE + LengthAt(buf, pos) == next by { NextUnwrapped(buf, pos); }
      SplitRecord(buf, pos);
      AcceptedIsEncoded(buf, next, i + 1);
      var rest := RecordsAt(buf, Offsets(buf, next, i + 1));
      assert rs == [RecordAt(buf, pos)] + rest;
      assert rs[1..] == rest;
      EncodeFirst(rs);
      if rest == [] {
        assert buf[next..] == [];
        LastNotEmpty(buf, pos);
      } else {
        assert rs[|rs| - 1] == rest[|rest| - 1];
      }
    } else {
      assert rs == [];
    }
  }

  lemma {:induction false} NothingEncoded()
    ensures EncodeSids([]) == []
  {
  }

  lemma {:induction false} NextUnwrapped(buf: Text, pos: nat)
    requires pos + NFO_SIZE <= |buf| && pos + NFO_SIZE + LengthAt(buf, pos) < ULONG_RANGE
    ensures pos + NFO_SIZE + LengthAt(buf, pos) == Next(buf, pos)
  {
  }

  lemma {:induction false} LastNotEmpty(buf: Text, pos: nat)
    requires |buf| < ULONG_RANGE && pos + NFO_SIZE < |buf|
    requires pos + NFO_SIZE + LengthAt(buf, pos) == |buf|
    ensures RecordAt(buf, pos) != []
  {
  }

  /** Exact acceptance: a buffer is the encoding of acceptable records if and only if `set_sid_list`
      accepts it without wrapping around, and then it lists these records. */
  lemma {:induction false} AcceptanceExact(buf: Text)
    requires |buf| < ULONG_RANGE
    ensures (exists rs :: Acceptable(rs) && buf == EncodeSids(rs)) <==> Accepted(buf) && Unwrapped(buf, 0, 0)
    ensures forall rs :: Acceptable(rs) && buf == EncodeSids(rs) ==> RecordsAt(buf, Offsets(buf, 0, 0)) == rs
  {
    hide Le32, ReadLe32, LengthAt, RecordAt, Next, End, Offsets, Unwrapped;
    forall rs | Acceptable(rs) && buf == EncodeSids(rs)
      ensures Accepted(buf) && Unwrapped(buf, 0, 0) && RecordsAt(buf, Offsets(buf, 0, 0)) == rs
    {
      assert buf[0..] == buf;
      ParsesEncoded(buf, 0, 0, rs);
    }
    if Accepted(buf) && Unwrapped(buf, 0, 0) {
      assert buf[0..] == buf;
      if buf == [] {
        assert Acceptable([]) && EncodeSids([]) == [];
      } else {
        AcceptedIsEncoded(buf, 0, 0);
        assert Acceptable(RecordsAt(buf, Offsets(buf, 0, 0)));
      }
    }
  }

  /** A first length that carries the offset around to 0 lists the start of the buffer until the table is full, and the
      buffer is not accepted. */
  lemma {:induction false} WrappedStays(buf: Text, i: nat)
    requires 5 <= |buf| < ULONG_RANGE && buf[..4] == [252, 255, 255, 255] && i <= 128
    ensures |Offsets(buf, 0, i)| == 128 - i && forall k :: 0 <= k < 128 - i ==> Offsets(buf, 0, i)[k] == 0
    ensures i == 0 ==> !Accepted(buf)
    decreases 128 - i
  {
    hide LengthAt, Offsets, End, Accepted;
    FirstLength(buf);
    OffsetsStep(buf, 0, i);
    if i < 128 {
      WrappedStays(buf, i + 1);
    }
    WrappedEnds(buf, i);
  }

  lemma {:induction false} FirstLength(buf: Text)
    requires 5 <= |buf| && buf[..4] == [252, 255, 255, 255]
    ensures LengthAt(buf, 0) == 4294967292
  {
    assert buf[0..4] == buf[..4];
  }

  lemma {:induction false} OffsetsStep(buf: Text, pos: nat, i: nat)
    requires |buf| < ULONG_RANGE && i <= MAX_SIDS_COUNT
    ensures Offsets(buf, pos, i) == if Goes(buf, pos, i) then [pos] + Offsets(buf, Next(buf, pos), i + 1) else []
    ensures End(buf, pos, i) == if Goes(buf, pos, i) then End(buf, Next(buf, pos), i + 1) else pos
  {
    hide LengthAt;
  }

  lemma {:induction false} WrappedEnds(buf: Text, i: nat)
    requires 5 <= |buf| < ULONG_RANGE && buf[..4] == [252, 255, 255, 255] && i <= 128
    ensures End(buf, 0, i) == 0 && (i == 0 ==> !Accepted(buf))
    decreases 128 - i
  {
    hide LengthAt, Offsets, End;
    FirstLength(buf);
    OffsetsStep(buf, 0, i);
    if i < 128 {
      WrappedEnds(buf, i + 1);
    }
  }
}
