/** The query name of a DNS message as text: `fmt_dns_msg` of sys/adfilter/filter.c against the
    wire format of RFC 1035, sections 3.1 and 4.1.2. */
module DnsName {
  import opened Bytes

  /** A message header of 12 bytes, and the length byte of the first label. */
  const NAME_START := 13
  const BUFFER_SIZE := 1024
  const DOT: Byte := 46
  const DIGIT_ZERO := 48

  // ---- The wire format --------------------------------------------------------------------------

  predicate IsName(labels: seq<Text>) {
    labels != [] && forall k :: 0 <= k < |labels| ==> 0 < |labels[k]| <= 63
  }

  /** Every label behind its length, then the empty root label. */
  function EncodeName(labels: seq<Text>): (s: Text)
    requires forall k :: 0 <= k < |labels| ==> |labels[k]| <= 63
    ensures s != []
  {
    if labels == [] then [0] else [|labels[0]|] + labels[0] + EncodeName(labels[1..])
  }

  // ---- Text with dots ---------------------------------------------------------------------------

  function Join(labels: seq<Text>): Text
    requires labels != []
  {
    if |labels| == 1 then labels[0] else labels[0] + [46] + Join(labels[1..])
  }

  function Split(s: Text): (labels: seq<Text>)
    ensures labels != []
  {
    if s == [] then [[]]
    else
      var rest := Split(s[1..]);
      if s[0] == 46 then [[]] + rest else [[s[0]] + rest[0]] + rest[1..]
  }

  ghost predicate Dotless(labels: seq<Text>) {
    forall k :: 0 <= k < |labels| ==> 46 !in labels[k]
  }

  lemma {:induction false} JoinSplit(s: Text)
    ensures Join(Split(s)) == s && Dotless(Split(s))
    decreases |s|
  {
    if s != [] {
      JoinSplit(s[1..]);
      var rest := Split(s[1..]);
      if s[0] == DOT {
        assert Split(s)[1..] == rest;
      } else {
        var first := [s[0]] + rest[0];
        assert Split(s) == [first] + rest[1..] && Split(s)[1..] == rest[1..];
        if |rest| == 1 {
          assert rest[1..] == [] && Join(rest) == rest[0];
        } else {
          assert Join(rest) == rest[0] + [DOT] + Join(rest[1..]);
        }
      }
    }
  }

  lemma {:induction false} SplitFirst(a: Text, s: Text)
    requires DOT !in a
    ensures Split(a + s) == [a + Split(s)[0]] + Split(s)[1..]
    decreases |a|
  {
    if a == [] {
      assert a + s == s && a + Split(s)[0] == Split(s)[0];
    } else {
      assert (a + s)[1..] == a[1..] + s && a[0] in a;
      SplitFirst(a[1..], s);
      assert [a[0]] + (a[1..] + Split(s)[0]) == a + Split(s)[0];
    }
  }

  lemma {:induction false} SplitJoin(labels: seq<Text>)
    requires labels != [] && Dotless(labels)
    ensures Split(Join(labels)) == labels
    decreases |labels|
  {
    if |labels| == 1 {
      SplitFirst(labels[0], []);
      assert labels[0] + [] == labels[0];
    } else {
      TailDotless(labels);
      SplitJoin(labels[1..]);
      var s := [DOT] + Join(labels[1..]);
      assert s[1..] == Join(labels[1..]);
      assert Split(s) == [[]] + labels[1..];
      SplitFirst(labels[0], s);
      assert labels[0] + s == Join(labels);
      assert labels[0] + [] == labels[0];
    }
  }

  // ---- The conversion ---------------------------------------------------------------------------

  /** The byte kept for a byte of the name: a `char` below '0' becomes a dot, and so does every byte
      from 128 on, which a signed `char` holds as a negative number. */
  function Shown(b: Byte): Byte {
    if Signed(b) < DIGIT_ZERO then DOT else b
  }

  /** The characters up to a zero byte, `n` at the most. */
  function TextOf(s: Text, n: int): (r: Text)
    ensures |r| <= |s| && |r| <= Max(n, 0)
  {
    if s == [] || n <= 0 || s[0] == 0 then [] else [Shown(s[0])] + TextOf(s[1..], n - 1)
  }

  /** What the message holds from the name on. */
  function NameBytes(data: Text): Text {
    if NAME_START <= |data| then data[NAME_START..] else []
  }

  function DnsText(data: Text, len: int): Text {
    TextOf(NameBytes(data), len)
  }

  /** The conversion stays inside the message and the buffer: `len` bytes or a zero byte end it in the message, and
      the text and its terminator fit. */
  predicate Readable(data: Text, len: int) {
    && (len <= |NameBytes(data)| || 0 in NameBytes(data))
    && |DnsText(data, len)| < BUFFER_SIZE
  }

  /** The bytes from place 13 of the message to the first zero byte, or `len` of them, number `n`. */
  ghost predicate NameEnds(data: Text, len: int, n: nat) {
    && n <= Max(len, 0) && (n == 0 || 13 + n <= |data|)
    && (forall k :: 13 <= k < 13 + n ==> data[k] != 0)
    && (n == Max(len, 0) || (13 + n < |data| && data[13 + n] == 0))
  }

  /** Each becomes a character: a dot from bytes below 48 and from 128 on. */
  ghost predicate NameShown(data: Text, n: nat, text: Text) {
    && |text| == n && 13 + n <= Max(|data|, 13)
    && forall k :: 0 <= k < n ==> text[k] == if data[13 + k] < 48 || data[13 + k] >= 128 then 46 else data[13 + k]
  }

  /** The conversion stays inside exactly if the name ends in the message and before place 1024 of the buffer. */
  lemma {:induction false} ReadableExact(data: Text, len: int)
    ensures Readable(data, len) <==> exists n: nat :: n < 1024 && NameEnds(data, len, n)
    ensures forall n: nat :: NameEnds(data, len, n) ==> NameShown(data, n, DnsText(data, len))
    ensures Readable(data, len) ==> NameEnds(data, len, |DnsText(data, len)|)
  {
    hide TextOf;
    var s := NameBytes(data);
    forall n: nat | NameEnds(data, len, n)
      ensures NameShown(data, n, DnsText(data, len)) && (Readable(data, len) <==> n < 1024)
    {
      EndFits(data, len, n);
      AtMostNone(s, len);
      TextReaches(s, n, Max(len, 0));
      TextExact(s, n);
      assert 0 < n || len <= 0 || 0 in s;
    }
    if Readable(data, len) {
      var n := NameEnd(s, Max(len, 0));
      assert NameEnds(data, len, n);
    }
  }

  /** Where the name ends in what the message holds of it. */
  lemma {:induction false} NameEnd(s: Text, m: nat) returns (n: nat)
    requires m <= |s| || 0 in s
    ensures n <= m && n <= |s| && NoZero(s, n) && (n == m || (n < |s| && s[n] == 0))
  {
    n := 0;
    while n < m && s[n] != 0
      invariant n <= m && n <= |s| && NoZero(s, n)
      invariant m <= |s| || exists k :: n <= k < |s| && s[k] == 0
    {
      n := n + 1;
    }
  }

  lemma {:induction false} EndFits(data: Text, len: int, n: nat)
    requires NameEnds(data, len, n)
    ensures var s := NameBytes(data);
      && n <= |s| && NoZero(s, n) && 13 + n <= Max(|data|, 13)
      && (forall k :: 0 <= k < n ==> s[k] == data[13 + k])
      && (n == Max(len, 0) || (n < |s| && s[n] == 0))
  {
    forall k | 0 <= k < n ensures NameBytes(data)[k] == data[13 + k] != 0 {
      assert data[13 + k] != 0;
    }
  }

  lemma {:induction false} TextExact(s: Text, n: nat)
    requires n <= |s| && NoZero(s, n)
    ensures |TextOf(s, n)| == n
    ensures forall k :: 0 <= k < n ==> TextOf(s, n)[k] == if s[k] < 48 || s[k] >= 128 then 46 else s[k]
    decreases n
  {
    if n > 0 {
      NoZeroTail(s, n);
      TextExact(s[1..], n - 1);
      assert TextOf(s, n) == [Shown(s[0])] + TextOf(s[1..], n - 1);
      assert forall k :: 0 < k < n ==> TextOf(s, n)[k] == TextOf(s[1..], n - 1)[k - 1] && s[1..][k - 1] == s[k];
    }
  }

  ghost predicate NoZero(s: Text, i: nat)
    requires i <= |s|
  {
    forall k :: 0 <= k < i ==> s[k] != 0
  }

  lemma {:induction false} NoZeroTail(s: Text, i: nat)
    requires 0 < i <= |s| && NoZero(s, i)
    ensures NoZero(s[1..], i - 1) && s[0] != 0
  {
  }

  lemma {:induction false} TextAppend(s: Text, i: nat)
    requires i < |s| && NoZero(s, i + 1)
    ensures TextOf(s, i + 1) == TextOf(s, i) + [Shown(s[i])]
    decreases i
  {
    NoZeroTail(s, i + 1);
    if i > 0 {
      TextAppend(s[1..], i - 1);
    }
  }

  /** The text goes on at least as far as no zero byte is met, and ends where one is. */
  lemma {:induction false} TextReaches(s: Text, i: nat, n: int)
    requires i <= |s| && i <= n && NoZero(s, i)
    ensures i <= |TextOf(s, n)| && |TextOf(s, i)| == i
    ensures i == n || i == |s| || s[i] == 0 ==> TextOf(s, n) == TextOf(s, i)
    decreases i
  {
    if i > 0 {
      NoZeroTail(s, i);
      TextReaches(s[1..], i - 1, n - 1);
    }
  }

  /** `fmt_dns_msg`, and `strlen` of its result: the buffer is cleared, then filled up to the zero byte. Where the
      original would leave the message or the buffer, `inside` is false. */
  method FormatDnsMessage(data: Text, len: int, buffer: array<Byte>) returns (inside: bool, n: nat)
    requires buffer.Length == BUFFER_SIZE
    modifies buffer
    ensures inside <==> Readable(data, len)
    ensures inside ==>
      n == |DnsText(data, len)| && buffer[..n] == DnsText(data, len) && n < BUFFER_SIZE && buffer[n] == 0
    ensures inside <==> exists k: nat :: k < 1024 && NameEnds(data, len, k)
    ensures inside ==> NameEnds(data, len, n) && NameShown(data, n, buffer[..n])
  {
    hide TextOf, NameEnds, NameShown;
    ReadableExact(data, len);
    inside, n := false, 0;
    forall i | 0 <= i < buffer.Length {
      buffer[i] := 0;
    }
    ghost var s := NameBytes(data);
    var i := 0;
    TextReaches(s, 0, 0);
    while i < len
      invariant 0 <= i <= Max(len, 0) && i <= |s| && i <= BUFFER_SIZE
      invariant NoZero(s, i)
      invariant buffer[..i] == TextOf(s, i)
      invariant forall k :: 0 <= k < i ==> buffer[k] != 0
      invariant forall k :: i <= k < BUFFER_SIZE ==> buffer[k] == 0
    {
      if |data| <= i + NAME_START {
        Unended(s, i, len);
        return;
      }
      var c := data[i + NAME_START];
      assert c == s[i];
      if c == 0 {
        break;
      }
      TextAppend(s, i);
      TextReaches(s, i + 1, len);
      if i == buffer.Length {
        return;
      }
      ghost var was := buffer[..i];
      buffer[i] := if Signed(c) < DIGIT_ZERO then DOT else c;
      assert buffer[..i + 1] == was + [Shown(c)];
      i := i + 1;
    }
    TextReaches(s, i, Max(len, 0));
    AtMostNone(s, len);
    if i == buffer.Length {
      return;
    }
    inside := true;
    n := StrLen(buffer, i);
  }

  lemma {:induction false} Unended(s: Text, i: nat, len: int)
    requires i == |s| < len && NoZero(s, i)
    ensures 0 !in s
  {
  }

  lemma {:induction false} AtMostNone(s: Text, n: int)
    ensures TextOf(s, n) == TextOf(s, Max(n, 0))
  {
  }

  method StrLen(buffer: array<Byte>, ghost end: nat) returns (n: nat)
    requires end < buffer.Length && buffer[end] == 0 && forall k :: 0 <= k < end ==> buffer[k] != 0
    ensures n == end
  {
    n := 0;
    while buffer[n] != 0
      invariant n <= end
      decreases end - n
    {
      n := n + 1;
    }
  }

  // ---- Inversion --------------------------------------------------------------------------------

  /** Characters from '0' to 127. */
  predicate Plain(s: Text) {
    forall k :: 0 <= k < |s| ==> 48 <= s[k] < 128
  }

  /** What the conversion can bring back: plain labels, all but the first of fewer than 48 bytes. */
  predicate Invertible(labels: seq<Text>) {
    && (forall k :: 0 <= k < |labels| ==> Plain(labels[k]))
    && (forall k :: 0 < k < |labels| ==> |labels[k]| < 48)
  }

  /** The name on the wire without its first length byte. */
  function Wire(labels: seq<Text>): Text
    requires IsName(labels)
  {
    labels[0] + EncodeName(labels[1..])
  }

  lemma {:induction false} TailIsName(labels: seq<Text>)
    requires IsName(labels) && |labels| > 1
    ensures IsName(labels[1..])
    ensures Wire(labels) == labels[0] + ([|labels[1]|] + Wire(labels[1..]))
    ensures Join(labels) == labels[0] + ([DOT] + Join(labels[1..]))
  {
  }

  lemma {:induction false} TailInvertible(labels: seq<Text>)
    requires |labels| > 1
    ensures Invertible(labels) <==> Plain(labels[0]) && |labels[1]| < DIGIT_ZERO && Invertible(labels[1..])
  {
  }

  lemma {:induction false} TailDotless(labels: seq<Text>)
    requires |labels| > 0 && Dotless(labels)
    ensures DOT !in labels[0] && Dotless(labels[1..])
  {
  }

  /** A stretch is shown unchanged in front of the rest if and only if it is plain; `a` has no dots. */
  lemma {:induction false} StretchShown(a: Text, s: Text, n: int, rest: Text)
    requires DOT !in a && |a| <= n
    ensures TextOf(a + s, n) == a + rest <==> Plain(a) && TextOf(s, n - |a|) == rest
    decreases |a|
  {
    if a == [] {
      assert a + s == s && a + rest == rest;
    } else {
      var b := a[1..];
      assert (a + s)[1..] == b + s && (a + s)[0] == a[0] && a[0] in a;
      assert forall k :: 0 <= k < |b| ==> b[k] == a[k + 1];
      StretchShown(b, s, n - 1, rest);
      assert a + rest == [a[0]] + (b + rest);
      if TextOf(a + s, n) == a + rest {
        assert TextOf(a + s, n) == [Shown(a[0])] + TextOf(b + s, n - 1);
        assert (a + rest)[0] == a[0] && (a + rest)[1..] == b + rest;
        assert TextOf(b + s, n - 1) == TextOf(a + s, n)[1..];
        forall k | 0 <= k < |a| ensures DIGIT_ZERO <= a[k] < 128 {
          if k > 0 {
            assert a[k] == b[k - 1];
          }
        }
      }
    }
  }

  /** A length byte is shown as a dot if and only if it is below 48. */
  lemma {:induction false} LengthShown(l: Byte, s: Text, n: int, rest: Text)
    requires 0 < l <= 63 && 0 < n
    ensures TextOf([l] + s, n) == [DOT] + rest <==> l < DIGIT_ZERO && TextOf(s, n - 1) == rest
  {
    assert ([l] + s)[1..] == s;
    assert ([DOT] + rest)[1..] == rest;
    var r := TextOf([l] + s, n);
    assert r == [Shown(l)] + TextOf(s, n - 1);
    assert r[1..] == TextOf(s, n - 1);
  }

  lemma {:induction false} WireShown(labels: seq<Text>, after: Text, n: int)
    requires IsName(labels) && Dotless(labels) && n >= |Wire(labels)| - 1
    ensures TextOf(Wire(labels) + after, n) == Join(labels) <==> Invertible(labels)
    decreases |labels|
  {
    hide TextOf, EncodeName, Invertible, Plain, Dotless;
    TailDotless(labels);
    if |labels| == 1 {
      assert labels[1..] == [];
      WireOfOne(labels);
      var a := labels[0];
      assert Wire(labels) + after == a + ([0] + after);
      StretchShown(a, [0] + after, n, []);
      EndShown(after, n - |a|);
      assert a + [] == a;
      InvertibleOne(labels);
    } else {
      TailIsName(labels);
      TailInvertible(labels);
      var a, l, t := labels[0], |labels[1]|, labels[1..];
      var s := Wire(t) + after;
      assert Wire(labels) + after == a + ([l] + s);
      StretchShown(a, [l] + s, n, [DOT] + Join(t));
      assert |Wire(t)| > 0 by { WireNonempty(t); }
      LengthShown(l, s, n - |a|, Join(t));
      WireShown(t, after, n - |a| - 1);
    }
  }

  lemma {:induction false} WireOfOne(labels: seq<Text>)
    requires IsName(labels) && |labels| == 1
    ensures Wire(labels) == labels[0] + [0]
  {
  }

  lemma {:induction false} InvertibleOne(labels: seq<Text>)
    requires |labels| == 1
    ensures Invertible(labels) <==> Plain(labels[0])
  {
  }

  lemma {:induction false} WireNonempty(labels: seq<Text>)
    requires IsName(labels)
    ensures |Wire(labels)| > 0
  {
  }

  lemma {:induction false} EndShown(after: Text, n: int)
    ensures TextOf([0] + after, n) == []
  {
  }

  /** Inversion: the name starts behind the 12 bytes of the header, and splitting its text at the dots gives back the
      labels if and only if every label byte is between '0' and 127 and every label but the first is shorter than 48
      bytes. `after` is the message behind the name, and `len` must reach to the end of the name. */
  lemma {:induction false} NameInverted(data: Text, labels: seq<Text>, after: Text, len: int)
    requires IsName(labels) && 12 <= |data| && data[12..] == EncodeName(labels) + after
    requires len >= |EncodeName(labels)| - 2
    ensures Split(DnsText(data, len)) == labels <==> Invertible(labels)
    ensures Invertible(labels) ==> DnsText(data, len) == Join(labels)
  {
    hide TextOf, Join, Split, Invertible;
    var w := Wire(labels);
    assert EncodeName(labels) == [|labels[0]|] + w;
    var s := data[12..];
    assert data[13..] == s[1..] == w + after;
    var text := DnsText(data, len);
    if Split(text) == labels {
      JoinSplit(text);
      WireShown(labels, after, len);
    }
    if Invertible(labels) {
      InvertibleDotless(labels);
      WireShown(labels, after, len);
      SplitJoin(labels);
    }
  }

  lemma {:induction false} InvertibleDotless(labels: seq<Text>)
    requires Invertible(labels)
    ensures Dotless(labels)
  {
  }
}
