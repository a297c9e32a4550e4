/** Host files: the writer of exe/adfilter/ViewModel/HostViewModel.cs and the 256-byte chunked reader
    of sys/adfilter/adfilter.c. A file is its bytes; reading beyond its end is an error of the read call. */
module HostFile {
  import opened Bytes
  import opened HostList

  const CHUNK := 256
  const HOST_MAX := 128
  const CR: Byte := 13
  const LF: Byte := 10

  // ---- The file as a whole ----------------------------------------------------------------------

  /** The place of the first carriage return or zero byte at or behind `k`, or the length. */
  function FindEnd(s: Text, k: nat): (r: nat)
    requires k <= |s|
    ensures k <= r <= |s| && (r < |s| ==> s[r] == CR || s[r] == 0)
    ensures forall j :: k <= j < r ==> s[j] != CR && s[j] != 0
    decreases |s| - k
  {
    if k == |s| || s[k] == CR || s[k] == 0 then k else FindEnd(s, k + 1)
  }

  /** The lines of a text: a carriage return ends a line and takes the byte behind it along; what is left at the end
      is a line too, unless there is nothing. A zero byte in a line is the end of the text. */
  function Lines(s: Text): (lines: seq<Text>)
    decreases |s|
  {
    var k := FindEnd(s, 0);
    if s == [] then []
    else if k < |s| && s[k] == CR then [s[..k]] + Lines(s[Min(k + 2, |s|)..])
    else [s[..k]]
  }

  /** Lines of at most 128 bytes. */
  predicate AllFit(lines: seq<Text>) {
    forall k :: 0 <= k < |lines| ==> |lines[k]| <= HOST_MAX
  }

  // ---- The writer -------------------------------------------------------------------------------

  function Written(hosts: seq<Text>): Text {
    if hosts == [] then []
    else (if hosts[0] != [] then hosts[0] + [CR, LF] else []) + Written(hosts[1..])
  }

  function NonEmpty(hosts: seq<Text>): seq<Text> {
    if hosts == [] then []
    else (if hosts[0] != [] then [hosts[0]] else []) + NonEmpty(hosts[1..])
  }

  lemma {:induction false} WrittenAppend(hosts: seq<Text>, h: Text)
    ensures Written(hosts + [h]) == Written(hosts) + (if h != [] then h + [CR, LF] else [])
    decreases |hosts|
  {
    if hosts == [] {
      assert hosts + [h] == [h] && [h][1..] == [];
      assert Written([h]) == (if h != [] then h + [CR, LF] else []) + Written([]);
    } else {
      assert (hosts + [h])[1..] == hosts[1..] + [h];
      WrittenAppend(hosts[1..], h);
    }
  }

  /** `Dispose`: the nonempty hosts, each on a line of its own. */
  method Dispose(hosts: seq<Text>) returns (file: Text)
    ensures file == Written(hosts) == OnLines(NonEmpty(hosts))
    ensures (forall k :: 0 <= k < |hosts| ==> hosts[k] != []) ==> file == OnLines(hosts)
  {
    WrittenLines(hosts);
    if forall k :: 0 <= k < |hosts| ==> hosts[k] != [] {
      AllNonEmpty(hosts);
    }
    file := [];
    for i := 0 to |hosts|
      invariant file == Written(hosts[..i])
    {
      assert hosts[..i + 1] == hosts[..i] + [hosts[i]];
      WrittenAppend(hosts[..i], hosts[i]);
      if |hosts[i]| > 0 {
        file := file + (hosts[i] + [CR, LF]);
      }
    }
    assert hosts[..|hosts|] == hosts;
  }

  /** A host that can stand on a line. */
  predicate IsLine(h: Text) {
    |h| <= HOST_MAX && CR !in h && 0 !in h
  }

  lemma {:induction false} FindEndSkips(a: Text, s: Text, k: nat)
    requires CR !in a && 0 !in a && k <= |a| && (s != [] ==> s[0] == CR || s[0] == 0)
    ensures FindEnd(a + s, k) == |a|
    decreases |a| - k
  {
    if k < |a| {
      assert (a + s)[k] == a[k] && a[k] in a;
      FindEndSkips(a, s, k + 1);
    }
  }

  /** Splitting what the writer wrote gives back the hosts. */
  lemma {:induction false} LinesOfWritten(hosts: seq<Text>)
    requires forall k :: 0 <= k < |hosts| ==> IsLine(hosts[k])
    ensures Lines(Written(hosts)) == NonEmpty(hosts) && AllFit(NonEmpty(hosts))
    decreases |hosts|
  {
    hide Lines, IsLine;
    if hosts == [] {
      NoLines();
    } else {
      var h, rest := hosts[0], Written(hosts[1..]);
      assert IsLine(hosts[0]) && forall k :: 0 <= k < |hosts[1..]| ==> hosts[1..][k] == hosts[k + 1];
      LinesOfWritten(hosts[1..]);
      if h == [] {
        assert [] + rest == rest && [] + NonEmpty(hosts[1..]) == NonEmpty(hosts[1..]);
      } else {
        FirstLine(h, rest);
        assert Written(hosts) == h + [CR, LF] + rest;
      }
    }
  }

  lemma {:induction false} NoLines()
    ensures Lines([]) == []
  {
  }

  // ---- The form of a host file ------------------------------------------------------------------

  /** Bytes that can stand in a line. */
  predicate Clean(line: Text) {
    13 !in line && 0 !in line
  }

  /** A carriage return ends a line, whatever byte follows it; a zero byte ends the text. */
  lemma {:induction false} LineCut(line: Text, x: Byte, rest: Text)
    requires Clean(line)
    ensures Lines(line + [13, x] + rest) == [line] + Lines(rest)
    ensures Lines(line + [13]) == [line]
    ensures Lines(line + [0] + rest) == [line]
    ensures Lines(line) == if line == [] then [] else [line]
  {
    hide FindEnd, Lines;
    NoLines();
    CutAt(line, [13, x] + rest);
    assert line + [13, x] + rest == line + ([13, x] + rest) && ([13, x] + rest)[2..] == rest;
    CutAt(line, [13]);
    CutAt(line, [0] + rest);
    assert line + [0] + rest == line + ([0] + rest);
    if line != [] {
      CutAt(line, []);
      assert line + [] == line;
    }
  }

  lemma {:induction false} CutAt(line: Text, s: Text)
    requires Clean(line) && line + s != [] && (s != [] ==> s[0] == 13 || s[0] == 0)
    ensures Lines(line + s) ==
      [line] + if s != [] && s[0] == 13 then Lines(if |s| >= 2 then s[2..] else []) else []
  {
    hide FindEnd, Lines;
    var whole := line + s;
    FindEndSkips(line, s, 0);
    HeadOfLines(whole);
    assert whole[..|line|] == line;
    if s != [] {
      assert whole[|line|] == s[0];
      assert whole[Min(|line| + 2, |whole|)..] == if |s| >= 2 then s[2..] else [];
    }
  }

  /** Every line ended by the bytes 13 and 10. */
  function OnLines(lines: seq<Text>): Text {
    if lines == [] then [] else lines[0] + [13, 10] + OnLines(lines[1..])
  }

  /** A file of these lines; the last of them, if it is not empty, has no end. */
  ghost predicate IsFile(file: Text, lines: seq<Text>, last: Text) {
    file == OnLines(lines) + last && Clean(last) && forall k :: 0 <= k < |lines| ==> Clean(lines[k])
  }

  function AllLines(lines: seq<Text>, last: Text): seq<Text> {
    if last == [] then lines else lines + [last]
  }

  /** Such a file has exactly these lines. */
  lemma {:induction false} FileLines(file: Text, lines: seq<Text>, last: Text)
    requires IsFile(file, lines, last)
    ensures Lines(file) == AllLines(lines, last)
    decreases |lines|
  {
    hide Lines, Clean;
    if lines == [] {
      assert file == last && lines + [last] == [last];
      LineCut(last, 0, []);
    } else {
      var rest := OnLines(lines[1..]) + last;
      FileLines(rest, lines[1..], last);
      LineCut(lines[0], 10, rest);
      assert file == lines[0] + [13, 10] + rest;
      assert [lines[0]] + lines[1..] == lines && [lines[0]] + (lines[1..] + [last]) == lines + [last];
    }
  }

  lemma {:induction false} WrittenLines(hosts: seq<Text>)
    ensures Written(hosts) == OnLines(NonEmpty(hosts))
    decreases |hosts|
  {
    if hosts != [] {
      var h, rest := hosts[0], NonEmpty(hosts[1..]);
      WrittenLines(hosts[1..]);
      if h == [] {
        assert [] + rest == rest && [] + Written(hosts[1..]) == Written(hosts[1..]);
      } else {
        assert ([h] + rest)[1..] == rest;
        assert OnLines([h] + rest) == h + [13, 10] + OnLines(rest);
      }
    }
  }

  /** The nonempty hosts are all of them that are not empty, in order. */
  lemma {:induction false} NonEmptyExact(a: seq<Text>, h: Text, b: seq<Text>)
    ensures NonEmpty(a + [h] + b) == NonEmpty(a) + (if h != [] then [h] else []) + NonEmpty(b)
    decreases |a|
  {
    if a == [] {
      assert a + [h] + b == [h] + b && ([h] + b)[1..] == b;
    } else {
      assert (a + [h] + b)[0] == a[0] && (a + [h] + b)[1..] == a[1..] + [h] + b;
      NonEmptyExact(a[1..], h, b);
    }
  }

  lemma {:induction false} FirstLine(h: Text, rest: Text)
    requires IsLine(h) && h != []
    ensures Lines(h + [CR, LF] + rest) == [h] + Lines(rest) && |h| <= HOST_MAX
  {
    hide FindEnd, Lines;
    var s := h + [CR, LF] + rest;
    assert s == h + ([CR, LF] + rest);
    FindEndSkips(h, [CR, LF] + rest, 0);
    HeadOfLines(s);
    assert s[|h| + 2..] == rest && s[..|h|] == h;
  }

  /** Saving and loading: nonempty hosts come back as they were, in the same order. */
  lemma {:induction false} SaveLoadRoundTrip(hosts: seq<Text>)
    requires forall k :: 0 <= k < |hosts| ==> IsLine(hosts[k]) && hosts[k] != []
    ensures Lines(Written(hosts)) == hosts && AllFit(hosts)
  {
    hide Lines, AllFit, IsLine;
    LinesOfWritten(hosts);
    AllNonEmpty(hosts);
  }

  lemma {:induction false} AllNonEmpty(hosts: seq<Text>)
    requires forall k :: 0 <= k < |hosts| ==> hosts[k] != []
    ensures NonEmpty(hosts) == hosts
    decreases |hosts|
  {
    if hosts != [] {
      assert forall k :: 0 <= k < |hosts[1..]| ==> hosts[1..][k] == hosts[k + 1];
      AllNonEmpty(hosts[1..]);
    }
  }

  // ---- The reader -------------------------------------------------------------------------------

  /** `ZwReadFile`: at most 256 bytes from an offset, into a cleared buffer; false at the end of the file. */
  method ReadFile(file: Text, offset: nat, buff: array<Byte>) returns (ok: bool)
    requires buff.Length == CHUNK
    modifies buff
    ensures ok == (offset < |file|)
    ensures ok ==> forall k :: 0 <= k < CHUNK ==> buff[k] == At(file, offset + k)
  {
    ok := offset < |file|;
    if ok {
      forall k | 0 <= k < CHUNK {
        buff[k] := At(file, offset + k);
      }
    }
  }

  /** The inner loop: one line from place `i` of the buffer is copied to `len`. `lastLineOffset` is the offset behind
      the line end, or zero if the buffer ends first. A line that does not fit runs over the end of `len`. */
  method ScanLine(buff: array<Byte>, i: nat, len: array<Byte>, ghost stop: nat)
    returns (inside: bool, lastLineOffset: nat)
    requires buff.Length == CHUNK && len.Length == HOST_MAX && buff != len && i + stop < CHUNK
    requires buff[i + stop] == CR || buff[i + stop] == 0
    requires forall k :: i <= k < i + stop ==> buff[k] != CR && buff[k] != 0
    modifies len
    ensures inside <==> stop <= HOST_MAX
    ensures inside ==> lastLineOffset == if buff[i + stop] == CR then stop + 2 else 0
    ensures inside ==> len[..stop] == buff[i..i + stop] && forall k :: stop <= k < HOST_MAX ==> len[k] == 0
  {
    forall k | 0 <= k < HOST_MAX {
      len[k] := 0;
    }
    inside, lastLineOffset := true, 0;
    var j := 0;
    while true
      invariant 0 <= j <= stop && j <= HOST_MAX
      invariant len[..j] == buff[i..i + j] && forall k :: j <= k < HOST_MAX ==> len[k] == 0
      decreases stop - j
    {
      if buff[i + j] == CR {
        lastLineOffset := j + 2;
        break;
      }
      if buff[i + j] == 0 { break; }
      if j == len.Length {
        return false, 0;
      }
      len[j] := buff[i + j];
      j := j + 1;
    }
  }

  /** `strnlen` on the line buffer. */
  method StrNLen(len: array<Byte>, ghost end: nat) returns (l: nat)
    requires end <= len.Length == HOST_MAX
    requires forall k :: 0 <= k < end ==> len[k] != 0
    requires end < HOST_MAX ==> len[end] == 0
    ensures l == end
  {
    l := 0;
    while l < HOST_MAX && len[l] != 0
      invariant l <= end
      decreases end - l
    {
      l := l + 1;
    }
  }

  /** What is left of the file at an offset. */
  function Rest(file: Text, offset: nat): Text {
    if offset <= |file| then file[offset..] else []
  }

  /** The lines not yet read complete those of the file. */
  ghost predicate Completes(file: Text, done: seq<Text>, offset: nat) {
    done + Lines(Rest(file, offset)) == Lines(file) && AllFit(done)
  }

  /** The next line is the rest up to its end: it fits, and the lines behind it complete the file's in turn, or those
      of the file do not all fit. */
  lemma {:induction false} NextLine(file: Text, done: seq<Text>, offset: nat)
    requires Completes(file, done, offset)
    ensures var r := Rest(file, offset);
      var end := FindEnd(r, 0);
      && (forall k :: 0 <= k < |r| ==> r[k] == At(file, offset + k)) && (r == [] <==> |file| <= offset)
      && (r == [] ==> done == Lines(file) && AllFit(Lines(file)))
      && (r != [] && end > HOST_MAX ==> !AllFit(Lines(file)))
      && (r != [] && end <= HOST_MAX ==>
            if end < |r| && r[end] == CR then Completes(file, done + [r[..end]], offset + end + 2)
            else done + [r[..end]] == Lines(file) && AllFit(Lines(file)))
  {
    hide FindEnd, Lines, Rest, At, AllFit;
    var r := Rest(file, offset);
    var end := FindEnd(r, 0);
    RestBytes(file, offset);
    if r != [] {
      HeadOfLines(r);
      var more := end < |r| && r[end] == CR;
      var rest := if more then Lines(r[Min(end + 2, |r|)..]) else [];
      Regrouped(done, r[..end], rest);
      FitsMore(done, r[..end], rest);
      if more {
        RestOfRest(file, offset, end + 2);
      } else {
        assert done + [r[..end]] + [] == done + [r[..end]];
      }
    } else {
      NoLines();
      assert done + [] == done;
    }
  }

  lemma {:induction false} FitsMore(done: seq<Text>, line: Text, rest: seq<Text>)
    requires AllFit(done)
    ensures AllFit(done + [line]) <==> |line| <= HOST_MAX
    ensures |line| > HOST_MAX ==> !AllFit(done + [line] + rest)
  {
    assert (done + [line])[|done|] == line && (done + [line] + rest)[|done|] == line;
  }

  lemma {:induction false} Regrouped(done: seq<Text>, line: Text, rest: seq<Text>)
    ensures done + ([line] + rest) == done + [line] + rest
  {
  }

  lemma {:induction false} RestOfRest(file: Text, offset: nat, d: nat)
    ensures var r := Rest(file, offset); r[Min(d, |r|)..] == Rest(file, offset + d)
  {
  }

  lemma {:induction false} HeadOfLines(r: Text)
    requires r != []
    ensures var end := FindEnd(r, 0);
      Lines(r) == [r[..end]] + (if end < |r| && r[end] == CR then Lines(r[Min(end + 2, |r|)..]) else [])
  {
  }

  lemma {:induction false} RestBytes(file: Text, offset: nat)
    ensures var r := Rest(file, offset);
      (forall k :: 0 <= k < |r| ==> r[k] == At(file, offset + k)) && (r == [] <==> |file| <= offset)
  {
  }

  /** What a scan from place `i` of the window meets: the end of the line, of the file or of the window. */
  lemma {:induction false} WindowStops(file: Text, offset: nat, i: nat, buff: Text)
    requires |buff| == CHUNK && i < CHUNK - 1 && buff[CHUNK - 1] == 0
    requires forall k :: 0 <= k < CHUNK - 1 ==> buff[k] == At(file, offset + k)
    ensures var r := Rest(file, offset + i);
      var end := FindEnd(r, 0);
      var stop := Min(end, CHUNK - 1 - i);
      && (buff[i + stop] == CR || buff[i + stop] == 0)
      && (buff[i + stop] == CR <==> end < |r| && r[end] == CR && i + end < CHUNK - 1)
      && (forall k :: i <= k < i + stop ==> buff[k] != CR && buff[k] != 0)
      && buff[i..i + stop] == r[..stop]
  {
    RestBytes(file, offset + i);
    var r := Rest(file, offset + i);
    assert forall k :: 0 <= k < |r| && i + k < CHUNK - 1 ==> buff[i + k] == r[k];
  }

  ghost predicate Grown(was: seq<HostEntry>, nodes: seq<HostEntry>) {
    |was| <= |nodes| && nodes[..|was|] == was
  }

  /** The list holds what it held before, and the hosts read since. */
  ghost predicate Extended(was: seq<HostEntry>, nodes: seq<HostEntry>, done: seq<Text>) {
    Names(nodes) == Names(was) + done
  }

  lemma {:induction false} Extend(was: seq<HostEntry>, nodes: seq<HostEntry>, done: seq<Text>, e: HostEntry)
    requires Extended(was, nodes, done)
    ensures Extended(was, nodes + [e], done + [e.name])
  {
    assert Names(nodes + [e]) == Names(nodes) + [e.name];
  }

  lemma {:induction false} StartOfFile(file: Text, was: seq<HostEntry>)
    ensures Extended(was, was, []) && Completes(file, [], 0)
  {
  }

  /** One host more at the end of the list. */
  method AppendLine(list: List, len: array<Byte>, l: nat, ghost was: seq<HostEntry>, ghost done: seq<Text>)
    requires list.Valid() && l <= len.Length && Extended(was, list.nodes, done)
    modifies list, list.header, list.nodes
    ensures list.Valid() && Extended(was, list.nodes, done + [len[..l]])
    ensures Grown(old(list.nodes), list.nodes)
    ensures |list.nodes| == |old(list.nodes)| + 1 && fresh(list.nodes[|old(list.nodes)|])
  {
    hide Extended, Names;
    ghost var nodes := list.nodes;
    var e := list.AddHost(len[..], l);
    assert len[..][..l] == len[..l];
    Extend(was, nodes, done, e);
  }

  /** One window: its complete lines go to the list. `i` is the number of bytes they take; if there is none, `len` holds
      the last line of the file. */
  method ReadWindow(ghost file: Text, ghost offset: nat, list: List, buff: array<Byte>, len: array<Byte>,
                    ghost was: seq<HostEntry>, ghost done0: seq<Text>)
    returns (inside: bool, i: nat, lines: nat, ghost done: seq<Text>)
    requires offset < |file| && list.Valid() && Extended(was, list.nodes, done0) && Completes(file, done0, offset)
    requires buff.Length == CHUNK && len.Length == HOST_MAX && buff != len && buff[CHUNK - 1] == 0
    requires forall k :: 0 <= k < CHUNK - 1 ==> buff[k] == At(file, offset + k)
    modifies list, list.header, list.nodes, len
    ensures list.Valid() && Grown(old(list.nodes), list.nodes)
    ensures forall k :: |old(list.nodes)| <= k < |list.nodes| ==> fresh(list.nodes[k])
    ensures !inside ==> !AllFit(Lines(file))
    ensures inside ==> Extended(was, list.nodes, done) && i <= CHUNK && (lines == 0 <==> i == 0)
    ensures inside && lines > 0 ==> Completes(file, done, offset + i)
    ensures inside && lines == 0 ==> LastIn(file, done, len[..])
  {
    hide Lines, Rest, Names, FindEnd, Extended, List.Valid, Completes, LastIn;
    inside, i, lines, done := true, 0, 0, done0;
    while i < CHUNK - 1
      invariant inside && i <= CHUNK && (lines == 0 <==> i == 0)
      invariant Extended(was, list.nodes, done) && list.Valid()
      invariant Grown(old(list.nodes), list.nodes)
      invariant forall k :: |old(list.nodes)| <= k < |list.nodes| ==> fresh(list.nodes[k])
      invariant Completes(file, done, offset + i)
      decreases CHUNK - i
    {
      ghost var r := Rest(file, offset + i);
      ghost var stop := Min(FindEnd(r, 0), CHUNK - 1 - i);
      NextLine(file, done, offset + i);
      WindowStops(file, offset, i, buff[..]);
      var lastLineOffset;
      inside, lastLineOffset := ScanLine(buff, i, len, stop);
      if !inside { return; }
      if lastLineOffset == 0 {
        if lines == 0 {
          LastHere(file, done, offset, stop, len[..]);
        }
        break;
      }
      var l := StrNLen(len, stop);
      assert forall k :: 0 <= k < |list.nodes| ==> list.nodes[k] in old(list.nodes) || fresh(list.nodes[k]);
      AppendLine(list, len, l, was, done);
      done := done + [len[..l]];
      i := i + lastLineOffset;
      lines := lines + 1;
    }
  }

  /** The line buffer holds the last line of the file. */
  ghost predicate LastIn(file: Text, done: seq<Text>, len: Text) {
    && |len| == HOST_MAX && AllFit(Lines(file))
    && exists l :: 0 <= l <= HOST_MAX && done + [len[..l]] == Lines(file)
                   && (forall k :: 0 <= k < l ==> len[k] != 0) && forall k :: l <= k < HOST_MAX ==> len[k] == 0
  }

  lemma {:induction false} LastHere(file: Text, done: seq<Text>, offset: nat, stop: nat, len: Text)
    requires |len| == HOST_MAX && stop <= HOST_MAX && forall k :: stop <= k < HOST_MAX ==> len[k] == 0
    requires var r := Rest(file, offset);
      var end := FindEnd(r, 0);
      end == stop && len[..stop] == r[..stop] && done + [r[..end]] == Lines(file) && AllFit(Lines(file))
    ensures LastIn(file, done, len)
  {
    hide Lines, Rest, AllFit;
    forall k | 0 <= k < stop ensures len[k] != 0 {
      assert len[..stop][k] == Rest(file, offset)[..stop][k];
    }
  }

  /** The rest of the file, which no line end follows, is its last line. */
  method LastLine(file: Text, offset: nat, list: List, buff: array<Byte>, len: array<Byte>,
                  ghost was: seq<HostEntry>, ghost done0: seq<Text>) returns (ghost done: seq<Text>)
    requires list.Valid() && Extended(was, list.nodes, done0) && buff.Length == CHUNK && len.Length == HOST_MAX
    requires buff != len && LastIn(file, done0, len[..])
    modifies list, list.header, list.nodes, buff
    ensures list.Valid() && Extended(was, list.nodes, done) && done == Lines(file)
    ensures Grown(old(list.nodes), list.nodes)
    ensures forall k :: |old(list.nodes)| <= k < |list.nodes| ==> fresh(list.nodes[k])
  {
    hide Lines, Names, Extended, List.Valid;
    ghost var end: nat :| end <= HOST_MAX && done0 + [len[..][..end]] == Lines(file)
      && (forall k :: 0 <= k < end ==> len[..][k] != 0) && forall k :: end <= k < HOST_MAX ==> len[..][k] == 0;
    assert forall k :: 0 <= k < HOST_MAX ==> len[..][k] == len[k];
    assert len[..][..end] == len[..end];
    var ok := ReadFile(file, offset, buff);
    var l := StrNLen(len, end);
    AppendLine(list, len, l, was, done0);
    done := done0 + [len[..l]];
  }

  /** `load_file`: the lines of the file go to the end of the list, in file order, wherever the windows of 255 bytes cut
      them. `inside`: no line ran over the end of the line buffer. Offsets must stay in 32 bits. */
  method LoadFile(file: Text, list: List) returns (inside: bool)
    requires list.Valid() && |file| + CHUNK < ULONG_RANGE
    modifies list, list.header, list.nodes
    ensures list.Valid() && Grown(old(list.nodes), list.nodes)
    ensures forall k :: |old(list.nodes)| <= k < |list.nodes| ==> fresh(list.nodes[k])
    ensures inside <==> AllFit(Lines(file))
    ensures inside ==> Names(list.nodes) == Names(old(list.nodes)) + Lines(file)
    ensures forall lines, last :: IsFile(file, lines, last) ==>
      var all := AllLines(lines, last);
      && (inside <==> forall k :: 0 <= k < |all| ==> |all[k]| <= 128)
      && (inside ==> Names(list.nodes) == Names(old(list.nodes)) + all)
  {
    hide Lines, Rest, Names, FindEnd, Extended, List.Valid, Completes, AllFit, LastIn, IsFile, AllLines;
    FileFits(file);
    ghost var was, done := list.nodes, [];
    var offset := 0;
    var buff, len := new Byte[CHUNK], new Byte[HOST_MAX];
    StartOfFile(file, was);
    inside := true;
    while true
      invariant inside && 0 <= offset <= |file| + CHUNK
      invariant Extended(was, list.nodes, done) && list.Valid()
      invariant Grown(old(list.nodes), list.nodes)
      invariant forall k :: |old(list.nodes)| <= k < |list.nodes| ==> fresh(list.nodes[k])
      invariant Completes(file, done, offset)
      decreases |file| + CHUNK - offset
    {
      var ok := ReadFile(file, offset, buff);
      NextLine(file, done, offset);
      if !ok { break; }
      buff[CHUNK - 1] := 0;
      assert forall k :: 0 <= k < |list.nodes| ==> list.nodes[k] in old(list.nodes) || fresh(list.nodes[k]);
      var i, lines;
      inside, i, lines, done := ReadWindow(file, offset, list, buff, len, was, done);
      if !inside { return; }
      if lines == 0 {
        assert forall k :: 0 <= k < |list.nodes| ==> list.nodes[k] in old(list.nodes) || fresh(list.nodes[k]);
        LastFits(file, done, len[..]);
        done := LastLine(file, offset, list, buff, len, was, done);
        break;
      }
      offset := (offset + i) % ULONG_RANGE;
    }
    assert Names(list.nodes) == Names(was) + done by { TakeExtended(was, list.nodes, done); }
  }

  lemma {:induction false} FileFits(file: Text)
    ensures forall lines, last :: IsFile(file, lines, last) ==>
      var all := AllLines(lines, last);
      Lines(file) == all && (AllFit(Lines(file)) <==> forall k :: 0 <= k < |all| ==> |all[k]| <= 128)
  {
    hide Lines, IsFile, AllLines;
    forall lines, last | IsFile(file, lines, last) ensures Lines(file) == AllLines(lines, last) {
      FileLines(file, lines, last);
    }
  }

  lemma {:induction false} LastFits(file: Text, done: seq<Text>, len: Text)
    requires LastIn(file, done, len)
    ensures AllFit(Lines(file))
  {
  }

  lemma {:induction false} TakeExtended(was: seq<HostEntry>, nodes: seq<HostEntry>, done: seq<Text>)
    requires Extended(was, nodes, done)
    ensures Names(nodes) == Names(was) + done
  {
  }
}
