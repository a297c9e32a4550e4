/** The cyclic log queue of sys/tdi_fw/src/filter.c: `log_request` and `get_request`. */
module RequestLog {
  import opened Bytes

  const QUEUE_SIZE := 1024
  const NO_PID := 0xFFFF_FFFF
  const TYPE_RESOLVE_PID := 3

  /** A SID block: the address it lies at, its pointer to the SID behind it, and its other bytes. */
  datatype SidBlock = SidBlock(address: int, pointer: int, rest: Text)

  /** `struct flt_request`. Fields that the queue only carries are kept as bytes, in their place:
      `route` is status to proto, `packet` is addr and packet, `extra` is the byte counts and the rule id. */
  datatype Request = Request(structSize: nat, kind: nat, route: Text, pid: nat, sidSize: nat, packet: Text,
                             logSkipped: nat, extra: Text, pointers: Text,
                             pname: Option<Text>, sid: Option<SidBlock>)

  const ROUTE_SIZE := 16
  const PACKET_SIZE := 47
  const EXTRA_SIZE := 40
  const POINTERS_SIZE := 8
  const HEADER_SIZE := 131

  /** Sizes add up, strings hold no terminator, and a SID block has the size the request says. */
  predicate WellFormed(r: Request) {
    && r.structSize < 0x8000_0000 && r.kind < ULONG_RANGE && r.pid < ULONG_RANGE && r.logSkipped < ULONG_RANGE
    && |r.route| == ROUTE_SIZE && |r.packet| == PACKET_SIZE && |r.extra| == EXTRA_SIZE && |r.pointers| == POINTERS_SIZE
    && r.sidSize < 0x4000_0000
    && (r.pname.Some? ==> 0 !in r.pname.value && |r.pname.value| < 0x1000_0000)
    && (r.sid.Some? ==> r.sidSize == 4 + |r.sid.value.rest|)
  }

  // ---- The record that a reader of the log receives --------------------------------------------

  function PnameSize(r: Request): nat {
    if r.pname.Some? then |r.pname.value| + 1 else 0
  }

  function SidSize(r: Request): nat {
    if r.sid.Some? then r.sidSize else 0
  }

  function RecordSize(r: Request): nat {
    HEADER_SIZE + PnameSize(r) + SidSize(r)
  }

  /** Everything of the fixed part behind the size field. */
  function HeaderRest(r: Request): (s: Text) {
    Le32(r.kind) + r.route + Le32(r.pid) + Le32(r.sidSize) + r.packet + Le32(r.logSkipped) + r.extra + r.pointers
  }

  /** The SID block with its pointer made relative to the block. */
  function SidBytes(s: SidBlock): (b: Text)
    ensures |b| == 4 + |s.rest|
  {
    Le32(s.pointer - s.address) + s.rest
  }

  function TailBytes(r: Request): (s: Text)
    requires WellFormed(r)
    ensures |s| == PnameSize(r) + SidSize(r)
  {
    (if r.pname.Some? then r.pname.value + [0] else []) + (if r.sid.Some? then SidBytes(r.sid.value) else [])
  }

  /** One record: the request with its size grown, then the process name, then the SID block. */
  function Encode(r: Request): (s: Text)
    requires WellFormed(r)
    ensures |s| == RecordSize(r)
  {
    Le32(r.structSize + PnameSize(r) + SidSize(r)) + HeaderRest(r) + TailBytes(r)
  }

  function EncodeAll(rs: seq<Request>): Text
    requires forall k :: 0 <= k < |rs| ==> WellFormed(rs[k])
  {
    if rs == [] then [] else Encode(rs[0]) + EncodeAll(rs[1..])
  }

  function Encodings(rs: seq<Request>): seq<Text>
    requires forall k :: 0 <= k < |rs| ==> WellFormed(rs[k])
  {
    seq(|rs|, k requires 0 <= k < |rs| => Encode(rs[k]))
  }

  /** What a reader sees who steps through a buffer by the size at the front of each record. */
  function Frames(s: Text): seq<Text> {
    if |s| < 4 || ReadLe32(s) == 0 || ReadLe32(s) > |s| then []
    else [s[..ReadLe32(s)]] + Frames(s[ReadLe32(s)..])
  }

  /** The skip count that a record carries. */
  function SkippedIn(frame: Text): nat
    requires HEADER_SIZE <= |frame|
  {
    ReadLe32(frame[79..83])
  }

  lemma {:induction false} SizeField(r: Request, s: Text)
    requires WellFormed(r) && r.structSize == HEADER_SIZE
    ensures ReadLe32(Encode(r) + s) == RecordSize(r)
  {
  }

  lemma {:induction false} SkipField(r: Request)
    requires WellFormed(r)
    ensures HEADER_SIZE <= |Encode(r)| && SkippedIn(Encode(r)) == r.logSkipped
  {
    hide Le32, TailBytes;
    var e := Encode(r);
    var before := Le32(r.structSize + PnameSize(r) + SidSize(r)) + Le32(r.kind) + r.route + Le32(r.pid)
                  + Le32(r.sidSize) + r.packet;
    var after := r.extra + r.pointers + TailBytes(r);
    assert e == before + (Le32(r.logSkipped) + after);
    assert |before| == 79;
    assert e[79..83] == (Le32(r.logSkipped) + after)[..4] == Le32(r.logSkipped);
    Le32RoundTrip(r.logSkipped);
  }

  /** Framing: stepping through the output by the size fields visits exactly the records, and
      ends at the end of the output. */
  lemma {:induction false} FramesExact(rs: seq<Request>)
    requires forall k :: 0 <= k < |rs| ==> WellFormed(rs[k]) && rs[k].structSize == HEADER_SIZE
    ensures Frames(EncodeAll(rs)) == Encodings(rs)
    ensures forall k :: 0 <= k < |rs| ==> SkippedIn(Frames(EncodeAll(rs))[k]) == rs[k].logSkipped
    decreases |rs|
  {
    hide Encode, SkippedIn;
    if rs != [] {
      var e, s := Encode(rs[0]), EncodeAll(rs[1..]);
      SizeField(rs[0], s);
      assert (e + s)[..|e|] == e && (e + s)[|e|..] == s;
      FramesExact(rs[1..]);
      assert Encodings(rs) == [e] + Encodings(rs[1..]);
      forall k | 0 <= k < |rs| ensures SkippedIn(Encodings(rs)[k]) == rs[k].logSkipped {
        SkipField(rs[k]);
      }
    } else {
      assert Encodings(rs) == [];
    }
  }

  // ---- What a reader of a record finds ----------------------------------------------------------

  /** Four bytes, the lowest first. */
  function Num(s: Text, i: nat): int
    requires i + 4 <= |s|
  {
    var a: int, b: int, c: int, d: int := s[i], s[i + 1], s[i + 2], s[i + 3];
    a + 256 * b + 65536 * c + 16777216 * d
  }

  /** Byte for byte where ipc.h has them: the size, the type, status to proto, the process, the size of the SID block,
      addresses and packet, the skip count, byte counts and rule, two pointers; then the name up to its zero; then the
      SID block, which starts with its pointer, counted from the block on. */
  ghost predicate Shows(f: Text, r: Request) {
    && 131 <= |f| && Num(f, 0) == |f|
    && Num(f, 4) == r.kind && f[8..24] == r.route && Num(f, 24) == r.pid && Num(f, 28) == r.sidSize
    && f[32..79] == r.packet && Num(f, 79) == r.logSkipped && f[83..123] == r.extra && f[123..131] == r.pointers
    && var name := if r.pname.Some? then r.pname.value + [0] else [];
    && 131 + |name| <= |f| && f[131..131 + |name|] == name
    && ShowsSid(f, 131 + |name|, r.sid)
  }

  ghost predicate ShowsSid(f: Text, at: nat, sid: Option<SidBlock>) {
    if sid == None then |f| == at
    else
      && |f| == at + 4 + |sid.value.rest|
      && Num(f, at) == (sid.value.pointer - sid.value.address) % 4294967296
      && f[at + 4..] == sid.value.rest
  }

  lemma {:induction false} NumAt(s: Text, i: nat, n: int)
    requires i + 4 <= |s| && s[i..i + 4] == Le32(n)
    ensures Num(s, i) == n % 4294967296
  {
    var f := s[i..i + 4];
    assert f[0] == s[i] && f[1] == s[i + 1] && f[2] == s[i + 2] && f[3] == s[i + 3];
    Digits(n % 4294967296);
  }

  lemma {:induction false} Digits(v: nat)
    requires v < 4294967296
    ensures var w := v / 256;
      v % 256 + 256 * (w % 256) + 65536 * (w / 256 % 256) + 16777216 * (w / 256 / 256 % 256) == v
  {
  }

  /** The fields of a text that is put together from nine of them. */
  lemma {:induction false} Fields(a: Text, b: Text, c: Text, d: Text, e: Text, f: Text, g: Text, h: Text, i: Text,
                                  tail: Text)
    requires |a| == |b| == |d| == |e| == |g| == 4 && |c| == 16 && |f| == 47 && |h| == 40 && |i| == 8
    ensures var s := a + (b + c + d + e + f + g + h + i) + tail;
      && s[0..4] == a && s[4..8] == b && s[8..24] == c && s[24..28] == d && s[28..32] == e && s[32..79] == f
      && s[79..83] == g && s[83..123] == h && s[123..131] == i && s[131..] == tail
  {
    var front := a + (b + c + d + e + f + g + h + i);
    assert |front| == 131 && (front + tail)[131..] == tail;
  }

  /** A record shows its request. */
  lemma {:induction false} RecordShows(r: Request)
    requires WellFormed(r) && r.structSize == 131
    ensures Shows(Encode(r), r)
  {
    HeaderShows(r);
    TailShows(Encode(r), r);
  }

  lemma {:induction false} HeaderShows(r: Request)
    requires WellFormed(r) && r.structSize == 131
    ensures var f := Encode(r);
      && 131 <= |f| && Num(f, 0) == |f|
      && Num(f, 4) == r.kind && f[8..24] == r.route && Num(f, 24) == r.pid && Num(f, 28) == r.sidSize
      && f[32..79] == r.packet && Num(f, 79) == r.logSkipped && f[83..123] == r.extra && f[123..131] == r.pointers
      && f[131..] == TailBytes(r)
  {
    hide Le32, Num, TailBytes;
    var size := r.structSize + PnameSize(r) + SidSize(r);
    var f := Encode(r);
    Fields(Le32(size), Le32(r.kind), r.route, Le32(r.pid), Le32(r.sidSize), r.packet, Le32(r.logSkipped), r.extra,
           r.pointers, TailBytes(r));
    NumAt(f, 0, size);
    NumAt(f, 4, r.kind);
    NumAt(f, 24, r.pid);
    NumAt(f, 28, r.sidSize);
    NumAt(f, 79, r.logSkipped);
  }

  lemma {:induction false} TailShows(f: Text, r: Request)
    requires WellFormed(r) && 131 <= |f| && f[131..] == TailBytes(r)
    ensures var name := if r.pname.Some? then r.pname.value + [0] else [];
      && 131 + |name| <= |f| && f[131..131 + |name|] == name && ShowsSid(f, 131 + |name|, r.sid)
  {
    hide Le32, Num, SidBytes, ShowsSid, WellFormed;
    var name: Text := if r.pname.Some? then r.pname.value + [0] else [];
    var sid: Text := if r.sid.Some? then SidBytes(r.sid.value) else [];
    Behind(f, 131, name, sid);
    SidShows(f, 131 + |name|, r.sid);
  }

  lemma {:induction false} SidShows(f: Text, at: nat, sid: Option<SidBlock>)
    requires at <= |f| && f[at..] == if sid.Some? then SidBytes(sid.value) else []
    ensures ShowsSid(f, at, sid)
  {
    hide Le32, Num;
    if sid.Some? {
      Behind(f, at, Le32(sid.value.pointer - sid.value.address), sid.value.rest);
      NumAt(f, at, sid.value.pointer - sid.value.address);
    } else {
      assert |f[at..]| == |f| - at;
    }
  }

  lemma {:induction false} Behind(s: Text, i: nat, a: Text, b: Text)
    requires i <= |s| && s[i..] == a + b
    ensures i + |a| <= |s| && s[i..i + |a|] == a && s[i + |a|..] == b
  {
    assert |s| - i == |a| + |b|;
    assert s[i..i + |a|] == s[i..][..|a|];
    assert s[i + |a|..] == s[i..][|a|..];
  }

  /** Cut at their size fields, the bytes delivered are records that show the requests taken, one by one. */
  lemma {:induction false} FramesShow(rs: seq<Request>)
    requires forall k :: 0 <= k < |rs| ==> WellFormed(rs[k]) && rs[k].structSize == 131
    ensures |Frames(EncodeAll(rs))| == |rs|
    ensures forall k :: 0 <= k < |rs| ==> Shows(Frames(EncodeAll(rs))[k], rs[k])
  {
    hide Encode, Shows, WellFormed, EncodeAll, Frames;
    FramesExact(rs);
    forall k | 0 <= k < |rs| ensures Shows(Encodings(rs)[k], rs[k]) {
      RecordShows(rs[k]);
    }
  }

  lemma {:induction false} NothingEncoded()
    ensures EncodeAll([]) == []
  {
  }

  lemma {:induction false} EncodeAppend(rs: seq<Request>, r: Request)
    requires (forall k :: 0 <= k < |rs| ==> WellFormed(rs[k])) && WellFormed(r)
    ensures EncodeAll(rs + [r]) == EncodeAll(rs) + Encode(r)
    decreases |rs|
  {
    hide Encode;
    if rs == [] {
      assert rs + [r] == [r] && [r][1..] == [];
      assert EncodeAll([r]) == Encode(r) + EncodeAll([]);
    } else {
      assert (rs + [r])[1..] == rs[1..] + [r];
      EncodeAppend(rs[1..], r);
    }
  }

  // ---- Counting what was lost -------------------------------------------------------------------

  function SkipSum(rs: seq<Request>): nat {
    if rs == [] then 0 else rs[0].logSkipped + SkipSum(rs[1..])
  }

  lemma {:induction false} SkipSumAppend(a: seq<Request>, r: Request)
    ensures SkipSum(a + [r]) == SkipSum(a) + r.logSkipped
    decreases |a|
  {
    if a == [] {
      assert a + [r] == [r] && [r][1..] == [];
    } else {
      assert (a + [r])[1..] == a[1..] + [r];
      SkipSumAppend(a[1..], r);
    }
  }

  /** Nothing is lost unseen: what was accepted is delivered, queued or dropped, and the skip counts
      of delivered and queued entries add up to the number dropped (modulo the width of the counter). */
  ghost predicate Conserved(accepted: nat, delivered: seq<Request>, queued: seq<Request>) {
    var dropped := accepted - |delivered| - |queued|;
    var skips := SkipSum(delivered) + SkipSum(queued);
    0 <= dropped && skips <= dropped && (dropped - skips) % ULONG_RANGE == 0
  }

  /** Below the counter's width the count is exact. */
  lemma {:induction false} ConservedExactly(accepted: nat, delivered: seq<Request>, queued: seq<Request>)
    requires Conserved(accepted, delivered, queued)
    requires accepted - |delivered| - |queued| < ULONG_RANGE
    ensures SkipSum(delivered) + SkipSum(queued) == accepted - |delivered| - |queued|
  {
  }

  /** The entries at strictly increasing places of a history. */
  ghost predicate Subsequence(part: seq<Request>, places: seq<nat>, history: seq<Request>) {
    && |places| == |part|
    && (forall a, b :: 0 <= a < b < |places| ==> places[a] < places[b])
    && (forall a :: 0 <= a < |places| ==> places[a] < |history| && history[places[a]] == part[a])
  }

  /** The slots from `tail` up to `head`, around the end of the array. */
  function Window(slots: seq<Request>, tail: nat, head: nat): (r: seq<Request>)
    requires |slots| == QUEUE_SIZE && tail < QUEUE_SIZE && head < QUEUE_SIZE
    ensures |r| == if tail <= head then head - tail else head - tail + QUEUE_SIZE
    ensures forall k :: 0 <= k < |r| ==>
      r[k] == slots[if tail + k < QUEUE_SIZE then tail + k else tail + k - QUEUE_SIZE]
  {
    if tail <= head then slots[tail..head] else slots[tail..] + slots[..head]
  }

  lemma {:induction false} WindowDrops(slots: seq<Request>, tail: nat, head: nat, x: Request)
    requires |slots| == QUEUE_SIZE && tail < QUEUE_SIZE && head < QUEUE_SIZE && tail != head
    ensures Window(slots[tail := x], (tail + 1) % QUEUE_SIZE, head) == Window(slots, tail, head)[1..]
  {
    hide Window;
    var a, b := Window(slots[tail := x], (tail + 1) % QUEUE_SIZE, head), Window(slots, tail, head)[1..];
    assert (tail + 1) % QUEUE_SIZE == if tail + 1 < QUEUE_SIZE then tail + 1 else 0;
    assert |a| == |b| && forall k :: 0 <= k < |a| ==> a[k] == b[k];
  }

  lemma {:induction false} WindowAppends(slots: seq<Request>, tail: nat, head: nat, x: Request)
    requires |slots| == QUEUE_SIZE && tail < QUEUE_SIZE && head < QUEUE_SIZE && (head + 1) % QUEUE_SIZE != tail
    ensures Window(slots[head := x], tail, (head + 1) % QUEUE_SIZE) == Window(slots, tail, head) + [x]
  {
  }

  /** The queue holds the last requests accepted, in order; what was delivered came before them; and
      nothing is lost unseen. */
  ghost predicate History(accepted: seq<Request>, delivered: seq<Request>, places: seq<nat>, live: seq<Request>) {
    && |live| <= |accepted| && live == accepted[|accepted| - |live|..]
    && Subsequence(delivered, places, accepted)
    && (forall a :: 0 <= a < |places| ==> places[a] < |accepted| - |live|)
    && Conserved(|accepted|, delivered, live)
    && (forall k :: 0 <= k < |live| ==> WellFormed(live[k]))
  }

  /** One more request accepted, at the cost of the oldest one if the queue was full. */
  lemma {:induction false} HistoryLogs(accepted: seq<Request>, delivered: seq<Request>, places: seq<nat>,
                                       live: seq<Request>, r: Request, full: bool)
    requires History(accepted, delivered, places, live) && WellFormed(r) && (full ==> live != [])
    requires r.logSkipped == if full then (live[0].logSkipped + 1) % ULONG_RANGE else 0
    ensures History(accepted + [r], delivered, places, (if full then live[1..] else live) + [r])
  {
    hide SkipSum;
    var kept := if full then live[1..] else live;
    var n := |accepted| - |kept|;
    assert kept == accepted[n..];
    assert kept + [r] == (accepted + [r])[n..];
    assert Conserved(|accepted| + 1, delivered, kept + [r]) by {
      SkipSumAppend(kept, r);
      if full {
        assert WellFormed(live[0]);
        DroppedOne(|accepted|, delivered, live, r);
      }
    }
  }

  /** The oldest queued request is delivered. */
  lemma {:induction false} HistoryTakes(accepted: seq<Request>, delivered: seq<Request>, places: seq<nat>,
                                        live: seq<Request>)
    requires History(accepted, delivered, places, live) && live != []
    ensures |live| <= |accepted|
    ensures History(accepted, delivered + [live[0]], places + [|accepted| - |live|], live[1..])
  {
    hide WellFormed;
    var n := |accepted| - |live|;
    assert live[1..] == accepted[n + 1..];
    SkipSumAppend(delivered, live[0]);
    assert SkipSum(live) == live[0].logSkipped + SkipSum(live[1..]);
  }

  class RequestQueue {
    const data: array<Request>
    var head: nat
    var tail: nat
    /** Every request that entered the queue, as stored; the delivered ones, and their places in that history. */
    ghost var accepted: seq<Request>
    ghost var delivered: seq<Request>
    ghost var places: seq<nat>

    /** The slots from tail to head. */
    function Live(): seq<Request>
      requires Shaped()
      reads this`head, this`tail, data
    {
      Window(data[..], tail, head)
    }

    predicate Shaped()
      reads this`head, this`tail
    {
      data.Length == QUEUE_SIZE && head < QUEUE_SIZE && tail < QUEUE_SIZE
    }

    ghost predicate Valid()
      reads this, data
    {
      Shaped() && History(accepted, delivered, places, Live())
    }

    constructor ()
      ensures Valid() && Live() == [] && accepted == [] && delivered == [] && fresh(data)
    {
      data := new Request[QUEUE_SIZE](_ => Request(0, 0, [], 0, 0, [], 0, [], [], None, None));
      head, tail := 0, 0;
      accepted, delivered, places := [], [], [];
    }

    /** What is stored for a request that finds the queue like this. */
    function Stored(request: Request, pname: Option<Text>, pointers: Text): Request
      requires Shaped()
      reads this, data
    {
      request.(logSkipped := if |Live()| == QUEUE_SIZE - 1 then (Live()[0].logSkipped + 1) % ULONG_RANGE else 0,
               pname := if request.pid == NO_PID then None else pname,
               pointers := pointers)
    }

    /** `log_request`: `resolved` is the name found for the request's process, `pointers` what the two
        pointer fields hold in the slot. The caller's request loses its SID block to the queue. */
    method LogRequest(request: Request, gotLog: bool, resolved: Option<Text>, pointers: Text)
      returns (ok: bool, request': Request)
      requires Valid() && WellFormed(request) && |pointers| == POINTERS_SIZE
      requires resolved.Some? ==> 0 !in resolved.value && |resolved.value| < 256
      modifies this, data
      ensures Valid()
      ensures ok == (gotLog || request.kind != TYPE_RESOLVE_PID)
      ensures !ok ==>
        Live() == old(Live()) && accepted == old(accepted) && delivered == old(delivered) && request' == request
      ensures ok ==>
        var r := old(Stored(request, resolved, pointers));
        && accepted == old(accepted) + [r]
        && delivered == old(delivered) && places == old(places)
        && Live() == (if |old(Live())| == QUEUE_SIZE - 1 then old(Live())[1..] else old(Live())) + [r]
        && request' == request.(logSkipped := r.logSkipped, sid := None)
      ensures ok ==>
        var live := old(Live());
        var skips := if |live| == 1023 then (live[0].logSkipped + 1) % 4294967296 else 0;
        && Live() != []
        && Live()[|Live()| - 1] ==
           Request(request.structSize, request.kind, request.route, request.pid, request.sidSize, request.packet, skips,
                   request.extra, pointers, if request.pid == 4294967295 then None else resolved, request.sid)
    {
      hide History, SkipSum, Subsequence, Conserved, Window;
      if !gotLog && request.kind == TYPE_RESOLVE_PID {
        return false, request;
      }
      ghost var live := Live();
      FullWhen();
      request' := request;
      if (head + 1) % QUEUE_SIZE == tail {
        request' := request'.(logSkipped := (data[tail].logSkipped + 1) % ULONG_RANGE);
        DropOldest();
      } else {
        request' := request'.(logSkipped := 0);
      }
      var pname := if request.pid != NO_PID then resolved else None;
      var r := request'.(pname := pname, pointers := pointers);
      Append(r);
      request' := request'.(sid := None);
      ok := true;
      HistoryLogs(accepted, delivered, places, live, r, |live| == QUEUE_SIZE - 1);
      accepted := accepted + [r];
    }

    lemma {:induction false} FullWhen()
      requires Shaped()
      ensures |Live()| < QUEUE_SIZE
      ensures (head + 1) % QUEUE_SIZE == tail <==> |Live()| == QUEUE_SIZE - 1
      ensures head != tail <==> Live() != []
      ensures Live() != [] ==> Live()[0] == data[tail]
    {
    }

    /** The oldest entry leaves the queue; its slot gives up its strings. */
    method DropOldest()
      requires Shaped() && Live() != []
      modifies this`tail, data
      ensures Shaped() && Live() == old(Live())[1..]
    {
      hide Window;
      WindowDrops(data[..], tail, head, data[tail].(pname := None, sid := None));
      ghost var slots := data[..];
      data[tail] := data[tail].(pname := None, sid := None);
      assert data[..] == slots[tail := data[tail]];
      tail := (tail + 1) % QUEUE_SIZE;
    }

    method Append(r: Request)
      requires Shaped() && |Live()| < QUEUE_SIZE - 1
      modifies this`head, data
      ensures Shaped() && Live() == old(Live()) + [r]
    {
      hide Window;
      WindowAppends(data[..], tail, head, r);
      ghost var slots := data[..];
      data[head] := r;
      assert data[..] == slots[head := r];
      head := (head + 1) % QUEUE_SIZE;
    }

    /** `get_request`: whole records, oldest first, while they fit; `taken` is how many. */
    method GetRequest(buf: array<Byte>, bufSize: nat) returns (result: nat, ghost taken: nat)
      requires Valid() && bufSize <= buf.Length
      modifies this, data, buf
      ensures Valid() && accepted == old(accepted)
      ensures taken <= |old(Live())|
      ensures Live() == old(Live())[taken..] && delivered == old(delivered) + old(Live())[..taken]
      ensures result <= bufSize && buf[..result] == EncodeAll(old(Live())[..taken])
      ensures buf[result..] == old(buf[result..])
      ensures (forall k :: 0 <= k < taken ==> old(Live())[k].structSize == 131) ==>
        && |Frames(buf[..result])| == taken
        && forall k :: 0 <= k < taken ==> Shows(Frames(buf[..result])[k], old(Live())[k])
      ensures bufSize < HEADER_SIZE ==> taken == 0
      ensures bufSize >= HEADER_SIZE && taken < |old(Live())| ==> bufSize < result + RecordSize(old(Live())[taken])
    {
      hide History, Live, WellFormed, Encode, EncodeAll, Subsequence, Conserved, Shows, Frames;
      result, taken := 0, 0;
      ghost var live := Live();
      AllWellFormed();
      NothingEncoded();
      FramesShow([]);
      if bufSize < HEADER_SIZE { return; }
      FullWhen();
      while head != tail
        invariant Valid() && accepted == old(accepted)
        invariant taken <= |live| && Live() == live[taken..] && delivered == old(delivered) + live[..taken]
        invariant result <= bufSize && buf[..result] == EncodeAll(live[..taken])
        invariant buf[result..] == old(buf[result..])
        decreases |Live()|
      {
        FullWhen();
        var r := data[tail];
        assert r == live[taken];
        var pnameSize := if r.pname.Some? then |r.pname.value| + 1 else 0;
        var sidSize := if r.sid.Some? then r.sidSize else 0;
        if bufSize - result < HEADER_SIZE + pnameSize + sidSize { break; }
        ghost var before := buf[..];
        WriteRecord(buf, result, r);
        Untouched(before, buf[..], result, result + RecordSize(r));
        EncodeAppend(live[..taken], r);
        assert live[..taken] + [r] == live[..taken + 1];
        result := result + HEADER_SIZE + pnameSize + sidSize;
        TakeOldest();
        taken := taken + 1;
      }
      FullWhen();
      if forall k :: 0 <= k < taken ==> live[k].structSize == 131 {
        FramesShow(live[..taken]);
      }
    }

    lemma {:induction false} AllWellFormed()
      requires Valid()
      ensures forall k :: 0 <= k < |Live()| ==> WellFormed(Live()[k])
    {
    }

    /** The oldest entry leaves the queue by way of a reader. */
    method TakeOldest()
      requires Valid() && Live() != []
      modifies this, data
      ensures Valid() && accepted == old(accepted)
      ensures Live() == old(Live())[1..] && delivered == old(delivered) + [old(Live())[0]]
    {
      hide History, Live;
      ghost var live := Live();
      DropOldest();
      HistoryTakes(accepted, delivered, places, live);
      delivered, places := delivered + [live[0]], places + [|accepted| - |live|];
    }
  }

  /** Writing between two places keeps the prefix and the suffix. */
  lemma {:induction false} Untouched(a: Text, b: Text, from: nat, to: nat)
    requires |a| == |b| && from <= to <= |a| && a[..from] == b[..from] && a[to..] == b[to..]
    ensures b[..to] == a[..from] + b[from..to]
    ensures b[to..] == a[from..][to - from..]
  {
  }

  /** One record, written field by field: the size field is rewritten as the record grows. */
  method WriteRecord(buf: array<Byte>, at: nat, r: Request)
    requires WellFormed(r) && at + RecordSize(r) <= buf.Length
    modifies buf
    ensures buf[..at] == old(buf[..at]) && buf[at + RecordSize(r)..] == old(buf[at + RecordSize(r)..])
    ensures buf[at..at + RecordSize(r)] == Encode(r)
    ensures r.structSize == 131 ==> Shows(buf[at..at + RecordSize(r)], r)
  {
    hide WellFormed, HeaderRest, Le32, SidBytes, Holds, Splice, Shows;
    RestSize(r);
    if r.structSize == 131 {
      RecordShows(r);
    }
    ghost var was, rest := buf[..], HeaderRest(r);
    var structSize := r.structSize;
    Put(buf, at, Le32(structSize) + HeaderRest(r));
    HoldsHeader(was, at, structSize, rest);
    ghost var tail := [];
    if r.pname.Some? {
      structSize := AddName(buf, at, structSize, r.pname.value, was, rest);
      tail := r.pname.value + [0];
    }
    if r.sid.Some? {
      var pnameSize := if r.pname.Some? then |r.pname.value| + 1 else 0;
      structSize := AddSid(buf, at, structSize, pnameSize, r.sid.value, was, rest, tail);
      tail := tail + SidBytes(r.sid.value);
    }
    assert tail == TailBytes(r);
    HoldsRecord(buf[..], was, at, structSize, rest, tail);
  }

  method AddName(buf: array<Byte>, at: nat, structSize: nat, name: Text, ghost was: Text, ghost rest: Text)
    returns (structSize': nat)
    requires Holds(buf[..], was, at, structSize, rest, []) && |rest| == HEADER_SIZE - 4
    requires at + HEADER_SIZE + |name| + 1 <= buf.Length == |was|
    modifies buf
    ensures structSize' == structSize + |name| + 1
    ensures Holds(buf[..], was, at, structSize', rest, name + [0])
  {
    hide Le32, Holds, Splice;
    structSize' := structSize + |name| + 1;
    HoldsMore(buf[..], was, at, structSize, rest, [], name + [0], structSize');
    assert [] + (name + [0]) == name + [0];
    Put(buf, at, Le32(structSize'));
    Put(buf, at + HEADER_SIZE, name + [0]);
  }

  method AddSid(buf: array<Byte>, at: nat, structSize: nat, pnameSize: nat, sid: SidBlock,
                ghost was: Text, ghost rest: Text, ghost tail: Text)
    returns (structSize': nat)
    requires Holds(buf[..], was, at, structSize, rest, tail) && |rest| == HEADER_SIZE - 4 && |tail| == pnameSize
    requires at + HEADER_SIZE + pnameSize + |SidBytes(sid)| <= buf.Length == |was|
    modifies buf
    ensures structSize' == structSize + |SidBytes(sid)|
    ensures Holds(buf[..], was, at, structSize', rest, tail + SidBytes(sid))
  {
    hide Le32, Holds, Splice, SidBytes;
    structSize' := structSize + |SidBytes(sid)|;
    HoldsMore(buf[..], was, at, structSize, rest, tail, SidBytes(sid), structSize');
    Put(buf, at + HEADER_SIZE + pnameSize, SidBytes(sid));
    Put(buf, at, Le32(structSize'));
  }

  lemma {:induction false} RestSize(r: Request)
    requires WellFormed(r)
    ensures |HeaderRest(r)| == HEADER_SIZE - 4
    ensures r.sid.Some? ==> |SidBytes(r.sid.value)| == r.sidSize
  {
  }

  method Put(buf: array<Byte>, at: nat, s: Text)
    requires at + |s| <= buf.Length
    modifies buf
    ensures buf[..] == Splice(old(buf[..]), at, s)
  {
    forall i | 0 <= i < |s| {
      buf[at + i] := s[i];
    }
  }

  function Splice(s: Text, at: nat, t: Text): (r: Text)
    requires at + |t| <= |s|
    ensures |r| == |s|
  {
    s[..at] + t + s[at + |t|..]
  }

  /** The buffer holds a record in the making: a size field, the other header bytes, and a tail. */
  ghost predicate Holds(now: Text, was: Text, at: nat, size: nat, rest: Text, tail: Text) {
    && at + 4 + |rest| + |tail| <= |was|
    && now == was[..at] + Le32(size) + rest + tail + was[at + 4 + |rest| + |tail|..]
  }

  lemma {:induction false} HoldsHeader(was: Text, at: nat, size: nat, rest: Text)
    requires at + 4 + |rest| <= |was|
    ensures Holds(Splice(was, at, Le32(size) + rest), was, at, size, rest, [])
  {
  }

  /** The tail grows and the size field is rewritten, in either order. */
  lemma {:induction false} HoldsMore(now: Text, was: Text, at: nat, size: nat, rest: Text, tail: Text, t: Text,
                                     size': nat)
    requires Holds(now, was, at, size, rest, tail) && at + 4 + |rest| + |tail| + |t| <= |was|
    ensures |now| == |was|
    ensures var end := at + 4 + |rest| + |tail|;
      && Holds(Splice(Splice(now, at, Le32(size')), end, t), was, at, size', rest, tail + t)
      && Holds(Splice(Splice(now, end, t), at, Le32(size')), was, at, size', rest, tail + t)
  {
    hide Le32;
    HoldsTail(now, was, at, size, rest, tail, t);
    HoldsSize(now, was, at, size, rest, tail, size');
    var end := at + 4 + |rest| + |tail|;
    HoldsSize(Splice(now, end, t), was, at, size, rest, tail + t, size');
    HoldsTail(Splice(now, at, Le32(size')), was, at, size', rest, tail, t);
  }

  lemma {:induction false} HoldsTail(now: Text, was: Text, at: nat, size: nat, rest: Text, tail: Text, t: Text)
    requires Holds(now, was, at, size, rest, tail) && at + 4 + |rest| + |tail| + |t| <= |was|
    ensures |now| == |was|
    ensures Holds(Splice(now, at + 4 + |rest| + |tail|, t), was, at, size, rest, tail + t)
  {
  }

  lemma {:induction false} HoldsSize(now: Text, was: Text, at: nat, size: nat, rest: Text, tail: Text, size': nat)
    requires Holds(now, was, at, size, rest, tail)
    ensures |now| == |was|
    ensures Holds(Splice(now, at, Le32(size')), was, at, size', rest, tail)
  {
  }

  lemma {:induction false} HoldsRecord(now: Text, was: Text, at: nat, size: nat, rest: Text, tail: Text)
    requires Holds(now, was, at, size, rest, tail)
    ensures var end := at + 4 + |rest| + |tail|;
      now[at..end] == Le32(size) + rest + tail && now[..at] == was[..at] && now[end..] == was[end..]
  {
  }

  lemma {:induction false} DroppedOne(accepted: nat, delivered: seq<Request>, live: seq<Request>, r: Request)
    requires live != [] && Conserved(accepted, delivered, live)
    requires r.logSkipped == (live[0].logSkipped + 1) % ULONG_RANGE && live[0].logSkipped < ULONG_RANGE
    ensures Conserved(accepted + 1, delivered, live[1..] + [r])
  {
    SkipSumAppend(live[1..], r);
  }
}
