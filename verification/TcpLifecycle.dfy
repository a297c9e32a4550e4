/** The life of one TCP connection as the handlers of sys/tdi_fw/src/disp_conn.c and sys/tdi_fw/src/ev_conn.c
    drive it: the state of the entry that a connection object owns, and the requests still outstanding. */
module TcpLifecycle {
  import opened Bytes
  import opened ConnTable

  datatype Opening = Idle | Connecting | Accepting

  /** `entry` is the state of the entry that the object owns, if it owns one. `pending` is the context of the
      outstanding disconnect request: the state it was sent for. */
  datatype Conn = Conn(entry: Option<int>, opening: Opening, pending: Option<int>)

  const CLOSED_CONN := Conn(None, Idle, None)

  datatype Event =
    | Connect                              // tdi_connect
    | ConnectDone(ok: bool)                // tdi_connect_complete
    | Accept                               // tdi_event_connect
    | AcceptDone(ok: bool)                 // tdi_evconn_accept_complete
    | Disconnect(release: bool, junk: int) // tdi_disconnect; `junk` is its uninitialised new_state
    | DisconnectDone(ok: bool)             // tdi_disconnect_complete
    | Disconnected(release: bool)          // tdi_event_disconnect

  /** `set_tcp_conn_state`: nothing to set where there is no entry. */
  function Set(entry: Option<int>, to: int): Option<int> {
    if entry.Some? then Some(to) else None
  }

  predicate Established(state: int) {
    state == TCP_STATE_ESTABLISHED_IN || state == TCP_STATE_ESTABLISHED_OUT
  }

  predicate In(entry: Option<int>, states: set<int>) {
    entry.Some? && entry.value in states
  }

  /** The state that a disconnect request is sent for. */
  function Goal(entry: Option<int>, release: bool, junk: int): int {
    if !release then TCP_STATE_CLOSED
    else if entry.Some? && Established(entry.value) then TCP_STATE_FIN_WAIT1
    else if entry == Some(TCP_STATE_CLOSE_WAIT) then TCP_STATE_LAST_ACK
    else junk
  }

  /** What a completed disconnect request makes of the connection. */
  function Finish(entry: Option<int>, goal: int): Option<int> {
    if goal == TCP_STATE_FIN_WAIT1 then Set(entry, TCP_STATE_FIN_WAIT2)
    else if goal == TCP_STATE_LAST_ACK || goal == TCP_STATE_CLOSED then None
    else entry
  }

  /** What the other side's disconnect makes of the connection. */
  function Leave(entry: Option<int>, release: bool): Option<int> {
    if !release then None
    else if entry.Some? && Established(entry.value) then Some(TCP_STATE_CLOSE_WAIT)
    else if entry == Some(TCP_STATE_FIN_WAIT2) then Some(TCP_STATE_TIME_WAIT)
    else entry
  }

  function Step(c: Conn, e: Event): Conn {
    match e
    case Connect =>
      if c.entry.None? then c.(entry := Some(TCP_STATE_SYN_SENT), opening := Connecting) else c
    case ConnectDone(ok) =>
      c.(entry := if ok then Set(c.entry, TCP_STATE_ESTABLISHED_OUT) else None, opening := Idle)
    case Accept =>
      if c.entry.None? then c.(entry := Some(TCP_STATE_SYN_RCVD), opening := Accepting) else c.(entry := None)
    case AcceptDone(ok) =>
      c.(entry := if ok then Set(c.entry, TCP_STATE_ESTABLISHED_IN) else None, opening := Idle)
    case Disconnect(release, junk) =>
      var goal := Goal(c.entry, release, junk);
      c.(entry := Set(c.entry, goal), pending := Some(goal))
    case DisconnectDone(ok) =>
      c.(entry := if ok && c.pending.Some? then Finish(c.entry, c.pending.value) else c.entry, pending := None)
    case Disconnected(release) =>
      c.(entry := Leave(c.entry, release))
  }

  /** The states a connection has been in, the last at the end: a deleted entry was closed first. */
  function Moved(path: seq<int>, before: Option<int>, after: Option<int>): seq<int> {
    if after == before then path
    else if after.None? then if before.value == TCP_STATE_CLOSED then path else path + [TCP_STATE_CLOSED]
    else if before.None? then [after.value]
    else path + [after.value]
  }

  datatype Run = Run(conn: Conn, path: seq<int>)

  const START := Run(CLOSED_CONN, [])

  function Next(r: Run, e: Event): Run {
    var conn := Step(r.conn, e);
    Run(conn, Moved(r.path, r.conn.entry, conn.entry))
  }

  function After(r: Run, events: seq<Event>): Run
    decreases |events|
  {
    if events == [] then r else After(Next(r, events[0]), events[1..])
  }

  // ---- What the handlers rely on ------------------------------------------------------------------

  /** A completion follows its request; a connection is opened only where there is none and nothing is
      outstanding; a disconnect request waits for the opening and for the one before, and is graceful only in
      ESTABLISHED or CLOSE_WAIT. The other side may disconnect at any time. */
  predicate Expected(c: Conn, e: Event) {
    match e
    case Connect => c == CLOSED_CONN
    case ConnectDone(_) => c.opening == Connecting
    case Accept => c == CLOSED_CONN
    case AcceptDone(_) => c.opening == Accepting
    case Disconnect(release, _) =>
      && c.opening == Idle && c.pending == None
      && (release ==> In(c.entry, {TCP_STATE_ESTABLISHED_IN, TCP_STATE_ESTABLISHED_OUT, TCP_STATE_CLOSE_WAIT}))
    case DisconnectDone(_) => c.pending.Some?
    case Disconnected(_) => true
  }

  predicate AllExpected(r: Run, events: seq<Event>)
    decreases |events|
  {
    events == [] || (Expected(r.conn, events[0]) && AllExpected(Next(r, events[0]), events[1..]))
  }

  // ---- The routes of RFC 793, section 3.2 ---------------------------------------------------------

  function Opened(inbound: bool): seq<int> {
    if inbound then [TCP_STATE_SYN_RCVD, TCP_STATE_ESTABLISHED_IN] else [TCP_STATE_SYN_SENT, TCP_STATE_ESTABLISHED_OUT]
  }

  /** From opening to the end: this side closes first, or the other does. */
  function Route(inbound: bool, active: bool): seq<int> {
    Opened(inbound) + if active then [TCP_STATE_FIN_WAIT1, TCP_STATE_FIN_WAIT2, TCP_STATE_TIME_WAIT]
                      else [TCP_STATE_CLOSE_WAIT, TCP_STATE_LAST_ACK]
  }

  /** The path is the beginning of one of the four routes, perhaps cut short by CLOSED. */
  ghost predicate OnRoute(path: seq<int>) {
    exists inbound, active, n: nat ::
      1 <= n <= |Route(inbound, active)|
      && (path == Route(inbound, active)[..n] || path == Route(inbound, active)[..n] + [TCP_STATE_CLOSED])
  }

  /** How far a connection has come. */
  function Rank(state: int): int {
    if state == TCP_STATE_SYN_SENT || state == TCP_STATE_SYN_RCVD then 1
    else if Established(state) then 2
    else if state == TCP_STATE_FIN_WAIT1 || state == TCP_STATE_CLOSE_WAIT then 3
    else if state == TCP_STATE_FIN_WAIT2 || state == TCP_STATE_LAST_ACK then 4
    else if state == TCP_STATE_TIME_WAIT then 5
    else 6
  }

  /** The way to a state, on the route to it. */
  function Way(inbound: bool, state: int): seq<int> {
    if state == TCP_STATE_SYN_SENT || state == TCP_STATE_SYN_RCVD then [state]
    else if Established(state) then Opened(inbound)
    else if state == TCP_STATE_FIN_WAIT1 || state == TCP_STATE_CLOSE_WAIT then Opened(inbound) + [state]
    else if state == TCP_STATE_FIN_WAIT2 then Opened(inbound) + [TCP_STATE_FIN_WAIT1, state]
    else if state == TCP_STATE_LAST_ACK then Opened(inbound) + [TCP_STATE_CLOSE_WAIT, state]
    else Opened(inbound) + [TCP_STATE_FIN_WAIT1, TCP_STATE_FIN_WAIT2, state]
  }

  predicate Underway(state: int) {
    TCP_STATE_SYN_SENT <= state <= TCP_STATE_LAST_ACK
  }

  predicate Fits(inbound: bool, state: int) {
    && Underway(state)
    && (state == TCP_STATE_SYN_SENT || state == TCP_STATE_ESTABLISHED_OUT ==> !inbound)
    && (state == TCP_STATE_SYN_RCVD || state == TCP_STATE_ESTABLISHED_IN ==> inbound)
  }

  /** What every expected event keeps. */
  ghost predicate Sane(r: Run) {
    var c := r.conn;
    && (c.opening == Connecting ==> c.entry.None? || c.entry.value == TCP_STATE_SYN_SENT)
    && (c.opening == Accepting ==> c.entry.None? || c.entry.value == TCP_STATE_SYN_RCVD)
    && (c.opening == Idle ==> !In(c.entry, {TCP_STATE_SYN_SENT, TCP_STATE_SYN_RCVD}))
    && (c.pending.Some? ==> c.opening == Idle && (c.entry.None? || c.entry == c.pending))
    && (c.pending.Some? ==> c.pending.value in {TCP_STATE_FIN_WAIT1, TCP_STATE_LAST_ACK, TCP_STATE_CLOSED})
    && (c.entry.None? ==> r.path == [] || Cut(r.path))
    && (c.entry.Some? ==> OnTheWay(c.entry.value, r.path))
  }

  ghost predicate OnTheWay(state: int, path: seq<int>) {
    if state == TCP_STATE_CLOSED then Cut(path)
      else exists inbound :: Fits(inbound, state) && path == Way(inbound, state)
  }

  ghost predicate Cut(path: seq<int>) {
    exists inbound, state :: Fits(inbound, state) && path == Way(inbound, state) + [TCP_STATE_CLOSED]
  }

  lemma {:induction false} SaneStep(r: Run, e: Event)
    requires Sane(r) && Expected(r.conn, e)
    ensures Sane(Next(r, e))
  {
    hide OnTheWay, Cut;
    SaneGuarded(r, e);
    GoodStep(r, e);
  }

  lemma {:induction false} SaneStart()
    ensures Sane(START)
  {
  }

  lemma {:induction false} WayOnRoute(inbound: bool, state: int)
    requires Fits(inbound, state)
    ensures var way := Way(inbound, state);
      && way != [] && OnRoute(way) && OnRoute(way + [TCP_STATE_CLOSED]) && |way| == Rank(state)
      && way[|way| - 1] == state
  {
    var active, n := state != TCP_STATE_CLOSE_WAIT && state != TCP_STATE_LAST_ACK, Rank(state);
    assert Way(inbound, state) == Route(inbound, active)[..n];
  }

  lemma {:induction false} RouteRank(inbound: bool, active: bool, k: nat)
    requires k < |Route(inbound, active)|
    ensures Rank(Route(inbound, active)[k]) == k + 1 <= 5
  {
  }

  /** Along a route the rank grows with every state. */
  lemma {:induction false} RanksGrow(path: seq<int>, i: nat, j: nat)
    requires OnRoute(path) && i < j < |path|
    ensures Rank(path[i]) < Rank(path[j])
  {
    hide Route, Rank;
    var inbound, active, n: nat :| 1 <= n <= |Route(inbound, active)|
      && (path == Route(inbound, active)[..n] || path == Route(inbound, active)[..n] + [TCP_STATE_CLOSED]);
    RouteRank(inbound, active, i);
    if j < n {
      RouteRank(inbound, active, j);
    } else {
      ClosedRank();
    }
  }

  lemma {:induction false} ClosedRank()
    ensures Rank(TCP_STATE_CLOSED) == 6
  {
  }

  // ---- When a step keeps to the routes ------------------------------------------------------------

  /** A step of a route, an exit to CLOSED or out of the table, or no step. */
  predicate Follows(before: Option<int>, after: Option<int>) {
    || before == after || after.None?
    || (before.None? && (after.value == TCP_STATE_SYN_SENT || after.value == TCP_STATE_SYN_RCVD))
    || (before.Some? && FollowsRoute(before.value, after.value))
  }

  predicate FollowsRoute(a: int, b: int) {
    || b == TCP_STATE_CLOSED
    || (a == TCP_STATE_SYN_SENT && b == TCP_STATE_ESTABLISHED_OUT)
    || (a == TCP_STATE_SYN_RCVD && b == TCP_STATE_ESTABLISHED_IN)
    || (Established(a) && (b == TCP_STATE_FIN_WAIT1 || b == TCP_STATE_CLOSE_WAIT))
    || (a == TCP_STATE_FIN_WAIT1 && b == TCP_STATE_FIN_WAIT2)
    || (a == TCP_STATE_FIN_WAIT2 && b == TCP_STATE_TIME_WAIT)
    || (a == TCP_STATE_CLOSE_WAIT && b == TCP_STATE_LAST_ACK)
  }

  /** What a handler finds when its step keeps to the routes whatever is in its uninitialised variable. */
  predicate Guard(c: Conn, e: Event) {
    c.entry.None? || match e
    case ConnectDone(ok) => ok ==> c.entry.value in {TCP_STATE_SYN_SENT, TCP_STATE_ESTABLISHED_OUT}
    case AcceptDone(ok) => ok ==> c.entry.value in {TCP_STATE_SYN_RCVD, TCP_STATE_ESTABLISHED_IN}
    case Disconnect(release, _) => release ==> Established(c.entry.value) || c.entry.value == TCP_STATE_CLOSE_WAIT
    case DisconnectDone(ok) => ok && c.pending == Some(TCP_STATE_FIN_WAIT1) ==>
      c.entry.value in {TCP_STATE_FIN_WAIT1, TCP_STATE_FIN_WAIT2}
    case _ => true
  }

  function WithJunk(e: Event, junk: int): Event {
    if e.Disconnect? then e.(junk := junk) else e
  }

  lemma {:induction false} GuardExact(c: Conn, e: Event)
    ensures Guard(c, e) <==> forall junk :: Follows(c.entry, Step(c, WithJunk(e, junk)).entry)
  {
    if !Guard(c, e) {
      var junk := if c.entry == Some(100) then 101 else 100;
      assert !Follows(c.entry, Step(c, WithJunk(e, junk)).entry);
    }
  }

  // ---- When a run keeps to them -------------------------------------------------------------------

  /** The path tells how the connection came to its state, or that it was closed. */
  ghost predicate Good(r: Run) {
    && (r.conn.entry.None? ==> r.path == [] || Cut(r.path))
    && (r.conn.entry.Some? ==> OnTheWay(r.conn.entry.value, r.path))
  }

  lemma {:induction false} GoodStep(r: Run, e: Event)
    requires Good(r) && Guard(r.conn, e)
    ensures Good(Next(r, e))
  {
    var entry, entry', path := r.conn.entry, Next(r, e).conn.entry, Next(r, e).path;
    if entry.Some? && entry.value != TCP_STATE_CLOSED {
      var inbound :| Fits(inbound, entry.value) && r.path == Way(inbound, entry.value);
      if entry'.None? || entry'.value == TCP_STATE_CLOSED {
        assert path == Way(inbound, entry.value) + [TCP_STATE_CLOSED];
        assert Cut(path);
      } else {
        assert Fits(inbound, entry'.value) && path == Way(inbound, entry'.value);
      }
    } else if entry'.Some? && entry'.value != TCP_STATE_CLOSED {
      var inbound := entry'.value == TCP_STATE_SYN_RCVD;
      assert Fits(inbound, entry'.value) && path == Way(inbound, entry'.value);
    }
  }

  /** What is expected is guarded. */
  lemma {:induction false} SaneGuarded(r: Run, e: Event)
    requires Sane(r) && Expected(r.conn, e)
    ensures Guard(r.conn, e) && Good(r)
  {
    hide OnTheWay, Cut;
  }

  predicate AllGuarded(r: Run, events: seq<Event>)
    decreases |events|
  {
    events == [] || (Guard(r.conn, events[0]) && AllGuarded(Next(r, events[0]), events[1..]))
  }

  lemma {:induction false} ExpectedGuarded(r: Run, events: seq<Event>)
    requires Sane(r) && AllExpected(r, events)
    ensures AllGuarded(r, events) && Sane(After(r, events))
    decreases |events|
  {
    hide Sane, Guard;
    if events != [] {
      SaneGuarded(r, events[0]);
      SaneStep(r, events[0]);
      ExpectedGuarded(Next(r, events[0]), events[1..]);
    }
  }

  lemma {:induction false} ExpectedRuns(events: seq<Event>)
    requires AllExpected(START, events)
    ensures AllGuarded(START, events)
  {
    hide Sane;
    SaneStart();
    ExpectedGuarded(START, events);
  }

  lemma {:induction false} GoodAfter(r: Run, events: seq<Event>)
    requires Good(r) && AllGuarded(r, events)
    ensures Good(After(r, events))
    decreases |events|
  {
    hide Good, Guard;
    if events != [] {
      GoodStep(r, events[0]);
      GoodAfter(Next(r, events[0]), events[1..]);
    }
  }

  lemma {:induction false} GoodStart()
    ensures Good(START)
  {
  }

  /** A good run is on a route, where its last state, or CLOSED in place of a deleted entry, is the end of the path. */
  lemma {:induction false} GoodOnRoute(r: Run)
    requires Good(r)
    ensures if r.path == [] then r.conn.entry.None?
            else
              && OnRoute(r.path)
              && r.path[|r.path| - 1] == if r.conn.entry.None? then TCP_STATE_CLOSED else r.conn.entry.value
  {
    hide Fits, Way, OnRoute, Underway;
    if r.conn.entry.Some? && r.conn.entry.value != TCP_STATE_CLOSED {
      var inbound :| Fits(inbound, r.conn.entry.value) && r.path == Way(inbound, r.conn.entry.value);
      WayOnRoute(inbound, r.conn.entry.value);
    } else if r.path != [] {
      var inbound, state :| Fits(inbound, state) && r.path == Way(inbound, state) + [TCP_STATE_CLOSED];
      WayOnRoute(inbound, state);
    }
  }

  /** In every run whose steps meet their guards the connection is on a route. */
  lemma {:induction false} RunsFollowRoutes(events: seq<Event>)
    requires AllGuarded(START, events)
    ensures var r := After(START, events);
      if r.path == [] then r.conn.entry.None?
      else
        && OnRoute(r.path)
        && r.path[|r.path| - 1] == if r.conn.entry.None? then TCP_STATE_CLOSED else r.conn.entry.value
  {
    hide Good;
    GoodStart();
    GoodAfter(START, events);
    GoodOnRoute(After(START, events));
  }

  /** Neighbours on a route follow each other. */
  lemma {:induction false} Neighbours(path: seq<int>, a: int, b: int)
    requires path != [] && path[|path| - 1] == a && OnRoute(path + [b])
    ensures FollowsRoute(a, b)
  {
    var inbound, active, n: nat :| 1 <= n <= |Route(inbound, active)|
      && (path + [b] == Route(inbound, active)[..n] || path + [b] == Route(inbound, active)[..n] + [TCP_STATE_CLOSED]);
    var whole := path + [b];
    assert whole[|path|] == b && whole[|path| - 1] == a;
  }

  /** Empty, or on a route. */
  ghost predicate Keeps(r: Run) {
    r.path == [] || OnRoute(r.path)
  }

  /** From a good run a step keeps to the routes, whatever is in the uninitialised variable, if and only if it meets
      its guard. */
  lemma {:induction false} StepExact(r: Run, e: Event)
    requires Good(r)
    ensures Guard(r.conn, e) <==> forall junk :: Keeps(Next(r, WithJunk(e, junk)))
  {
    hide Good, Guard, OnRoute, Follows, Step;
    if Guard(r.conn, e) {
      forall junk ensures Keeps(Next(r, WithJunk(e, junk))) {
        SameGuard(r.conn, e, junk);
        GoodStep(r, WithJunk(e, junk));
        GoodOnRoute(Next(r, WithJunk(e, junk)));
      }
    } else {
      GuardExact(r.conn, e);
      var junk :| !Follows(r.conn.entry, Step(r.conn, WithJunk(e, junk)).entry);
      GoodOnRoute(r);
      LeavesRoute(r, WithJunk(e, junk));
    }
  }

  lemma {:induction false} SameGuard(c: Conn, e: Event, junk: int)
    ensures Guard(c, WithJunk(e, junk)) == Guard(c, e)
  {
  }

  lemma {:induction false} LeavesRoute(r: Run, e: Event)
    requires !Follows(r.conn.entry, Step(r.conn, e).entry)
    requires r.conn.entry.Some? ==> r.path != [] && r.path[|r.path| - 1] == r.conn.entry.value
    ensures !Keeps(Next(r, e))
  {
    hide OnRoute;
    NoneOpens(r.conn, e);
    if Keeps(Next(r, e)) {
      Neighbours(r.path, r.conn.entry.value, Step(r.conn, e).entry.value);
    }
  }

  lemma {:induction false} NoneOpens(c: Conn, e: Event)
    ensures c.entry.None? ==> Follows(c.entry, Step(c, e).entry)
  {
  }

  /** Every step of the run keeps to the routes, whatever its uninitialised variable holds. */
  ghost predicate StaysOn(r: Run, events: seq<Event>)
    decreases |events|
  {
    events ==
      [] || ((forall junk :: Keeps(Next(r, WithJunk(events[0], junk)))) && StaysOn(Next(r, events[0]), events[1..]))
  }

  lemma {:induction false} RunsExactFrom(r: Run, events: seq<Event>)
    requires Good(r)
    ensures AllGuarded(r, events) <==> StaysOn(r, events)
    decreases |events|
  {
    hide Good, Guard, Keeps;
    if events != [] {
      StepExact(r, events[0]);
      if Guard(r.conn, events[0]) {
        GoodStep(r, events[0]);
        RunsExactFrom(Next(r, events[0]), events[1..]);
      }
    }
  }

  /** A run keeps to the routes if and only if all its steps meet their guards. */
  lemma {:induction false} RunsExact(events: seq<Event>)
    ensures AllGuarded(START, events) <==> StaysOn(START, events)
  {
    hide Good;
    GoodStart();
    RunsExactFrom(START, events);
  }

  // ---- The routes are taken -----------------------------------------------------------------------

  lemma {:induction false} Drive(r: Run, e: Event, events: seq<Event>)
    ensures AllExpected(r, [e] + events) <==> Expected(r.conn, e) && AllExpected(Next(r, e), events)
    ensures After(r, [e] + events) == After(Next(r, e), events)
  {
    assert ([e] + events)[1..] == events;
  }

  /** An expected run with this path, at the end of which the connection is this one. */
  ghost predicate Taken(path: seq<int>, conn: Conn) {
    exists events :: AllExpected(START, events) && After(START, events) == Run(conn, path)
  }

  /** Each of the four routes is the path of an expected run, state by state as ipc.h numbers them, and where the other
      side closed first the connection is gone in the end. */
  lemma {:induction false} RoutesTaken(inbound: bool)
    ensures Taken((if inbound then [2, 3] else [1, 4]) + [5, 6, 7], Conn(Some(7), Idle, None))
    ensures Taken((if inbound then [2, 3] else [1, 4]) + [8, 9], Conn(Some(9), Idle, Some(9)))
    ensures Taken((if inbound then [2, 3] else [1, 4]) + [8, 9, 10], Conn(None, Idle, None))
  {
    var begun := if inbound then [2, 3] else [1, 4];
    var e1, e2 := if inbound then Accept else Connect, if inbound then AcceptDone(true) else ConnectDone(true);
    var r := Run(Conn(Some(if inbound then 3 else 4), Idle, None), begun);
    assert Next(Next(START, e1), e2) == r;
    forall events: seq<Event> ensures AllExpected(r, events) ==> Taken(After(r, events).path, After(r, events).conn) {
      Drive(Next(START, e1), e2, events);
      Drive(START, e1, [e2] + events);
    }
    ActiveClose(r);
    PassiveClose(r);
  }

  lemma {:induction false} ActiveClose(r: Run)
    requires r.conn.entry.Some? && Established(r.conn.entry.value) && r.conn == Conn(r.conn.entry, Idle, None)
    ensures exists events ::
      AllExpected(r, events) && After(r, events) == Run(Conn(Some(7), Idle, None), r.path + [5, 6, 7])
  {
    var e1, e2, e3 := Disconnect(true, 0), DisconnectDone(true), Disconnected(true);
    var r1 := Next(r, e1);
    var r2 := Next(r1, e2);
    assert r1 == Run(Conn(Some(5), Idle, Some(5)), r.path + [5]);
    assert r2 == Run(Conn(Some(6), Idle, None), r.path + [5, 6]);
    assert Next(r2, e3) == Run(Conn(Some(7), Idle, None), r.path + [5, 6, 7]);
    Drive(r2, e3, []);
    Drive(r1, e2, [e3] + []);
    Drive(r, e1, [e2] + ([e3] + []));
  }

  lemma {:induction false} PassiveClose(r: Run)
    requires r.conn.entry.Some? && Established(r.conn.entry.value) && r.conn == Conn(r.conn.entry, Idle, None)
    ensures exists events ::
      AllExpected(r, events) && After(r, events) == Run(Conn(Some(9), Idle, Some(9)), r.path + [8, 9])
    ensures exists events ::
      AllExpected(r, events) && After(r, events) == Run(Conn(None, Idle, None), r.path + [8, 9, 10])
  {
    var e1, e2, e3 := Disconnected(true), Disconnect(true, 0), DisconnectDone(true);
    var r1 := Next(r, e1);
    var r2 := Next(r1, e2);
    assert r1 == Run(Conn(Some(8), Idle, None), r.path + [8]);
    assert r2 == Run(Conn(Some(9), Idle, Some(9)), r.path + [8, 9]);
    assert Next(r2, e3) == Run(Conn(None, Idle, None), r.path + [8, 9, 10]);
    Drive(r2, e3, []);
    Drive(r1, e2, []);
    Drive(r, e1, [e2] + []);
    Drive(r1, e2, [e3] + []);
    Drive(r, e1, [e2] + ([e3] + []));
  }

  /** The expectations are needed: a disconnect request before the opening completes leads off the routes, and
      so does an opening while a disconnect request is outstanding. */
  lemma {:induction false} OffRoute()
    ensures After(START, [Connect, Disconnect(false, 0), ConnectDone(true)]).path ==
      [TCP_STATE_SYN_SENT, TCP_STATE_CLOSED, TCP_STATE_ESTABLISHED_OUT]
    ensures After(START, [Connect, ConnectDone(true), Disconnect(true, 0), Disconnected(false), Connect,
                          DisconnectDone(true)]).path ==
      [TCP_STATE_SYN_SENT, TCP_STATE_FIN_WAIT2]
  {
  }

  /** A graceful request out of place takes the connection to whatever is in the uninitialised variable. */
  lemma {:induction false} OffRouteJunk(r: Run, junk: int)
    requires r.conn == Conn(Some(TCP_STATE_FIN_WAIT2), Idle, None)
    ensures After(r, [Disconnect(true, junk)]).conn.entry == Some(junk)
    ensures exists events :: AllExpected(START, events) && After(START, events).conn == r.conn
  {
    var events := [Connect, ConnectDone(true), Disconnect(true, 0), DisconnectDone(true)];
    var rest := events[1..][1..];
    assert rest == [Disconnect(true, 0), DisconnectDone(true)];
    var r' := Next(Next(START, Connect), ConnectDone(true));
    assert After(START, events) == After(r', rest) && (AllExpected(START, events) <==> AllExpected(r', rest));
    assert r'.conn == Conn(Some(TCP_STATE_ESTABLISHED_OUT), Idle, None);
    assert Next(Next(r', Disconnect(true, 0)), DisconnectDone(true)).conn == r.conn;
    assert rest[1..][1..] == [];
    assert AllExpected(r', rest) && After(r', rest).conn == r.conn;
  }
}
