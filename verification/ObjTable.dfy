/** The object table of sys/tdi_fw/src/obj_tbl.c and the operations of sys/tdi_fw/src/conn_state.c that go
    through it: a hash of address and connection objects, the latter owning entries of the connection table. */
module ObjTable {
  import opened Bytes
  import opened Chains
  import opened ConnTable

  const OBJ_HASH_SIZE := 0x1000

  const FILEOBJ_CONTROLOBJ := 0
  const FILEOBJ_ADDROBJ := 1
  const FILEOBJ_CONNOBJ := 2

  const TDI_ADDRESS_TYPE_IP := 2

  datatype Status = Success | InvalidParameter | ObjectNameNotFound | ObjectNameExists

  datatype Address = Address(kind: nat, addr: nat, port: nat)

  const NO_ADDRESS := Address(0, 0, 0)

  /** The handler that the driver replaced, 0 for none, and its context. */
  datatype Ctx = Ctx(handler: nat, context: nat)

  const NO_HANDLER := Ctx(0, 0)

  /** What the table knows of an object, its link aside. `fileobj` is 0 once the teardown is done with it. */
  datatype Ote = Ote(fileobj: nat, kind: int, ctx: seq<Ctx>, local: Address, remote: Address, conn: ConnEntry?)

  function HashObj(fileobj: nat): (h: nat)
    ensures h < OBJ_HASH_SIZE
  {
    fileobj % ULONG_RANGE / 32 % OBJ_HASH_SIZE
  }

  lemma {:induction false} HashExact(fileobj: nat)
    ensures HashObj(fileobj) == fileobj % 4294967296 / 32 % 4096
  {
  }

  class OtEntry {
    var next: OtEntry?
    var fileobj: nat
    var kind: int
    var ctx: seq<Ctx>
    var local: Address
    var remote: Address
    var conn: ConnEntry?

    function Fields(): Ote
      reads this
    {
      Ote(fileobj, kind, ctx, local, remote, conn)
    }

    constructor (fileobj: nat, events: nat)
      ensures Fields() == Fresh(fileobj, FILEOBJ_CONTROLOBJ, events) && next == null
    {
      next, this.fileobj, kind := null, fileobj, FILEOBJ_CONTROLOBJ;
      ctx := seq(events, _ => NO_HANDLER);
      local, remote, conn := NO_ADDRESS, NO_ADDRESS, null;
    }

    /** All fields but the link and the file object are zero again. */
    method Clear(events: nat)
      modifies this
      ensures Fields() == Fresh(fileobj, FILEOBJ_CONTROLOBJ, events) && next == old(next) && fileobj == old(fileobj)
    {
      kind, conn := FILEOBJ_CONTROLOBJ, null;
      ctx := seq(events, _ => NO_HANDLER);
      local, remote := NO_ADDRESS, NO_ADDRESS;
    }
  }

  function Fresh(fileobj: nat, kind: int, events: nat): Ote {
    Ote(fileobj, kind, seq(events, _ => NO_HANDLER), NO_ADDRESS, NO_ADDRESS, null)
  }

  type ObjModel = map<OtEntry, Ote>

  /** A picture of the table. `objs` is the map it stands for. */
  datatype Objs = Objs(
    nodes: set<OtEntry>, objs: map<nat, OtEntry>, model: ObjModel,
    heads: seq<OtEntry?>, chains: seq<seq<OtEntry>>, nexts: map<OtEntry, OtEntry?>)

  ghost predicate ObjChainOk(head: OtEntry?, c: seq<OtEntry>, nexts: map<OtEntry, OtEntry?>) {
    NoDup<OtEntry?>(c) && Chained<OtEntry?>(head, c, nexts, null)
  }

  ghost predicate ObjChainsOk(heads: seq<OtEntry?>, chains: seq<seq<OtEntry>>, nexts: map<OtEntry, OtEntry?>) {
    && |heads| == |chains| == OBJ_HASH_SIZE
    && forall h :: 0 <= h < OBJ_HASH_SIZE ==> ObjChainOk(heads[h], chains[h], nexts)
  }

  /** The chains hold the objects, each in the chain of its hash. */
  ghost predicate Placed(nodes: set<OtEntry>, model: ObjModel, chains: seq<seq<OtEntry>>) {
    && |chains| == OBJ_HASH_SIZE
    && (forall e :: e in nodes ==> e in model && e in chains[HashObj(model[e].fileobj)])
    && (forall h, e :: 0 <= h < OBJ_HASH_SIZE && e in chains[h] ==>
          e in nodes && e in model && HashObj(model[e].fileobj) == h)
  }

  /** No two objects have the same file object, and `objs` finds each by its own. */
  ghost predicate Named(nodes: set<OtEntry>, model: ObjModel, objs: map<nat, OtEntry>) {
    && (forall e :: e in nodes ==>
          e in model && model[e].fileobj != 0 && model[e].fileobj in objs && objs[model[e].fileobj] == e)
    && (forall f :: f in objs ==> objs[f] in nodes && objs[f] in model && model[objs[f]].fileobj == f)
  }

  ghost predicate SoundObjs(o: Objs) {
    ObjChainsOk(o.heads, o.chains, o.nexts) && Placed(o.nodes, o.model, o.chains) && Named(o.nodes, o.model, o.objs)
  }

  // ---- Ownership ----------------------------------------------------------------------------------

  /** Every connection entry is either on the delete list or owned by one object, never both. */
  ghost predicate Owns(nodes: set<OtEntry>, model: ObjModel, t: Table) {
    && (forall e :: e in nodes ==> e in model)
    && (forall e :: e in nodes && model[e].conn != null ==>
      && model[e].kind == FILEOBJ_CONNOBJ && model[e].fileobj != 0
      && model[e].conn in t.nodes && model[e].conn !in t.dead
      && model[e].conn in t.model && t.model[model[e].conn].obj == model[e].fileobj)
    && (forall d, e :: d in nodes && e in nodes && model[d].conn != null && model[d].conn == model[e].conn ==> d == e)
    && (forall c :: c in t.nodes && c !in t.dead ==> exists e: OtEntry :: e in nodes && model[e].conn == c)
  }

  /** The entry of an object is on the delete list from now on, and the object lets go of it. */
  lemma {:induction false} OwnsLess(nodes: set<OtEntry>, m: ObjModel, r: Ote, t: Table, e: OtEntry, now: int)
    requires Owns(nodes, m, t) && e in nodes && e in m && m[e].conn != null && r.conn == null
    ensures m[e].conn in t.model && Owns(nodes, m[e := r], Closed(t, m[e].conn, now))
  {
  }

  /** An object without an entry gets the new one. */
  lemma {:induction false} OwnsMore(nodes: set<OtEntry>, m: ObjModel, t: Table, t': Table, e: OtEntry, c: ConnEntry,
                                    r: Rec)
    requires Owns(nodes, m, t) && e in nodes && e in m && m[e].conn == null && m[e].fileobj != 0
    requires c !in t.nodes && c !in t.dead && r.obj == m[e].fileobj
    requires t'.nodes == t.nodes + {c} && t'.model == t.model[c := r] && t'.dead == t.dead
    ensures Owns(nodes, m[e := m[e].(conn := c)], t') <==> m[e].kind == FILEOBJ_CONNOBJ
  {
  }

  // ---- The table as a value -----------------------------------------------------------------------

  ghost function Inserted(o: Objs, e: OtEntry, r: Ote): Objs
    requires |o.heads| == |o.chains| == OBJ_HASH_SIZE
  {
    var h := HashObj(r.fileobj);
    o.(nodes := o.nodes + {e}, objs := o.objs[r.fileobj := e], model := o.model[e := r],
       heads := o.heads[h := e], chains := o.chains[h := [e] + o.chains[h]], nexts := o.nexts[e := o.heads[h]])
  }

  lemma {:induction false} InsertedOk(o: Objs, e: OtEntry, r: Ote)
    requires SoundObjs(o) && e !in o.nodes && r.fileobj != 0 && r.fileobj !in o.objs
    ensures |o.heads| == |o.chains| == OBJ_HASH_SIZE && SoundObjs(Inserted(o, e, r))
  {
    hide NoDup, Chained, Named;
    var h, o' := HashObj(r.fileobj), Inserted(o, e, r);
    forall g | 0 <= g < OBJ_HASH_SIZE ensures ObjChainOk(o'.heads[g], o'.chains[g], o'.nexts) {
      assert ObjChainOk(o.heads[g], o.chains[g], o.nexts);
      assert e !in o.chains[g];
      if g == h {
        NoDupFront<OtEntry?>(o.chains[g], e);
        ChainedFront<OtEntry?>(o.heads[g], o.chains[g], o.nexts, null, e);
      } else {
        ChainedSame<OtEntry?>(o.heads[g], o.chains[g], o.nexts, o'.nexts, null);
      }
    }
    InsertedNames(o, e, r);
  }

  lemma {:induction false} InsertedNames(o: Objs, e: OtEntry, r: Ote)
    requires Named(o.nodes, o.model, o.objs) && e !in o.nodes && r.fileobj != 0 && r.fileobj !in o.objs
    ensures Named(o.nodes + {e}, o.model[e := r], o.objs[r.fileobj := e])
  {
  }

  /** The table without `e`, which stands between `a` and `b` in its chain. */
  ghost function Deleted(o: Objs, a: seq<OtEntry>, e: OtEntry, b: seq<OtEntry>): Objs
    requires |o.heads| == |o.chains| == OBJ_HASH_SIZE && e in o.model && e in o.nexts
  {
    var h := HashObj(o.model[e].fileobj);
    o.(nodes := o.nodes - {e}, objs := o.objs - {o.model[e].fileobj},
       heads := if a == [] then o.heads[h := o.nexts[e]] else o.heads,
       chains := o.chains[h := a + b], nexts := Skipping<OtEntry?>(o.nexts, a, e))
  }

  lemma {:induction false} DeletedOk(o: Objs, a: seq<OtEntry>, e: OtEntry, b: seq<OtEntry>)
    requires SoundObjs(o) && e in o.nodes && e in o.model && o.chains[HashObj(o.model[e].fileobj)] == a + [e] + b
    ensures |o.heads| == |o.chains| == OBJ_HASH_SIZE && e in o.nexts
    ensures SoundObjs(Deleted(o, a, e, b))
    ensures (a != [] ==> a[|a| - 1] in o.nodes && a[|a| - 1] != e)
  {
    hide NoDup, Chained, Named;
    var h := HashObj(o.model[e].fileobj);
    var c := o.chains[h];
    assert ObjChainOk(o.heads[h], c, o.nexts);
    Apart<OtEntry?>(a, e, b);
    ChainedCut<OtEntry?>(o.heads[h], a, e, b, o.nexts, null);
    var o' := Deleted(o, a, e, b);
    assert forall x :: x in a + b ==> x in c;
    assert forall x :: x in c && x != e ==> x in a + b;
    if a != [] {
      var p := a[|a| - 1];
      assert c[|a| - 1] == p && p in c && p in o.nodes && HashObj(o.model[p].fileobj) == h;
    }
    forall g | 0 <= g < OBJ_HASH_SIZE && g != h ensures ObjChainOk(o'.heads[g], o'.chains[g], o'.nexts) {
      assert ObjChainOk(o.heads[g], o.chains[g], o.nexts);
      ChainedSame<OtEntry?>(o.heads[g], o.chains[g], o.nexts, o'.nexts, null);
    }
    DeletedNames(o, e);
  }

  lemma {:induction false} DeletedNames(o: Objs, e: OtEntry)
    requires Named(o.nodes, o.model, o.objs) && e in o.nodes && e in o.model
    ensures Named(o.nodes - {e}, o.model, o.objs - {o.model[e].fileobj})
  {
  }

  /** The entry leaves its chain, and the other chains stay as they are. */
  ghost predicate Leaves(c: seq<OtEntry>, e: OtEntry, chains': seq<seq<OtEntry>>, chains: seq<seq<OtEntry>>, h: nat)
    requires h < |chains|
  {
    exists i :: 0 <= i < |c| && c[i] == e && chains' == chains[h := c[..i] + c[i + 1..]]
  }

  /** Another object's record, its file object the same. */
  ghost function Changed(o: Objs, e: OtEntry, r: Ote): Objs {
    o.(model := o.model[e := r])
  }

  lemma {:induction false} ChangedOk(o: Objs, e: OtEntry, r: Ote)
    requires SoundObjs(o) && e in o.nodes && e in o.model && r.fileobj == o.model[e].fileobj
    ensures SoundObjs(Changed(o, e, r))
  {
    hide ObjChainsOk;
  }

  ghost predicate ShownObj(o: Objs, e: OtEntry)
    reads e
  {
    e in o.model && e.Fields() == o.model[e] && e in o.nexts && o.nexts[e] == e.next
  }

  /** The record of an entry whose local address is known now. */
  function Relocated(r: Rec, local: Address): Rec {
    r.(key := r.key.(laddr := local.addr, lport := local.port))
  }

  /** The record of a connection entry just made for an object. */
  function Opened(local: Address, remote: Address, state: int, connobj: nat): Rec {
    Rec(Key(local.addr, local.port, remote.addr, remote.port), state, connobj, 0)
  }

  /** The connection table once the entry of an object, if it has one, is closed. */
  ghost function Retired(o: Objs, t: Table, connobj: nat, now: int): Table {
    if connobj in o.objs && o.objs[connobj] in o.model && o.model[o.objs[connobj]].conn in t.model
    then Closed(t, o.model[o.objs[connobj]].conn, now)
    else t
  }

  lemma {:induction false} RetiredExact(o: Objs, t: Table, connobj: nat, now: int)
    requires SoundObjs(o) && Owns(o.nodes, o.model, t)
    ensures connobj !in o.objs ==> Retired(o, t, connobj, now) == t
    ensures connobj in o.objs ==> o.objs[connobj] in o.model
    ensures connobj in o.objs && o.model[o.objs[connobj]].conn == null ==> Retired(o, t, connobj, now) == t
    ensures connobj in o.objs && o.model[o.objs[connobj]].conn != null ==>
      && o.model[o.objs[connobj]].conn in t.model
      && Retired(o, t, connobj, now) == Closed(t, o.model[o.objs[connobj]].conn, now)
    ensures connobj in o.objs && o.model[o.objs[connobj]].conn != null ==>
      var c: ConnEntry, t' := o.model[o.objs[connobj]].conn, Retired(o, t, connobj, now);
      && t'.order == t.order && t'.dead == [c] + t.dead
      && t'.model == t.model[c := Rec(t.model[c].key, TCP_STATE_CLOSED, 0, now)]
  {
  }

  /** The state of the connection entry that an object owns, if it owns one. */
  ghost function EntryOf(o: Objs, t: Table, connobj: nat): Option<int> {
    if connobj in o.objs && o.objs[connobj] in o.model && o.model[o.objs[connobj]].conn in t.model
    then Some(t.model[o.model[o.objs[connobj]].conn].state)
    else None
  }

  lemma {:induction false} EntriesOf(o: Objs, t: Table, connobj: nat)
    requires SoundObjs(o) && Owns(o.nodes, o.model, t)
    ensures connobj !in o.objs ==> EntryOf(o, t, connobj) == None
    ensures connobj in o.objs ==> o.objs[connobj] in o.model && o.model[o.objs[connobj]].fileobj == connobj
    ensures connobj in o.objs && o.model[o.objs[connobj]].conn == null ==> EntryOf(o, t, connobj) == None
    ensures connobj in o.objs && o.model[o.objs[connobj]].conn != null ==>
      && o.model[o.objs[connobj]].conn in t.model
      && EntryOf(o, t, connobj) == Some(t.model[o.model[o.objs[connobj]].conn].state)
  {
  }

  /** Closing the connection of one object leaves the others' alone. */
  lemma {:induction false} StatesClosed(o: Objs, t: Table, e: OtEntry, now: int)
    requires SoundObjs(o) && Owns(o.nodes, o.model, t) && e in o.nodes && e in o.model && o.model[e].conn != null
    ensures o.model[e].conn in t.model
    ensures var o', t' := Changed(o, e, o.model[e].(conn := null)), Closed(t, o.model[e].conn, now);
      && EntryOf(o', t', o.model[e].fileobj) == None
      && forall f :: f != o.model[e].fileobj ==> EntryOf(o', t', f) == EntryOf(o, t, f)
  {
  }

  lemma {:induction false} StatesRestated(o: Objs, t: Table, e: OtEntry, state: int)
    requires SoundObjs(o) && Owns(o.nodes, o.model, t) && e in o.nodes && e in o.model && o.model[e].conn != null
    ensures o.model[e].conn in t.model
    ensures var t' := Restated(t, o.model[e].conn, state);
      forall f :: EntryOf(o, t', f) == if f == o.model[e].fileobj then Some(state) else EntryOf(o, t, f)
  {
  }

  /** A new entry gives its owner the state it starts in. */
  lemma {:induction false} StatesOpened(o: Objs, t: Table, t': Table, e: OtEntry, c: ConnEntry, r: Rec)
    requires SoundObjs(o) && Owns(o.nodes, o.model, t) && e in o.nodes && e in o.model && o.model[e].conn == null
    requires c !in t.nodes && t'.model == t.model[c := r]
    ensures var o' := Changed(o, e, o.model[e].(conn := c));
      && EntryOf(o', t', o.model[e].fileobj) == Some(r.state)
      && forall f :: f != o.model[e].fileobj ==> EntryOf(o', t', f) == EntryOf(o, t, f)
  {
  }

  /** No two objects own the same entry. */
  ghost predicate OneOwner(o: Objs) {
    forall d, e :: d in o.nodes && e in o.nodes && d in o.model && e in o.model ==>
      o.model[d].conn != null && o.model[d].conn == o.model[e].conn ==> d == e
  }

  lemma {:induction false} OwnedOnce(o: Objs, t: Table)
    requires Owns(o.nodes, o.model, t)
    ensures OneOwner(o)
  {
  }

  /** Queueing an entry closes it for its owner and for nobody else. */
  lemma {:induction false} StatesQueued(o: Objs, t: Table, e: OtEntry, now: int)
    requires SoundObjs(o) && OneOwner(o) && e in o.nodes && e in o.model && o.model[e].conn in t.model
    ensures var t' := Closed(t, o.model[e].conn, now);
      && EntryOf(o, t', o.model[e].fileobj) == Some(TCP_STATE_CLOSED)
      && forall f :: f != o.model[e].fileobj ==> EntryOf(o, t', f) == EntryOf(o, t, f)
    ensures var o', t' := Changed(o, e, o.model[e].(conn := null)), Closed(t, o.model[e].conn, now);
      && EntryOf(o', t', o.model[e].fileobj) == None
      && forall f :: f != o.model[e].fileobj ==> EntryOf(o', t', f) == EntryOf(o, t, f)
  {
  }

  /** States depend on the entries only. */
  lemma {:induction false} StatesEdited(o: Objs, t: Table, e: OtEntry, r: Ote)
    requires e in o.model && r.conn == o.model[e].conn
    ensures forall f :: EntryOf(Changed(o, e, r), t, f) == EntryOf(o, t, f)
  {
  }

  lemma {:induction false} OwnsRestated(nodes: set<OtEntry>, m: ObjModel, t: Table, c: ConnEntry, state: int)
    requires Owns(nodes, m, t) && c in t.model
    ensures Owns(nodes, m, Restated(t, c, state))
  {
  }

  /** A new key for one entry changes neither owners nor states. */
  lemma {:induction false} Rekeying(o: Objs, t: Table, t': Table, c: ConnEntry)
    requires Owns(o.nodes, o.model, t) && c in t.model && c in t'.model
    requires t'.nodes == t.nodes && t'.dead == t.dead && t'.model == t.model[c := t.model[c].(key := t'.model[c].key)]
    ensures Owns(o.nodes, o.model, t') && forall f :: EntryOf(o, t', f) == EntryOf(o, t, f)
  {
  }

  /** A change that spares the connection entry and its owner's name. */
  lemma {:induction false} OwnsEdit(nodes: set<OtEntry>, m: ObjModel, t: Table, e: OtEntry, r: Ote)
    requires Owns(nodes, m, t) && e in nodes && e in m && r.conn == m[e].conn
    requires r.conn != null ==> r.kind == m[e].kind && r.fileobj == m[e].fileobj
    ensures Owns(nodes, m[e := r], t)
  {
  }

  lemma {:induction false} OwnsNew(nodes: set<OtEntry>, m: ObjModel, t: Table, e: OtEntry, r: Ote)
    requires Owns(nodes, m, t) && e !in nodes && r.conn == null
    ensures Owns(nodes + {e}, m[e := r], t)
  {
  }

  lemma {:induction false} Retyped(o: Objs, t: Table, e: OtEntry, r: Ote)
    requires SoundObjs(o) && Owns(o.nodes, o.model, t) && e in o.nodes && e in o.model
    requires o.model[e].conn == r.conn == null && r.fileobj == o.model[e].fileobj
    ensures SoundObjs(Changed(o, e, r)) && Owns(o.nodes, o.model[e := r], t)
  {
    hide SoundObjs, Owns;
    ChangedOk(o, e, r);
    OwnsEdit(o.nodes, o.model, t, e, r);
  }

  lemma {:induction false} OwnsLeft(nodes: set<OtEntry>, m: ObjModel, t: Table, e: OtEntry)
    requires Owns(nodes, m, t) && e in m && m[e].conn == null
    ensures Owns(nodes - {e}, m, t)
  {
  }

  /** In a sound state every hashed connection entry is owned by exactly one object that it names, or stands
      exactly once on the delete list, closed and without an owner's name; never both. */
  lemma {:induction false} OwnedOrDead(nodes: set<OtEntry>, m: ObjModel, t: Table, c: ConnEntry)
    requires Sound(t) && Owns(nodes, m, t) && c in t.order
    ensures c in t.model
    ensures c !in t.dead ==>
      exists e: OtEntry :: e in nodes && e in m && m[e].conn == c && m[e].fileobj == t.model[c].obj
    ensures forall d, e: OtEntry :: d in nodes && e in nodes && d in m && e in m && m[d].conn == m[e].conn == c ==>
      d == e
    ensures c in t.dead ==> t.model[c].state == TCP_STATE_CLOSED && t.model[c].obj == 0 && NoDup(t.dead)
    ensures c in t.dead ==> forall e: OtEntry :: e in nodes && e in m ==> m[e].conn != c
  {
  }

  /** A reaper's pass takes no entry from an owner. */
  lemma {:induction false} OwnsReaped(nodes: set<OtEntry>, m: ObjModel, t: Table, t': Table, due: set<ConnEntry>)
    requires Owns(nodes, m, t) && Sound(t) && Sound(t') && t'.model == t.model && due <= set c | c in t.dead
    requires t'.order == Without(t.order, due) && t'.dead == Without(t.dead, due)
    ensures Owns(nodes, m, t')
  {
  }

  lemma {:induction false} Members(t: Table)
    requires Sound(t)
    ensures forall c :: c in t.nodes <==> c in t.order
  {
  }

  // ---- The teardown -------------------------------------------------------------------------------

  /** An event handler to be given back to its address object. */
  datatype Restore = Restore(addrobj: nat, event: nat, handler: nat, context: nat)

  /** What the driver has to give back: every handler that it replaced on an address object. */
  ghost function Replaced(o: Objs): set<Restore> {
    set e, j | e in o.nodes && e in o.model && 0 <= j < |o.model[e].ctx| && HasHandler(o.model, e, j) ::
      Give(o.model[e], j)
  }

  /** Field by field: the handler and the context that an address object keeps for an event. */
  lemma {:induction false} ReplacedExact(o: Objs, r: Restore)
    ensures r in Replaced(o) <==>
      exists e, j :: e in o.nodes && HasHandler(o.model, e, j) && r.addrobj == o.model[e].fileobj && r.event == j
                     && r.handler == o.model[e].ctx[j].handler && r.context == o.model[e].ctx[j].context
    ensures forall e, j :: HasHandler(o.model, e, j) <==>
      e in o.model && o.model[e].kind == FILEOBJ_ADDROBJ && 0 <= j < |o.model[e].ctx| && o.model[e].ctx[j].handler != 0
  {
    hide Replaced;
    if r in Replaced(o) {
      var e, j := HandlerOf(o, r);
      assert e in o.nodes && HasHandler(o.model, e, j);
    }
    if e, j :| e in o.nodes && HasHandler(o.model, e, j) && r.addrobj == o.model[e].fileobj && r.event == j
               && r.handler == o.model[e].ctx[j].handler && r.context == o.model[e].ctx[j].context {
      HandlerThere(o, e, j);
    }
  }

  predicate Settable(r: Ote, event: int, given: Ctx, hooked: int -> bool) {
    r.kind == FILEOBJ_ADDROBJ && 0 <= event < |r.ctx| && (given.handler != 0 ==> hooked(event))
  }

  /** What is to be given back once a handler of an address object has been set, or removed. */
  ghost function Resettled(rs: set<Restore>, addrobj: nat, event: nat, given: Ctx): set<Restore> {
    (set r | r in rs && !(r.addrobj == addrobj && r.event == event))
    + if given.handler != 0 then {Restore(addrobj, event, given.handler, given.context)} else {}
  }

  lemma {:induction false} ResettledExact(rs: set<Restore>, addrobj: nat, event: nat, given: Ctx)
    ensures forall r :: r in Resettled(rs, addrobj, event, given) <==>
      if r.addrobj == addrobj && r.event == event then r.handler == given.handler != 0 && r.context == given.context
      else r in rs
  {
  }

  lemma {:induction false} HandlerSet(o: Objs, e: OtEntry, j: nat, given: Ctx)
    requires SoundObjs(o) && e in o.nodes && e in o.model && o.model[e].kind == FILEOBJ_ADDROBJ && j < |o.model[e].ctx|
    ensures var c := if given.handler != 0 then given else NO_HANDLER;
      Replaced(Changed(o, e, o.model[e].(ctx := o.model[e].ctx[j := c]))) ==
        Resettled(Replaced(o), o.model[e].fileobj, j, given)
  {
    hide Replaced, SoundObjs;
    Distinct(o);
    var c := if given.handler != 0 then given else NO_HANDLER;
    var o', rs :=
      Changed(o, e, o.model[e].(ctx := o.model[e].ctx[j := c])), Resettled(Replaced(o), o.model[e].fileobj, j, given);
    forall r ensures r in Replaced(o') <==> r in rs {
      if r in Replaced(o') {
        var d, i := HandlerOf(o', r);
        if d != e || i != j {
          HandlerThere(o, d, i);
        }
      }
      if r in rs {
        if r in Replaced(o) && !(r.addrobj == o.model[e].fileobj && r.event == j) {
          var d, i := HandlerOf(o, r);
          HandlerThere(o', d, i);
        } else {
          HandlerThere(o', e, j);
        }
      }
    }
  }

  lemma {:induction false} HandlerOf(o: Objs, r: Restore) returns (e: OtEntry, j: nat)
    requires r in Replaced(o)
    ensures e in o.nodes && e in o.model && j < |o.model[e].ctx| && HasHandler(o.model, e, j)
    ensures r == Give(o.model[e], j)
  {
    var d, i :| d in o.nodes && d in o.model && 0 <= i < |o.model[d].ctx| && HasHandler(o.model, d, i)
                && r == Give(o.model[d], i);
    e, j := d, i;
  }

  lemma {:induction false} HandlerThere(o: Objs, e: OtEntry, j: nat)
    requires e in o.nodes && e in o.model && j < |o.model[e].ctx| && HasHandler(o.model, e, j)
    ensures Give(o.model[e], j) in Replaced(o)
  {
  }

  /** On an object of another kind a handler is never looked for. */
  lemma {:induction false} HandlerUnseen(o: Objs, e: OtEntry, j: nat, c: Ctx)
    requires e in o.nodes && e in o.model && o.model[e].kind != FILEOBJ_ADDROBJ && j < |o.model[e].ctx|
    ensures Replaced(Changed(o, e, o.model[e].(ctx := o.model[e].ctx[j := c]))) == Replaced(o)
  {
    hide Replaced;
    var o' := Changed(o, e, o.model[e].(ctx := o.model[e].ctx[j := c]));
    forall r ensures r in Replaced(o') <==> r in Replaced(o) {
      if r in Replaced(o') {
        var d, i := HandlerOf(o', r);
        HandlerThere(o, d, i);
      }
      if r in Replaced(o) {
        var d, i := HandlerOf(o, r);
        HandlerThere(o', d, i);
      }
    }
  }

  function Give(r: Ote, j: nat): Restore
    requires j < |r.ctx|
  {
    Restore(r.fileobj, j, r.ctx[j].handler, r.ctx[j].context)
  }

  /** The objects that the sweeps still have to process. */
  ghost function Live(o: Objs): set<OtEntry> {
    set e | e in o.nodes && e in o.model && o.model[e].fileobj != 0
      && (o.model[e].kind == FILEOBJ_ADDROBJ || o.model[e].kind == FILEOBJ_CONNOBJ)
  }

  /** What the sweeps may have done to an object by now. */
  ghost predicate Faded(r0: Ote, r: Ote) {
    && r.kind == r0.kind && r.remote == r0.remote && |r.ctx| == |r0.ctx|
    && (r.fileobj == r0.fileobj || r.fileobj == 0)
    && (forall j :: 0 <= j < |r.ctx| ==> r.ctx[j].context == r0.ctx[j].context)
    && (forall j :: 0 <= j < |r.ctx| ==> r.ctx[j].handler == r0.ctx[j].handler || r.ctx[j].handler == 0)
    && (r.fileobj == 0 && r.kind == FILEOBJ_ADDROBJ ==> forall j :: 0 <= j < |r.ctx| ==> r.ctx[j].handler == 0)
    && (r.fileobj == 0 && r.kind == FILEOBJ_CONNOBJ ==> r.conn == null)
  }

  ghost predicate HasHandler(m: ObjModel, e: OtEntry, j: int) {
    e in m && m[e].kind == FILEOBJ_ADDROBJ && 0 <= j < |m[e].ctx| && m[e].ctx[j].handler != 0
  }

  /** The handlers in `log`, and they alone, have been taken from the objects. */
  ghost predicate Logged(o0: Objs, o: Objs, log: seq<Restore>) {
    && NoDup(log) && (forall r :: r in log ==> r in Replaced(o0))
    && (forall e, j {:trigger o.model[e].ctx[j]} ::
          e in o.nodes && e in o.model && HasHandler(o0.model, e, j) && j < |o.model[e].ctx|
          ==> (Give(o0.model[e], j) in log <==> o.model[e].ctx[j].handler == 0))
  }

  ghost predicate Torn(o0: Objs, o: Objs, t: Table, log: seq<Restore>) {
    && o == o0.(model := o.model)
    && (forall e :: e in o.nodes ==> e in o0.model && e in o.model && Faded(o0.model[e], o.model[e]))
    && Logged(o0, o, log) && Owns(o.nodes, o.model, t)
  }

  lemma {:induction false} LiveAt(o: Objs, e: OtEntry)
    requires e in o.nodes && e in o.model
    ensures e in Live(o) <==>
      o.model[e].fileobj != 0 && (o.model[e].kind == FILEOBJ_ADDROBJ || o.model[e].kind == FILEOBJ_CONNOBJ)
  {
  }

  lemma {:induction false} TornFirst(o: Objs, t: Table)
    requires SoundObjs(o) && Owns(o.nodes, o.model, t)
    ensures Torn(o, o, t, [])
  {
  }

  /** An object without handlers and entry is processed. */
  lemma {:induction false} TornProcessed(o0: Objs, o: Objs, t: Table, log: seq<Restore>, e: OtEntry)
    requires Torn(o0, o, t, log) && e in o.nodes && e in o.model && o.model[e].conn == null
    requires o.model[e].kind == FILEOBJ_ADDROBJ ==> forall j :: 0 <= j < |o.model[e].ctx| ==>
      o.model[e].ctx[j].handler == 0
    ensures Torn(o0, Changed(o, e, o.model[e].(fileobj := 0)), t, log)
    ensures Live(Changed(o, e, o.model[e].(fileobj := 0))) == Live(o) - {e}
  {
    OwnsEdit(o.nodes, o.model, t, e, o.model[e].(fileobj := 0));
    hide Owns;
  }

  lemma {:induction false} TornReleased(o0: Objs, o: Objs, t: Table, log: seq<Restore>, e: OtEntry, now: int)
    requires Torn(o0, o, t, log) && e in o.nodes && e in o.model && o.model[e].conn != null
    ensures o.model[e].conn in t.model
    ensures Torn(o0, Changed(o, e, o.model[e].(conn := null)), Closed(t, o.model[e].conn, now), log)
    ensures Live(Changed(o, e, o.model[e].(conn := null))) == Live(o)
  {
    OwnsLess(o.nodes, o.model, o.model[e].(conn := null), t, e, now);
    hide Owns;
  }

  function Taken(r: Ote, j: nat): Ote
    requires j < |r.ctx|
  {
    r.(ctx := r.ctx[j := r.ctx[j].(handler := 0)])
  }

  /** A handler is taken from a live object, and logged. */
  lemma {:induction false} TornPicked(o0: Objs, o: Objs, t: Table, log: seq<Restore>, e: OtEntry, j: nat)
    requires SoundObjs(o0) && Torn(o0, o, t, log) && e in o.nodes && HasHandler(o.model, e, j)
    requires o.model[e].fileobj != 0
    ensures Give(o.model[e], j) !in log && Give(o.model[e], j) in Replaced(o0)
    ensures Torn(o0, Changed(o, e, Taken(o.model[e], j)), t, log + [Give(o.model[e], j)])
    ensures Live(Changed(o, e, Taken(o.model[e], j))) == Live(o)
  {
    hide SoundObjs, Logged, Owns;
    assert HasHandler(o0.model, e, j) && Give(o.model[e], j) == Give(o0.model[e], j);
    assert |o0.model[e].ctx| == |o.model[e].ctx|;
    OwnsEdit(o.nodes, o.model, t, e, Taken(o.model[e], j));
    PickedLogged(o0, o, log, e, j);
  }

  lemma {:induction false} PickedLogged(o0: Objs, o: Objs, log: seq<Restore>, e: OtEntry, j: nat)
    requires SoundObjs(o0) && Logged(o0, o, log) && o.nodes == o0.nodes && e in o.nodes
    requires HasHandler(o0.model, e, j) && HasHandler(o.model, e, j) && Give(o.model[e], j) == Give(o0.model[e], j)
    ensures Give(o.model[e], j) !in log && Give(o.model[e], j) in Replaced(o0)
    ensures Logged(o0, Changed(o, e, Taken(o.model[e], j)), log + [Give(o.model[e], j)])
  {
    Distinct(o0);
    hide SoundObjs, NoDup;
    var g, o' := Give(o.model[e], j), Changed(o, e, Taken(o.model[e], j));
    assert o.model[e].ctx[j].handler != 0;
    NoDupBack(log, g);
    forall d, i {:trigger o'.model[d].ctx[i]} |
        d in o'.nodes && d in o'.model && HasHandler(o0.model, d, i) && i < |o'.model[d].ctx|
      ensures Give(o0.model[d], i) in log + [g] <==> o'.model[d].ctx[i].handler == 0
    {
      if d != e || i != j {
        assert Give(o0.model[d], i) != g;
        assert o.model[d].ctx[i] == o'.model[d].ctx[i];
      }
    }
  }

  lemma {:induction false} Distinct(o: Objs)
    requires SoundObjs(o)
    ensures forall d, e :: d in o.nodes && e in o.nodes && d in o.model && e in o.model ==>
      o.model[d].fileobj == o.model[e].fileobj ==> d == e
  {
  }

  /** When nothing is left to process, everything has been given back and closed. */
  lemma {:induction false} TornDown(o0: Objs, o: Objs, t: Table, log: seq<Restore>)
    requires Torn(o0, o, t, log) && Live(o) == {}
    ensures NoDup(log) && forall r :: r in log <==> r in Replaced(o0)
    ensures forall c :: c in t.nodes ==> c in t.dead
  {
    forall e | e in o.nodes ensures e in o.model && o.model[e].conn == null {
      assert e !in Live(o);
    }
    hide Owns;
    forall r | r in Replaced(o0) ensures r in log {
      var e, j := HandlerOf(o0, r);
      assert Faded(o0.model[e], o.model[e]) && |o.model[e].ctx| == |o0.model[e].ctx| && e !in Live(o);
      assert o.model[e].ctx[j].handler == 0;
    }
  }

  /** The search for a file object is at place `i` of its chain: it has not missed the object. */
  ghost predicate Searching(o: Objs, fileobj: nat, i: nat) {
    && |o.chains| == OBJ_HASH_SIZE && i <= |o.chains[HashObj(fileobj)]|
    && (fileobj in o.objs ==>
          exists k :: i <= k < |o.chains[HashObj(fileobj)]| && o.chains[HashObj(fileobj)][k] == o.objs[fileobj])
  }

  lemma {:induction false} SearchBegins(o: Objs, fileobj: nat)
    requires SoundObjs(o)
    ensures |o.heads| == |o.chains| == OBJ_HASH_SIZE && Searching(o, fileobj, 0)
    ensures var h := HashObj(fileobj); o.heads[h] == if o.chains[h] == [] then null else o.chains[h][0]
    ensures 0 !in o.objs
  {
  }

  /** At its place the search finds the object or goes on to the next. */
  lemma {:induction false} SearchAt(o: Objs, fileobj: nat, i: nat)
    requires SoundObjs(o) && Searching(o, fileobj, i) && i < |o.chains[HashObj(fileobj)]|
    ensures var c := o.chains[HashObj(fileobj)];
      && c[i] in o.nodes && c[i] in o.model && c[i] in o.nexts
      && o.nexts[c[i]] == (if i + 1 < |c| then c[i + 1] else null)
      && (o.model[c[i]].fileobj == fileobj ==> fileobj in o.objs && o.objs[fileobj] == c[i])
      && (o.model[c[i]].fileobj != fileobj ==> Searching(o, fileobj, i + 1))
  {
  }

  lemma {:induction false} SearchEnds(o: Objs, fileobj: nat, i: nat)
    requires Searching(o, fileobj, i) && i == |o.chains[HashObj(fileobj)]|
    ensures fileobj !in o.objs
  {
  }

  lemma {:induction false} ChainBegins(o0: Objs, o: Objs, t: Table, log: seq<Restore>, i: nat)
    requires SoundObjs(o0) && Torn(o0, o, t, log) && i < OBJ_HASH_SIZE
    ensures |o0.heads| == |o0.chains| == OBJ_HASH_SIZE && o.heads == o0.heads
    ensures o0.heads[i] == if o0.chains[i] == [] then null else o0.chains[i][0]
    ensures Swept(o0, o, i, 0, Live(o), 0)
  {
  }

  lemma {:induction false} ChainContinues(o0: Objs, o: Objs, t: Table, log: seq<Restore>, i: nat, k: nat)
    requires SoundObjs(o0) && Torn(o0, o, t, log) && i < OBJ_HASH_SIZE && |o0.chains| == OBJ_HASH_SIZE
    requires k < |o0.chains[i]|
    ensures var c := o0.chains[i];
      && c[k] in o.nodes && c[k] in o.model && c[k] in o.nexts
      && o.nexts[c[k]] == (if k + 1 < |c| then c[k + 1] else null)
  {
  }

  /** A sweep, which met the objects in `live`, is at place `k` of chain `i`. */
  ghost predicate Swept(o0: Objs, o: Objs, i: nat, k: nat, live: set<OtEntry>, connobj: nat) {
    && i < |o0.chains| && k <= |o0.chains[i]| && Live(o) <= live
    && (connobj != 0 ==> Live(o) != live)
    && forall j :: 0 <= j < k ==> o0.chains[i][j] !in Live(o)
  }

  lemma {:induction false} SweptMore(o0: Objs, o: Objs, o': Objs, i: nat, k: nat, live: set<OtEntry>, connobj: nat,
                                     connobj': nat)
    requires Swept(o0, o, i, k, live, connobj) && k < |o0.chains[i]| && Live(o') == Live(o) - {o0.chains[i][k]}
    requires connobj' == connobj || o0.chains[i][k] in Live(o)
    ensures Swept(o0, o', i, k + 1, live, connobj')
  {
  }

  lemma {:induction false} SweptExact(o0: Objs, o: Objs, i: nat, k: nat, live: set<OtEntry>, connobj: nat)
    requires Swept(o0, o, i, k, live, connobj)
    ensures Live(o) <= live && (connobj != 0 ==> Live(o) < live)
    ensures k == |o0.chains[i]| ==> forall e :: e in o0.chains[i] ==> e !in Live(o)
  {
  }

  // ---- Which objects are disconnected -------------------------------------------------------------

  /** A connection object with a remote address; an address object with a handler; an object no sweep looks at. */
  predicate Dials(r: Ote) {
    r.fileobj != 0 && r.kind == FILEOBJ_CONNOBJ && r.remote.addr != 0
  }

  predicate Stops(r: Ote) {
    r.fileobj != 0 && r.kind == FILEOBJ_ADDROBJ && exists j :: 0 <= j < |r.ctx| && r.ctx[j].handler != 0
  }

  predicate DoneWith(r: Ote) {
    r.fileobj == 0 || (r.kind != FILEOBJ_ADDROBJ && r.kind != FILEOBJ_CONNOBJ)
  }

  /** What a sweep makes of an object: it stops there, or notes a connection and passes on. */
  ghost predicate Visited(r: Ote, r': Ote, stopped: bool, before: nat, connobj: nat) {
    if stopped then Stops(r) && r'.fileobj == r.fileobj && r'.kind == r.kind && r'.remote == r.remote
    else !Stops(r) && DoneWith(r') && connobj == if Dials(r) then r.fileobj else before
  }

  lemma {:induction false} StoppedAt(r: Ote, r': Ote, before: nat, connobj: nat)
    requires Visited(r, r', true, before, connobj)
    ensures Stops(r)
  {
  }

  /** The sweeps have come to place `q` of a chain: those before it are done with, those behind it untouched. */
  ghost predicate Front(c: seq<OtEntry>, m0: ObjModel, m: ObjModel, q: nat) {
    && q <= |c| && NoDup(c) && (forall k :: 0 <= k < |c| ==> c[k] in m0 && c[k] in m)
    && (forall k :: 0 <= k < q ==> DoneWith(m[c[k]]))
    && (forall k :: q < k < |c| ==> m[c[k]] == m0[c[k]])
    && (q < |c| ==> Reached(m0[c[q]], m[c[q]]))
  }

  ghost predicate Reached(r0: Ote, r: Ote) {
    r == r0 || (Stops(r0) && r.fileobj == r0.fileobj && r.kind == r0.kind && r.remote == r0.remote)
  }

  /** The last connection among places `q` to `k`. */
  ghost function LastDial(c: seq<OtEntry>, m: ObjModel, q: nat, k: nat): nat
    requires k <= |c| && forall j :: 0 <= j < |c| ==> c[j] in m
  {
    if k <= q then 0 else if Dials(m[c[k - 1]]) then m[c[k - 1]].fileobj else LastDial(c, m, q, k - 1)
  }

  /** A sweep that found the front at `q` is at place `k`, with this connection noted. */
  ghost predicate Sweeping(c: seq<OtEntry>, m0: ObjModel, m: ObjModel, q: nat, k: nat, connobj: nat) {
    && k <= |c| && q <= |c| && Front(c, m0, m, if k < q then q else k) && connobj == LastDial(c, m0, q, k)
    && (q < k < |c| ==> m[c[k]] == m0[c[k]])
    && forall x :: q < x < k ==> !Stops(m0[c[x]])
  }

  lemma {:induction false} SweepBegins(c: seq<OtEntry>, m0: ObjModel, m: ObjModel, q: nat)
    requires Front(c, m0, m, q)
    ensures Sweeping(c, m0, m, q, 0, 0)
  {
  }

  lemma {:induction false} SweepStep(c: seq<OtEntry>, m0: ObjModel, m: ObjModel, q: nat, k: nat, connobj: nat, r: Ote,
                                     stopped: bool, connobj': nat)
    requires Sweeping(c, m0, m, q, k, connobj) && k < |c| && c[k] in m
    requires Visited(m[c[k]], r, stopped, connobj, connobj')
    ensures stopped ==> q <= k && c[k] in m0 && Front(c, m0, m[c[k] := r], k) && Stops(m0[c[k]])
    ensures !stopped ==> Sweeping(c, m0, m[c[k] := r], q, k + 1, connobj')
  {
    var m' := m[c[k] := r];
    assert forall j :: 0 <= j < |c| && j != k ==> c[j] != c[k] && m'[c[j]] == m[c[j]];
    assert q < k ==> m[c[k]] == m0[c[k]];
  }

  lemma {:induction false} SweepEnds(c: seq<OtEntry>, m0: ObjModel, m: ObjModel, q: nat, k: nat, connobj: nat)
    requires Sweeping(c, m0, m, q, k, connobj) && k == |c|
    ensures Front(c, m0, m, |c|) && connobj == LastDial(c, m0, q, |c|) && forall x :: q < x < |c| ==> !Stops(m0[c[x]])
  {
  }

  /** The connection is at place `k` of its chain, and no other one and no handler is behind it. */
  ghost predicate LastOut(c: seq<OtEntry>, m: ObjModel, k: int)
    requires forall j :: 0 <= j < |c| ==> c[j] in m
  {
    0 <= k < |c| && Dials(m[c[k]]) && forall x :: k < x < |c| ==> !Dials(m[c[x]]) && !Stops(m[c[x]])
  }

  lemma {:induction false} LastDialIs(c: seq<OtEntry>, m: ObjModel, q: nat, k: nat)
    requires k <= |c| && forall j :: 0 <= j < |c| ==> c[j] in m
    ensures var f := LastDial(c, m, q, k);
      if f == 0 then forall x :: q <= x < k ==> !Dials(m[c[x]])
      else exists y :: q <= y < k && Dials(m[c[y]]) && m[c[y]].fileobj == f && forall x :: y < x < k ==> !Dials(m[c[x]])
    decreases k
  {
    if k > q && !Dials(m[c[k - 1]]) {
      LastDialIs(c, m, q, k - 1);
    }
  }

  /** When the sweeps have stopped at `q` for the last time, the connection noted is the last one of the chain, if no
      handler is behind that. */
  lemma {:induction false} FinalDial(c: seq<OtEntry>, m: ObjModel, q: nat)
    requires q <= |c| && forall j :: 0 <= j < |c| ==> c[j] in m
    requires q == 0 || (q < |c| && Stops(m[c[q]]))
    requires forall x :: q < x < |c| ==> !Stops(m[c[x]])
    ensures var f := LastDial(c, m, q, |c|);
      && (f != 0 ==> exists k :: LastOut(c, m, k) && m[c[k]].fileobj == f)
      && forall k :: LastOut(c, m, k) ==> m[c[k]].fileobj == f
  {
    LastDialIs(c, m, q, |c|);
    var f := LastDial(c, m, q, |c|);
    if f != 0 {
      var y :| q <= y < |c| && Dials(m[c[y]]) && m[c[y]].fileobj == f && forall x :: y < x < |c| ==> !Dials(m[c[x]]);
      assert LastOut(c, m, y);
    }
  }

  /** The object is the one of chain `h` that is to be disconnected. */
  ghost predicate Farewell(o: Objs, h: int, f: nat) {
    && 0 <= h < |o.chains| && (forall e :: e in o.chains[h] ==> e in o.model)
    && exists k :: LastOut(o.chains[h], o.model, k) && o.model[o.chains[h][k]].fileobj == f
  }

  /** Field by field: a connection object with a remote address, behind which the chain has no other one, and no address
      object that still keeps a handler. */
  lemma {:induction false} FarewellExact(o: Objs, h: nat, f: nat)
    requires h < |o.chains| && forall e :: e in o.chains[h] ==> e in o.model
    ensures var c := o.chains[h];
      Farewell(o, h, f) <==>
      exists k :: 0 <= k < |c|
        && (var r := o.model[c[k]];
            r.kind == FILEOBJ_CONNOBJ && r.fileobj == f != 0 && r.remote.addr != 0)
        && forall x :: k < x < |c| && o.model[c[x]].fileobj != 0 ==>
             var r := o.model[c[x]];
             && (r.kind == FILEOBJ_CONNOBJ ==> r.remote.addr == 0)
             && (r.kind == FILEOBJ_ADDROBJ ==> forall j :: 0 <= j < |r.ctx| ==> r.ctx[j].handler == 0)
  {
    assert forall k :: 0 <= k < |o.chains[h]| ==> o.chains[h][k] in o.chains[h];
  }

  /** One at most of every chain is. */
  lemma {:induction false} OneFarewell(o: Objs, h: int, f: nat, g: nat)
    requires Farewell(o, h, f) && Farewell(o, h, g)
    ensures f == g != 0
  {
    var c := o.chains[h];
    var k :| LastOut(c, o.model, k) && o.model[c[k]].fileobj == f;
    var l :| LastOut(c, o.model, l) && o.model[c[l]].fileobj == g;
    assert k == l;
  }

  lemma {:induction false} FarewellHash(o: Objs, h: int, f: nat)
    requires SoundObjs(o) && Farewell(o, h, f)
    ensures HashObj(f) == h
  {
    var k :| LastOut(o.chains[h], o.model, k) && o.model[o.chains[h][k]].fileobj == f;
    assert o.chains[h][k] in o.chains[h];
  }

  /** The objects disconnected are those of the first `n` chains, once each. */
  ghost predicate Hung(o: Objs, fs: seq<nat>, dialled: nat -> bool, n: nat) {
    NoDup(fs) && forall f :: f in fs <==> dialled(f) && exists h :: 0 <= h < n && Farewell(o, h, f)
  }

  /** The final sweep of chain `n`: it notes `f`, or nothing. */
  lemma {:induction false} HungMore(o: Objs, fs: seq<nat>, dialled: nat -> bool, n: nat, q: nat, f: nat)
    requires SoundObjs(o) && Hung(o, fs, dialled, n) && n < |o.chains|
    requires (forall e :: e in o.chains[n] ==> e in o.model)
    requires var c := o.chains[n];
      && q <= |c| && (q == 0 || (q < |c| && Stops(o.model[c[q]])))
      && (forall x :: q < x < |c| ==> !Stops(o.model[c[x]]))
      && f == LastDial(c, o.model, q, |c|)
    ensures Hung(o, if f != 0 && dialled(f) then fs + [f] else fs, dialled, n + 1)
  {
    hide SoundObjs, HashObj, LastDial;
    FinalDial(o.chains[n], o.model, q);
    assert forall g :: Farewell(o, n, g) ==> g == f != 0;
    assert f != 0 ==> Farewell(o, n, f);
    hide Farewell;
    HungOne(o, fs, dialled, n, f);
  }

  lemma {:induction false} HungOne(o: Objs, fs: seq<nat>, dialled: nat -> bool, n: nat, f: nat)
    requires SoundObjs(o) && Hung(o, fs, dialled, n)
    requires (forall g :: Farewell(o, n, g) ==> g == f) && (f != 0 <==> Farewell(o, n, f))
    ensures Hung(o, if f != 0 && dialled(f) then fs + [f] else fs, dialled, n + 1)
  {
    hide SoundObjs, HashObj, Farewell, NoDup;
    if f != 0 && dialled(f) {
      if f in fs {
        var h :| 0 <= h < n && Farewell(o, h, f);
        FarewellHash(o, h, f);
        FarewellHash(o, n, f);
        assert false;
      }
      NoDupBack(fs, f);
    }
  }

  lemma {:induction false} HungNone(o: Objs, dialled: nat -> bool)
    ensures Hung(o, [], dialled, 0)
  {
  }

  /** From chain `i` on the sweeps have changed nothing yet. */
  ghost predicate Untouched(o0: Objs, o: Objs, i: nat) {
    forall h, e :: i <= h < |o0.chains| && e in o0.chains[h] ==>
      e in o0.model && e in o.model && o.model[e] == o0.model[e]
  }

  lemma {:induction false} UntouchedFirst(o: Objs)
    requires SoundObjs(o)
    ensures Untouched(o, o, 0)
  {
  }

  lemma {:induction false} FrontBegins(o0: Objs, o: Objs, i: nat)
    requires SoundObjs(o0) && Untouched(o0, o, i) && i < |o0.chains|
    ensures Front(o0.chains[i], o0.model, o.model, 0) && Untouched(o0, o, i + 1)
    ensures forall e :: e in o0.chains[i] ==> e in o0.model
  {
    hide NoDup, Chained, Named;
    var c := o0.chains[i];
    assert ObjChainOk(o0.heads[i], c, o0.nexts);
    NoDupTyped(c);
    forall k | 0 <= k < |c| ensures c[k] in o0.model && c[k] in o.model && o.model[c[k]] == o0.model[c[k]] {
      assert c[k] in c;
    }
  }

  lemma {:induction false} NoDupTyped(c: seq<OtEntry>)
    requires NoDup<OtEntry?>(c)
    ensures NoDup<OtEntry>(c)
  {
  }

  /** Only objects in `c` have changed. */
  ghost predicate SameElse(c: seq<OtEntry>, m: ObjModel, m': ObjModel) {
    forall e :: e in m && e !in c ==> e in m' && m'[e] == m[e]
  }

  lemma {:induction false} SameStill(c: seq<OtEntry>, m: ObjModel, m1: ObjModel, e: OtEntry, r: Ote)
    requires SameElse(c, m, m1) && e in c
    ensures SameElse(c, m, m1[e := r])
  {
  }

  lemma {:induction false} SameFirst(c: seq<OtEntry>, m: ObjModel)
    ensures SameElse(c, m, m)
  {
  }

  lemma {:induction false} UntouchedStill(o0: Objs, o: Objs, o': Objs, i: nat)
    requires SoundObjs(o0) && Untouched(o0, o, i + 1) && i < |o0.chains| && SameElse(o0.chains[i], o.model, o'.model)
    ensures Untouched(o0, o', i + 1)
  {
    hide Named, ObjChainsOk;
    forall h, e | i + 1 <= h < |o0.chains| && e in o0.chains[h]
      ensures e in o0.model && e in o'.model && o'.model[e] == o0.model[e]
    {
      assert HashObj(o0.model[e].fileobj) == h;
      assert e !in o0.chains[i];
    }
  }

  ghost function Missing(o: Objs, log: seq<Restore>): set<Restore> {
    Replaced(o) - set r | r in log
  }

  lemma {:induction false} FewerMissing(o: Objs, log: seq<Restore>, r: Restore)
    requires r !in log && r in Replaced(o)
    ensures |Missing(o, log + [r])| < |Missing(o, log)|
  {
    hide Replaced;
    assert Missing(o, log) == Missing(o, log + [r]) + {r};
  }

  lemma {:induction false} Smaller(a: set<OtEntry>, b: set<OtEntry>)
    requires a < b
    ensures |a| < |b|
  {
    var x :| x in b && x !in a;
    Contained(a, b - {x});
  }

  lemma {:induction false} Contained(a: set<OtEntry>, b: set<OtEntry>)
    requires a <= b
    ensures |a| <= |b|
    decreases a
  {
    if a != {} {
      var x :| x in a;
      Contained(a - {x}, b - {x});
    }
  }

  lemma {:induction false} ChainCount(o: Objs)
    requires SoundObjs(o)
    ensures |o.chains| == OBJ_HASH_SIZE
  {
  }

  lemma {:induction false} NoneLive(o0: Objs, o: Objs, t: Table, log: seq<Restore>)
    requires SoundObjs(o0) && Torn(o0, o, t, log) && |o0.chains| == OBJ_HASH_SIZE
    requires forall h, e :: 0 <= h < OBJ_HASH_SIZE && e in o0.chains[h] ==> e !in Live(o)
    ensures Live(o) == {}
  {
  }

  // ---- In which order --------------------------------------------------------------------------------

  /** The object with this file object is at place `k` of chain `h`. */
  ghost predicate PlacedAt(o: Objs, f: nat, h: int, k: int) {
    0 <= h < |o.chains| && 0 <= k < |o.chains[h]| && o.chains[h][k] in o.model && o.model[o.chains[h][k]].fileobj == f
  }

  /** By chain, then by place in the chain, then by event. */
  ghost predicate Precedes(o: Objs, r: Restore, s: Restore) {
    exists h, k, h', k' :: PlacedAt(o, r.addrobj, h, k) && PlacedAt(o, s.addrobj, h', k')
      && (h < h' || (h == h' && (k < k' || (k == k' && r.event < s.event))))
  }

  ghost predicate Ordered(o: Objs, rs: seq<Restore>) {
    forall a, b :: 0 <= a < b < |rs| ==> Precedes(o, rs[a], rs[b])
  }

  /** All of them come before event `j` at place `q` of chain `i`. */
  ghost predicate AllBefore(o: Objs, rs: seq<Restore>, i: int, q: int, j: int) {
    forall r :: r in rs ==> IsBefore(o, r, i, q, j)
  }

  ghost predicate IsBefore(o: Objs, r: Restore, i: int, q: int, j: int) {
    exists h, k ::
      PlacedAt(o, r.addrobj, h, k) && (h < i || (h == i && (k < q || (k == q && r.event < j))))
  }

  /** One more at the end, which is not given back unless `built`. */
  lemma {:induction false} OrderedMore(o: Objs, rs: seq<Restore>, i: int, q: int, j: int, q': int, e: Restore,
                                       built: bool)
    requires Ordered(o, rs) && AllBefore(o, rs, i, q, j) && q <= q' && (q' == q ==> j <= e.event)
    requires PlacedAt(o, e.addrobj, i, q')
    ensures var rs' := if built then rs + [e] else rs;
      Ordered(o, rs') && AllBefore(o, rs', i, q', e.event + 1)
  {
    hide PlacedAt;
    assert IsBefore(o, e, i, q', e.event + 1);
    forall r | r in rs ensures IsBefore(o, r, i, q', e.event + 1) && Precedes(o, r, e) {
      assert IsBefore(o, r, i, q, j);
      var h, k :| PlacedAt(o, r.addrobj, h, k) && (h < i || (h == i && (k < q || (k == q && r.event < j))));
    }
  }

  lemma {:induction false} NoneOrdered(o: Objs)
    ensures Ordered(o, []) && AllBefore(o, [], 0, 0, 0) && Ascending([])
  {
  }

  lemma {:induction false} AllFurther(o: Objs, rs: seq<Restore>, i: int, q: int, q': int, j: int)
    requires AllBefore(o, rs, i, q, j) && q <= q'
    ensures AllBefore(o, rs, i, q', j)
  {
    hide PlacedAt;
    forall r | r in rs ensures IsBefore(o, r, i, q', j) {
      assert IsBefore(o, r, i, q, j);
    }
  }

  lemma {:induction false} NextChain(o: Objs, rs: seq<Restore>, i: int, q: int, j: int)
    requires AllBefore(o, rs, i, q, j)
    ensures AllBefore(o, rs, i + 1, 0, 0)
  {
    hide PlacedAt;
    forall r | r in rs ensures IsBefore(o, r, i + 1, 0, 0) {
      assert IsBefore(o, r, i, q, j);
    }
  }

  /** The object at the front keeps no handler for an event below `j`. */
  ghost predicate NoneBelow(c: seq<OtEntry>, m: ObjModel, q: nat, j: nat) {
    q < |c| && c[q] in m ==> forall l :: 0 <= l < j && l < |m[c[q]].ctx| ==> m[c[q]].ctx[l].handler == 0
  }

  lemma {:induction false} NoneBelowStill(c: seq<OtEntry>, m0: ObjModel, m: ObjModel, q: nat, j: nat, k: nat, r: Ote,
                                          connobj: nat)
    requires Sweeping(c, m0, m, q, k, connobj) && k < |c| && k < q && NoneBelow(c, m, q, j)
    ensures NoneBelow(c, m[c[k] := r], q, j)
  {
    assert q < |c| ==> c[q] != c[k];
  }

  /** What the sweep has found at place `k`. */
  lemma {:induction false} FoundAt(o0: Objs, m: ObjModel, i: nat, q: nat, j: nat, k: nat, connobj: nat, r': Ote,
                                   event: Restore)
    requires i < |o0.chains| && k < |o0.chains[i]|
    requires Sweeping(o0.chains[i], o0.model, m, q, k, connobj) && (k <= q ==> NoneBelow(o0.chains[i], m, q, j))
    requires o0.chains[i][k] in m && Stops(m[o0.chains[i][k]])
    requires var r := m[o0.chains[i][k]];
      && event.addrobj == r.fileobj && event.event < |r.ctx| && r.ctx[event.event].handler != 0
      && forall l :: 0 <= l <= event.event && l < |r'.ctx| ==> r'.ctx[l].handler == 0
    ensures PlacedAt(o0, event.addrobj, i, k) && q <= k && (k == q ==> j <= event.event)
    ensures NoneBelow(o0.chains[i], m[o0.chains[i][k] := r'], k, event.event + 1)
  {
  }

  /** Objects of different chains, in chain order. */
  ghost predicate Ascending(fs: seq<nat>) {
    forall a, b :: 0 <= a < b < |fs| ==> HashObj(fs[a]) < HashObj(fs[b])
  }

  lemma {:induction false} AscendingMore(o: Objs, fs: seq<nat>, dialled: nat -> bool, i: nat, f: nat)
    requires SoundObjs(o) && Hung(o, fs, dialled, i) && Hung(o, fs + [f], dialled, i + 1) && Ascending(fs)
    ensures Ascending(fs + [f])
  {
    hide SoundObjs, HashObj, Farewell;
    var h :| 0 <= h < i + 1 && Farewell(o, h, f) by {
      assert (fs + [f])[|fs|] == f && f in fs + [f];
    }
    FarewellHash(o, h, f);
    NotTwice(fs, f);
    assert h == i;
    forall a | 0 <= a < |fs| ensures HashObj(fs[a]) < HashObj(f) {
      assert fs[a] in fs;
      var g :| 0 <= g < i && Farewell(o, g, fs[a]);
      FarewellHash(o, g, fs[a]);
    }
  }

  lemma {:induction false} NotTwice(fs: seq<nat>, f: nat)
    requires NoDup(fs + [f])
    ensures f !in fs
  {
    var s := fs + [f];
    forall a | 0 <= a < |fs| ensures fs[a] != f {
      assert s[a] == fs[a] && s[|fs|] == f;
    }
  }

  /** Of the handlers taken, those for which an IRP could be built have been given back. */
  ghost predicate GivenBack(restored: seq<Restore>, log: seq<Restore>, built: Restore -> bool) {
    NoDup(restored) && forall r :: r in restored <==> r in log && built(r)
  }

  lemma {:induction false} NoneTaken(built: Restore -> bool)
    ensures GivenBack([], [], built)
  {
  }

  lemma {:induction false} Given(restored: seq<Restore>, log: seq<Restore>, built: Restore -> bool, r: Restore)
    requires GivenBack(restored, log, built) && r !in log
    ensures GivenBack(if built(r) then restored + [r] else restored, log + [r], built)
  {
    if built(r) {
      NoDupBack(restored, r);
    }
    hide NoDup;
  }

  lemma {:induction false} AllGivenBack(restored: seq<Restore>, log: seq<Restore>, built: Restore -> bool)
    requires GivenBack(restored, log, built)
    ensures NoDup(restored) && forall r :: r in restored <==> r in log && built(r)
  {
  }

  lemma {:induction false} NothingLeft(s: seq<ConnEntry>, gone: set<ConnEntry>)
    requires forall c :: c in s ==> c in gone
    ensures Without(s, gone) == []
    decreases |s|
  {
    if s != [] {
      assert s[0] in gone;
      NothingLeft(s[1..], gone);
    }
  }

  class Objects {
    const table: array<OtEntry?>
    const conns: Conns
    const events: nat
    ghost var o: Objs

    ghost predicate MirroredObjs()
      reads this, table, o.nodes
    {
      && table.Length == OBJ_HASH_SIZE && table[..] == o.heads
      && forall e :: e in o.nodes ==> ShownObj(o, e)
    }

    ghost predicate Valid()
      reads this, table, o.nodes, conns, conns.conn, conns.t.nodes
    {
      && (table as object) != (conns.conn as object)
      && MirroredObjs() && SoundObjs(o) && conns.Valid() && Owns(o.nodes, o.model, conns.t)
    }

    constructor (events: nat)
      ensures Valid() && fresh(conns) && fresh(conns.conn) && fresh(table)
      ensures o.objs == map[] && conns.t.order == []
    {
      this.events := events;
      conns := new Conns();
      table := new OtEntry?[OBJ_HASH_SIZE](_ => null);
      o := Objs({}, map[], map[], seq(OBJ_HASH_SIZE, _ => null), seq(OBJ_HASH_SIZE, _ => []), map[]);
    }

    /** No connection entry is an object. */
    lemma {:induction false} Typed()
      ensures forall c: object :: c in conns.t.nodes ==> c is ConnEntry
    {
    }

    lemma {:induction false} Heads(h: nat)
      requires MirroredObjs() && h < OBJ_HASH_SIZE
      ensures table.Length == OBJ_HASH_SIZE == |o.heads| && table[h] == o.heads[h]
    {
    }

    lemma {:induction false} ShownAt(e: OtEntry)
      requires MirroredObjs() && e in o.nodes
      ensures e in o.model && e.Fields() == o.model[e] && e in o.nexts && o.nexts[e] == e.next
    {
    }

    /** `ot_find_fileobj`: the search of one chain looks the file object up in the map. */
    method Find(fileobj: nat) returns (ote: OtEntry?)
      requires MirroredObjs() && SoundObjs(o)
      ensures ote == if fileobj in o.objs then o.objs[fileobj] else null
      ensures ote != null ==>
        ote in o.nodes && fileobj != 0 && ote in o.model && ote.Fields() == o.model[ote] && ote.fileobj == fileobj
    {
      hide SoundObjs, HashObj, MirroredObjs, Searching;
      var hash := HashObj(fileobj);
      SearchBegins(o, fileobj);
      if fileobj == 0 {
        return null;
      }
      Heads(hash);
      ghost var c, i := o.chains[hash], 0;
      ote := table[hash];
      while ote != null
        invariant i <= |c| && Searching(o, fileobj, i) && ote == if i < |c| then c[i] else null
        decreases |c| - i
      {
        SearchAt(o, fileobj, i);
        ShownAt(ote);
        if ote.fileobj == fileobj {
          return;
        }
        ote := ote.next;
        i := i + 1;
      }
      SearchEnds(o, fileobj, i);
    }

    /** `del_tcp_conn_obj` on the entry of an object, which lets go of it. */
    method Disown(ote: OtEntry, now: int)
      requires (table as object) != (conns.conn as object) && MirroredObjs() && conns.Valid()
      requires Owns(o.nodes, o.model, conns.t)
      requires ote in o.nodes && ote.conn != null
      modifies this`o, ote`conn, conns`t, conns`toDel, conns.t.nodes
      ensures MirroredObjs() && conns.Valid() && Owns(o.nodes, o.model, conns.t)
      ensures ote in old(o.model) && o == Changed(old(o), ote, old(o.model)[ote].(conn := null))
      ensures old(ote.conn) in old(conns.t.model) && conns.t == Closed(old(conns.t), old(ote.conn), now)
    {
      hide Owns, ShownObj, Sound;
      ShownAt(ote);
      OwnedAt(ote);
      ghost var r := o.model[ote].(conn := null);
      OwnsLess(o.nodes, o.model, r, conns.t, ote, now);
      var ce := ote.conn;
      ote.conn := null;
      Rewrite(ote, r);
      conns.Close(ce, now);
    }

    method Release(ote: OtEntry, now: int)
      requires Valid() && ote in o.nodes && ote.conn != null
      modifies this`o, ote`conn, conns`t, conns`toDel, conns.t.nodes
      ensures Valid() && ote in old(o.model) && o == Changed(old(o), ote, old(o.model)[ote].(conn := null))
      ensures old(ote.conn) in old(conns.t.model) && conns.t == Closed(old(conns.t), old(ote.conn), now)
    {
      hide SoundObjs, Owns, ShownObj, Sound, Conns.Mirrored, MirroredObjs;
      ShownAt(ote);
      ChangedOk(o, ote, o.model[ote].(conn := null));
      Disown(ote, now);
    }

    /** The picture follows a change of an object's fields. */
    ghost method Rewrite(ote: OtEntry, r: Ote)
      requires ote in o.nodes && ote in o.nexts && o.nexts[ote] == ote.next && ote.Fields() == r
      requires table.Length == OBJ_HASH_SIZE && table[..] == o.heads
      requires forall e :: e in o.nodes && e != ote ==> ShownObj(o, e)
      modifies this`o
      ensures MirroredObjs() && o == Changed(old(o), ote, r) && o.nodes == old(o.nodes)
      ensures o.model == old(o.model)[ote := r]
    {
      o := Changed(o, ote, r);
      forall e | e in o.nodes ensures ShownObj(o, e) {
        assert e != ote ==> old(ShownObj(o, e));
      }
    }

    lemma {:induction false} OwnedAt(ote: OtEntry)
      requires MirroredObjs() && Owns(o.nodes, o.model, conns.t) && ote in o.nodes
      ensures ote.conn != null ==> ote.conn in conns.t.nodes && ote.conn !in conns.t.dead && ote.kind == FILEOBJ_CONNOBJ
    {
    }

    /** `add_tcp_conn`. An object with an entry is refused in whatever state the tables are; one that is no connection
        object gets an entry which `ot_cleanup_ote` will not close. */
    method AddTcpConn(ote: OtEntry, state: int) returns (status: Status)
      requires (table as object) != (conns.conn as object) && MirroredObjs() && SoundObjs(o) && conns.Mirrored()
      requires ote in o.nodes
      requires ote.conn == null ==> Valid()
      modifies this`o, ote`conn, conns, conns.conn, conns.t.nodes
      ensures MirroredObjs() && SoundObjs(o) && conns.Mirrored() && ote in old(o.model)
      ensures old(Valid()) ==> (Valid() <==> status != Success || ote.kind == FILEOBJ_CONNOBJ)
      ensures var r := old(o.model)[ote];
        status == if r.local.kind != TDI_ADDRESS_TYPE_IP || r.remote.kind != TDI_ADDRESS_TYPE_IP then InvalidParameter
                  else if r.conn != null then ObjectNameExists else Success
      ensures status != Success ==> o == old(o) && conns.t == old(conns.t)
      ensures status == Success ==> ote.conn != null && o == Changed(old(o), ote, old(o.model)[ote].(conn := ote.conn))
      ensures status == Success ==>
        conns.t.order == [ote.conn] + old(conns.t.order) && conns.t.dead == old(conns.t.dead)
      ensures status == Success ==> var r := old(o.model)[ote];
        conns.t.model == old(conns.t.model)[ote.conn := Opened(r.local, r.remote, state, r.fileobj)]
      ensures status == Success ==> var r := old(o.model)[ote];
        Finds(conns.t, Key(r.local.addr, r.local.port, r.remote.addr, r.remote.port), state)
      ensures status == Success ==>
        old(EntryOf(o, conns.t, ote.fileobj)) == None && EntryOf(o, conns.t, ote.fileobj) == Some(state)
      ensures status == Success ==> forall f :: f != ote.fileobj ==>
        EntryOf(o, conns.t, f) == old(EntryOf(o, conns.t, f))
    {
      hide SoundObjs, Owns, ShownObj, Sound, Changed, Conns.Mirrored, EntryOf, Finds;
      ShownAt(ote);
      if ote.local.kind != TDI_ADDRESS_TYPE_IP || ote.remote.kind != TDI_ADDRESS_TYPE_IP {
        return InvalidParameter;
      }
      if ote.conn != null {
        return ObjectNameExists;
      }
      Enroll(ote, state);
      status := Success;
    }

    /** The new entry, and the object that it belongs to. */
    method Enroll(ote: OtEntry, state: int)
      requires Valid() && ote in o.nodes && ote.conn == null
      modifies this`o, ote`conn, conns, conns.conn, conns.t.nodes
      ensures MirroredObjs() && SoundObjs(o) && conns.Valid() && ote in old(o.model)
      ensures Owns(o.nodes, o.model, conns.t) <==> ote.kind == FILEOBJ_CONNOBJ
      ensures ote.conn != null && o == Changed(old(o), ote, old(o.model)[ote].(conn := ote.conn))
      ensures conns.t.order == [ote.conn] + old(conns.t.order) && conns.t.dead == old(conns.t.dead)
      ensures var r := old(o.model)[ote];
        conns.t.model == old(conns.t.model)[ote.conn := Opened(r.local, r.remote, state, r.fileobj)]
      ensures var r := old(o.model)[ote];
        Finds(conns.t, Key(r.local.addr, r.local.port, r.remote.addr, r.remote.port), state)
      ensures old(EntryOf(o, conns.t, ote.fileobj)) == None && EntryOf(o, conns.t, ote.fileobj) == Some(state)
      ensures forall f :: f != ote.fileobj ==> EntryOf(o, conns.t, f) == old(EntryOf(o, conns.t, f))
    {
      hide SoundObjs, Owns, ShownObj, Sound, Changed, Conns.Mirrored, EntryOf, Finds;
      ShownAt(ote);
      NamedAt(o, ote);
      EntriesOf(o, conns.t, ote.fileobj);
      DeadListed(conns.t);
      ghost var t := conns.t;
      var key := Key(ote.local.addr, ote.local.port, ote.remote.addr, ote.remote.port);
      var ce := conns.Add(key, state, ote.fileobj);
      FindsFirst(conns.t);
      ote.conn := ce;
      ghost var r := ote.Fields();
      OwnsMore(o.nodes, o.model, t, conns.t, ote, ce, Rec(key, state, ote.fileobj, 0));
      StatesOpened(o, t, conns.t, ote, ce, Rec(key, state, ote.fileobj, 0));
      ChangedOk(o, ote, r);
      Rewrite(ote, r);
    }

    /** `del_tcp_conn`. */
    method DelTcpConn(connobj: nat, now: int)
      requires Valid()
      modifies this`o, o.nodes`conn, conns`t, conns`toDel, conns.t.nodes
      ensures Valid() && o.objs == old(o.objs) && o.nodes == old(o.nodes)
      ensures conns.t == Retired(old(o), old(conns.t), connobj, now)
      ensures connobj !in o.objs ==> o == old(o)
      ensures connobj in o.objs ==> var e := o.objs[connobj];
        e in old(o.model) && o.model == old(o.model)[e := old(o.model)[e].(conn := null)]
      ensures EntryOf(o, conns.t, connobj) == None
      ensures forall f :: f != connobj ==> EntryOf(o, conns.t, f) == old(EntryOf(o, conns.t, f))
    {
      hide SoundObjs, Owns, ShownObj, Sound, Closed, Conns.Mirrored, EntryOf, Retired;
      var ote := Find(connobj);
      EntriesOf(o, conns.t, connobj);
      RetiredExact(o, conns.t, connobj, now);
      if ote == null {
        return;
      }
      if ote.conn != null {
        StatesClosed(o, conns.t, ote, now);
        Release(ote, now);
      }
    }

    /** `set_tcp_conn_state`. */
    method SetTcpConnState(connobj: nat, state: int) returns (status: Status)
      requires Valid()
      modifies conns`t, conns.t.nodes`state
      ensures Valid()
      ensures status == if connobj !in o.objs then ObjectNameNotFound
                        else if o.objs[connobj] in o.model && o.model[o.objs[connobj]].conn == null
                        then InvalidParameter else Success
      ensures EntryOf(o, conns.t, connobj) == if status == Success then Some(state) else None
      ensures status == Success <==> old(EntryOf(o, conns.t, connobj)).Some?
      ensures forall f :: f != connobj ==> EntryOf(o, conns.t, f) == old(EntryOf(o, conns.t, f))
      ensures status != Success ==> conns.t == old(conns.t)
      ensures status == Success ==>
        connobj in o.objs && o.objs[connobj] in o.model && o.model[o.objs[connobj]].conn in old(conns.t.model)
      ensures status == Success ==> conns.t == Restated(old(conns.t), o.model[o.objs[connobj]].conn, state)
    {
      hide SoundObjs, Owns, ShownObj, Sound, Conns.Mirrored, EntryOf;
      var ote := Find(connobj);
      EntriesOf(o, conns.t, connobj);
      if ote == null {
        return ObjectNameNotFound;
      }
      if ote.conn == null {
        return InvalidParameter;
      }
      OwnedAt(ote);
      StatesRestated(o, conns.t, ote, state);
      OwnsRestated(o.nodes, o.model, conns.t, ote.conn, state);
      conns.SetState(ote.conn, state);
      status := Success;
    }

    /** `get_tcp_conn_state_by_obj`. */
    method GetTcpConnStateByObj(connobj: nat) returns (result: int)
      requires Valid()
      ensures result == var entry := EntryOf(o, conns.t, connobj); if entry.Some? then entry.value else TCP_STATE_NONE
    {
      hide SoundObjs, Owns, ShownObj, Sound, Conns.Mirrored, EntryOf;
      result := TCP_STATE_NONE;
      var ote := Find(connobj);
      EntriesOf(o, conns.t, connobj);
      if ote != null && ote.conn != null {
        OwnedAt(ote);
        conns.MirroredAt(ote.conn);
        result := ote.conn.state;
      }
    }

    /** `set_tcp_conn_local`. */
    method SetTcpConnLocal(connobj: nat, local: Address) returns (status: Status)
      requires Valid()
      modifies conns`t, conns.conn, conns.t.nodes
      ensures Valid()
      ensures status == if connobj !in o.objs then ObjectNameNotFound
                        else if o.objs[connobj] in o.model && o.model[o.objs[connobj]].conn == null
                        then InvalidParameter else Success
      ensures status != Success ==> conns.t == old(conns.t)
      ensures status == Success ==> connobj in o.objs && o.objs[connobj] in o.model
      ensures status == Success ==> o.model[o.objs[connobj]].conn in old(conns.t.model)
      ensures status == Success ==> var c: ConnEntry := o.model[o.objs[connobj]].conn;
        && conns.t.order == [c] + Remove(old(conns.t.order), c) && conns.t.dead == old(conns.t.dead)
        && conns.t.model == old(conns.t.model)[c := Relocated(old(conns.t.model)[c], local)]
      ensures status == Success ==> var was := old(conns.t.model)[o.model[o.objs[connobj]].conn];
        Finds(conns.t, Key(local.addr, local.port, was.key.raddr, was.key.rport), was.state)
      ensures forall f :: EntryOf(o, conns.t, f) == old(EntryOf(o, conns.t, f))
    {
      hide SoundObjs, Owns, ShownObj, Sound, Conns.Mirrored, EntryOf, Remove, Finds;
      var ote := Find(connobj);
      if ote == null {
        return ObjectNameNotFound;
      }
      if ote.conn == null {
        return InvalidParameter;
      }
      OwnedAt(ote);
      conns.MirroredAt(ote.conn);
      ghost var t := conns.t;
      conns.SetLocal(ote.conn, local.addr, local.port);
      FindsFirst(conns.t);
      Rekeying(o, t, conns.t, ote.conn);
      status := Success;
    }

    /** `ot_cleanup_ote`. */
    method CleanupOte(ote: OtEntry, now: int)
      requires Valid() && ote in o.nodes
      modifies this`o, ote, conns`t, conns`toDel, conns.t.nodes
      ensures Valid() && ote in old(o.model)
      ensures o == Changed(old(o), ote, Fresh(old(o.model)[ote].fileobj, FILEOBJ_CONTROLOBJ, events))
      ensures ote.conn == null
      ensures conns.t == old(Retired(o, conns.t, ote.fileobj, now))
    {
      hide SoundObjs, Owns, ShownObj, Sound, Conns.Mirrored, MirroredObjs, Retired;
      NamedAt(o, ote);
      RetiredExact(o, conns.t, ote.fileobj, now);
      ShownAt(ote);
      OwnedAt(ote);
      if ote.kind == FILEOBJ_CONNOBJ && ote.conn != null {
        Release(ote, now);
        ShownAt(ote);
      }
      Erase(ote);
    }

    method Erase(ote: OtEntry)
      requires Valid() && ote in o.nodes && ote.conn == null
      modifies this`o, ote
      ensures Valid() && ote in old(o.model) && ote.conn == null
      ensures o == Changed(old(o), ote, Fresh(old(o.model)[ote].fileobj, FILEOBJ_CONTROLOBJ, events))
    {
      hide SoundObjs, Owns, ShownObj, Sound, Conns.Mirrored;
      ShownAt(ote);
      Typed();
      ote.Clear(events);
      Retyped(o, conns.t, ote, ote.Fields());
      Rewrite(ote, ote.Fields());
    }

    /** `ot_add_fileobj`: a new object, or an old one reused for a new purpose. */
    method AddFileObj(fileobj: nat, kind: int, now: int) returns (status: Status)
      requires Valid()
      modifies this`o, o.nodes, table, conns`t, conns`toDel, conns.t.nodes
      ensures Valid()
      ensures fileobj == 0 ==> status == InvalidParameter && o == old(o) && conns.t == old(conns.t)
      ensures fileobj != 0 ==>
        status == Success && fileobj in o.objs && o.objs == old(o.objs)[fileobj := o.objs[fileobj]]
      ensures fileobj != 0 ==> o.model == old(o.model)[o.objs[fileobj] := Fresh(fileobj, kind, events)]
      ensures fileobj != 0 ==> var r := o.model[o.objs[fileobj]];
        && r.fileobj == fileobj && r.kind == kind && r.conn == null
        && r.local == Address(0, 0, 0) && r.remote == Address(0, 0, 0)
        && |r.ctx| == events && forall j :: 0 <= j < events ==> r.ctx[j] == Ctx(0, 0)
      ensures fileobj != 0 ==> var h := fileobj % 4294967296 / 32 % 4096;
        && |old(o.chains)| == 4096
        && o.chains == if fileobj in old(o.objs) then old(o.chains)
                       else old(o.chains)[h := [o.objs[fileobj]] + old(o.chains)[h]]
      ensures fileobj != 0 ==> conns.t == Retired(old(o), old(conns.t), fileobj, now)
      ensures forall e :: e in o.nodes ==> e in old(o.nodes) || fresh(e)
    {
      hide SoundObjs, Owns, ShownObj, Sound, Conns.Mirrored, HashObj, Retired, MirroredObjs;
      if fileobj == 0 {
        return InvalidParameter;
      }
      var ote := Find(fileobj);
      RetiredExact(o, conns.t, fileobj, now);
      ChainCount(o);
      HashExact(fileobj);
      if ote == null {
        Create(fileobj, kind);
      } else {
        CleanupOte(ote, now);
        Retype(ote, kind);
      }
      status := Success;
    }

    method Create(fileobj: nat, kind: int)
      requires Valid() && fileobj != 0 && fileobj !in o.objs
      modifies this`o, table
      ensures Valid() && fileobj in o.objs && fresh(o.objs[fileobj]) && o.nodes == old(o.nodes) + {o.objs[fileobj]}
      ensures o.objs == old(o.objs)[fileobj := o.objs[fileobj]]
      ensures o.model == old(o.model)[o.objs[fileobj] := Fresh(fileobj, kind, events)]
      ensures |old(o.chains)| == OBJ_HASH_SIZE
      ensures var h := HashObj(fileobj); o.chains == old(o.chains)[h := [o.objs[fileobj]] + old(o.chains)[h]]
    {
      hide SoundObjs, Owns, ShownObj, Sound, Conns.Mirrored, HashObj, MirroredObjs;
      var ote := new OtEntry(fileobj, events);
      Typed();
      ote.kind := kind;
      Insert(ote);
    }

    method Retype(ote: OtEntry, kind: int)
      requires Valid() && ote in o.nodes && ote.conn == null
      modifies this`o, ote`kind
      ensures Valid() && ote in old(o.model) && o == Changed(old(o), ote, old(o.model)[ote].(kind := kind))
    {
      hide SoundObjs, Owns, ShownObj, Sound, Conns.Mirrored;
      ShownAt(ote);
      Typed();
      ote.kind := kind;
      Retyped(o, conns.t, ote, ote.Fields());
      Rewrite(ote, ote.Fields());
    }

    /** A new object comes first in its chain. */
    method Insert(ote: OtEntry)
      requires Valid() && ote !in o.nodes && ote.fileobj != 0 && ote.fileobj !in o.objs && ote.conn == null
      modifies this`o, table, ote`next
      ensures Valid() && |old(o.heads)| == |old(o.chains)| == OBJ_HASH_SIZE && o == Inserted(old(o), ote, ote.Fields())
    {
      hide SoundObjs, Owns, Sound, Conns.Mirrored, HashObj;
      ghost var r := ote.Fields();
      InsertedOk(o, ote, r);
      OwnsNew(o.nodes, o.model, conns.t, ote, r);
      var hash := HashObj(ote.fileobj);
      Typed();
      ote.next := table[hash];
      table[hash] := ote;
      o := Inserted(o, ote, r);
      assert table[..] == o.heads;
      forall e | e in o.nodes ensures ShownObj(o, e) {
        assert e != ote ==> old(ShownObj(o, e));
      }
    }

    /** `ot_del_fileobj`. */
    method DelFileObj(fileobj: nat, now: int) returns (status: Status, kind: int)
      requires Valid()
      modifies this`o, o.nodes`next, o.nodes`conn, table, conns`t, conns`toDel, conns.t.nodes
      ensures Valid()
      ensures status ==
        if fileobj == 0 then InvalidParameter else if fileobj in old(o.objs) then Success else ObjectNameNotFound
      ensures status != Success ==> o == old(o) && conns.t == old(conns.t)
      ensures status == Success ==> fileobj in old(o.objs) && old(o.objs)[fileobj] in old(o.model)
      ensures status == Success ==> kind == old(o.model)[old(o.objs)[fileobj]].kind
      ensures status == Success ==>
        o.objs == old(o.objs) - {fileobj} && o.nodes == old(o.nodes) - {old(o.objs)[fileobj]}
      ensures status == Success ==> conns.t == Retired(old(o), old(conns.t), fileobj, now)
      ensures status == Success ==> forall e :: e in o.nodes ==>
        e in o.model && e in old(o.model) && o.model[e] == old(o.model)[e]
      ensures status == Success ==> var h := fileobj % 4294967296 / 32 % 4096;
        |old(o.chains)| == 4096 && Leaves(old(o.chains)[h], old(o.objs)[fileobj], o.chains, old(o.chains), h)
    {
      hide SoundObjs, Owns, ShownObj, Sound, Conns.Mirrored, HashObj, MirroredObjs, Chained, Skipping, Retired;
      kind := FILEOBJ_CONTROLOBJ;
      if fileobj == 0 {
        return InvalidParameter, kind;
      }
      var ote, prev;
      ghost var i;
      ote, prev, i := FindWithPrev(fileobj);
      if ote == null {
        return ObjectNameNotFound, kind;
      }
      ShownAt(ote);
      HashExact(fileobj);
      ghost var c := o.chains[HashObj(fileobj)];
      assert c == c[..i] + [ote] + c[i + 1..];
      kind := ote.kind;
      Drop(ote, prev, c[..i], c[i + 1..], now);
      status := Success;
    }

    /** A found object closes its connection and leaves its chain. */
    method Drop(ote: OtEntry, prev: OtEntry?, ghost a: seq<OtEntry>, ghost b: seq<OtEntry>, now: int)
      requires Valid() && ote in o.nodes && prev == if a == [] then null else a[|a| - 1]
      requires |o.chains| == OBJ_HASH_SIZE && o.chains[HashObj(ote.fileobj)] == a + [ote] + b
      modifies this`o, o.nodes`next, o.nodes`conn, table, conns`t, conns`toDel, conns.t.nodes
      ensures Valid() && o.objs == old(o.objs) - {old(ote.fileobj)} && o.nodes == old(o.nodes) - {ote}
      ensures conns.t == old(Retired(o, conns.t, ote.fileobj, now))
      ensures forall e :: e in o.nodes ==> e in o.model && e in old(o.model) && o.model[e] == old(o.model)[e]
      ensures o.chains == old(o.chains)[HashObj(old(ote.fileobj)) := a + b]
    {
      hide SoundObjs, Owns, ShownObj, Sound, Conns.Mirrored, HashObj, MirroredObjs, Chained, Skipping, Retired;
      ShownAt(ote);
      OwnedAt(ote);
      NamedAt(o, ote);
      Recorded(o);
      RetiredExact(o, conns.t, ote.fileobj, now);
      if ote.kind == FILEOBJ_CONNOBJ && ote.conn != null {
        Release(ote, now);
        ShownAt(ote);
      }
      Detach(ote, prev, a, b);
    }

    /** The search of `ot_del_fileobj`, which remembers the object before. */
    method FindWithPrev(fileobj: nat) returns (ote: OtEntry?, prev: OtEntry?, ghost i: nat)
      requires MirroredObjs() && SoundObjs(o)
      ensures |o.chains| == OBJ_HASH_SIZE
      ensures ote == if fileobj in o.objs then o.objs[fileobj] else null
      ensures ote != null ==> ote in o.nodes && ote in o.model && o.model[ote].fileobj == fileobj
      ensures ote != null ==>
        var c := o.chains[HashObj(fileobj)]; i < |c| && c[i] == ote && prev == if i == 0 then null else c[i - 1]
    {
      hide SoundObjs, HashObj, MirroredObjs, Searching;
      var hash := HashObj(fileobj);
      SearchBegins(o, fileobj);
      Heads(hash);
      ghost var c := o.chains[hash];
      i := 0;
      prev := null;
      ote := table[hash];
      while ote != null
        invariant i <= |c| && Searching(o, fileobj, i) && ote == (if i < |c| then c[i] else null)
        invariant prev == if i == 0 then null else c[i - 1]
        decreases |c| - i
      {
        SearchAt(o, fileobj, i);
        ShownAt(ote);
        if ote.fileobj == fileobj {
          return;
        }
        prev := ote;
        ote := ote.next;
        i := i + 1;
      }
      SearchEnds(o, fileobj, i);
    }

    /** An object that owns nothing leaves its chain. */
    method Detach(ote: OtEntry, prev: OtEntry?, ghost a: seq<OtEntry>, ghost b: seq<OtEntry>)
      requires Valid() && ote in o.nodes && ote.conn == null && prev == if a == [] then null else a[|a| - 1]
      requires |o.chains| == OBJ_HASH_SIZE && o.chains[HashObj(ote.fileobj)] == a + [ote] + b
      modifies this`o, o.nodes`next, table
      ensures Valid() && o.objs == old(o.objs) - {ote.fileobj} && o.nodes == old(o.nodes) - {ote}
      ensures o.model == old(o.model) && o.chains == old(o.chains)[HashObj(ote.fileobj) := a + b]
    {
      hide SoundObjs, Owns, Sound, Conns.Mirrored, HashObj, Skipping;
      ShownAt(ote);
      DeletedOk(o, a, ote, b);
      OwnsLeft(o.nodes, o.model, conns.t, ote);
      SkippingExact(o.nexts, a, ote);
      ghost var o' := Deleted(o, a, ote, b);
      Typed();
      if prev != null {
        prev.next := ote.next;
      } else {
        table[HashObj(ote.fileobj)] := ote.next;
      }
      o := o';
      assert table[..] == o.heads;
      forall e | e in o.nodes ensures ShownObj(o, e) {
        assert old(ShownObj(o, e));
      }
    }

    lemma {:induction false} SkippingExact(nexts: map<OtEntry, OtEntry?>, a: seq<OtEntry>, e: OtEntry)
      requires e in nexts
      ensures var nexts' := Skipping<OtEntry?>(nexts, a, e);
        forall x :: x in nexts ==> x in nexts' && nexts'[x] == if a != [] && x == a[|a| - 1] then nexts[e] else nexts[x]
    {
    }

    lemma {:induction false} NamedAt(o: Objs, e: OtEntry)
      requires SoundObjs(o) && e in o.nodes
      ensures e in o.model && o.model[e].fileobj != 0 && o.model[e].fileobj in o.objs && o.objs[o.model[e].fileobj] == e
    {
    }

    lemma {:induction false} Recorded(o: Objs)
      requires SoundObjs(o)
      ensures forall e :: e in o.nodes ==> e in o.model
    {
    }

    /** The table part of `tdi_connect` and `tdi_event_connect`: the object learns its addresses. */
    method SetAddresses(ote: OtEntry, local: Address, remote: Address)
      requires MirroredObjs() && SoundObjs(o) && conns.Mirrored() && ote in o.nodes
      modifies this`o, ote`local, ote`remote
      ensures MirroredObjs() && SoundObjs(o) && conns.Mirrored() && (old(Valid()) ==> Valid())
      ensures (old(OneOwner(o)) ==> OneOwner(o))
      ensures ote in old(o.model) && o == Changed(old(o), ote, old(o.model)[ote].(local := local, remote := remote))
      ensures forall f :: EntryOf(o, conns.t, f) == old(EntryOf(o, conns.t, f))
    {
      hide SoundObjs, Owns, ShownObj, Sound, Conns.Mirrored, EntryOf;
      ShownAt(ote);
      StatesEdited(o, conns.t, ote, o.model[ote].(local := local, remote := remote));
      Typed();
      ghost var r := o.model[ote].(local := local, remote := remote);
      if Valid() {
        OwnsEdit(o.nodes, o.model, conns.t, ote, r);
      }
      ChangedOk(o, ote, r);
      ote.local := local;
      ote.remote := remote;
      Rewrite(ote, r);
    }

    /** An object's entry is queued, and the object keeps pointing to it. */
    method QueueKept(ote: OtEntry, now: int)
      requires Valid() && ote in o.nodes && ote.conn != null
      modifies conns`t, conns`toDel, conns.t.nodes
      ensures MirroredObjs() && conns.Mirrored()
      ensures ote.conn in old(conns.t.model) && conns.t == Closed(old(conns.t), ote.conn, now)
      ensures ote.conn in conns.t.nodes
      ensures conns.t.nodes == old(conns.t.nodes)
      ensures EntryOf(o, conns.t, ote.fileobj) == Some(TCP_STATE_CLOSED)
      ensures forall f :: f != ote.fileobj ==> EntryOf(o, conns.t, f) == old(EntryOf(o, conns.t, f))
    {
      hide SoundObjs, Owns, Sound, EntryOf, Conns.Mirrored, OneOwner;
      ShownAt(ote);
      OwnedAt(ote);
      OwnedOnce(o, conns.t);
      conns.MirroredAt(ote.conn);
      StatesQueued(o, conns.t, ote, now);
      Typed();
      conns.Queue(ote.conn, now);
    }

    /** An object that refuses a connection queues its entry, even one that is queued, and lets go of it. */
    method LetGo(ote: OtEntry, now: int)
      requires (table as object) != (conns.conn as object) && MirroredObjs() && SoundObjs(o) && OneOwner(o)
      requires conns.Mirrored()
      requires ote in o.nodes && ote.conn != null && ote.conn in conns.t.nodes
      modifies this`o, ote`conn, conns`t, conns`toDel, conns.t.nodes
      ensures MirroredObjs() && SoundObjs(o) && conns.Mirrored() && (old(Valid()) ==> Valid())
      ensures ote in old(o.model) && o == Changed(old(o), ote, old(o.model)[ote].(conn := null))
      ensures old(ote.conn) in old(conns.t.model) && conns.t == Closed(old(conns.t), old(ote.conn), now)
      ensures EntryOf(o, conns.t, ote.fileobj) == None
      ensures forall f :: f != ote.fileobj ==> EntryOf(o, conns.t, f) == old(EntryOf(o, conns.t, f))
    {
      hide SoundObjs, Owns, ShownObj, Sound, EntryOf, Conns.Mirrored, OneOwner;
      ShownAt(ote);
      conns.MirroredAt(ote.conn);
      ghost var r := o.model[ote].(conn := null);
      StatesQueued(o, conns.t, ote, now);
      if Valid() {
        OwnedAt(ote);
        conns.Listed(ote.conn);
        ClosedOk(conns.t, ote.conn, now);
        OwnsLess(o.nodes, o.model, r, conns.t, ote, now);
      }
      ChangedOk(o, ote, r);
      Typed();
      conns.Queue(ote.conn, now);
      ote.conn := null;
      Rewrite(ote, r);
    }

    /** An address object's handler is replaced, and the old one kept. */
    method SetHandler(ote: OtEntry, event: nat, old_handler: Ctx)
      requires Valid() && ote in o.nodes && event < |ote.ctx|
      modifies this`o, ote`ctx
      ensures Valid() && ote in old(o.model) && event < |old(o.model)[ote].ctx|
      ensures o == Changed(old(o), ote, old(o.model)[ote].(ctx := old(o.model)[ote].ctx[event := old_handler]))
    {
      hide SoundObjs, Owns, ShownObj, Sound, Conns.Mirrored;
      ShownAt(ote);
      Typed();
      ghost var r := o.model[ote].(ctx := o.model[ote].ctx[event := old_handler]);
      OwnsEdit(o.nodes, o.model, conns.t, ote, r);
      ChangedOk(o, ote, r);
      ote.ctx := ote.ctx[event := old_handler];
      Rewrite(ote, r);
    }

    /** `tdi_set_event_handler`, as far as it touches the table: for an event that the driver hooks, the handler given
        is what will have to be given back from now on, and no handler means nothing will. */
    method SetEventHandler(addrobj: nat, event: int, given: Ctx, hooked: int -> bool)
      requires Valid()
      modifies this`o, o.nodes`ctx
      ensures Valid() && o.objs == old(o.objs) && o.nodes == old(o.nodes)
      ensures Replaced(o) ==
        if addrobj in o.objs && o.objs[addrobj] in old(o.model)
           && Settable(old(o.model)[o.objs[addrobj]], event, given, hooked)
        then Resettled(Replaced(old(o)), addrobj, event, given)
        else Replaced(old(o))
      ensures var kept := addrobj in o.objs && o.objs[addrobj] in old(o.model)
        && (var r := old(o.model)[o.objs[addrobj]];
            r.kind == FILEOBJ_ADDROBJ && 0 <= event < |r.ctx| && (given.handler != 0 ==> hooked(event)));
        forall r :: r in Replaced(o) <==>
          if kept && r.addrobj == addrobj && r.event == event then
            r.handler == given.handler != 0 && r.context == given.context
          else r in Replaced(old(o))
    {
      hide SoundObjs, Owns, ShownObj, Sound, Replaced, Resettled;
      var ote := Find(addrobj);
      Recorded(o);
      if ote == null {
        return;
      }
      if event < 0 || |ote.ctx| <= event {
        return;
      }
      if given.handler != 0 && !hooked(event) {
        return;
      }
      ghost var o0 := o;
      ResettledExact(Replaced(o0), addrobj, event, given);
      SetHandler(ote, event, if given.handler != 0 then given else NO_HANDLER);
      if o0.model[ote].kind == FILEOBJ_ADDROBJ {
        HandlerSet(o0, ote, event, given);
      } else {
        HandlerUnseen(o0, ote, event, if given.handler != 0 then given else NO_HANDLER);
      }
    }

    /** A pass of the reaper over the connection table of these objects. */
    method Reap(now: int, increment: int, shutdown: bool) returns (timeout: int)
      requires Valid()
      modifies conns`t, conns`toDel, conns.conn, conns.t.nodes
      ensures Valid() && conns.t.model == old(conns.t.model) && Known(old(conns.t.dead), old(conns.t.model))
      ensures conns.t.dead == Without(old(conns.t.dead), DueOf(old(conns.t), now, increment, shutdown))
      ensures conns.t.order == Without(old(conns.t.order), DueOf(old(conns.t), now, increment, shutdown))
      ensures Waits(conns.t.dead, conns.t.model, now, increment, timeout)
      ensures forall f :: EntryOf(o, conns.t, f) == old(EntryOf(o, conns.t, f))
    {
      hide SoundObjs, Owns, ShownObj, Sound, Conns.Mirrored, DueOf, Without, Waits;
      ghost var t := conns.t;
      conns.Unique(t);
      timeout := conns.Reap(now, increment, shutdown);
      DueDead(t, now, increment, shutdown);
      OwnsReaped(o.nodes, o.model, t, conns.t, DueOf(t, now, increment, shutdown));
    }

    lemma {:induction false} DueDead(t: Table, now: int, increment: int, shutdown: bool)
      requires Known(t.dead, t.model)
      ensures DueOf(t, now, increment, shutdown) <= set c | c in t.dead
      ensures shutdown ==> forall c :: c in t.dead ==> c in DueOf(t, now, increment, shutdown)
    {
    }

    // ---- Teardown ---------------------------------------------------------------------------------

    /** The sweeps have turned the table `o0` into this one and given back the handlers in `log`. */
    ghost predicate Tearing(o0: Objs, log: seq<Restore>)
      reads this, table, o.nodes, conns, conns.conn, conns.t.nodes
    {
      && (table as object) != (conns.conn as object)
      && MirroredObjs() && conns.Valid() && Torn(o0, o, conns.t, log)
    }

    /** An object is done with. */
    method Process(ote: OtEntry, ghost o0: Objs, ghost log: seq<Restore>)
      requires Tearing(o0, log) && ote in o.nodes && ote.conn == null
      requires ote.kind == FILEOBJ_ADDROBJ ==> forall j :: 0 <= j < |ote.ctx| ==> ote.ctx[j].handler == 0
      modifies this`o, ote`fileobj
      ensures Tearing(o0, log) && Live(o) == Live(old(o)) - {ote}
      ensures o.nodes == old(o.nodes) && conns.t == old(conns.t)
      ensures ote in old(o.model) && o.model == old(o.model)[ote := old(o.model)[ote].(fileobj := 0)]
    {
      hide Torn, ShownObj, Sound, Conns.Mirrored, Live;
      ShownAt(ote);
      Typed();
      TornProcessed(o0, o, conns.t, log, ote);
      ghost var r := o.model[ote].(fileobj := 0);
      ote.fileobj := 0;
      Rewrite(ote, r);
    }

    /** A handler is taken from an address object. */
    method Take(ote: OtEntry, j: nat, ghost o0: Objs, ghost log: seq<Restore>) returns (event: Restore)
      requires Tearing(o0, log) && SoundObjs(o0) && ote in o.nodes && ote.fileobj != 0 && ote.kind == FILEOBJ_ADDROBJ
      requires j < |ote.ctx| && ote.ctx[j].handler != 0
      modifies this`o, ote`ctx
      ensures event !in log && event in Replaced(o0) && Tearing(o0, log + [event]) && Live(o) == Live(old(o))
      ensures event.addrobj == old(ote.fileobj) && event.event == j
      ensures o.nodes == old(o.nodes) && conns.t == old(conns.t)
      ensures ote in old(o.model) && j < |old(o.model)[ote].ctx|
      ensures o.model == old(o.model)[ote := Taken(old(o.model)[ote], j)]
    {
      hide Torn, ShownObj, Sound, Conns.Mirrored, Live, SoundObjs, Replaced;
      ShownAt(ote);
      Typed();
      TornPicked(o0, o, conns.t, log, ote, j);
      event := Restore(ote.fileobj, j, ote.ctx[j].handler, ote.ctx[j].context);
      ote.ctx := ote.ctx[j := ote.ctx[j].(handler := 0)];
      Rewrite(ote, ote.Fields());
    }

    /** The entry of a connection object is closed. */
    method Let(ote: OtEntry, ghost o0: Objs, ghost log: seq<Restore>, now: int)
      requires Tearing(o0, log) && ote in o.nodes && ote.conn != null
      modifies this`o, ote`conn, conns`t, conns`toDel, conns.t.nodes
      ensures Tearing(o0, log) && Live(o) == Live(old(o)) && conns.t.nodes == old(conns.t.nodes)
      ensures conns.t.order == old(conns.t.order)
      ensures ote.conn == null && o.nodes == old(o.nodes)
      ensures ote in old(o.model) && o.model == old(o.model)[ote := old(o.model)[ote].(conn := null)]
    {
      hide Faded, Logged, Owns, ShownObj, Sound, Conns.Mirrored, Live, MirroredObjs;
      ShownAt(ote);
      TornReleased(o0, o, conns.t, log, ote, now);
      Disown(ote, now);
      ShownAt(ote);
    }

    lemma {:induction false} NoEntry(o0: Objs, log: seq<Restore>, e: OtEntry)
      requires Tearing(o0, log) && e in o.nodes && e.kind == FILEOBJ_ADDROBJ
      ensures e.conn == null
    {
    }

    /** The first handler still to be given back. */
    method FirstHandler(ctx: seq<Ctx>) returns (j: nat)
      ensures j <= |ctx| && (j < |ctx| ==> ctx[j].handler != 0)
      ensures forall i :: 0 <= i < j ==> ctx[i].handler == 0
    {
      j := 0;
      while j < |ctx| && ctx[j].handler == 0
        invariant j <= |ctx| && forall i :: 0 <= i < j ==> ctx[i].handler == 0
      {
        j := j + 1;
      }
    }

    lemma {:induction false} RecordOf(e: OtEntry, o0: Objs, log: seq<Restore>)
      requires Tearing(o0, log) && e in o.nodes
      ensures e in o.model && e.Fields() == o.model[e]
    {
      hide Torn, ShownObj, Sound, Conns.Mirrored;
      ShownAt(e);
    }

    /** A connection object is done with, its entry closed. */
    method Disconnect(ote: OtEntry, ghost o0: Objs, ghost log: seq<Restore>, now: int)
      requires Tearing(o0, log) && ote in o.nodes && ote.kind == FILEOBJ_CONNOBJ
      modifies this`o, ote`fileobj, ote`conn, conns`t, conns`toDel, conns.t.nodes
      ensures Tearing(o0, log) && Live(o) == Live(old(o)) - {ote}
      ensures o.nodes == old(o.nodes) && conns.t.nodes == old(conns.t.nodes) && conns.t.order == old(conns.t.order)
      ensures ote in old(o.model) && o.model == old(o.model)[ote := old(o.model)[ote].(conn := null, fileobj := 0)]
    {
      hide Tearing, Live;
      RecordOf(ote, o0, log);
      if ote.conn != null {
        Let(ote, o0, log, now);
      }
      Process(ote, o0, log);
    }

    /** What a sweep of `ot_free` does with one object. */
    method Visit(ote: OtEntry, before: nat, ghost o0: Objs, ghost log: seq<Restore>, now: int)
      returns (event: Option<Restore>, connobj: nat)
      requires Tearing(o0, log) && SoundObjs(o0) && ote in o.nodes
      modifies this`o, ote`fileobj, ote`ctx, ote`conn, conns`t, conns`toDel, conns.t.nodes
      ensures event.Some? ==> event.value !in log && event.value in Replaced(o0) && Tearing(o0, log + [event.value])
      ensures event.None? ==> Tearing(o0, log)
      ensures Live(o) == if event.None? then Live(old(o)) - {ote} else Live(old(o))
      ensures connobj == before || ote in Live(old(o))
      ensures o.nodes == old(o.nodes) && conns.t.nodes == old(conns.t.nodes) && conns.t.order == old(conns.t.order)
      ensures ote in old(o.model) && ote in o.model && o.model == old(o.model)[ote := o.model[ote]]
      ensures Visited(old(o.model)[ote], o.model[ote], event.Some?, before, connobj)
      ensures event.Some? ==> var r, j := old(o.model)[ote], event.value.event;
        && event.value.addrobj == r.fileobj && j < |r.ctx| && r.ctx[j].handler != 0
        && forall l :: 0 <= l <= j && l < |o.model[ote].ctx| ==> o.model[ote].ctx[l].handler == 0
    {
      hide SoundObjs, Torn, ShownObj, MirroredObjs, Sound, Conns.Mirrored, Live, Replaced;
      event, connobj := None, before;
      ShownAt(ote);
      LiveAt(o, ote);
      if ote.fileobj == 0 {
        return;
      }
      if ote.kind == FILEOBJ_ADDROBJ {
        var j := FirstHandler(ote.ctx);
        if j < |ote.ctx| {
          var e := Take(ote, j, o0, log);
          return Some(e), connobj;
        }
        NoEntry(o0, log, ote);
        Process(ote, o0, log);
      } else if ote.kind == FILEOBJ_CONNOBJ {
        if ote.remote.addr != 0 {
          connobj := ote.fileobj;
        }
        Disconnect(ote, o0, log, now);
      }
    }

    /** A sweep of `ot_free` through one chain, whose front is at `q`: it ends at the first handler found, or at the end
        of the chain with the last connection noted. */
    method Sweep(i: nat, ghost o0: Objs, ghost log: seq<Restore>, now: int, ghost q: nat, ghost j: nat)
      returns (event: Option<Restore>, connobj: nat, ghost q': nat)
      requires Tearing(o0, log) && SoundObjs(o0) && i < |o0.chains| == OBJ_HASH_SIZE
      requires Front(o0.chains[i], o0.model, o.model, q) && NoneBelow(o0.chains[i], o.model, q, j)
      modifies this`o, o.nodes`fileobj, o.nodes`ctx, o.nodes`conn, conns`t, conns`toDel, conns.t.nodes
      ensures event.Some? ==> event.value !in log && event.value in Replaced(o0) && Tearing(o0, log + [event.value])
      ensures event.None? ==> Tearing(o0, log) && forall e :: e in o0.chains[i] ==> e !in Live(o)
      ensures Live(o) <= Live(old(o)) && (event.None? && connobj != 0 ==> Live(o) < Live(old(o)))
      ensures o.nodes == old(o.nodes) && conns.t.nodes == old(conns.t.nodes) && conns.t.order == old(conns.t.order)
      ensures SameElse(o0.chains[i], old(o.model), o.model)
      ensures q' <= |o0.chains[i]| && Front(o0.chains[i], o0.model, o.model, q')
      ensures event.Some? ==> q <= q' < |o0.chains[i]| && Stops(o0.model[o0.chains[i][q']])
      ensures event.Some? ==>
        && PlacedAt(o0, event.value.addrobj, i, q') && (q' == q ==> j <= event.value.event)
        && NoneBelow(o0.chains[i], o.model, q', event.value.event + 1)
      ensures event.None? ==> q' == |o0.chains[i]| && connobj == LastDial(o0.chains[i], o0.model, q, |o0.chains[i]|)
      ensures event.None? ==> forall x :: q < x < |o0.chains[i]| ==> !Stops(o0.model[o0.chains[i][x]])
    {
      hide SoundObjs, Tearing, Live, Replaced, Swept, Front, Visited, Sweeping, LastDial, Stops, SameElse, NoneBelow,
        PlacedAt;
      ghost var live, k, c := Live(o), 0, o0.chains[i];
      connobj := 0;
      WalkBegins(o0, log, i);
      SweepBegins(c, o0.model, o.model, q);
      SameFirst(c, o.model);
      var ote := table[i];
      while ote != null
        invariant Tearing(o0, log) && o.nodes == old(o.nodes)
        invariant conns.t.nodes == old(conns.t.nodes) && conns.t.order == old(conns.t.order)
        invariant k <= |c| && ote == if k < |c| then c[k] else null
        invariant Swept(o0, o, i, k, live, connobj) && Sweeping(c, o0.model, o.model, q, k, connobj)
        invariant SameElse(c, old(o.model), o.model) && (k <= q ==> NoneBelow(c, o.model, q, j))
        decreases |c| - k
      {
        ghost var o1, connobj1 := o, connobj;
        WalkAt(o0, log, i, k);
        SweptExact(o0, o, i, k, live, connobj);
        event, connobj := Visit(ote, connobj, o0, log, now);
        SameStill(c, old(o.model), o1.model, ote, o.model[ote]);
        SweepStep(c, o0.model, o1.model, q, k, connobj1, o.model[ote], event.Some?, connobj);
        if event.Some? {
          q' := k;
          StoppedAt(o1.model[ote], o.model[ote], connobj1, connobj);
          FoundAt(o0, o1.model, i, q, j, k, connobj1, o.model[ote], event.value);
          return;
        }
        if k < q {
          NoneBelowStill(c, o0.model, o1.model, q, j, k, o.model[ote], connobj1);
        }
        SweptMore(o0, o1, o, i, k, live, connobj1, connobj);
        WalkAt(o0, log, i, k);
        ote := ote.next;
        k := k + 1;
      }
      event := None;
      SweptExact(o0, o, i, k, live, connobj);
      SweepEnds(c, o0.model, o.model, q, k, connobj);
      q' := |c|;
    }

    lemma {:induction false} WalkBegins(o0: Objs, log: seq<Restore>, i: nat)
      requires Tearing(o0, log) && SoundObjs(o0) && i < OBJ_HASH_SIZE
      ensures table.Length == |o0.chains| == OBJ_HASH_SIZE
      ensures table[i] == if o0.chains[i] == [] then null else o0.chains[i][0]
      ensures Swept(o0, o, i, 0, Live(o), 0)
    {
      hide SoundObjs, Torn, ShownObj, Live, Swept;
      ChainBegins(o0, o, conns.t, log, i);
    }

    lemma {:induction false} WalkAt(o0: Objs, log: seq<Restore>, i: nat, k: nat)
      requires Tearing(o0, log) && SoundObjs(o0) && i < OBJ_HASH_SIZE && |o0.chains| == OBJ_HASH_SIZE
      requires k < |o0.chains[i]|
      ensures var e := o0.chains[i][k];
        e in o.nodes && e.next == if k + 1 < |o0.chains[i]| then o0.chains[i][k + 1] else null
    {
      hide SoundObjs, Torn, ShownObj, MirroredObjs;
      ChainContinues(o0, o, conns.t, log, i, k);
      ShownAt(o0.chains[i][k]);
    }

    /** `ot_free`: sweep after sweep until none finds anything to give back or to disconnect. `built` and `dialled` say
        for which handlers and objects a control IRP could be built. Every handler is taken, and given back if it was;
        all connections are closed, but only the last one of a chain is disconnected, and only if no handler is
        behind it. */
    method OtFree(now: int, built: Restore -> bool, dialled: nat -> bool)
      returns (restored: seq<Restore>, disconnected: seq<nat>)
      requires Valid()
      modifies this`o, o.nodes`fileobj, o.nodes`ctx, o.nodes`conn, conns`t, conns`toDel, conns.t.nodes
      ensures conns.Valid() && conns.t.order == old(conns.t.order) && conns.t.nodes == old(conns.t.nodes)
      ensures NoDup(restored) && forall r :: r in restored <==> r in Replaced(old(o)) && built(r)
      ensures Hung(old(o), disconnected, dialled, OBJ_HASH_SIZE)
      ensures Ordered(old(o), restored) && Ascending(disconnected)
      ensures forall c :: c in conns.t.nodes ==> c in conns.t.dead
    {
      hide SoundObjs, Torn, Sound, MirroredObjs, Conns.Mirrored, Live, Replaced, Owns, NoDup, GivenBack, Missing, Front,
        Hung, Untouched, HashObj, Ordered, AllBefore, Ascending;
      ghost var o0, nodes, log := o, o.nodes, [];
      TornFirst(o, conns.t);
      ChainCount(o0);
      NoneTaken(built);
      HungNone(o0, dialled);
      UntouchedFirst(o0);
      restored, disconnected := [], [];
      NoneOrdered(o0);
      var i := 0;
      while i < OBJ_HASH_SIZE
        invariant i <= OBJ_HASH_SIZE && Tearing(o0, log) && o.nodes == nodes && GivenBack(restored, log, built)
        invariant conns.t.order == old(conns.t.order) && conns.t.nodes == old(conns.t.nodes)
        invariant Hung(o0, disconnected, dialled, i) && Untouched(o0, o, i)
        invariant Ordered(o0, restored) && AllBefore(o0, restored, i, 0, 0) && Ascending(disconnected)
        invariant forall h, e :: 0 <= h < i && e in o0.chains[h] ==> e !in Live(o)
      {
        restored, disconnected, log := SweepChain(i, o0, log, now, restored, disconnected, built, dialled);
        i := i + 1;
      }
      NoneLive(o0, o, conns.t, log);
      TornDown(o0, o, conns.t, log);
      AllGivenBack(restored, log, built);
    }

    /** The sweeps of one chain. */
    method SweepChain(i: nat, ghost o0: Objs, ghost log0: seq<Restore>, now: int, restored0: seq<Restore>,
                      disconnected0: seq<nat>,
                      built: Restore -> bool, dialled: nat -> bool)
      returns (restored: seq<Restore>, disconnected: seq<nat>, ghost log: seq<Restore>)
      requires Tearing(o0, log0) && SoundObjs(o0) && i < |o0.chains| == OBJ_HASH_SIZE
      requires GivenBack(restored0, log0, built)
      requires Hung(o0, disconnected0, dialled, i) && Untouched(o0, o, i)
      requires Ordered(o0, restored0) && AllBefore(o0, restored0, i, 0, 0) && Ascending(disconnected0)
      modifies this`o, o.nodes`fileobj, o.nodes`ctx, o.nodes`conn, conns`t, conns`toDel, conns.t.nodes
      ensures Tearing(o0, log) && GivenBack(restored, log, built) && o.nodes == old(o.nodes)
      ensures conns.t.order == old(conns.t.order) && conns.t.nodes == old(conns.t.nodes)
      ensures Hung(o0, disconnected, dialled, i + 1) && Untouched(o0, o, i + 1)
      ensures Ordered(o0, restored) && AllBefore(o0, restored, i + 1, 0, 0) && Ascending(disconnected)
      ensures Live(o) <= Live(old(o)) && forall e :: e in o0.chains[i] ==> e !in Live(o)
    {
      hide SoundObjs, Torn, Sound, MirroredObjs, Conns.Mirrored, Live, Replaced, Owns, NoDup, GivenBack, Missing, Front,
        Hung, Untouched, Stops, LastDial, SameElse, Ordered, AllBefore, Ascending, PlacedAt;
      ghost var c, done := o0.chains[i], false;
      ghost var q: nat, j: nat := 0, 0;
      FrontBegins(o0, o, i);
      restored, disconnected, log := restored0, disconnected0, log0;
      while true
        invariant Tearing(o0, log) && o.nodes == old(o.nodes) && GivenBack(restored, log, built)
        invariant conns.t.order == old(conns.t.order) && conns.t.nodes == old(conns.t.nodes)
        invariant Live(o) <= Live(old(o)) && Untouched(o0, o, i + 1) && q <= |c| && Front(c, o0.model, o.model, q)
        invariant Ordered(o0, restored) && AllBefore(o0, restored, i, q, j) && Ascending(disconnected)
        invariant NoneBelow(c, o.model, q, j)
        invariant done ==> q == |c| && Hung(o0, disconnected, dialled, i + 1)
        invariant !done ==> Hung(o0, disconnected, dialled, i) && (q == 0 || (q < |c| && Stops(o0.model[c[q]])))
        decreases |Missing(o0, log)|, |Live(o)|
      {
        ghost var o1, live, was := o, Live(o), q;
        var event, connobj;
        event, connobj, q := Sweep(i, o0, log, now, q, j);
        UntouchedStill(o0, o1, o, i);
        if event.Some? {
          FewerMissing(o0, log, event.value);
          Given(restored, log, built, event.value);
          OrderedMore(o0, restored, i, was, j, q, event.value, built(event.value));
          j := event.value.event + 1;
          log := log + [event.value];
          if built(event.value) {
            restored := restored + [event.value];
          }
        } else {
          AllFurther(o0, restored, i, was, q, j);
          if !done {
            HungMore(o0, disconnected, dialled, i, was, connobj);
            if connobj != 0 && dialled(connobj) {
              AscendingMore(o0, disconnected, dialled, i, connobj);
            }
          } else {
            NothingDials(c, o0.model);
          }
          done := true;
          if connobj != 0 {
            Smaller(Live(o), live);
            if dialled(connobj) {
              disconnected := disconnected + [connobj];
            }
          } else {
            break;
          }
        }
      }
      NextChain(o0, restored, i, q, j);
    }

    lemma {:induction false} NothingDials(c: seq<OtEntry>, m: ObjModel)
      requires forall j :: 0 <= j < |c| ==> c[j] in m
      ensures LastDial(c, m, |c|, |c|) == 0
    {
    }

    /** Unloading: `ot_free`, and then the last pass of the reaper. No entry is left behind in the hash. */
    method Unload(now: int, increment: int, built: Restore -> bool, dialled: nat -> bool)
      returns (restored: seq<Restore>, disconnected: seq<nat>)
      requires Valid()
      modifies this`o, o.nodes`fileobj, o.nodes`ctx, o.nodes`conn, conns`t, conns`toDel, conns.conn, conns.t.nodes
      ensures conns.Valid() && conns.t.order == [] && conns.t.dead == []
      ensures forall h :: 0 <= h < conns.conn.Length ==> conns.conn[h] == null
      ensures NoDup(restored) && forall r :: r in restored <==> r in Replaced(old(o)) && built(r)
      ensures Hung(old(o), disconnected, dialled, OBJ_HASH_SIZE)
      ensures Ordered(old(o), restored) && Ascending(disconnected)
    {
      hide SoundObjs, Sound, MirroredObjs, Replaced, Hung, Ordered, Ascending, Owns, NoDup, DueOf, Waits, Without;
      restored, disconnected := OtFree(now, built, dialled);
      ghost var t := conns.t;
      conns.Unique(t);
      var timeout := conns.Reap(now, increment, true);
      DueDead(t, now, increment, true);
      Members(t);
      NothingLeft(t.order, DueOf(t, now, increment, true));
      NothingLeft(t.dead, DueOf(t, now, increment, true));
      EmptyTable(conns.t);
    }
  }
}
