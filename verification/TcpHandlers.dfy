/** The handlers of sys/tdi_fw/src/disp_conn.c and sys/tdi_fw/src/ev_conn.c, as far as they touch the two
    tables: each takes its connection one step along the lifecycle and leaves every other where it is. */
module TcpHandlers {
  import opened Bytes
  import opened ConnTable
  import opened ObjTable
  import Life = TcpLifecycle

  ghost predicate Others(o: Objs, t: Table, o': Objs, t': Table, connobj: nat) {
    forall f :: f != connobj ==> EntryOf(o', t', f) == EntryOf(o, t, f)
  }

  /** The entry inserted last holds this. */
  ghost predicate First(t: Table, r: Rec) {
    t.order != [] && t.order[0] in t.model && t.model[t.order[0]] == r
  }

  /** The object behind a file object is a connection object. */
  ghost predicate IsConnection(o: Objs, connobj: nat) {
    connobj in o.objs && o.objs[connobj] in o.model && o.model[o.objs[connobj]].kind == FILEOBJ_CONNOBJ
  }

  /** Nothing but these two addresses of the object, and which entry it points to, has changed. */
  ghost predicate Addressed(o: Objs, o': Objs, e: OtEntry, local: Address, remote: Address) {
    && e in o.model && e in o'.model
    && o' == Changed(o, e, o.model[e].(local := local, remote := remote, conn := o'.model[e].conn))
  }

  lemma {:induction false} AddressedFirst(o: Objs, e: OtEntry, local: Address, remote: Address)
    requires e in o.model
    ensures Addressed(o, Changed(o, e, o.model[e].(local := local, remote := remote)), e, local, remote)
    ensures local == o.model[e].local && remote == o.model[e].remote ==> Addressed(o, o, e, local, remote)
  {
    assert o.model[e := o.model[e]] == o.model;
  }

  lemma {:induction false} AddressedMore(o: Objs, o': Objs, e: OtEntry, local: Address, remote: Address, c: ConnEntry?)
    requires Addressed(o, o', e, local, remote)
    ensures e in o'.model && Addressed(o, Changed(o', e, o'.model[e].(conn := c)), e, local, remote)
  {
    var r := o'.model[e].(conn := c);
    assert o'.model[e := r] == o.model[e := r];
  }

  /** The object learns its addresses and, if the filter allows it and it points to no entry, gets one. */
  method Admit(objects: Objects, conn: OtEntry, local: Address, remote: Address, state: int, allow: bool)
    returns (allowed: bool)
    requires (objects.table as object) != (objects.conns.conn as object)
    requires objects.MirroredObjs() && SoundObjs(objects.o) && OneOwner(objects.o) && objects.conns.Mirrored()
    requires conn in objects.o.nodes && (conn.conn == null ==> objects.Valid())
    modifies objects`o, conn`local, conn`remote, conn`conn, objects.conns, objects.conns.conn, objects.conns.t.nodes
    ensures objects.MirroredObjs() && SoundObjs(objects.o) && objects.conns.Mirrored()
    ensures old(objects.Valid()) ==> (objects.Valid() <==> !allowed || conn.kind == FILEOBJ_CONNOBJ)
    ensures objects.o.objs == old(objects.o.objs) && objects.o.nodes == old(objects.o.nodes)
    ensures Addressed(old(objects.o), objects.o, conn, local, remote)
    ensures !allowed ==> OneOwner(objects.o) && conn.conn == old(conn.conn) && objects.conns.t == old(objects.conns.t)
    ensures allowed ==>
      allow && old(conn.conn) == null && First(objects.conns.t, Opened(local, remote, state, conn.fileobj))
    ensures allowed ==> Finds(objects.conns.t, Key(local.addr, local.port, remote.addr, remote.port), state)
    ensures allowed ==> old(EntryOf(objects.o, objects.conns.t, conn.fileobj)) == None
    ensures Others(old(objects.o), old(objects.conns.t), objects.o, objects.conns.t, conn.fileobj)
    ensures EntryOf(objects.o, objects.conns.t, conn.fileobj) ==
      if allowed then Some(state) else old(EntryOf(objects.o, objects.conns.t, conn.fileobj))
  {
    hide SoundObjs, Owns, ShownObj, Sound, EntryOf, Objects.MirroredObjs, Conns.Mirrored, OneOwner, Finds,
      Addressed;
    objects.ShownAt(conn);
    ghost var o := objects.o;
    AddressedFirst(o, conn, local, remote);
    objects.SetAddresses(conn, local, remote);
    objects.ShownAt(conn);
    ghost var o' := objects.o;
    if !allow {
      return false;
    }
    var status := objects.AddTcpConn(conn, state);
    AddressedMore(o, o', conn, local, remote, conn.conn);
    objects.ShownAt(conn);
    allowed := status == Success;
  }

  /** `tdi_connect`: `addrobj` is the address object that the connection object is associated with, and
      `allow` what the filter says. Without success the request is denied. A connected UDP socket, which is its own
      address object, only learns its addresses. */
  method TdiConnect(objects: Objects, connobj: nat, addrobj: nat, tcp: bool, remote: Address, allow: bool)
    returns (allowed: bool)
    requires objects.Valid()
    modifies objects`o, objects.o.nodes, objects.conns, objects.conns.conn, objects.conns.t.nodes
    ensures objects.Valid() <==> !(tcp && allowed) || IsConnection(objects.o, connobj)
    ensures objects.o.objs == old(objects.o.objs)
    ensures Others(old(objects.o), old(objects.conns.t), objects.o, objects.conns.t, connobj)
    ensures !tcp ==> (allowed <==> allow && connobj in objects.o.objs)
    ensures var was := old(objects.o);
      if connobj !in was.objs || (tcp && addrobj !in was.objs) then objects.o == was
      else
        var e, a := was.objs[connobj], was.objs[if tcp then addrobj else connobj];
        a in was.model && Addressed(was, objects.o, e, was.model[a].local, remote)
    ensures tcp && allowed ==> old(EntryOf(objects.o, objects.conns.t, connobj)) == None
    ensures tcp && allowed ==> addrobj in old(objects.o.objs) && old(objects.o.objs)[addrobj] in old(objects.o.model)
    ensures tcp && allowed ==> var local := old(objects.o.model)[old(objects.o.objs)[addrobj]].local;
      && First(objects.conns.t, Opened(local, remote, TCP_STATE_SYN_SENT, connobj))
      && Finds(objects.conns.t, Key(local.addr, local.port, remote.addr, remote.port), TCP_STATE_SYN_SENT)
    ensures !(tcp && allowed) ==> objects.conns.t == old(objects.conns.t)
    ensures forall c: Life.Conn :: c.entry == old(EntryOf(objects.o, objects.conns.t, connobj)) ==>
      EntryOf(objects.o, objects.conns.t, connobj) == if tcp && allowed then Life.Step(c, Life.Connect).entry
        else c.entry
    ensures EntryOf(objects.o, objects.conns.t, connobj) ==
      if tcp && allowed then Some(TCP_STATE_SYN_SENT) else old(EntryOf(objects.o, objects.conns.t, connobj))
  {
    hide SoundObjs, Owns, ShownObj, Sound, EntryOf, Objects.MirroredObjs, Conns.Mirrored, First, Opened, OneOwner,
      Finds;
    OwnedOnce(objects.o, objects.conns.t);
    allowed := false;
    var conn := objects.Find(connobj);
    if conn == null {
      return;
    }
    if !tcp {
      objects.SetAddresses(conn, conn.local, remote);
      return allow;
    }
    var addr := objects.Find(addrobj);
    if addr == null {
      return;
    }
    objects.ShownAt(addr);
    allowed := Admit(objects, conn, addr.local, remote, TCP_STATE_SYN_SENT, allow);
    objects.ShownAt(conn);
  }

  /** `tdi_connect_complete`. */
  method TdiConnectComplete(objects: Objects, connobj: nat, ok: bool, now: int)
    requires objects.Valid()
    modifies objects`o, objects.o.nodes`conn, objects.conns`t, objects.conns`toDel, objects.conns.t.nodes
    ensures objects.Valid() && objects.o.objs == old(objects.o.objs)
    ensures Others(old(objects.o), old(objects.conns.t), objects.o, objects.conns.t, connobj)
    ensures forall c: Life.Conn :: c.entry == old(EntryOf(objects.o, objects.conns.t, connobj)) ==>
      EntryOf(objects.o, objects.conns.t, connobj) == Life.Step(c, Life.ConnectDone(ok)).entry
    ensures EntryOf(objects.o, objects.conns.t, connobj) ==
      if ok && old(EntryOf(objects.o, objects.conns.t, connobj)).Some? then Some(TCP_STATE_ESTABLISHED_OUT) else None
  {
    hide SoundObjs, Owns, ShownObj, Sound, EntryOf, Objects.Valid, Retired;
    if ok {
      var status := objects.SetTcpConnState(connobj, TCP_STATE_ESTABLISHED_OUT);
    } else {
      objects.DelTcpConn(connobj, now);
    }
  }

  /** `tdi_disconnect`: the context that the completion will get is the state the request is sent for. */
  method TdiDisconnect(objects: Objects, connobj: nat, release: bool, junk: int) returns (context: int)
    requires objects.Valid()
    modifies objects.conns`t, objects.conns.t.nodes`state
    ensures objects.Valid()
    ensures Others(old(objects.o), old(objects.conns.t), objects.o, objects.conns.t, connobj)
    ensures forall c: Life.Conn :: c.entry == old(EntryOf(objects.o, objects.conns.t, connobj)) ==>
      var c' := Life.Step(c, Life.Disconnect(release, junk));
      EntryOf(objects.o, objects.conns.t, connobj) == c'.entry && c'.pending == Some(context)
    ensures var was := old(EntryOf(objects.o, objects.conns.t, connobj));
      var became := EntryOf(objects.o, objects.conns.t, connobj);
      var open := was == Some(TCP_STATE_ESTABLISHED_IN) || was == Some(TCP_STATE_ESTABLISHED_OUT);
      && became == (if was == None then None else Some(context))
      && (!release ==> context == TCP_STATE_CLOSED)
      && (release && open ==> context == TCP_STATE_FIN_WAIT1)
      && (release && was == Some(TCP_STATE_CLOSE_WAIT) ==> context == TCP_STATE_LAST_ACK)
      && (release && !open && was != Some(TCP_STATE_CLOSE_WAIT) ==> context == junk)
  {
    hide SoundObjs, Owns, ShownObj, Sound, EntryOf, Objects.MirroredObjs, Conns.Valid;
    var status;
    if release {
      var state := objects.GetTcpConnStateByObj(connobj);
      context := junk;
      if state == TCP_STATE_ESTABLISHED_IN || state == TCP_STATE_ESTABLISHED_OUT {
        context := TCP_STATE_FIN_WAIT1;
      } else if state == TCP_STATE_CLOSE_WAIT {
        context := TCP_STATE_LAST_ACK;
      }
      status := objects.SetTcpConnState(connobj, context);
    } else {
      status := objects.SetTcpConnState(connobj, TCP_STATE_CLOSED);
      context := TCP_STATE_CLOSED;
    }
  }

  /** `tdi_disconnect_complete`. */
  method TdiDisconnectComplete(objects: Objects, connobj: nat, context: int, ok: bool, now: int)
    requires objects.Valid()
    modifies objects`o, objects.o.nodes`conn, objects.conns`t, objects.conns`toDel, objects.conns.t.nodes
    ensures objects.Valid() && objects.o.objs == old(objects.o.objs)
    ensures Others(old(objects.o), old(objects.conns.t), objects.o, objects.conns.t, connobj)
    ensures forall c: Life.Conn ::
      c.entry == old(EntryOf(objects.o, objects.conns.t, connobj)) && c.pending == Some(context) ==>
      EntryOf(objects.o, objects.conns.t, connobj) == Life.Step(c, Life.DisconnectDone(ok)).entry
    ensures var was := old(EntryOf(objects.o, objects.conns.t, connobj));
      var became := EntryOf(objects.o, objects.conns.t, connobj);
      && (ok && context == TCP_STATE_FIN_WAIT1 && was != None ==> became == Some(TCP_STATE_FIN_WAIT2))
      && (ok && (context == TCP_STATE_LAST_ACK || context == TCP_STATE_CLOSED) ==> became == None)
      && (!ok || was == None ==> became == was)
      && (context !in {TCP_STATE_FIN_WAIT1, TCP_STATE_LAST_ACK, TCP_STATE_CLOSED} ==> became == was)
  {
    hide SoundObjs, Owns, ShownObj, Sound, EntryOf, Objects.Valid, Retired;
    if ok {
      if context == TCP_STATE_FIN_WAIT1 {
        var status := objects.SetTcpConnState(connobj, TCP_STATE_FIN_WAIT2);
      } else if context == TCP_STATE_LAST_ACK {
        objects.DelTcpConn(connobj, now);
      } else if context == TCP_STATE_CLOSED {
        objects.DelTcpConn(connobj, now);
      }
    }
  }

  /** The connection table that `tdi_event_connect` leaves when it refuses a connection: behind its checks it queues an
      entry of the object's last connection, and when it refuses it queues the object's entry. */
  ghost function Refused(o: Objs, t: Table, connobj: nat, checked: bool, now: int): Table {
    Retired(o, if checked then Retired(o, t, connobj, now) else t, connobj, now)
  }

  /** That is the same entry, since the object still points to it: the table is sound if and only if there was none
      behind the checks. Otherwise the delete list leads from its first entry to itself, whatever it is taken to
      hold, and no pass of the reaper gets beyond it. */
  lemma {:induction false} RefusedExact(o: Objs, t: Table, connobj: nat, checked: bool, now: int)
    requires SoundObjs(o) && Owns(o.nodes, o.model, t) && Sound(t)
    ensures var t', reused := Refused(o, t, connobj, checked, now), checked && EntryOf(o, t, connobj).Some?;
      && (Sound(t') <==> !reused)
      && (reused ==> (forall d :: !Sound(t'.(dead := d))) && forall n :: Spared(t'.dels, t'.toDel, n) != null)
    ensures EntryOf(o, t, connobj).None? ==> Refused(o, t, connobj, checked, now) == t
    ensures EntryOf(o, t, connobj).Some? ==>
      && connobj in o.objs && o.objs[connobj] in o.model && o.model[o.objs[connobj]].conn in t.model
      && var c: ConnEntry := o.model[o.objs[connobj]].conn;
         Refused(o, t, connobj, checked, now) == if checked then Closed(Closed(t, c, now), c, now)
           else Closed(t, c, now)
  {
    hide SoundObjs, Owns, Sound, EntryOf, Retired, Spared;
    RetiredExact(o, t, connobj, now);
    EntriesOf(o, t, connobj);
    if EntryOf(o, t, connobj).Some? {
      var e := o.objs[connobj];
      var c: ConnEntry := o.model[e].conn;
      OwnedEntry(o, t, connobj);
      ClosedOk(t, c, now);
      RetiredAgain(o, Closed(t, c, now), connobj, now);
      RetiredAgain(o, t, connobj, now);
      if checked {
        var t' := Closed(Closed(t, c, now), c, now);
        forall d ensures !Sound(t'.(dead := d)) {
          SelfLinkUnsound(t'.(dead := d), c);
        }
        assert t'.(dead := t'.dead) == t';
        forall n ensures Spared(t'.dels, t'.toDel, n) != null {
          NeverPast(t'.dels, c, n);
        }
      }
    }
  }

  lemma {:induction false} OwnedEntry(o: Objs, t: Table, connobj: nat)
    requires SoundObjs(o) && Owns(o.nodes, o.model, t) && Sound(t) && EntryOf(o, t, connobj).Some?
    ensures connobj in o.objs && o.objs[connobj] in o.model && o.model[o.objs[connobj]].conn != null
    ensures o.model[o.objs[connobj]].conn in t.order && o.model[o.objs[connobj]].conn !in t.dead
  {
  }

  lemma {:induction false} RetiredAgain(o: Objs, t: Table, connobj: nat, now: int)
    requires connobj in o.objs && o.objs[connobj] in o.model && o.model[o.objs[connobj]].conn in t.model
    ensures Retired(o, t, connobj, now) == Closed(t, o.model[o.objs[connobj]].conn, now)
  {
  }

  /** `tdi_event_connect`, from where it looks up the connection object. `checked`: the object belongs to the address
      object that listens, and its context could be set; `fits`: the addresses have the right lengths. The tables
      stay valid unless a checked object owned an entry. */
  method TdiEventConnect(objects: Objects, connobj: nat, checked: bool, fits: bool, local: Address, remote: Address,
                         now: int)
    returns (allowed: bool)
    requires objects.Valid()
    modifies objects`o, objects.o.nodes, objects.conns, objects.conns.conn, objects.conns.t.nodes
    ensures objects.MirroredObjs() && SoundObjs(objects.o) && objects.conns.Mirrored()
    ensures objects.o.objs == old(objects.o.objs)
    ensures objects.Valid() <==>
      && !(checked && old(EntryOf(objects.o, objects.conns.t, connobj)).Some?)
      && (!allowed || IsConnection(objects.o, connobj))
    ensures Others(old(objects.o), old(objects.conns.t), objects.o, objects.conns.t, connobj)
    ensures allowed ==> First(objects.conns.t, Opened(local, remote, TCP_STATE_SYN_RCVD, connobj))
    ensures allowed ==>
      Finds(objects.conns.t, Key(local.addr, local.port, remote.addr, remote.port), TCP_STATE_SYN_RCVD)
    ensures allowed ==> checked && fits && old(EntryOf(objects.o, objects.conns.t, connobj)) == None
    ensures var was := old(objects.o);
      if connobj !in was.objs then objects.o == was
      else
        var e, known := was.objs[connobj], checked && fits;
        && e in was.model
        && Addressed(was, objects.o, e, if known then local else was.model[e].local,
                     if known then remote else was.model[e].remote)
    ensures !allowed ==> objects.conns.t == Refused(old(objects.o), old(objects.conns.t), connobj, checked, now)
    ensures forall c: Life.Conn :: c.entry == old(EntryOf(objects.o, objects.conns.t, connobj)) ==>
      EntryOf(objects.o, objects.conns.t, connobj) == if allowed then Life.Step(c, Life.Accept).entry else None
    ensures EntryOf(objects.o, objects.conns.t, connobj) == if allowed then Some(TCP_STATE_SYN_RCVD) else None
  {
    hide SoundObjs, Owns, ShownObj, Sound, EntryOf, Objects.MirroredObjs, Conns.Mirrored, Refused, OneOwner, Closed,
      Finds, Addressed, First, Opened;
    ghost var o := objects.o;
    RefusedExact(objects.o, objects.conns.t, connobj, checked, now);
    EntriesOf(objects.o, objects.conns.t, connobj);
    OwnedOnce(objects.o, objects.conns.t);
    allowed := false;
    var conn := objects.Find(connobj);
    if conn == null {
      return;
    }
    objects.OwnedAt(conn);
    objects.ShownAt(conn);
    ghost var l, r := if checked && fits then local else conn.local, if checked && fits then remote else conn.remote;
    AddressedFirst(o, conn, conn.local, conn.remote);
    if checked {
      allowed := Renew(objects, conn, fits, local, remote, now);
    }
    objects.ShownAt(conn);
    ghost var o' := objects.o;
    if !allowed && conn.conn != null {
      objects.LetGo(conn, now);
      AddressedMore(o, o', conn, l, r, null);
    }
  }

  /** The part behind the checks: whatever entry the object owns is queued, but the object keeps pointing to it. */
  method Renew(objects: Objects, conn: OtEntry, fits: bool, local: Address, remote: Address, now: int)
    returns (allowed: bool)
    requires objects.Valid() && conn in objects.o.nodes
    modifies objects`o, conn, objects.conns, objects.conns.conn, objects.conns.t.nodes
    ensures objects.MirroredObjs() && SoundObjs(objects.o) && objects.conns.Mirrored()
    ensures old(conn.conn) == null ==> (objects.Valid() <==> !allowed || conn.kind == FILEOBJ_CONNOBJ)
    ensures objects.o.objs == old(objects.o.objs) && objects.o.nodes == old(objects.o.nodes)
    ensures conn.fileobj == old(conn.fileobj) && conn.kind == old(conn.kind)
    ensures if fits then Addressed(old(objects.o), objects.o, conn, local, remote)
            else Addressed(old(objects.o), objects.o, conn, old(conn.local), old(conn.remote))
    ensures old(conn.local) == old(objects.o).model[conn].local && old(conn.remote) == old(objects.o).model[conn].remote
    ensures !allowed ==> OneOwner(objects.o) && conn.conn == old(conn.conn)
    ensures !allowed ==> objects.conns.t.nodes == old(objects.conns.t.nodes)
    ensures !allowed && old(conn.conn) == null ==> objects.conns.t == old(objects.conns.t)
    ensures !allowed && old(conn.conn) != null ==>
      old(conn.conn) in old(objects.conns.t.model) && old(conn.conn) in objects.conns.t.nodes
    ensures !allowed && old(conn.conn) != null ==> objects.conns.t == Closed(old(objects.conns.t), old(conn.conn), now)
    ensures allowed ==> fits && old(conn.conn) == null
    ensures allowed ==> First(objects.conns.t, Opened(local, remote, TCP_STATE_SYN_RCVD, conn.fileobj))
    ensures allowed ==>
      Finds(objects.conns.t, Key(local.addr, local.port, remote.addr, remote.port), TCP_STATE_SYN_RCVD)
    ensures Others(old(objects.o), old(objects.conns.t), objects.o, objects.conns.t, conn.fileobj)
    ensures EntryOf(objects.o, objects.conns.t, conn.fileobj) ==
      if allowed then Some(TCP_STATE_SYN_RCVD) else if old(conn.conn) == null then None else Some(TCP_STATE_CLOSED)
  {
    hide SoundObjs, Owns, ShownObj, Sound, EntryOf, Objects.MirroredObjs, Conns.Mirrored, OneOwner, Closed, First,
      Opened, Finds, Addressed, Changed;
    objects.ShownAt(conn);
    AddressedFirst(objects.o, conn, conn.local, conn.remote);
    objects.NamedAt(objects.o, conn);
    EntriesOf(objects.o, objects.conns.t, conn.fileobj);
    OwnedOnce(objects.o, objects.conns.t);
    allowed := false;
    if conn.conn != null {
      objects.QueueKept(conn, now);
    }
    if fits {
      allowed := Admit(objects, conn, local, remote, TCP_STATE_SYN_RCVD, true);
    }
  }

  /** `tdi_evconn_accept_complete`. */
  method TdiAcceptComplete(objects: Objects, connobj: nat, ok: bool, now: int)
    requires objects.Valid()
    modifies objects`o, objects.o.nodes`conn, objects.conns`t, objects.conns`toDel, objects.conns.t.nodes
    ensures objects.Valid() && objects.o.objs == old(objects.o.objs)
    ensures Others(old(objects.o), old(objects.conns.t), objects.o, objects.conns.t, connobj)
    ensures forall c: Life.Conn :: c.entry == old(EntryOf(objects.o, objects.conns.t, connobj)) ==>
      EntryOf(objects.o, objects.conns.t, connobj) == Life.Step(c, Life.AcceptDone(ok)).entry
    ensures EntryOf(objects.o, objects.conns.t, connobj) ==
      if ok && old(EntryOf(objects.o, objects.conns.t, connobj)).Some? then Some(TCP_STATE_ESTABLISHED_IN) else None
  {
    hide SoundObjs, Owns, ShownObj, Sound, EntryOf, Objects.Valid, Retired;
    if ok {
      var status := objects.SetTcpConnState(connobj, TCP_STATE_ESTABLISHED_IN);
    } else {
      objects.DelTcpConn(connobj, now);
    }
  }

  /** `tdi_event_disconnect`. */
  method TdiEventDisconnect(objects: Objects, connobj: nat, release: bool, now: int)
    requires objects.Valid()
    modifies objects`o, objects.o.nodes`conn, objects.conns`t, objects.conns`toDel, objects.conns.t.nodes
    ensures objects.Valid() && objects.o.objs == old(objects.o.objs)
    ensures Others(old(objects.o), old(objects.conns.t), objects.o, objects.conns.t, connobj)
    ensures forall c: Life.Conn :: c.entry == old(EntryOf(objects.o, objects.conns.t, connobj)) ==>
      EntryOf(objects.o, objects.conns.t, connobj) == Life.Step(c, Life.Disconnected(release)).entry
    ensures var was := old(EntryOf(objects.o, objects.conns.t, connobj));
      var became := EntryOf(objects.o, objects.conns.t, connobj);
      var open := was == Some(TCP_STATE_ESTABLISHED_IN) || was == Some(TCP_STATE_ESTABLISHED_OUT);
      && (!release ==> became == None)
      && (release && open ==> became == Some(TCP_STATE_CLOSE_WAIT))
      && (release && was == Some(TCP_STATE_FIN_WAIT2) ==> became == Some(TCP_STATE_TIME_WAIT))
      && (release && !open && was != Some(TCP_STATE_FIN_WAIT2) ==> became == was)
  {
    hide SoundObjs, Owns, ShownObj, Sound, EntryOf, Objects.Valid, Retired;
    if release {
      var state := objects.GetTcpConnStateByObj(connobj);
      var status;
      if state == TCP_STATE_ESTABLISHED_IN || state == TCP_STATE_ESTABLISHED_OUT {
        status := objects.SetTcpConnState(connobj, TCP_STATE_CLOSE_WAIT);
      } else if state == TCP_STATE_FIN_WAIT2 {
        status := objects.SetTcpConnState(connobj, TCP_STATE_TIME_WAIT);
      }
    } else {
      objects.DelTcpConn(connobj, now);
    }
  }
}
