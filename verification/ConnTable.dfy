/** The TCP connection table of sys/tdi_fw/src/conn_state.c: a chained hash of doubly linked entries, with
    a second list of closed entries threaded through the same nodes. */
module ConnTable {
  import opened Bytes
  import opened Chains

  const HASH_SIZE := 0x1000
  const MAX_CLOSED_TIME := 20

  const TCP_STATE_NONE := 0
  const TCP_STATE_SYN_SENT := 1
  const TCP_STATE_SYN_RCVD := 2
  const TCP_STATE_ESTABLISHED_IN := 3
  const TCP_STATE_ESTABLISHED_OUT := 4
  const TCP_STATE_FIN_WAIT1 := 5
  const TCP_STATE_FIN_WAIT2 := 6
  const TCP_STATE_TIME_WAIT := 7
  const TCP_STATE_CLOSE_WAIT := 8
  const TCP_STATE_LAST_ACK := 9
  const TCP_STATE_CLOSED := 10

  datatype Key = Key(laddr: nat, lport: nat, raddr: nat, rport: nat)

  /** What the table knows of an entry, its links aside. `obj` is the connection object, 0 for none. */
  datatype Rec = Rec(key: Key, state: int, obj: nat, ticks: int)

  function Hash(k: Key): (h: nat)
    ensures h < HASH_SIZE
  {
    (k.laddr + k.lport + k.raddr + k.rport) % ULONG_RANGE % HASH_SIZE
  }

  class ConnEntry {
    var next: ConnEntry?
    var prev: ConnEntry?
    var state: int
    var laddr: nat
    var lport: nat
    var raddr: nat
    var rport: nat
    var connobj: nat
    var nextToDel: ConnEntry?
    var ticks: int

    function Fields(): Rec
      reads this`state, this`laddr, this`lport, this`raddr, this`rport, this`connobj, this`ticks
    {
      Rec(Key(laddr, lport, raddr, rport), state, connobj, ticks)
    }

    constructor (key: Key, state: int, obj: nat)
      ensures Fields() == Rec(key, state, obj, 0)
      ensures next == null && prev == null && nextToDel == null
    {
      next, prev, nextToDel := null, null, null;
      laddr, lport, raddr, rport := key.laddr, key.lport, key.raddr, key.rport;
      this.state, connobj, ticks := state, obj, 0;
    }

    /** The entry is closed, belongs to no connection object any more, and precedes `rest` on the delete list. */
    method Retire(rest: ConnEntry?, now: int)
      modifies this`state, this`connobj, this`ticks, this`nextToDel
      ensures Fields() == old(Fields()).(state := TCP_STATE_CLOSED, obj := 0, ticks := now) && nextToDel == rest
    {
      state := TCP_STATE_CLOSED;
      nextToDel := rest;
      ticks := now;
      connobj := 0;
    }
  }

  type Model = map<ConnEntry, Rec>

  // ---- The simple list behind the hash ------------------------------------------------------------

  ghost predicate Known(order: seq<ConnEntry>, model: Model) {
    forall e :: e in order ==> e in model
  }

  /** The entries of the list that hash to `h`, in the list's order. */
  ghost function Bucket(order: seq<ConnEntry>, model: Model, h: nat): (b: seq<ConnEntry>)
    requires Known(order, model)
    ensures forall e :: e in b ==> e in order && Hash(model[e].key) == h
    ensures forall e :: e in order && Hash(model[e].key) == h ==> e in b
  {
    if order == [] then []
    else
      var rest := Bucket(order[1..], model, h);
      if Hash(model[order[0]].key) == h then [order[0]] + rest else rest
  }

  /** The state of the first entry of the list with this key. */
  ghost function Lookup(order: seq<ConnEntry>, model: Model, key: Key): int
    requires Known(order, model)
  {
    if order == [] then TCP_STATE_NONE
    else if model[order[0]].key == key then model[order[0]].state
    else Lookup(order[1..], model, key)
  }

  /** The state of the first entry that has the key; 0 stands for none. */
  lemma {:induction false} LookupFirst(order: seq<ConnEntry>, model: Model, key: Key, k: nat)
    requires Known(order, model) && k <= |order| && forall j :: 0 <= j < k ==> model[order[j]].key != key
    requires k < |order| ==> model[order[k]].key == key
    ensures Lookup(order, model, key) == if k < |order| then model[order[k]].state else 0
    decreases |order|
  {
    if k > 0 {
      assert forall j :: 0 <= j < |order| - 1 ==> order[1..][j] == order[j + 1];
      LookupFirst(order[1..], model, key, k - 1);
    }
  }

  /** A search for the key finds this state. */
  ghost predicate Finds(t: Table, key: Key, state: int) {
    Known(t.order, t.model) && Lookup(t.order, t.model, key) == state
  }

  lemma {:induction false} FindsFirst(t: Table)
    requires Sound(t) && t.order != []
    ensures t.order[0] in t.model && Finds(t, t.model[t.order[0]].key, t.model[t.order[0]].state)
  {
    hide ChainsOk, Chained, DeadOk, NoDup, Fronted;
  }

  /** Removing an entry from the list removes it from its bucket and from no other. */
  lemma {:induction false} BucketRemove(order: seq<ConnEntry>, model: Model, h: nat, e: ConnEntry)
    requires Known(order, model) && e in model
    ensures Known(Remove(order, e), model)
    ensures Bucket(Remove(order, e), model, h) == if Hash(model[e].key) == h then Remove(Bucket(order, model, h), e)
                                                   else Bucket(order, model, h)
    decreases |order|
  {
    if order != [] {
      var rest := order[1..];
      if order[0] == e {
      } else {
        BucketRemove(rest, model, h, e);
        var r := [order[0]] + Remove(rest, e);
        assert r[1..] == Remove(rest, e);
        var b := Bucket(rest, model, h);
        assert ([order[0]] + b)[1..] == b;
      }
    }
  }

  /** Buckets depend on the keys of the listed entries only. */
  lemma {:induction false} BucketSameKeys(order: seq<ConnEntry>, m: Model, m': Model, h: nat)
    requires Known(order, m) && Known(order, m') && forall e :: e in order ==> m[e].key == m'[e].key
    ensures Bucket(order, m, h) == Bucket(order, m', h)
    decreases |order|
  {
    if order != [] {
      BucketSameKeys(order[1..], m, m', h);
    }
  }

  /** Searching the bucket of a key finds what searching the whole list finds. */
  lemma {:induction false} LookupInBucket(order: seq<ConnEntry>, model: Model, key: Key)
    requires Known(order, model)
    ensures Known(Bucket(order, model, Hash(key)), model)
    ensures Lookup(Bucket(order, model, Hash(key)), model, key) == Lookup(order, model, key)
    decreases |order|
  {
    if order != [] {
      LookupInBucket(order[1..], model, key);
      var rest := Bucket(order[1..], model, Hash(key));
      if Hash(model[order[0]].key) == Hash(key) {
        assert ([order[0]] + rest)[1..] == rest;
      }
    }
  }

  // ---- Links --------------------------------------------------------------------------------------

  datatype Link = Link(next: ConnEntry?, prev: ConnEntry?)

  type Links = map<ConnEntry, Link>

  /** `next` and `prev` run through the chain in both directions, from its bucket on. */
  ghost predicate ChainOk(head: ConnEntry?, c: seq<ConnEntry>, links: Links) {
    && head == (if c == [] then null else c[0])
    && (forall i :: 0 <= i < |c| ==> c[i] in links)
    && (forall i {:trigger links[c[i]]} :: 0 <= i < |c| ==> links[c[i]] == LinkIn(c, i))
  }

  ghost function LinkIn(c: seq<ConnEntry>, i: int): Link
    requires 0 <= i < |c|
  {
    Link(if i + 1 < |c| then c[i + 1] else null, if 0 < i then c[i - 1] else null)
  }

  ghost predicate ChainsOk(heads: seq<ConnEntry?>, chains: seq<seq<ConnEntry>>, links: Links) {
    && |heads| == |chains| == HASH_SIZE
    && Separate(chains)
    && forall g :: 0 <= g < HASH_SIZE ==> ChainOk(heads[g], chains[g], links)
  }

  /** No entry is in two chains, or twice in one. */
  ghost predicate Separate(chains: seq<seq<ConnEntry>>) {
    && (forall g :: 0 <= g < |chains| ==> NoDup(chains[g]))
    && (forall g, h, e :: 0 <= g < |chains| && 0 <= h < |chains| && e in chains[g] && e in chains[h] ==> g == h)
  }

  lemma {:induction false} SeparateRemoved(chains: seq<seq<ConnEntry>>, h: nat, e: ConnEntry)
    requires Separate(chains) && h < |chains| && e in chains[h]
    ensures Separate(chains[h := Remove(chains[h], e)])
  {
    var k :| 0 <= k < |chains[h]| && chains[h][k] == e;
    RemoveAt(chains[h], e, k);
  }

  /** The links after an entry has been taken out: its neighbours point past it. */
  ghost function Bypassed(links: Links, e: ConnEntry): Links
    requires e in links
    requires links[e].prev != null ==> links[e].prev in links
    requires links[e].next != null ==> links[e].next in links
  {
    var l := links[e];
    var a := if l.prev != null then links[l.prev := links[l.prev].(next := l.next)] else links;
    if l.next != null then a[l.next := a[l.next].(prev := l.prev)] else a
  }

  lemma {:induction false} BypassedExact(links: Links, e: ConnEntry)
    requires e in links && (links[e].prev == null || links[e].prev != links[e].next)
    requires links[e].prev != null ==> links[e].prev in links
    requires links[e].next != null ==> links[e].next in links
    ensures var links', l := Bypassed(links, e), links[e];
      && (forall x :: x in links ==> x in links')
      && (forall x :: x in links ==>
            links'[x] == Link(if x == l.prev then l.next else links[x].next,
                              if x == l.next then l.prev else links[x].prev))
  {
  }

  lemma {:induction false} ChainBypassed(head: ConnEntry?, c: seq<ConnEntry>, links: Links, k: nat)
    requires ChainOk(head, c, links) && NoDup(c) && k < |c|
    ensures var e := c[k];
      && links[e].prev == (if 0 < k then c[k - 1] else null)
      && links[e].next == (if k + 1 < |c| then c[k + 1] else null)
      && ChainOk(if k == 0 then links[e].next else head, c[..k] + c[k + 1..], Bypassed(links, e))
  {
    var e, r := c[k], c[..k] + c[k + 1..];
    assert links[e] == LinkIn(c, k);
    NeighboursIn(head, c, links, k);
    var links' := Bypassed(links, e);
    forall i | 0 <= i < |r| ensures r[i] in links' && links'[r[i]] == LinkIn(r, i) {
      var o := if i < k then i else i + 1;
      BypassedAt(head, c, links, k, o);
      assert r[i] == c[o];
    }
  }

  lemma {:induction false} NeighboursIn(head: ConnEntry?, c: seq<ConnEntry>, links: Links, k: nat)
    requires ChainOk(head, c, links) && k < |c|
    ensures links[c[k]] == LinkIn(c, k)
    ensures k > 0 ==> c[k - 1] in links
    ensures k + 1 < |c| ==> c[k + 1] in links
  {
  }

  lemma {:induction false} BypassedAt(head: ConnEntry?, c: seq<ConnEntry>, links: Links, k: nat, o: nat)
    requires ChainOk(head, c, links) && NoDup(c) && k < |c| && o < |c| && o != k
    requires links[c[k]] == LinkIn(c, k)
    requires (k > 0 ==> c[k - 1] in links) && (k + 1 < |c| ==> c[k + 1] in links)
    ensures var links' := Bypassed(links, c[k]);
      && c[o] in links'
      && links'[c[o]].next == (if o + 1 == k then LinkIn(c, k).next else LinkIn(c, o).next)
      && links'[c[o]].prev == (if o == k + 1 then LinkIn(c, k).prev else LinkIn(c, o).prev)
  {
  }

  lemma {:induction false} ChainUntouched(head: ConnEntry?, c: seq<ConnEntry>, links: Links, links': Links)
    requires ChainOk(head, c, links) && forall x :: x in c ==> x in links' && links'[x] == links[x]
    ensures ChainOk(head, c, links')
  {
  }

  /** Taking an entry out of its chain keeps all chains. */
  lemma {:induction false} Unlinked(heads: seq<ConnEntry?>, chains: seq<seq<ConnEntry>>, links: Links, h: nat,
                                    e: ConnEntry)
    requires ChainsOk(heads, chains, links) && h < HASH_SIZE && e in chains[h]
    ensures e in links
    ensures links[e].prev != null ==> links[e].prev in chains[h] && links[e].prev in links
    ensures links[e].next != null ==>
      links[e].next in chains[h] && links[e].next in links && links[e].next != links[e].prev
    ensures ChainsOk(heads[h := if links[e].prev == null then links[e].next else heads[h]],
                     chains[h := Remove(chains[h], e)], Bypassed(links, e))
  {
    var c := chains[h];
    var k :| 0 <= k < |c| && c[k] == e;
    assert NoDup(c) && ChainOk(heads[h], c, links);
    ChainBypassed(heads[h], c, links, k);
    RemoveAt(c, e, k);
    assert k + 1 < |c| ==> c[k + 1] in c;
    assert k > 0 ==> c[k - 1] in c;
    var heads' := heads[h := if links[e].prev == null then links[e].next else heads[h]];
    var chains' := chains[h := Remove(c, e)];
    SeparateRemoved(chains, h, e);
    hide NoDup, Remove;
    forall g | 0 <= g < HASH_SIZE ensures ChainOk(heads'[g], chains'[g], Bypassed(links, e)) {
      if g != h {
        forall x | x in chains[g] ensures x !in c {
        }
        assert ChainOk(heads[g], chains[g], links);
        assert forall x :: x in chains[g] ==> x in links by { ChainIn(heads[g], chains[g], links); }
        ChainUntouched(heads[g], chains[g], links, Bypassed(links, e));
      }
    }
  }

  lemma {:induction false} ChainIn(head: ConnEntry?, c: seq<ConnEntry>, links: Links)
    requires ChainOk(head, c, links)
    ensures forall x :: x in c ==> x in links
    ensures head != null ==> head in c
  {
  }

  /** The links after an entry has been put in front of a chain. */
  ghost function Fronted(links: Links, e: ConnEntry, first: ConnEntry?): Links
    requires first != null ==> first in links
  {
    var a := if first != null then links[first := links[first].(prev := e)] else links;
    a[e := Link(first, null)]
  }

  lemma {:induction false} FrontedExact(links: Links, e: ConnEntry, first: ConnEntry?)
    requires first != null ==> first in links && first != e
    ensures var links' := Fronted(links, e, first);
      && e in links' && links'[e] == Link(first, null)
      && (forall x :: x in links ==> x in links')
      && (forall x :: x in links && x != e ==> links'[x] == if x == first then links[x].(prev := e) else links[x])
  {
  }

  /** Putting an entry in front of a chain keeps all chains. */
  lemma {:induction false} FrontedOk(heads: seq<ConnEntry?>, chains: seq<seq<ConnEntry>>, links: Links, h: nat,
                                     e: ConnEntry)
    requires ChainsOk(heads, chains, links) && h < HASH_SIZE
    requires forall g :: 0 <= g < HASH_SIZE ==> e !in chains[g]
    ensures heads[h] != null ==> heads[h] in chains[h] && heads[h] in links && heads[h] != e
    ensures ChainsOk(heads[h := e], chains[h := [e] + chains[h]], Fronted(links, e, heads[h]))
  {
  }

  // ---- The delete list ----------------------------------------------------------------------------

  type DelLinks = map<ConnEntry, ConnEntry?>

  /** Closed entries wait on the delete list, once each, and have no connection object any more. */
  ghost predicate DeadOk(order: seq<ConnEntry>, model: Model, dead: seq<ConnEntry>) {
    && NoDup(dead)
    && forall e :: e in dead ==> e in order && e in model && model[e].state == TCP_STATE_CLOSED && model[e].obj == 0
  }

  lemma {:induction false} DeadIn(order: seq<ConnEntry>, model: Model, dead: seq<ConnEntry>)
    requires DeadOk(order, model, dead)
    ensures forall e :: e in dead ==> e in order
  {
  }

  /** The delete list stays sound as long as its entries stay listed, closed and without an owner. */
  lemma {:induction false} DeadSame(order: seq<ConnEntry>, m: Model, order': seq<ConnEntry>, m': Model,
                                    dead: seq<ConnEntry>)
    requires DeadOk(order, m, dead)
    requires forall e :: e in order ==> e in order'
    requires forall e :: e in dead ==> e in m ==> e in m' && m'[e].state == m[e].state && m'[e].obj == m[e].obj
    ensures DeadOk(order', m', dead)
  {
  }

  lemma {:induction false} DeadMore(order: seq<ConnEntry>, m: Model, m': Model, dead: seq<ConnEntry>, e: ConnEntry)
    requires DeadOk(order, m, dead) && e in order && e !in dead
    requires e in m' && m'[e].state == TCP_STATE_CLOSED && m'[e].obj == 0
    requires forall x :: x in m && x != e ==> x in m' && m'[x] == m[x]
    ensures DeadOk(order, m', [e] + dead)
  {
  }

  ghost predicate IndexOk(order: seq<ConnEntry>, model: Model, chains: seq<seq<ConnEntry>>) {
    && Known(order, model) && |chains| == HASH_SIZE
    && forall h :: 0 <= h < HASH_SIZE ==> chains[h] == Bucket(order, model, h)
  }

  lemma {:induction false} IndexAdds(order: seq<ConnEntry>, model: Model, chains: seq<seq<ConnEntry>>, e: ConnEntry,
                                     r: Rec)
    requires IndexOk(order, model, chains) && e !in order
    ensures var h := Hash(r.key); IndexOk([e] + order, model[e := r], chains[h := [e] + chains[h]])
  {
    var m := model[e := r];
    forall h | 0 <= h < HASH_SIZE
      ensures Bucket([e] + order, m, h) == if h == Hash(r.key) then [e] + chains[h] else chains[h]
    {
      assert ([e] + order)[1..] == order;
      BucketSameKeys(order, model, m, h);
    }
  }

  lemma {:induction false} IndexRemoves(order: seq<ConnEntry>, model: Model, chains: seq<seq<ConnEntry>>, e: ConnEntry)
    requires IndexOk(order, model, chains) && NoDup(order) && e in order
    ensures e in chains[Hash(model[e].key)]
    ensures var h := Hash(model[e].key); IndexOk(Remove(order, e), model, chains[h := Remove(chains[h], e)])
    ensures NoDup(Remove(order, e)) && e !in Remove(order, e)
    ensures forall x :: x in order && x != e ==> x in Remove(order, e)
  {
    var k :| 0 <= k < |order| && order[k] == e;
    RemoveAt(order, e, k);
    forall h | 0 <= h < HASH_SIZE
      ensures Bucket(Remove(order, e), model, h) == if h == Hash(model[e].key) then Remove(chains[h], e) else chains[h]
    {
      BucketRemove(order, model, h, e);
    }
  }

  /** A change that spares the keys spares the index. */
  lemma {:induction false} IndexSameKeys(order: seq<ConnEntry>, m: Model, m': Model, chains: seq<seq<ConnEntry>>)
    requires IndexOk(order, m, chains) && Known(order, m') && forall e :: e in order ==> m[e].key == m'[e].key
    ensures IndexOk(order, m', chains)
  {
    forall h | 0 <= h < HASH_SIZE ensures chains[h] == Bucket(order, m', h) {
      BucketSameKeys(order, m, m', h);
    }
  }

  // ---- The table as a value -----------------------------------------------------------------------

  /** A picture of the table. `order` is the simple list it stands for: the hashed entries, the one
      inserted last first; `dead` the closed ones, the one closed last first. */
  datatype Table = Table(
    nodes: set<ConnEntry>, order: seq<ConnEntry>, model: Model, dead: seq<ConnEntry>,
    heads: seq<ConnEntry?>, chains: seq<seq<ConnEntry>>, links: Links,
    toDel: ConnEntry?, dels: DelLinks)

  ghost predicate ListOk(order: seq<ConnEntry>, nodes: set<ConnEntry>) {
    && NoDup(order)
    && (forall e :: e in order ==> e in nodes)
    && (forall e :: e in nodes ==> e in order)
  }

  /** The hash is an index of the list, and the delete list a list of closed entries of it. */
  ghost predicate Sound(t: Table) {
    && ListOk(t.order, t.nodes)
    && ChainsOk(t.heads, t.chains, t.links) && IndexOk(t.order, t.model, t.chains)
    && Chained(t.toDel, t.dead, t.dels, null) && DeadOk(t.order, t.model, t.dead)
  }

  /** The table without `e`: its neighbours' links run past it. */
  ghost function Spliced(t: Table, e: ConnEntry): Table
    requires Sound(t) && e in t.order
  {
    Spliceable(t, e);
    var h := Hash(t.model[e].key);
    t.(nodes := t.nodes - {e}, order := Remove(t.order, e),
       heads := t.heads[h := if t.links[e].prev == null then t.links[e].next else t.heads[h]],
       chains := t.chains[h := Remove(t.chains[h], e)], links := Bypassed(t.links, e))
  }

  lemma {:induction false} Spliceable(t: Table, e: ConnEntry)
    requires Sound(t) && e in t.order
    ensures e in t.nodes && e in t.model && Hash(t.model[e].key) < |t.chains| == |t.heads| == HASH_SIZE && e in t.links
    ensures t.links[e].prev != null ==> t.links[e].prev in t.nodes && t.links[e].prev in t.links
    ensures t.links[e].next != null ==>
      t.links[e].next in t.nodes && t.links[e].next in t.links && t.links[e].next != t.links[e].prev
  {
    hide ChainsOk, Chained, DeadOk, Remove, NoDup, Bypassed;
    IndexRemoves(t.order, t.model, t.chains, e);
    ChainsSize(t.heads, t.chains, t.links);
    Unlinked(t.heads, t.chains, t.links, Hash(t.model[e].key), e);
    assert forall x :: x in t.chains[Hash(t.model[e].key)] ==> x in t.order;
  }

  lemma {:induction false} SplicedOk(t: Table, e: ConnEntry)
    requires Sound(t) && e in t.order
    ensures var t' := Spliced(t, e);
      && ChainsOk(t'.heads, t'.chains, t'.links) && IndexOk(t'.order, t.model, t'.chains)
      && ListOk(t'.order, t'.nodes) && e !in t'.order
  {
    hide ChainsOk, Chained, DeadOk, Remove, NoDup, Bypassed;
    IndexRemoves(t.order, t.model, t.chains, e);
    Spliceable(t, e);
    Unlinked(t.heads, t.chains, t.links, Hash(t.model[e].key), e);
  }

  lemma {:induction false} SplicedLinks(t: Table, e: ConnEntry, x: ConnEntry)
    requires Sound(t) && e in t.order && x in t.links
    ensures e in t.links
    ensures var links', l := Spliced(t, e).links, t.links[e];
      && x in links'
      && links'[x] ==
        Link(if x == l.prev then l.next else t.links[x].next, if x == l.next then l.prev else t.links[x].prev)
  {
    hide Sound, Bypassed;
    Spliceable(t, e);
    BypassedExact(t.links, e);
  }

  ghost function Pushed(t: Table, e: ConnEntry, r: Rec): Table
    requires Hash(r.key) < |t.chains| == |t.heads|
    requires t.heads[Hash(r.key)] != null ==> t.heads[Hash(r.key)] in t.links
  {
    var h := Hash(r.key);
    t.(nodes := t.nodes + {e}, order := [e] + t.order, model := t.model[e := r],
       heads := t.heads[h := e], chains := t.chains[h := [e] + t.chains[h]], links := Fronted(t.links, e, t.heads[h]))
  }

  lemma {:induction false} PushedOk(t: Table, e: ConnEntry, r: Rec)
    requires ListOk(t.order, t.nodes) && ChainsOk(t.heads, t.chains, t.links) && IndexOk(t.order, t.model, t.chains)
    requires e !in t.order
    ensures |t.heads| == |t.chains| == HASH_SIZE
    ensures var first := t.heads[Hash(r.key)]; first != null ==> first in t.nodes && first in t.links && first != e
    ensures var t' := Pushed(t, e, r);
      ListOk(t'.order, t'.nodes) && ChainsOk(t'.heads, t'.chains, t'.links) && IndexOk(t'.order, t'.model, t'.chains)
  {
    hide ChainsOk, Chained, DeadOk, NoDup, Fronted;
    ChainsSize(t.heads, t.chains, t.links);
    FrontedOk(t.heads, t.chains, t.links, Hash(r.key), e);
    IndexAdds(t.order, t.model, t.chains, e, r);
    NoDupFront(t.order, e);
    assert forall x :: x in t.chains[Hash(r.key)] ==> x in t.order;
  }

  lemma {:induction false} ChainsSize(heads: seq<ConnEntry?>, chains: seq<seq<ConnEntry>>, links: Links)
    requires ChainsOk(heads, chains, links)
    ensures |heads| == |chains| == HASH_SIZE
  {
  }

  /** A new entry: the others' links and places do not change. */
  ghost function Added(t: Table, e: ConnEntry, r: Rec): Table
    requires Hash(r.key) < |t.chains| == |t.heads|
    requires t.heads[Hash(r.key)] != null ==> t.heads[Hash(r.key)] in t.links
  {
    Pushed(t, e, r).(dels := t.dels[e := null])
  }

  lemma {:induction false} AddedOk(t: Table, e: ConnEntry, r: Rec)
    requires Sound(t) && e !in t.order
    ensures |t.heads| == |t.chains| == HASH_SIZE
    ensures var first := t.heads[Hash(r.key)]; first != null ==> first in t.nodes && first in t.links && first != e
    ensures Sound(Added(t, e, r))
  {
    hide ChainsOk, Chained, DeadOk, NoDup, Fronted, IndexOk, ListOk;
    PushedOk(t, e, r);
    DeadIn(t.order, t.model, t.dead);
    ChainedSame(t.toDel, t.dead, t.dels, t.dels[e := null], null);
    DeadSame(t.order, t.model, [e] + t.order, t.model[e := r], t.dead);
  }

  /** An entry with a new key goes to the front of its new chain. */
  ghost function Rekeyed(t: Table, e: ConnEntry, k: Key): Table
    requires Sound(t) && e in t.order
  {
    Spliceable(t, e);
    SplicedOk(t, e);
    var t', r := Spliced(t, e), t.model[e].(key := k);
    PushedOk(t', e, r);
    Pushed(t', e, r)
  }

  lemma {:induction false} RekeyedOk(t: Table, e: ConnEntry, k: Key)
    requires Sound(t) && e in t.order
    ensures Sound(Rekeyed(t, e, k)) && Rekeyed(t, e, k).nodes == t.nodes
  {
    hide ChainsOk, Chained, DeadOk, NoDup, Fronted, IndexOk, Remove, Bypassed;
    IndexRemoves(t.order, t.model, t.chains, e);
    Spliceable(t, e);
    SplicedOk(t, e);
    var t', r := Spliced(t, e), t.model[e].(key := k);
    PushedOk(t', e, r);
    DeadSame(t.order, t.model, [e] + Remove(t.order, e), t.model[e := r], t.dead);
  }

  ghost function Restated(t: Table, e: ConnEntry, state: int): Table
    requires e in t.model
  {
    t.(model := t.model[e := t.model[e].(state := state)])
  }

  lemma {:induction false} RestatedOk(t: Table, e: ConnEntry, state: int)
    requires Sound(t) && e in t.order && e !in t.dead
    ensures e in t.model && Sound(Restated(t, e, state))
  {
    hide ChainsOk, Chained, DeadOk, NoDup, Bucket;
    var m := t.model[e := t.model[e].(state := state)];
    IndexSameKeys(t.order, t.model, m, t.chains);
    DeadSame(t.order, t.model, t.order, m, t.dead);
  }

  ghost function Closed(t: Table, e: ConnEntry, now: int): Table
    requires e in t.model
  {
    t.(model := t.model[e := t.model[e].(state := TCP_STATE_CLOSED, obj := 0, ticks := now)],
       dead := [e] + t.dead, dels := t.dels[e := t.toDel], toDel := e)
  }

  lemma {:induction false} ClosedOk(t: Table, e: ConnEntry, now: int)
    requires Sound(t) && e in t.order && e !in t.dead
    ensures e in t.model && Sound(Closed(t, e, now))
  {
    hide ChainsOk, Chained, DeadOk, NoDup, Bucket;
    var m := t.model[e := t.model[e].(state := TCP_STATE_CLOSED, obj := 0, ticks := now)];
    IndexSameKeys(t.order, t.model, m, t.chains);
    DeadMore(t.order, t.model, m, t.dead, e);
    ChainedFront(t.toDel, t.dead, t.dels, null, e);
  }

  /** A delete list whose first entry leads to itself is none, whichever entries it is taken to hold. */
  lemma {:induction false} SelfLinkUnsound(t: Table, e: ConnEntry)
    requires t.toDel == e && e in t.dels && t.dels[e] == e
    ensures !Sound(t)
  {
    if Chained(t.toDel, t.dead, t.dels, null) {
      assert t.dels[t.dead[0]] == t.dead[1];
    }
  }

  /** Where the reaper is when it has spared `n` entries from `e` on. */
  ghost function Spared(dels: map<ConnEntry, ConnEntry?>, e: ConnEntry?, n: nat): ConnEntry? {
    if n == 0 || e == null || e !in dels then e else Spared(dels, dels[e], n - 1)
  }

  /** From such an entry it gets nowhere: its pass never ends. */
  lemma {:induction false} NeverPast(dels: map<ConnEntry, ConnEntry?>, e: ConnEntry, n: nat)
    requires e in dels && dels[e] == e
    ensures Spared(dels, e, n) == e
  {
    if n > 0 {
      NeverPast(dels, e, n - 1);
    }
  }

  ghost predicate Shown(t: Table, e: ConnEntry)
    reads e
  {
    && e in t.model && e.Fields() == t.model[e]
    && e in t.links && t.links[e] == Link(e.next, e.prev)
    && e in t.dels && t.dels[e] == e.nextToDel
  }

  // ---- Reaping ------------------------------------------------------------------------------------

  const CLOSED_LIMIT := MAX_CLOSED_TIME * 1000 * 10000

  /** How long an entry has been closed, in the kernel's 100 ns units. */
  function Age(r: Rec, now: int, increment: int): int {
    (now - r.ticks) * increment
  }

  predicate Due(r: Rec, now: int, increment: int, shutdown: bool) {
    Age(r, now, increment) >= CLOSED_LIMIT || shutdown
  }

  /** The closed entries that a pass must take out. */
  ghost function DueOf(t: Table, now: int, increment: int, shutdown: bool): (due: set<ConnEntry>)
    requires Known(t.dead, t.model)
    ensures forall e :: e in due ==> e in t.dead
  {
    set e | e in t.dead && Due(t.model[e], now, increment, shutdown)
  }

  lemma {:induction false} DueExact(t: Table, now: int, increment: int, shutdown: bool, e: ConnEntry)
    requires Known(t.dead, t.model) && e in t.dead
    ensures e in DueOf(t, now, increment, shutdown) <==> Age(t.model[e], now, increment) >= CLOSED_LIMIT || shutdown
    ensures e in DueOf(t, now, increment, shutdown) <==> (now - t.model[e].ticks) * increment >= 200000000 || shutdown
  {
  }

  ghost function Without(s: seq<ConnEntry>, gone: set<ConnEntry>): (r: seq<ConnEntry>)
    ensures forall e :: e in r ==> e in s && e !in gone
    ensures forall e :: e in s && e !in gone ==> e in r
  {
    if s == [] then [] else if s[0] in gone then Without(s[1..], gone) else [s[0]] + Without(s[1..], gone)
  }

  lemma {:induction false} WithoutAbsent(s: seq<ConnEntry>, gone: set<ConnEntry>, e: ConnEntry)
    requires e !in s
    ensures Without(s, gone + {e}) == Without(s, gone)
    decreases |s|
  {
    if s != [] {
      WithoutAbsent(s[1..], gone, e);
    }
  }

  lemma {:induction false} WithoutOneMore(s: seq<ConnEntry>, gone: set<ConnEntry>, e: ConnEntry)
    requires NoDup(s) && e !in gone
    ensures Remove(Without(s, gone), e) == Without(s, gone + {e})
    decreases |s|
  {
    hide NoDup;
    if s != [] {
      var rest := s[1..];
      NoDupTail(s);
      var w := Without(rest, gone);
      assert ([s[0]] + w)[1..] == w;
      if s[0] == e {
        WithoutAbsent(rest, gone, e);
      } else {
        WithoutOneMore(rest, gone, e);
      }
    }
  }

  lemma {:induction false} WithoutNone(s: seq<ConnEntry>)
    ensures Without(s, {}) == s
    decreases |s|
  {
    if s != [] {
      WithoutNone(s[1..]);
    }
  }

  lemma {:induction false} WithoutLast(s: seq<ConnEntry>, gone: set<ConnEntry>, k: nat)
    requires k < |s|
    ensures Without(s[..k + 1], gone) == Without(s[..k], gone) + if s[k] in gone then [] else [s[k]]
    decreases |s|
  {
    if k > 0 {
      WithoutLast(s[1..], gone, k - 1);
      assert s[1..][..k] == s[..k + 1][1..] && s[1..][..k - 1] == s[..k][1..];
    } else {
      assert s[..1][1..] == [] && s[..0] == [];
    }
  }

  /** The delete list without the entry between `a` and `b`. */
  ghost function Cut(t: Table, a: seq<ConnEntry>, e: ConnEntry, b: seq<ConnEntry>): Table
    requires t.dead == a + [e] + b && e in t.dels
  {
    t.(dead := a + b, toDel := if a == [] then t.dels[e] else t.toDel,
       dels := Skipping<ConnEntry?>(t.dels, a, e))
  }

  lemma {:induction false} CutOk(t: Table, a: seq<ConnEntry>, e: ConnEntry, b: seq<ConnEntry>)
    requires Sound(t) && t.dead == a + [e] + b
    ensures e in t.dels && t.dels[e] == if b == [] then null else b[0]
    ensures e in t.order && e !in a && e !in b && Sound(Cut(t, a, e, b))
    ensures forall x :: x in t.dead ==> x in t.nodes
  {
    hide ChainsOk, IndexOk, ListOk, DeadOk, NoDup;
    var d, r := t.dead, a + b;
    assert d[|a|] == e;
    assert NoDup(d) && (forall x :: x in d ==> x in t.order && x in t.nodes) by { DeadListed(t); }
    Apart(a, e, b);
    Nullable(d);
    ChainedCut<ConnEntry?>(t.toDel, a, e, b, t.dels, null);
    assert DeadOk(t.order, t.model, r) by {
      DeadFewer(t.order, t.model, a, e, b);
    }
  }

  lemma {:induction false} Nullable(d: seq<ConnEntry>)
    requires NoDup<ConnEntry>(d)
    ensures NoDup<ConnEntry?>(d)
  {
  }

  lemma {:induction false} DeadListed(t: Table)
    requires Sound(t)
    ensures NoDup(t.dead) && t.toDel == if t.dead == [] then null else t.dead[0]
    ensures forall x :: x in t.dead ==> x in t.order && x in t.nodes && x in t.model
  {
  }

  lemma {:induction false} DeadFewer(order: seq<ConnEntry>, model: Model, a: seq<ConnEntry>, e: ConnEntry,
                                     b: seq<ConnEntry>)
    requires DeadOk(order, model, a + [e] + b)
    ensures DeadOk(order, model, a + b)
  {
    Apart(a, e, b);
    hide NoDup;
    forall x | x in a + b ensures x in a + [e] + b {
    }
  }

  /** An entry off the delete list may leave the table. */
  lemma {:induction false} SplicedSound(t: Table, e: ConnEntry)
    requires Sound(t) && e in t.order && e !in t.dead
    ensures Sound(Spliced(t, e))
  {
    hide ChainsOk, IndexOk, Chained, Remove, NoDup;
    SplicedOk(t, e);
    IndexRemoves(t.order, t.model, t.chains, e);
  }

  ghost function Append(a: seq<ConnEntry>, e: ConnEntry): (r: seq<ConnEntry>)
    ensures |r| == |a| + 1 && r[|a|] == e
  {
    a + [e]
  }

  /** What a pass has done to the table `t0` when it has come to its `i`-th closed entry: those in `due` are
      gone, the others, `a`, are kept in order. */
  ghost predicate Passed(t: Table, t0: Table, due: set<ConnEntry>, i: nat, a: seq<ConnEntry>) {
    && i <= |t0.dead| && t.dead == a + t0.dead[i..] && a == Without(t0.dead[..i], due)
    && t.order == Without(t0.order, set e | e in t0.dead[..i] && e in due)
    && t.model == t0.model && t.nodes <= t0.nodes
  }

  lemma {:induction false} PassBegins(t: Table, due: set<ConnEntry>)
    ensures Passed(t, t, due, 0, [])
  {
    WithoutNone(t.order);
    assert (set e | e in t.dead[..0] && e in due) == {};
  }

  lemma {:induction false} PassAt(t: Table, t0: Table, due: set<ConnEntry>, i: nat, a: seq<ConnEntry>)
    requires Passed(t, t0, due, i, a)
    ensures t.model == t0.model && t.nodes <= t0.nodes && i <= |t0.dead|
    ensures i < |t0.dead| ==> t.dead == a + [t0.dead[i]] + t0.dead[i + 1..]
  {
  }

  lemma {:induction false} PassSpares(t: Table, t0: Table, due: set<ConnEntry>, i: nat, a: seq<ConnEntry>)
    requires Passed(t, t0, due, i, a) && i < |t0.dead| && t0.dead[i] !in due
    ensures Passed(t, t0, due, i + 1, Append(a, t0.dead[i]))
  {
    hide Without;
    var d := t0.dead;
    WithoutLast(d, due, i);
    assert a + d[i..] == a + [d[i]] + d[i + 1..];
    assert d[..i + 1] == d[..i] + [d[i]];
    assert (set e | e in d[..i + 1] && e in due) == (set e | e in d[..i] && e in due);
  }

  lemma {:induction false} PassBuries(t: Table, t': Table, t0: Table, due: set<ConnEntry>, i: nat, a: seq<ConnEntry>)
    requires Passed(t, t0, due, i, a) && i < |t0.dead| && t0.dead[i] in due && NoDup(t0.dead) && NoDup(t0.order)
    requires t'.dead == a + t0.dead[i + 1..] && t'.order == Remove(t.order, t0.dead[i])
    requires t'.model == t.model && t'.nodes <= t.nodes
    ensures Passed(t', t0, due, i + 1, a)
  {
    hide Without;
    var d, e := t0.dead, t0.dead[i];
    WithoutLast(d, due, i);
    assert d[..i + 1] == d[..i] + [e];
    var gone := set x | x in d[..i] && x in due;
    assert e !in gone;
    assert (set x | x in d[..i + 1] && x in due) == gone + {e};
    WithoutOneMore(t0.order, gone, e);
  }

  lemma {:induction false} PassEnds(t: Table, t0: Table, due: set<ConnEntry>, a: seq<ConnEntry>)
    requires Passed(t, t0, due, |t0.dead|, a) && forall e :: e in due ==> e in t0.dead
    ensures t.dead == a == Without(t0.dead, due) && t.order == Without(t0.order, due)
  {
    assert t0.dead[..|t0.dead|] == t0.dead;
    assert (set e | e in t0.dead && e in due) == due;
  }

  /** `timeout` is zero if nothing waits, and otherwise minus the longest time still to wait. */
  ghost predicate Waits(a: seq<ConnEntry>, model: Model, now: int, increment: int, timeout: int) {
    && Known(a, model) && timeout <= 0 && (timeout == 0 <==> a == [])
    && (forall e :: e in a ==> 200000000 - (now - model[e].ticks) * increment <= -timeout)
    && (a != [] ==> exists e :: e in a && 200000000 - (now - model[e].ticks) * increment == -timeout)
  }

  lemma {:induction false} WaitsMore(a: seq<ConnEntry>, model: Model, now: int, increment: int, timeout: int,
                                     e: ConnEntry)
    requires Waits(a, model, now, increment, timeout) && e in model && Age(model[e], now, increment) < CLOSED_LIMIT
    ensures var delta := CLOSED_LIMIT - Age(model[e], now, increment);
      Waits(Append(a, e), model, now, increment, if delta > -timeout || timeout == 0 then -delta else timeout)
  {
  }

  /** Every entry that a pass spares is due when the wait it asks for is over. */
  lemma {:induction false} AllDueAfterWait(a: seq<ConnEntry>, model: Model, now: int, increment: int, timeout: int,
                                           later: int)
    requires Waits(a, model, now, increment, timeout) && -timeout <= (later - now) * increment
    ensures forall e :: e in a ==>
      e in model && Due(model[e], later, increment, false) && (later - model[e].ticks) * increment >= 200000000
  {
  }

  /** But it is the least remaining time, as the comment of the thread says, only if all of them remain equally
      long. */
  lemma {:induction false} WaitLeast(a: seq<ConnEntry>, model: Model, now: int, increment: int, timeout: int)
    requires Waits(a, model, now, increment, timeout) && a != []
    ensures (forall e :: e in a ==> -timeout <= CLOSED_LIMIT - Age(model[e], now, increment)) <==>
            (forall e, f :: e in a && f in a ==> Age(model[e], now, increment) == Age(model[f], now, increment))
  {
    var x :| x in a && CLOSED_LIMIT - Age(model[x], now, increment) == -timeout;
  }

  /** With one entry closed just now and one about to be due, a pass asks for the full time, where the least
      remaining time is a single unit. */
  lemma {:induction false} WaitTooLong(e: ConnEntry, f: ConnEntry, key: Key, timeout: int)
    requires e != f
    ensures var now := CLOSED_LIMIT - 1;
      var model := map[e := Rec(key, TCP_STATE_CLOSED, 0, now), f := Rec(key, TCP_STATE_CLOSED, 0, 0)];
      && (Waits([e, f], model, now, 1, timeout) <==> timeout == -CLOSED_LIMIT)
      && CLOSED_LIMIT - Age(model[f], now, 1) == 1
  {
    var now := CLOSED_LIMIT - 1;
    var model := map[e := Rec(key, TCP_STATE_CLOSED, 0, now), f := Rec(key, TCP_STATE_CLOSED, 0, 0)];
    assert e in [e, f] && f in [e, f];
    assert CLOSED_LIMIT - Age(model[e], now, 1) == CLOSED_LIMIT;
  }

  /** A table without entries has empty buckets. */
  lemma {:induction false} EmptyTable(t: Table)
    requires Sound(t) && t.order == []
    ensures |t.heads| == HASH_SIZE && forall h :: 0 <= h < HASH_SIZE ==> t.heads[h] == null
  {
  }

  lemma {:induction false} BucketChain(t: Table, key: Key)
    requires Sound(t)
    ensures |t.heads| == |t.chains| == HASH_SIZE && Known(t.order, t.model) && Known(t.chains[Hash(key)], t.model)
    ensures var h := Hash(key); t.chains[h] == Bucket(t.order, t.model, h) && ChainOk(t.heads[h], t.chains[h], t.links)
    ensures forall e :: e in t.chains[Hash(key)] ==> e in t.nodes
  {
  }

  lemma {:induction false} ChainAt(head: ConnEntry?, c: seq<ConnEntry>, links: Links, i: nat)
    requires ChainOk(head, c, links) && i < |c|
    ensures c[i] in links && links[c[i]].next == if i + 1 < |c| then c[i + 1] else null
  {
  }

  /** The search goes on behind an entry with another key. */
  lemma {:induction false} LookupFrom(c: seq<ConnEntry>, model: Model, key: Key, i: nat)
    requires Known(c, model) && i <= |c|
    ensures Known(c[i..], model) && c[0..] == c
    ensures i == |c| ==> Lookup(c[i..], model, key) == TCP_STATE_NONE
    ensures i < |c| ==> c[i] in model && Known(c[i + 1..], model)
    ensures i < |c| ==>
      Lookup(c[i..], model, key) ==
        (if model[c[i]].key == key then model[c[i]].state else Lookup(c[i + 1..], model, key))
  {
  }

  lemma {:induction false} LookupRemove(order: seq<ConnEntry>, model: Model, e: ConnEntry, key: Key)
    requires Known(order, model) && e in model && model[e].key != key
    ensures Known(Remove(order, e), model) && Lookup(Remove(order, e), model, key) == Lookup(order, model, key)
    decreases |order|
  {
    if order != [] && order[0] != e {
      LookupRemove(order[1..], model, e, key);
      assert ([order[0]] + Remove(order[1..], e))[1..] == Remove(order[1..], e);
    }
  }

  lemma {:induction false} LookupSame(order: seq<ConnEntry>, m: Model, m': Model, key: Key)
    requires Known(order, m) && Known(order, m') && forall e :: e in order ==> m'[e] == m[e]
    ensures Lookup(order, m', key) == Lookup(order, m, key)
    decreases |order|
  {
    if order != [] {
      LookupSame(order[1..], m, m', key);
    }
  }

  /** After a re-keying the new key finds the entry, and no third key is affected. */
  lemma {:induction false} RekeyedLookup(t: Table, e: ConnEntry, k: Key, key: Key)
    requires Sound(t) && e in t.order
    ensures e in t.model && Known(t.order, t.model)
    ensures var t' := Rekeyed(t, e, k);
      && Known(t'.order, t'.model)
      && (key == k ==> Lookup(t'.order, t'.model, key) == t.model[e].state)
      && (key != k && key != t.model[e].key ==> Lookup(t'.order, t'.model, key) == Lookup(t.order, t.model, key))
  {
    hide ChainsOk, Chained, DeadOk, NoDup, Fronted, Remove, Bypassed;
    Spliceable(t, e);
    var r, rest := t.model[e].(key := k), Remove(t.order, e);
    var t' := Rekeyed(t, e, k);
    IndexRemoves(t.order, t.model, t.chains, e);
    assert ([e] + rest)[1..] == rest;
    if key != k && key != t.model[e].key {
      LookupRemove(t.order, t.model, e, key);
      LookupSame(rest, t.model, t'.model, key);
    }
  }

  class Conns {
    const conn: array<ConnEntry?>
    var toDel: ConnEntry?
    ghost var t: Table

    /** The picture is right. */
    ghost predicate Mirrored()
      reads this, conn, t.nodes
    {
      && conn.Length == HASH_SIZE && conn[..] == t.heads && toDel == t.toDel
      && forall e :: e in t.nodes ==> Shown(t, e)
    }

    ghost predicate Valid()
      reads this, conn, t.nodes
    {
      Mirrored() && Sound(t)
    }

    constructor ()
      ensures Valid() && fresh(conn) && t.order == [] && t.dead == [] && t.nodes == {}
    {
      conn := new ConnEntry?[HASH_SIZE](_ => null);
      toDel := null;
      t := Table({}, [], map[], [], seq(HASH_SIZE, _ => null), seq(HASH_SIZE, _ => []), map[], null, map[]);
    }

    /** An entry leaves its chain: the pointer surgery that re-keying and reaping share. */
    method Bypass(e: ConnEntry, ghost nodes: set<ConnEntry>)
      requires conn.Length == HASH_SIZE && e in nodes
      requires e.prev != null ==> e.prev in nodes
      requires e.next != null ==> e.next in nodes && e.next != e.prev
      modifies conn, nodes`next, nodes`prev
      ensures var h := old(Hash(e.Fields().key));
        conn[..] == old(conn[..])[h := if old(e.prev) == null then old(e.next) else old(conn[h])]
      ensures forall x {:trigger x in nodes} :: x in nodes ==>
        && x.next == (if x == old(e.prev) then old(e.next) else old(x.next))
        && x.prev == (if x == old(e.next) then old(e.prev) else old(x.prev))
        && x.Fields() == old(x.Fields()) && x.nextToDel == old(x.nextToDel)
    {
      if e.prev != null {
        e.prev.next := e.next;
      } else {
        var hash := Hash(Key(e.laddr, e.lport, e.raddr, e.rport));
        conn[hash] := e.next;
      }
      if e.next != null {
        e.next.prev := e.prev;
      }
    }

    /** An entry leaves the table. */
    method Unlink(e: ConnEntry)
      requires Valid() && e in t.order
      modifies this`t, conn, t.nodes`next, t.nodes`prev
      ensures Mirrored() && t == Spliced(old(t), e)
      ensures e in t.model && e.Fields() == t.model[e] && e in t.dels && t.dels[e] == e.nextToDel
    {
      hide Sound, Bypassed, Remove, Hash;
      Spliceable(t, e);
      assert Shown(t, e);
      assert e.prev != null ==> Shown(t, e.prev);
      ghost var nodes := t.nodes;
      t := Spliced(t, e);
      Bypass(e, nodes);
      assert conn[..] == t.heads;
      forall x | x in t.nodes ensures Shown(t, x) {
        assert old(Shown(t, x));
        SplicedLinks(old(t), e, x);
        assert x in nodes;
        assert t.links[x] == Link(x.next, x.prev);
      }
    }

    lemma {:induction false} Listed(e: ConnEntry)
      requires Sound(t)
      ensures e in t.order <==> e in t.nodes
    {
    }

    /** An entry becomes the first of a chain. */
    method Push(e: ConnEntry, ghost r: Rec, h: nat)
      requires Mirrored() && e !in t.order && h == Hash(r.key)
      requires ListOk(t.order, t.nodes) && ChainsOk(t.heads, t.chains, t.links) && IndexOk(t.order, t.model, t.chains)
      requires e.Fields() == r && e in t.dels && t.dels[e] == e.nextToDel
      modifies this`t, conn, t.nodes`next, t.nodes`prev, e`next, e`prev
      ensures Mirrored()
      ensures Hash(r.key) < |old(t.chains)| == |old(t.heads)|
      ensures old(t.heads)[Hash(r.key)] != null ==> old(t.heads)[Hash(r.key)] in old(t.links)
      ensures t == Pushed(old(t), e, r)
    {
      hide ListOk, ChainsOk, IndexOk, Fronted;
      PushedOk(t, e, r);
      ghost var t' := Pushed(t, e, r);
      FrontedExact(t.links, e, t.heads[h]);
      var first := conn[h];
      e.next := first;
      if first != null {
        first.prev := e;
      }
      conn[h] := e;
      e.prev := null;
      assert conn[..] == t'.heads;
      t := t';
      forall x | x in t.nodes ensures Shown(t, x) {
        assert x != e ==> old(Shown(t, x));
      }
    }

    // ---- The operations ---------------------------------------------------------------------------

    /** The table part of `add_tcp_conn`: the new entry comes first. */
    method Add(key: Key, state: int, obj: nat) returns (e: ConnEntry)
      requires Valid()
      modifies this, conn, t.nodes
      ensures Valid() && fresh(e) && t.nodes == old(t.nodes) + {e} && t.dead == old(t.dead)
      ensures t.order == [e] + old(t.order) && t.model == old(t.model)[e := Rec(key, state, obj, 0)]
    {
      hide ListOk, ChainsOk, IndexOk, Fronted, Chained, DeadOk;
      e := new ConnEntry(key, state, obj);
      Listed(e);
      AddedOk(t, e, e.Fields());
      t := t.(dels := t.dels[e := null]);
      var hash := Hash(key);
      Push(e, Rec(key, state, obj, 0), hash);
    }

    /** The table part of `set_tcp_conn_state`. */
    method SetState(e: ConnEntry, state: int)
      requires Valid() && e in t.nodes && e !in t.dead
      modifies this`t, t.nodes`state
      ensures Valid() && t == old(Restated(t, e, state))
      ensures t.order == old(t.order) && t.dead == old(t.dead)
      ensures t.model == old(t.model)[e := Rec(old(t.model)[e].key, state, old(t.model)[e].obj, old(t.model)[e].ticks)]
    {
      hide Sound;
      Listed(e);
      RestatedOk(t, e, state);
      e.state := state;
      t := Restated(t, e, state);
    }

    /** The table part of `set_tcp_conn_local`: the entry is taken out, re-keyed, and comes first. */
    method SetLocal(e: ConnEntry, laddr: nat, lport: nat)
      requires Valid() && e in t.nodes
      modifies this`t, conn, t.nodes
      ensures Valid() && t.nodes == old(t.nodes) && t.order == [e] + Remove(old(t.order), e)
      ensures t.model ==
        old(t.model)[e := old(t.model)[e].(key := old(t.model)[e].key.(laddr := laddr, lport := lport))]
      ensures t.dead == old(t.dead)
    {
      hide ListOk, ChainsOk, IndexOk, Fronted, Chained, DeadOk, Bypassed, Remove, Shown;
      Listed(e);
      Spliceable(t, e);
      SplicedOk(t, e);
      ghost var k := t.model[e].key.(laddr := laddr, lport := lport);
      RekeyedOk(t, e, k);
      Unlink(e);
      e.laddr := laddr;
      e.lport := lport;
      var hash := Hash(Key(e.laddr, e.lport, e.raddr, e.rport));
      Push(e, e.Fields(), hash);
    }

    /** `del_tcp_conn_obj`: the entry is closed and queued, whether it is queued already or not. */
    method Queue(e: ConnEntry, now: int)
      requires Mirrored() && e in t.nodes
      modifies this`t, this`toDel, e`state, e`connobj, e`ticks, e`nextToDel
      ensures Mirrored() && e in old(t.model) && t == Closed(old(t), e, now)
      ensures t.order == old(t.order) && t.dead == [e] + old(t.dead)
      ensures t.model == old(t.model)[e := Rec(old(t.model)[e].key, TCP_STATE_CLOSED, 0, now)]
    {
      assert Shown(t, e);
      e.Retire(toDel, now);
      toDel := e;
      t := Closed(t, e, now);
      forall x | x in t.nodes ensures Shown(t, x) {
        assert x != e ==> old(Shown(t, x));
      }
    }

    /** An entry that is not queued yet: it stays hashed until it is reaped. */
    method Close(e: ConnEntry, now: int)
      requires Valid() && e in t.nodes && e !in t.dead
      modifies this`t, this`toDel, t.nodes
      ensures Valid() && e in old(t.model) && t == Closed(old(t), e, now)
      ensures t.order == old(t.order) && t.dead == [e] + old(t.dead)
      ensures t.model == old(t.model)[e := Rec(old(t.model)[e].key, TCP_STATE_CLOSED, 0, now)]
    {
      hide Sound, Mirrored;
      Listed(e);
      ClosedOk(t, e, now);
      Queue(e, now);
    }

    /** One entry leaves the delete list, where it follows `prev`, and the hash. */
    method Bury(e: ConnEntry, prev: ConnEntry?, ghost a: seq<ConnEntry>, ghost b: seq<ConnEntry>)
      requires Valid() && t.dead == a + [e] + b && prev == if a == [] then null else a[|a| - 1]
      modifies this`t, this`toDel, conn, t.nodes`next, t.nodes`prev, t.nodes`nextToDel
      ensures Valid() && t.dead == a + b && t.order == Remove(old(t.order), e)
      ensures t.model == old(t.model) && t.nodes == old(t.nodes) - {e} && e.nextToDel == old(e.nextToDel)
    {
      hide Sound, Remove, NoDup;
      CutOk(t, a, e, b);
      assert e in t.nodes && (prev != null ==> prev in t.nodes) by {
        assert t.dead[|a|] == e;
        assert prev != null ==> t.dead[|a| - 1] == prev;
      }
      Listed(e);
      assert Shown(t, e);
      t := Cut(t, a, e, b);
      if prev == null {
        toDel := e.nextToDel;
      } else {
        prev.nextToDel := e.nextToDel;
      }
      forall x | x in t.nodes ensures Shown(t, x) {
        assert old(Shown(t, x));
      }
      SplicedSound(t, e);
      Unlink(e);
    }

    /** What a pass of `conn_thread` does with the `i`-th closed entry: a due one leaves, and another one may
        lengthen the wait. `a` are the entries spared so far. */
    method Examine(ce: ConnEntry, prev: ConnEntry?, timeout: int, now: int, increment: int, shutdown: bool,
                   ghost t0: Table, ghost due: set<ConnEntry>, ghost i: nat, ghost a: seq<ConnEntry>)
      returns (next: ConnEntry?, prev': ConnEntry?, timeout': int, ghost a': seq<ConnEntry>)
      requires Valid() && i < |t0.dead| && ce == t0.dead[i] && prev == if a == [] then null else a[|a| - 1]
      requires Known(t0.dead, t0.model) && due == DueOf(t0, now, increment, shutdown) && NoDup(t0.dead)
      requires NoDup(t0.order)
      requires Passed(t, t0, due, i, a) && Waits(a, t0.model, now, increment, timeout)
      modifies this`t, this`toDel, conn, t.nodes`next, t.nodes`prev, t.nodes`nextToDel
      ensures Valid() && Passed(t, t0, due, i + 1, a') && Waits(a', t0.model, now, increment, timeout')
      ensures next == if i + 1 < |t0.dead| then t0.dead[i + 1] else null
      ensures prev' == if a' == [] then null else a'[|a'| - 1]
    {
      hide Sound, Age, NoDup, Remove, Without, Cut, Shown, Valid, Mirrored, Passed, Waits, Append, Known, DueOf, Hash,
        Due;
      prev', timeout', a' := prev, timeout, a;
      PassEntry(t0, due, i, a);
      DueExact(t0, now, increment, shutdown, ce);
      var delta := Age(ce.Fields(), now, increment);
      if delta >= CLOSED_LIMIT || shutdown {
        ghost var t1 := t;
        PassAt(t, t0, due, i, a);
        Bury(ce, prev, a, t0.dead[i + 1..]);
        PassBuries(t1, t, t0, due, i, a);
      } else {
        WaitsMore(a, t0.model, now, increment, timeout, ce);
        PassSpares(t, t0, due, i, a);
        delta := CLOSED_LIMIT - delta;
        if delta > -timeout || timeout == 0 {
          timeout' := -delta;
        }
        prev', a' := ce, Append(a, ce);
      }
      next := ce.nextToDel;
    }

    /** A pass of `conn_thread` over the delete list. */
    method Reap(now: int, increment: int, shutdown: bool) returns (timeout: int)
      requires Valid()
      modifies this`t, this`toDel, conn, t.nodes
      ensures Valid() && Known(old(t.dead), old(t.model)) && t.model == old(t.model)
      ensures t.dead == Without(old(t.dead), DueOf(old(t), now, increment, shutdown))
      ensures t.order == Without(old(t.order), DueOf(old(t), now, increment, shutdown))
      ensures Waits(t.dead, t.model, now, increment, timeout)
    {
      hide NoDup, Without, Valid, Passed, Waits, Known, DueOf;
      ghost var t0 := t;
      First();
      ghost var due := DueOf(t, now, increment, shutdown);
      ghost var a: seq<ConnEntry>, i := [], 0;
      PassBegins(t, due);
      WaitsNone(t.model, now, increment);
      var prev: ConnEntry? := null;
      timeout := 0;
      var ce := toDel;
      while ce != null
        invariant Valid() && i <= |t0.dead| && t.nodes <= t0.nodes && Passed(t, t0, due, i, a)
        invariant ce == (if i < |t0.dead| then t0.dead[i] else null) && prev == if a == [] then null else a[|a| - 1]
        invariant Waits(a, t0.model, now, increment, timeout)
        decreases |t0.dead| - i
      {
        ce, prev, timeout, a := Examine(ce, prev, timeout, now, increment, shutdown, t0, due, i, a);
        i := i + 1;
        PassAt(t, t0, due, i, a);
      }
      PassAt(t, t0, due, i, a);
      PassEnds(t, t0, due, a);
    }

    lemma {:induction false} MirroredAt(e: ConnEntry)
      requires Mirrored() && e in t.nodes
      ensures e in t.model && e.Fields() == t.model[e]
    {
    }

    lemma {:induction false} ShownExact(e: ConnEntry)
      requires Mirrored() && e in t.nodes
      ensures Shown(t, e)
      ensures e in t.model && e.Fields() == t.model[e] && e in t.dels && t.dels[e] == e.nextToDel
      ensures e in t.links && t.links[e] == Link(e.next, e.prev)
    {
    }

    /** The entry that a pass has come to. */
    lemma {:induction false} PassEntry(t0: Table, due: set<ConnEntry>, i: nat, a: seq<ConnEntry>)
      requires Valid() && Passed(t, t0, due, i, a) && i < |t0.dead|
      ensures t.model == t0.model && t.nodes <= t0.nodes
      ensures var e := t0.dead[i];
        e in t0.model && e.Fields() == t0.model[e] && e.nextToDel == if i + 1 < |t0.dead| then t0.dead[i + 1] else null
    {
      hide Sound, Passed, Shown, NoDup, Without;
      var e, b := t0.dead[i], t0.dead[i + 1..];
      PassAt(t, t0, due, i, a);
      CutOk(t, a, e, b);
      assert t.dead[|a|] == e;
      ShownExact(e);
    }

    lemma {:induction false} First()
      requires Valid()
      ensures toDel == if t.dead == [] then null else t.dead[0]
      ensures NoDup(t.order) && NoDup(t.dead) && Known(t.dead, t.model)
    {
    }

    lemma {:induction false} Unique(t: Table)
      requires Sound(t)
      ensures NoDup(t.order) && NoDup(t.dead) && Known(t.dead, t.model)
      ensures forall e :: e in t.dead ==> e in t.nodes
    {
    }

    lemma {:induction false} WaitsNone(model: Model, now: int, increment: int)
      ensures Waits([], model, now, increment, 0)
    {
    }

    /** `get_tcp_conn_state`: the search of one bucket finds what a search of the whole list finds. */
    method GetState(key: Key) returns (result: int)
      requires Valid()
      ensures Known(t.order, t.model) && result == Lookup(t.order, t.model, key)
    {
      hide Sound, Lookup, Hash, Shown, LinkIn, Known, Bucket;
      BucketChain(t, key);
      ghost var c := t.chains[Hash(key)];
      LookupInBucket(t.order, t.model, key);
      var hash := Hash(key);
      result := TCP_STATE_NONE;
      var ce := conn[hash];
      ghost var i := 0;
      LookupFrom(c, t.model, key, 0);
      while ce != null
        invariant 0 <= i <= |c| && ce == (if i < |c| then c[i] else null)
        invariant Known(c[i..], t.model) && Lookup(c[i..], t.model, key) == Lookup(c, t.model, key)
        decreases |c| - i
      {
        LookupFrom(c, t.model, key, i);
        ChainAt(conn[hash], c, t.links, i);
        ShownExact(ce);
        if Key(ce.laddr, ce.lport, ce.raddr, ce.rport) == key {
          return ce.state;
        }
        ce := ce.next;
        i := i + 1;
      }
      LookupFrom(c, t.model, key, i);
    }
  }
}
