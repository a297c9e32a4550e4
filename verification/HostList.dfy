/** The circular, doubly linked host lists of sys/adfilter/list.c. */
module HostList {
  import opened Bytes
  import opened SlreScan
  import W = SlreWalk
  import T = SlreTheorems
  import E = SlreEngine

  /** A `LIST_ENTRY` with the host it belongs to; the header of a list is an entry too. */
  class HostEntry {
    var flink: HostEntry
    var blink: HostEntry
    const name: Text

    constructor (name: Text)
      ensures this.name == name && flink == this && blink == this
    {
      flink, blink := this, this;
      this.name := name;
    }
  }

  function Names(nodes: seq<HostEntry>): (r: seq<Text>)
    ensures |r| == |nodes|
  {
    seq(|nodes|, k requires 0 <= k < |nodes| => nodes[k].name)
  }

  // ---- What the operations do to the names --------------------------------------------------------

  /** The place of the last occurrence, or -1. */
  function LastIndex(names: seq<Text>, name: Text): (k: int)
    ensures -1 <= k < |names|
    ensures k >= 0 ==> names[k] == name
    ensures forall j :: k < j < |names| ==> names[j] != name
  {
    if names == [] then -1
    else if names[|names| - 1] == name then |names| - 1
    else LastIndex(names[..|names| - 1], name)
  }

  function Without<T>(s: seq<T>, k: int): seq<T>
    requires -1 <= k < |s|
  {
    if k < 0 then s else s[..k] + s[k + 1..]
  }

  /** The scan of the pattern ends: it has no cut set, or is rejected in front of one. */
  predicate ScansThrough(host: Text)
    ensures ScansThrough(host) <==> !Compile(host, 0).Diverges?
  {
    W.ScanEnds(host, 0);
    W.SetsEnd(host, 0) || Compile(host, 0).Rejected?
  }

  predicate Matchable(names: seq<Text>) {
    forall k :: 0 <= k < |names| ==> ScansThrough(names[k])
  }

  ghost predicate AllSettled(names: seq<Text>) {
    forall k :: 0 <= k < |names| ==> T.Settled(names[k])
  }

  /** The engine, ignoring case, reports a match of the host that ends with the name: in one run, with `spare`
      behind its tables. */
  predicate RunMatches(host: Text, name: Text, spare: int) {
    E.MatchResult(host, name, 0, true, spare) == Some(|name|)
  }

  /** The same in every run. */
  ghost predicate HostMatches(host: Text, name: Text) {
    forall spare: int :: RunMatches(host, name, spare)
  }

  /** What uninitialised memory holds in the run for an entry. */
  type Memory = HostEntry -> int

  predicate RunsMatch(nodes: seq<HostEntry>, name: Text, memory: Memory) {
    exists k :: 0 <= k < |nodes| && RunMatches(nodes[k].name, name, memory(nodes[k]))
  }

  ghost predicate AnyMatches(names: seq<Text>, name: Text) {
    exists k :: 0 <= k < |names| && HostMatches(names[k], name)
  }

  /** For settled hosts memory has no say, whatever it holds in each of the runs. */
  lemma {:induction false} MemoryIdle(nodes: seq<HostEntry>, name: Text, memory: Memory)
    ensures AnyMatches(Names(nodes), name) ==> RunsMatch(nodes, name, memory)
    ensures AllSettled(Names(nodes)) ==> (RunsMatch(nodes, name, memory) <==> AnyMatches(Names(nodes), name))
  {
    hide E.MatchResult, T.Settled;
    var names := Names(nodes);
    if k :| 0 <= k < |names| && HostMatches(names[k], name) {
      assert RunMatches(nodes[k].name, name, memory(nodes[k]));
    }
    if AllSettled(names) {
      if k :| 0 <= k < |nodes| && RunMatches(nodes[k].name, name, memory(nodes[k])) {
        assert names[k] == nodes[k].name;
        forall spare: int ensures RunMatches(names[k], name, spare) {
          T.ResultSettled(names[k], name, 0, true, spare, memory(nodes[k]));
        }
        assert HostMatches(names[k], name);
      }
    }
  }

  /** Removal undoes the last addition, whatever the list held before. */
  lemma {:induction false} AddThenRemove<T>(nodes: seq<T>, node: T, names: seq<Text>, name: Text)
    requires |nodes| == |names|
    ensures LastIndex(names + [name], name) == |names|
    ensures Without(nodes + [node], LastIndex(names + [name], name)) == nodes
  {
  }

  ghost predicate Distinct(header: HostEntry, nodes: seq<HostEntry>) {
    && (forall i :: 0 <= i < |nodes| ==> nodes[i] != header)
    && (forall i, j :: 0 <= i < j < |nodes| ==> nodes[i] != nodes[j])
  }

  lemma {:induction false} DistinctWithout(header: HostEntry, nodes: seq<HostEntry>, k: nat)
    requires Distinct(header, nodes) && k < |nodes|
    ensures Distinct(header, nodes[..k] + nodes[k + 1..])
    ensures forall i :: 0 <= i < |nodes| ==> nodes[i] != header
    ensures k > 0 ==> forall i :: 0 <= i < |nodes| && i != k - 1 ==> nodes[i] != nodes[k - 1]
    ensures k + 1 < |nodes| ==> forall i :: 0 <= i < |nodes| && i != k + 1 ==> nodes[i] != nodes[k + 1]
  {
  }

  class List {
    const header: HostEntry
    ghost var nodes: seq<HostEntry>

    /** The entry in front of node `i`, and the one behind it; both ends of the list are the header. */
    ghost function Before(i: int): HostEntry
      requires 0 <= i <= |nodes|
      reads this
    {
      if i == 0 then header else nodes[i - 1]
    }

    ghost function Behind(i: int): HostEntry
      requires -1 <= i < |nodes|
      reads this
    {
      if i == |nodes| - 1 then header else nodes[i + 1]
    }

    ghost predicate Valid()
      reads this, header, nodes
    {
      && Distinct(header, nodes)
      && header.flink == Behind(-1) && header.blink == Before(|nodes|)
      && (forall i {:trigger nodes[i].flink} :: 0 <= i < |nodes| ==> nodes[i].flink == Behind(i))
      && (forall i {:trigger nodes[i].blink} :: 0 <= i < |nodes| ==> nodes[i].blink == Before(i))
    }

    constructor ()
      ensures Valid() && nodes == [] && fresh(header)
    {
      header := new HostEntry([]);
      nodes := [];
    }

    /** `addHostList`: a new node goes in front of the header, that is, to the tail. */
    method AddHost(src: Text, len: nat) returns (e: HostEntry)
      requires Valid() && len <= |src|
      modifies this, header, nodes
      ensures Valid() && fresh(e) && e.name == src[..len]
      ensures nodes == old(nodes) + [e]
    {
      e := new HostEntry(src[..len]);
      var last := header.blink;
      e.flink := header;
      e.blink := last;
      last.flink := e;
      header.blink := e;
      nodes := nodes + [e];
    }

    method IsSameHost(e: HostEntry, name: Text) returns (same: bool)
      ensures same == (e.name == name)
    {
      same := |e.name| == |name| && e.name == name;
    }

    /** `removeHostList`: the search runs from the tail, so the last equal host goes. */
    method RemoveHost(dst: Text) returns (found: bool)
      requires Valid()
      modifies this, header, nodes
      ensures Valid()
      ensures var k := LastIndex(Names(old(nodes)), dst);
        found == (k >= 0) && nodes == Without(old(nodes), k)
      ensures (forall k :: 0 <= k < |old(nodes)| ==> old(nodes)[k].name != dst) ==> !found && nodes == old(nodes)
      ensures forall k ::
        0 <= k < |old(nodes)| && old(nodes)[k].name == dst
        && (forall j :: k < j < |old(nodes)| ==> old(nodes)[j].name != dst) ==>
          found && nodes == old(nodes)[..k] + old(nodes)[k + 1..]
    {
      var h := header.blink;
      ghost var i := |nodes|;
      while h != header
        invariant 0 <= i <= |nodes| && h == Before(i)
        invariant Valid() && nodes == old(nodes)
        invariant forall j :: i <= j < |nodes| ==> nodes[j].name != dst
        decreases i
      {
        var same := IsSameHost(h, dst);
        if same {
          assert LastIndex(Names(nodes), dst) == i - 1 by { LastIs(Names(nodes), dst, i - 1); }
          Unlink(h, i - 1);
          return true;
        }
        h := h.blink;
        i := i - 1;
      }
      assert LastIndex(Names(nodes), dst) == -1;
      found := false;
    }

    /** A host is added and deleted again: the deletion finds the node just added, and no other. */
    method AddThenDelete(src: Text, len: nat) returns (found: bool)
      requires Valid() && len <= |src|
      modifies this, header, nodes
      ensures Valid() && found && nodes == old(nodes)
    {
      hide LastIndex, Valid;
      var e := AddHost(src, len);
      assert Names(nodes) == Names(old(nodes)) + [src[..len]];
      AddThenRemove(old(nodes), e, Names(old(nodes)), src[..len]);
      found := RemoveHost(src[..len]);
    }

    lemma {:induction false} LastIs(names: seq<Text>, name: Text, k: nat)
      requires k < |names| && names[k] == name && forall j :: k < j < |names| ==> names[j] != name
      ensures LastIndex(names, name) == k
    {
    }

    /** `RemoveEntryList` on the `k`-th node. */
    method Unlink(h: HostEntry, ghost k: nat)
      requires Valid() && k < |nodes| && nodes[k] == h
      modifies this, header, nodes
      ensures Valid() && nodes == Without(old(nodes), k)
    {
      hide Distinct;
      DistinctWithout(header, nodes, k);
      var blink, flink := h.blink, h.flink;
      ghost var was := nodes;
      blink.flink := flink;
      flink.blink := blink;
      nodes := nodes[..k] + nodes[k + 1..];
      ghost var n := |nodes|;
      assert forall i :: 0 <= i < n ==> nodes[i] == was[if i < k then i else i + 1];
      forall i | 0 <= i < n ensures nodes[i].flink == Behind(i) {
        var o := if i < k then i else i + 1;
        assert nodes[i] == was[o] && (o != k - 1 ==> was[o] != blink);
      }
      forall i | 0 <= i < n ensures nodes[i].blink == Before(i) {
        var o := if i < k then i else i + 1;
        assert nodes[i] == was[o] && (o != k + 1 ==> was[o] != flink);
      }
      assert header.flink == Behind(-1) && header.blink == Before(n);
    }

    /** `clearHostList`: tail after tail, until the header itself comes off. */
    method ClearHosts()
      requires Valid()
      modifies this, header, nodes
      ensures Valid() && nodes == []
    {
      var entry := header.blink;
      while entry != header
        invariant Valid() && entry == Before(|nodes|)
        invariant nodes == old(nodes)[..|nodes|]
        decreases |nodes|
      {
        assert forall k :: 0 <= k < |nodes| ==> nodes[k] == old(nodes)[k];
        Unlink(entry, |nodes| - 1);
        entry := header.blink;
      }
    }

    /** `isMatchHostList`: some host of the list matches, ignoring case, up to the end of the name. */
    method IsMatch(dst: Text, memory: Memory) returns (found: bool)
      requires Valid() && Matchable(Names(nodes))
      ensures found == RunsMatch(nodes, dst, memory)
      ensures AnyMatches(Names(nodes), dst) ==> found
      ensures AllSettled(Names(nodes)) ==> (found <==> AnyMatches(Names(nodes), dst))
    {
      hide E.MatchResult, Compile, AllSettled, AnyMatches;
      MemoryIdle(nodes, dst, memory);
      var h := header.blink;
      ghost var i := |nodes|;
      while h != header
        invariant 0 <= i <= |nodes| && h == Before(i)
        invariant forall j :: i <= j < |nodes| ==> !RunMatches(nodes[j].name, dst, memory(nodes[j]))
        decreases i
      {
        assert h.name == Names(nodes)[i - 1];
        var ends, r := E.SlreMatch(h.name, dst, 0, true, memory(h));
        if r == |dst| {
          assert RunMatches(nodes[i - 1].name, dst, memory(nodes[i - 1]));
          return true;
        }
        h := h.blink;
        i := i - 1;
      }
      found := false;
    }
  }
}
