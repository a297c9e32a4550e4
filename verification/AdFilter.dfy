/** The verdict on a DNS query, and the gate in front of it: sys/adfilter/filter.c. */
module AdFilter {
  import opened Bytes
  import opened HostList
  import opened DnsName
  import opened SlreScan
  import S = SlreSyntax
  import X = SlreExactness
  import T = SlreTheorems
  import E = SlreEngine
  import P = SlreForms
  import H = HostForms

  const FILTER_ALLOW := 1
  const FILTER_DENY := 2
  const IPPROTO_IP := 0
  const IPPROTO_UDP := 17
  const DNS_PORT := 53

  /** A name is denied if the user's or the system's list matches it, unless the exceptions do. */
  ghost predicate Denied(excpt: seq<Text>, user: seq<Text>, sys: seq<Text>, name: Text) {
    !AnyMatches(excpt, name) && (AnyMatches(user, name) || AnyMatches(sys, name))
  }

  /** The verdict of one pass over the lists, with `memory` on the stack of each of its runs of the engine. */
  predicate Verdict(excpt: seq<HostEntry>, user: seq<HostEntry>, sys: seq<HostEntry>, name: Text, memory: Memory) {
    !RunsMatch(excpt, name, memory) && (RunsMatch(user, name, memory) || RunsMatch(sys, name, memory))
  }

  ghost predicate HostsSettled(excpt: seq<HostEntry>, user: seq<HostEntry>, sys: seq<HostEntry>) {
    AllSettled(Names(excpt)) && AllSettled(Names(user)) && AllSettled(Names(sys))
  }

  /** With settled hosts every pass gives the verdict that the names alone determine. */
  lemma {:induction false} VerdictExact(excpt: seq<HostEntry>, user: seq<HostEntry>, sys: seq<HostEntry>, name: Text,
                                        memory: Memory)
    requires HostsSettled(excpt, user, sys)
    ensures Verdict(excpt, user, sys, name, memory) <==> Denied(Names(excpt), Names(user), Names(sys), name)
  {
    hide AllSettled, RunsMatch, AnyMatches;
    MemoryIdle(excpt, name, memory);
    MemoryIdle(user, name, memory);
    MemoryIdle(sys, name, memory);
  }

  // ---- Which data are looked at -------------------------------------------------------------------

  /** What `tdifw_filter` is told of a datagram, a connection or a process. */
  datatype Request = Request(proto: int, port: nat)

  /** The last UDP datagram seen went to the DNS port. */
  ghost predicate LastToDns(seen: seq<Request>) {
    exists k :: 0 <= k < |seen| && seen[k] == Request(IPPROTO_UDP, DNS_PORT)
                && forall j :: k < j < |seen| ==> seen[j].proto != IPPROTO_UDP
  }

  /** A UDP datagram decides for itself, and anything else leaves the decision of the one before. */
  lemma {:induction false} LastAfter(seen: seq<Request>, r: Request)
    ensures LastToDns(seen + [r]) <==> if r.proto == 17 then r.port == 53 else LastToDns(seen)
    ensures !LastToDns([])
  {
    var now := seen + [r];
    if r == Request(IPPROTO_UDP, DNS_PORT) {
      assert now[|seen|] == r;
    } else if r.proto == IPPROTO_UDP {
      assert now[|seen|] == r;
    } else {
      if k :| 0 <= k < |seen| && seen[k] == Request(IPPROTO_UDP, DNS_PORT)
              && forall j :: k < j < |seen| ==> seen[j].proto != IPPROTO_UDP {
        assert now[k] == seen[k];
      }
      if k :| 0 <= k < |now| && now[k] == Request(IPPROTO_UDP, DNS_PORT)
              && forall j :: k < j < |now| ==> now[j].proto != IPPROTO_UDP {
        assert k < |seen| && forall j :: k < j < |seen| ==> now[j] == seen[j];
      }
    }
  }

  /** The socket is known, and of a kind that sends datagrams. */
  predicate Served(proto: Option<int>, known: bool) {
    known && (proto == Some(IPPROTO_UDP) || proto == Some(IPPROTO_IP))
  }

  /** The datagram goes to the DNS port over UDP, or over raw IP behind a UDP datagram that did. */
  ghost predicate Looked(proto: Option<int>, known: bool, port: nat, seen: seq<Request>) {
    Served(proto, known) && if proto.value == IPPROTO_UDP then port == DNS_PORT else LastToDns(seen)
  }

  class Driver {
    const excpt: List
    const user: List
    const sys: List
    const buffer: array<Byte>
    var paused: bool
    var needCheck: bool
    ghost var seen: seq<Request>

    ghost predicate Valid()
      reads this, excpt, user, sys, excpt.header, user.header, sys.header, excpt.nodes, user.nodes, sys.nodes
    {
      && excpt.Valid() && user.Valid() && sys.Valid()
      && Matchable(Names(excpt.nodes)) && Matchable(Names(user.nodes)) && Matchable(Names(sys.nodes))
      && buffer.Length == BUFFER_SIZE
      && needCheck == LastToDns(seen)
    }

    constructor ()
      ensures Valid() && !paused && seen == []
      ensures excpt.nodes == [] && user.nodes == [] && sys.nodes == []
    {
      excpt := new List();
      user := new List();
      sys := new List();
      buffer := new Byte[BUFFER_SIZE];
      paused, needCheck, seen := false, false, [];
    }

    ghost predicate Settled()
      reads this, excpt, user, sys
    {
      HostsSettled(excpt.nodes, user.nodes, sys.nodes)
    }

    /** The verdict on a name with this memory under the engine, and the one that needs no memory. */
    ghost predicate VerdictOn(name: Text, memory: Memory)
      reads this, excpt, user, sys
    {
      Verdict(excpt.nodes, user.nodes, sys.nodes, name, memory)
    }

    ghost predicate Denies(name: Text)
      reads this, excpt, user, sys
    {
      Denied(Names(excpt.nodes), Names(user.nodes), Names(sys.nodes), name)
    }

    /** `filter`: 1 if the query is to be denied. `inside`: the name could be read without leaving message or buffer. */
    method Filter(data: Text, len: int, memory: Memory) returns (inside: bool, found: int)
      requires Valid()
      modifies buffer
      ensures inside <==> Readable(data, len)
      ensures inside ==> found == if VerdictOn(DnsText(data, len), memory) then 1 else 0
      ensures inside ==>
        var name := DnsText(data, len);
        && (RunsMatch(excpt.nodes, name, memory) ==> found == 0)
        && (!RunsMatch(excpt.nodes, name, memory) && RunsMatch(user.nodes, name, memory) ==> found == 1)
        && (!RunsMatch(excpt.nodes, name, memory) && RunsMatch(sys.nodes, name, memory) ==> found == 1)
        && (!RunsMatch(user.nodes, name, memory) && !RunsMatch(sys.nodes, name, memory) ==> found == 0)
      ensures inside && Settled() ==> (found == 1 <==> Denies(DnsText(data, len)))
    {
      hide RunsMatch, AllSettled, LastToDns, AnyMatches, Readable;
      if Settled() {
        VerdictExact(excpt.nodes, user.nodes, sys.nodes, DnsText(data, len), memory);
      }
      var n;
      inside, n := FormatDnsMessage(data, len, buffer);
      found := 0;
      if !inside { return; }
      var dns := buffer[..n];
      var hit := excpt.IsMatch(dns, memory);
      if hit { return inside, 0; }
      hit := user.IsMatch(dns, memory);
      if hit { return inside, 1; }
      hit := sys.IsMatch(dns, memory);
      if hit { return inside, 1; }
    }

    /** `tdifw_filter`: everything passes, and of UDP it is remembered where it goes. */
    method TdiFilter(proto: int, port: nat) returns (result: int)
      requires Valid()
      modifies this`needCheck, this`seen
      ensures Valid() && seen == old(seen) + [Request(proto, port)]
      ensures result == FILTER_ALLOW
    {
      LastAfter(seen, Request(proto, port));
      if proto == IPPROTO_UDP {
        needCheck := port == DNS_PORT;
      }
      seen := seen + [Request(proto, port)];
      result := FILTER_ALLOW;
    }

    /** `tdifw_udp_send`: data are denied exactly if the last UDP datagram went to the DNS port and the name they
        ask for is denied, unless filtering is paused. Only data that are looked at have to be readable. */
    method UdpSend(data: Text, len: int, memory: Memory) returns (inside: bool, result: int)
      requires Valid()
      modifies buffer
      ensures inside <==> (LastToDns(seen) && !paused ==> Readable(data, len - 1))
      ensures inside ==> result == FILTER_ALLOW || result == FILTER_DENY
      ensures inside ==>
        (result == FILTER_DENY <==> LastToDns(seen) && !paused && VerdictOn(DnsText(data, len - 1), memory))
      ensures inside && Settled() ==>
        (result == FILTER_DENY <==> LastToDns(seen) && !paused && Denies(DnsText(data, len - 1)))
    {
      hide LastToDns, Readable;
      if Settled() {
        VerdictExact(excpt.nodes, user.nodes, sys.nodes, DnsText(data, len - 1), memory);
      }
      if !needCheck { return true, FILTER_ALLOW; }
      if paused { return true, FILTER_ALLOW; }
      var found;
      inside, found := Filter(data, len - 1, memory);
      result := found + 1;
    }

    /** `tdi_send_datagram`: of a socket that is known and speaks UDP or raw IP, a UDP datagram is denied exactly if
        it goes to the DNS port and asks for a denied name; a raw one is treated as the last UDP datagram was. */
    method SendDatagram(proto: Option<int>, known: bool, port: nat, data: Text, len: int, memory: Memory)
      returns (inside: bool, result: int)
      requires Valid()
      modifies buffer, this`needCheck, this`seen
      ensures Valid()
      ensures inside <==> (Looked(proto, known, port, old(seen)) && !paused ==> Readable(data, len - 1))
      ensures inside ==> result == FILTER_ALLOW || result == FILTER_DENY
      ensures !Served(proto, known) ==> result == FILTER_DENY && seen == old(seen)
      ensures !known || proto == None || (proto.value != 17 && proto.value != 0) ==> inside && result == 2
      ensures known && proto == Some(17) && (port != 53 || paused) ==> inside && result == 1
      ensures known && proto == Some(0) && (!LastToDns(old(seen)) || paused) ==> inside && result == 1
      ensures inside && known && !paused && proto == Some(17) && port == 53 ==>
        result == if VerdictOn(DnsText(data, len - 1), memory) then 2 else 1
      ensures inside && known && !paused && proto == Some(0) && LastToDns(old(seen)) ==>
        result == if VerdictOn(DnsText(data, len - 1), memory) then 2 else 1
      ensures Served(proto, known) ==> seen == old(seen) + [Request(proto.value, port)]
      ensures inside && Served(proto, known) ==>
        var name := DnsText(data, len - 1);
        && (result == FILTER_DENY <==> Looked(proto, known, port, old(seen)) && !paused && VerdictOn(name, memory))
        && (Settled() ==> (result == FILTER_DENY <==> Looked(proto, known, port, old(seen)) && !paused && Denies(name)))
    {
      hide LastToDns, Readable;
      if proto == None || (proto.value != IPPROTO_UDP && proto.value != IPPROTO_IP) { return true, FILTER_DENY; }
      if !known { return true, FILTER_DENY; }
      LastAfter(seen, Request(proto.value, port));
      result := TdiFilter(proto.value, port);
      inside, result := UdpSend(data, len, memory);
    }
  }

  // ---- What a match of a host says about the name -------------------------------------------------

  /** A host that matches a name has a suffix of the name in its language, letters compared without case. */
  lemma {:induction false} HostMatchSound(alts: seq<S.Alternative>, name: Text)
    requires S.FlatRegex(alts)
    ensures ScansThrough(S.RenderAlts(alts)) && T.Settled(S.RenderAlts(alts))
    ensures HostMatches(S.RenderAlts(alts), name) ==>
      exists s :: 0 <= s <= |name| && S.MatchesRegex(alts, name, true, s, |name|)
  {
    hide S.FlatRegex, S.RenderAlts, S.MatchesRegex, E.MatchResult, Scan, T.Settled;
    T.FlatSettled(alts);
    T.MatchSound(alts, name, 0, true, 0);
    if HostMatches(S.RenderAlts(alts), name) {
      assert RunMatches(S.RenderAlts(alts), name, 0);
      var s :| 0 <= s <= |name| && S.MatchesRegex(alts, name, true, s, |name|);
    }
  }

  /** For a host that ends with `$`, has no groups and no `|`, and whose options commit to nothing, the converse
      holds too. */
  lemma {:induction false} HostMatchExact(its: seq<S.Item>, name: Text)
    requires X.Simple(its) && T.EndsWithEol(its)
    ensures ScansThrough(S.RenderSeq(its)) && T.Settled(S.RenderSeq(its))
    ensures HostMatches(S.RenderSeq(its), name) <==>
      exists s :: 0 <= s <= |name| && S.Matches(its, name, true, s, |name|)
  {
    hide S.RenderSeq, X.Simple, S.Matches, E.MatchResult, Scan, T.EndsWithEol, T.Settled;
    H.SimpleHost(its, name);
    var p := S.RenderSeq(its);
    X.MatchExact(its, name, 0, true, 0);
    if HostMatches(p, name) {
      assert RunMatches(p, name, 0);
      var r := E.MatchResult(p, name, 0, true, 0).value;
      var s :| 0 <= s <= r && S.Matches(its, name, true, s, r);
      assert r == |name| && S.Matches(its, name, true, s, |name|);
    } else {
      var spare :| !RunMatches(p, name, spare);
      X.MatchExact(its, name, 0, true, spare);
      forall s | 0 <= s <= |name| && S.Matches(its, name, true, s, |name|) ensures false {
        X.Witnessed(its, name, true, s, |name|);
        var r := E.MatchResult(p, name, 0, true, spare).value;
        var b :| 0 <= b <= r && S.Matches(its, name, true, b, r);
        T.EolMatches(its, name, true, b, r);
      }
    }
  }

  lemma {:induction false} PlainLength(its: seq<S.Item>, name: Text, i: int, e: int)
    requires P.Plain(its) && S.Matches(its, name, true, i, e)
    ensures e == i + |its|
    decreases |its|
  {
    if its != [] {
      var k := X.FirstMatch(its, name, true, i, e);
      PlainLength(its[1..], name, k, e);
    }
  }

  ghost predicate MatchesAt(its: seq<S.Item>, name: Text, s: int) {
    0 <= s <= |name| - |its| && S.Matches(its, name, true, s, s + |its|)
  }

  lemma {:induction false} MatchesSomewhere(its: seq<S.Item>, name: Text, s: int)
    requires P.Plain(its)
    ensures 0 <= s && X.CanMatch(its, name, true, s) <==> MatchesAt(its, name, s)
  {
    hide S.Matches, Plain;
    if 0 <= s && X.CanMatch(its, name, true, s) {
      var e :| s <= e <= |name| && S.Matches(its, name, true, s, e);
      PlainLength(its, name, s, e);
    }
  }

  /** It matches a name exactly if it matches at the name's end and nowhere before: `ads.com` does not match
      "ads.com.ads.com". */
  lemma {:induction false} HostMatchPlain(its: seq<S.Item>, name: Text)
    requires P.Plain(its)
    ensures ScansThrough(S.RenderSeq(its)) && T.Settled(S.RenderSeq(its))
    ensures HostMatches(S.RenderSeq(its), name) <==>
      MatchesAt(its, name, |name| - |its|) && forall s :: 0 <= s < |name| - |its| ==> !MatchesAt(its, name, s)
  {
    hide S.RenderSeq, P.Plain, RunMatches, MatchesAt, X.Simple, T.Settled;
    P.PlainSimple(its);
    H.SimpleHost(its, name);
    forall spare: int
      ensures ScansThrough(S.RenderSeq(its))
      ensures RunMatches(S.RenderSeq(its), name, spare) <==>
        MatchesAt(its, name, |name| - |its|) && forall s :: 0 <= s < |name| - |its| ==> !MatchesAt(its, name, s)
    {
      PlainRun(its, name, spare);
    }
    assert RunMatches(S.RenderSeq(its), name, 0) || !RunMatches(S.RenderSeq(its), name, 0);
  }

  lemma {:induction false} PlainRun(its: seq<S.Item>, name: Text, spare: int)
    requires P.Plain(its)
    ensures ScansThrough(S.RenderSeq(its))
    ensures RunMatches(S.RenderSeq(its), name, spare) <==>
      MatchesAt(its, name, |name| - |its|) && forall s :: 0 <= s < |name| - |its| ==> !MatchesAt(its, name, s)
  {
    P.PlainSimple(its);
    hide S.RenderSeq, X.Simple, X.CanMatch, S.Matches, E.MatchResult, Scan, P.Plain, MatchesAt;
    X.MatchExact(its, name, 0, true, spare);
    forall s: int ensures 0 <= s && X.CanMatch(its, name, true, s) <==> MatchesAt(its, name, s) {
      MatchesSomewhere(its, name, s);
    }
    var r := E.MatchResult(S.RenderSeq(its), name, 0, true, spare).value;
    if r >= 0 {
      var s :| 0 <= s <= r && S.Matches(its, name, true, s, r)
               && forall x :: 0 <= x < s ==> !X.CanMatch(its, name, true, x);
      PlainLength(its, name, s, r);
      X.Witnessed(its, name, true, s, r);
      assert MatchesAt(its, name, s);
    } else {
      forall s | 0 <= s <= |name| ensures !MatchesAt(its, name, s) {
      }
    }
  }

  /** Adding a host to a list and deleting it again leaves every verdict as it was. */
  lemma {:induction false} AddDeleteNeutral(excpt: seq<Text>, user: seq<Text>, sys: seq<Text>, host: Text, name: Text)
    requires Matchable(excpt) && Matchable(user) && Matchable(sys)
    ensures var user' := Without(user + [host], LastIndex(user + [host], host));
      Matchable(user') && (Denied(excpt, user', sys, name) <==> Denied(excpt, user, sys, name))
    ensures var excpt' := Without(excpt + [host], LastIndex(excpt + [host], host));
      Matchable(excpt') && (Denied(excpt', user, sys, name) <==> Denied(excpt, user, sys, name))
    ensures var sys' := Without(sys + [host], LastIndex(sys + [host], host));
      Matchable(sys') && (Denied(excpt, user, sys', name) <==> Denied(excpt, user, sys, name))
  {
    hide E.MatchResult;
    AddThenRemove(user, host, user, host);
    AddThenRemove(excpt, host, excpt, host);
    AddThenRemove(sys, host, sys, host);
  }
}
