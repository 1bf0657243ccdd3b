/** The peers a node knows, the statistics it publishes about them, and who is protected from removal. */
module PeerTracking {
  import opened BlockRangeExt

  type PeerId = nat

  type ConnectionId = nat

  type Time = int

  const EXPIRED_AFTER: Time := 120

  datatype NodeKind = Unknown | Bridge | Full | Light

  /** The parts of `s` between separators. */
  function Split(s: string, separator: char): (parts: seq<string>)
    ensures parts != []
  {
    if s == "" then [""]
    else
      var rest := Split(s[1..], separator);
      if s[0] == separator then [""] + rest else [[s[0]] + rest[0]] + rest[1..]
  }

  function Join(parts: seq<string>, separator: char): string
    requires parts != []
  {
    if |parts| == 1 then parts[0] else parts[0] + [separator] + Join(parts[1..], separator)
  }

  /** Joining the parts gives the string back. */
  lemma {:induction false} JoinSplit(s: string, separator: char)
    ensures Join(Split(s, separator), separator) == s
  {
    if s != "" {
      JoinSplit(s[1..], separator);
      var rest := Split(s[1..], separator);
      var parts := Split(s, separator);
      if s[0] == separator {
        assert parts[1..] == rest;
      } else {
        assert parts[1..] == rest[1..];
      }
    }
  }

  /** No part holds a separator, so there is no other way to cut the string. */
  lemma {:induction false} SplitHasNoSeparator(s: string, separator: char)
    ensures forall part :: part in Split(s, separator) ==> separator !in part
  {
    if s != "" {
      SplitHasNoSeparator(s[1..], separator);
      var rest := Split(s[1..], separator);
      assert rest[0] in rest && forall part :: part in rest[1..] ==> part in rest;
    }
  }

  lemma SplitNext(c: char, rest: string, separator: char)
    ensures var parts := Split(rest, separator);
            Split([c] + rest, separator) == if c == separator then [""] + parts else [[c] + parts[0]] + parts[1..]
  {
    assert ([c] + rest)[1..] == rest;
  }

  lemma {:induction false} SplitJoin(parts: seq<string>, separator: char)
    requires parts != [] && forall part :: part in parts ==> separator !in part
    ensures Split(Join(parts, separator), separator) == parts
    decreases |parts|, |parts[0]|
  {
    hide Split, Join;
    var first, tail := parts[0], parts[1..];
    assert first in parts && forall part :: part in tail ==> part in parts;
    if first == "" {
      JoinEmpty(tail, separator);
      if tail == [] {
        assert parts == [""];
      } else {
        SplitJoin(tail, separator);
        SplitNext(separator, Join(tail, separator), separator);
        assert parts == [""] + tail;
      }
    } else {
      var shorter := [first[1..]] + tail;
      assert forall c :: c in first[1..] ==> c in first;
      SplitJoin(shorter, separator);
      SplitNext(first[0], Join(shorter, separator), separator);
      JoinNext(first[0], first[1..], tail, separator);
      assert first == [first[0]] + first[1..];
      assert parts == [first] + tail && shorter[1..] == tail;
    }
  }

  lemma JoinEmpty(tail: seq<string>, separator: char)
    ensures if tail == [] then Split(Join([""], separator), separator) == [""]
            else Join([""] + tail, separator) == [separator] + Join(tail, separator)
  {
    assert ([""] + tail)[1..] == tail;
  }

  lemma JoinNext(c: char, first: string, tail: seq<string>, separator: char)
    ensures Join([[c] + first] + tail, separator) == [c] + Join([first] + tail, separator)
  {
    assert ([[c] + first] + tail)[1..] == tail && ([first] + tail)[1..] == tail;
  }

  /** The node kind that an agent announces: `lumina/...` or `celestia-node/<network>/<kind>/...`. */
  function FromAgentVersion(agent: string): NodeKind {
    var parts := Split(agent, '/');
    if parts[0] == "lumina" then Light
    else if parts[0] == "celestia-node" && |parts| > 2 then
      if parts[2] == "bridge" then Bridge else if parts[2] == "full" then Full else if parts[2] == "light" then Light else Unknown
    else Unknown
  }

  /** Which kind an agent announces, part by part. */
  lemma AgentKinds(parts: seq<string>)
    requires parts != [] && forall part :: part in parts ==> '/' !in part
    ensures var kind := FromAgentVersion(Join(parts, '/'));
            var node := parts[0] == "celestia-node" && |parts| > 2;
            && (kind == Full <==> node && parts[2] == "full")
            && (kind == Bridge <==> node && parts[2] == "bridge")
            && (kind == Light <==> parts[0] == "lumina" || (node && parts[2] == "light"))
  {
    SplitJoin(parts, '/');
    DistinctKinds();
  }

  lemma DistinctKinds()
    ensures "bridge" != "full" && "bridge" != "light" && "full" != "light" && "lumina" != "celestia-node"
  {
    assert "lumina"[0] == 'l' && "celestia-node"[0] == 'c';
    assert "bridge"[0] == 'b' && "full"[0] == 'f' && "light"[0] == 'l';
  }

  datatype Peer = Peer(
    connections: map<ConnectionId, Option<Time>>,   // last ping per connection
    protected: set<nat>,
    trusted: bool,
    archival: bool,
    nodeKind: NodeKind,
    disconnectedAt: Option<Time>) {

    predicate IsConnected() { connections != map[] }

    predicate IsProtected() { protected != {} }

    predicate IsFull() { nodeKind.Full? || nodeKind.Bridge? }
  }

  function NewPeer(now: Time): Peer {
    Peer(map[], {}, false, false, Unknown, Some(now))
  }

  datatype PeerTrackerInfo = PeerTrackerInfo(connected: nat, trusted: nat, full: nat, archival: nat)

  datatype Statistic = Any | Trusted | FullNode | Archival

  predicate Counts(peer: Peer, statistic: Statistic) {
    peer.IsConnected() &&
    match statistic
    case Any => true
    case Trusted => peer.trusted
    case FullNode => peer.IsFull()
    case Archival => peer.archival
  }

  ghost function Those(peers: map<PeerId, Peer>, statistic: Statistic): set<PeerId> {
    set p | p in peers && Counts(peers[p], statistic)
  }

  /** The statistics of a set of peers, counted afresh. */
  ghost function Recount(peers: map<PeerId, Peer>): PeerTrackerInfo {
    PeerTrackerInfo(|Those(peers, Any)|, |Those(peers, Trusted)|, |Those(peers, FullNode)|, |Those(peers, Archival)|)
  }

  /** The connected peers that serve as full nodes. */
  ghost function ConnectedFull(peers: map<PeerId, Peer>): set<PeerId> {
    set p | p in peers && peers[p].connections != map[] && (peers[p].nodeKind == Full || peers[p].nodeKind == Bridge)
  }

  /** What each statistic counts. */
  lemma StatisticsCount(peers: map<PeerId, Peer>)
    ensures Recount(peers).connected == |set p | p in peers && peers[p].connections != map[]|
    ensures Recount(peers).trusted == |set p | p in peers && peers[p].connections != map[] && peers[p].trusted|
    ensures Recount(peers).full == |ConnectedFull(peers)|
    ensures Recount(peers).archival == |set p | p in peers && peers[p].connections != map[] && peers[p].archival|
  {
    assert Those(peers, Any) == set p | p in peers && peers[p].connections != map[];
    assert Those(peers, Trusted) == set p | p in peers && peers[p].connections != map[] && peers[p].trusted;
    assert Those(peers, FullNode) == ConnectedFull(peers);
    assert Those(peers, Archival) == set p | p in peers && peers[p].connections != map[] && peers[p].archival;
  }

  /**
   * Who counts as a full node after an agent announced itself: a connected `celestia-node` whose third
   * part is `full` or `bridge`, and nobody else.
   */
  lemma AgentCountsAsFull(peers: map<PeerId, Peer>, id: PeerId, parts: seq<string>)
    requires id in peers && peers[id].connections != map[]
    requires parts != [] && forall part :: part in parts ==> '/' !in part
    ensures var after := peers[id := peers[id].(nodeKind := FromAgentVersion(Join(parts, '/')))];
            && (id in ConnectedFull(after) <==>
                  parts[0] == "celestia-node" && |parts| > 2 && (parts[2] == "full" || parts[2] == "bridge"))
            && ConnectedFull(after) - {id} == ConnectedFull(peers) - {id}
            && Recount(after).full == |ConnectedFull(after)|
  {
    hide FromAgentVersion, Join, ConnectedFull, Recount;
    AgentKinds(parts);
    var kind := FromAgentVersion(Join(parts, '/'));
    FullAfter(peers, id, kind);
    StatisticsCount(peers[id := peers[id].(nodeKind := kind)]);
  }

  lemma FullAfter(peers: map<PeerId, Peer>, id: PeerId, kind: NodeKind)
    requires id in peers && peers[id].connections != map[]
    ensures var after := peers[id := peers[id].(nodeKind := kind)];
            && (id in ConnectedFull(after) <==> kind == Full || kind == Bridge)
            && ConnectedFull(after) - {id} == ConnectedFull(peers) - {id}
  {}

  ghost function Holders(peers: map<PeerId, Peer>, tag: nat): set<PeerId> {
    set p | p in peers && tag in peers[p].protected
  }

  function Counter(counters: map<nat, nat>, tag: nat): nat {
    if tag in counters then counters[tag] else 0
  }

  ghost predicate Counted(peers: map<PeerId, Peer>, counters: map<nat, nat>) {
    forall tag :: Counter(counters, tag) == |Holders(peers, tag)|
  }

  function GetOrNew(peers: map<PeerId, Peer>, id: PeerId, now: Time): Peer {
    if id in peers then peers[id] else NewPeer(now)
  }

  /** Replacing a peer by one that counts the same leaves every statistic as it was. */
  lemma SameStatistics(peers: map<PeerId, Peer>, id: PeerId, peer: Peer)
    requires forall s :: Counts(peer, s) <==> id in peers && Counts(peers[id], s)
    ensures Recount(peers[id := peer]) == Recount(peers)
  {
    forall s: Statistic
      ensures Those(peers[id := peer], s) == Those(peers, s)
    {
      assert Counts(peer, s) <==> id in peers && Counts(peers[id], s);
    }
  }

  /** Replacing a peer by one with the same tags leaves every holder as it was. */
  lemma SameHolders(peers: map<PeerId, Peer>, id: PeerId, peer: Peer)
    requires peer.protected == if id in peers then peers[id].protected else {}
    ensures forall tag :: Holders(peers[id := peer], tag) == Holders(peers, tag)
  {}

  class PeerTracker {
    var peers: map<PeerId, Peer>
    var protectCounter: map<nat, nat>
    var info: PeerTrackerInfo

    /** The published statistics are right, and every tag is counted once per peer that holds it. */
    ghost predicate Valid()
      reads this
    {
      info == Recount(peers) && Counted(peers, protectCounter)
    }

    constructor ()
      ensures Valid() && peers == map[]
    {
      peers, protectCounter, info := map[], map[], PeerTrackerInfo(0, 0, 0, 0);
      new;
      assert forall s :: Those(peers, s) == {};
      assert forall tag :: Holders(peers, tag) == {};
    }

    /** Publishes the statistics counted over all peers. */
    method RecountPeerTrackerInfo()
      modifies this`info
      ensures info == Recount(peers)
      ensures info.connected == |set p | p in peers && peers[p].connections != map[]|
      ensures info.trusted == |set p | p in peers && peers[p].connections != map[] && peers[p].trusted|
      ensures info.full == |ConnectedFull(peers)|
      ensures info.archival == |set p | p in peers && peers[p].connections != map[] && peers[p].archival|
    {
      var counted := PeerTrackerInfo(0, 0, 0, 0);
      var rest := peers.Keys;
      ghost var seen: map<PeerId, Peer> := map[];
      assert forall s :: Those(seen, s) == {};
      while rest != {}
        invariant rest <= peers.Keys
        invariant seen == map p | p in peers && p !in rest :: peers[p]
        invariant counted == Recount(seen)
      {
        var p :| p in rest;
        var peer := peers[p];
        CountOneMore(seen, p, peer);
        if peer.IsConnected() {
          counted := PeerTrackerInfo(
            counted.connected + 1,
            if peer.trusted then counted.trusted + 1 else counted.trusted,
            if peer.IsFull() then counted.full + 1 else counted.full,
            if peer.archival then counted.archival + 1 else counted.archival);
        }
        rest := rest - {p};
        seen := seen[p := peer];
      }
      assert seen == peers;
      StatisticsCount(peers);
      if info != counted { info := counted; }
    }

    method AddPeerId(id: PeerId, now: Time) returns (isNew: bool)
      requires Valid()
      modifies this
      ensures Valid() && isNew == (id !in old(peers))
      ensures peers == if isNew then old(peers)[id := Peer(map[], {}, false, false, Unknown, Some(now))] else old(peers)
    {
      isNew := id !in peers;
      if isNew {
        SameStatistics(peers, id, NewPeer(now));
        SameHolders(peers, id, NewPeer(now));
        peers := peers[id := NewPeer(now)];
      }
    }

    method SetTrusted(id: PeerId, isTrusted: bool, now: Time)
      requires Valid()
      modifies this
      ensures Valid() && peers == old(peers)[id := (if id in old(peers) then old(peers)[id] else NewPeer(now)).(trusted := isTrusted)]
    {
      var peer := GetOrNew(peers, id, now).(trusted := isTrusted);
      SameHolders(peers, id, peer);
      peers := peers[id := peer];
      RecountPeerTrackerInfo();
    }

    /** No recount: protection does not show in the statistics. */
    method Protect(id: PeerId, tag: nat, now: Time) returns (changed: bool)
      requires Valid()
      modifies this
      ensures Valid() && changed == (id !in old(peers) || old(peers)[id].protected == {})
      ensures var peer := if id in old(peers) then old(peers)[id] else NewPeer(now);
              peers == old(peers)[id := peer.(protected := peer.protected + {tag})]
    {
      hide Recount;
      var peer := GetOrNew(peers, id, now);
      changed := !peer.IsProtected();
      var after := peer.(protected := peer.protected + {tag});
      SameStatistics(peers, id, after);
      if tag in peer.protected {
        SameHolders(peers, id, after);
      } else {
        GainTag(peers, protectCounter, id, after, tag);
        protectCounter := protectCounter[tag := Counter(protectCounter, tag) + 1];
      }
      peers := peers[id := after];
    }

    /** The counter of a tag that a peer holds exists and is positive: the source's `expect` never fails. */
    method Unprotect(id: PeerId, tag: nat) returns (changed: bool)
      requires Valid()
      modifies this
      ensures Valid()
      ensures changed == (id in old(peers) && old(peers)[id].protected == {tag})
      ensures peers == if id in old(peers)
                       then old(peers)[id := old(peers)[id].(protected := old(peers)[id].protected - {tag})] else old(peers)
    {
      hide Recount;
      if id !in peers { return false; }
      var peer := peers[id];
      var after := peer.(protected := peer.protected - {tag});
      SameStatistics(peers, id, after);
      if tag in peer.protected {
        LoseTag(peers, protectCounter, id, after, tag);
        assert tag in protectCounter;
        protectCounter := protectCounter[tag := protectCounter[tag] - 1];
      } else {
        SameHolders(peers, id, after);
      }
      peers := peers[id := after];
      changed := peer.IsProtected() && !after.IsProtected();
    }

    method ProtectedLen(tag: nat) returns (n: nat)
      requires Valid()
      ensures n == |set p | p in peers && tag in peers[p].protected|
    {
      n := Counter(protectCounter, tag);
      assert Holders(peers, tag) == set p | p in peers && tag in peers[p].protected;
    }

    /** Recounts only for the first connection. */
    method AddConnection(id: PeerId, connection: ConnectionId, now: Time)
      requires Valid()
      modifies this
      ensures Valid()
      ensures var peer := if id in old(peers) then old(peers)[id] else NewPeer(now);
              peers == old(peers)[id := peer.(connections := peer.connections[connection := None],
                                              disconnectedAt := if peer.connections == map[] then None else peer.disconnectedAt)]
    {
      var peer := GetOrNew(peers, id, now);
      var after := peer.(connections := peer.connections[connection := None]);
      assert connection in after.connections;
      if !peer.IsConnected() {
        after := after.(disconnectedAt := None);
        SameHolders(peers, id, after);
        peers := peers[id := after];
        RecountPeerTrackerInfo();
      } else {
        SameStatistics(peers, id, after);
        SameHolders(peers, id, after);
        peers := peers[id := after];
      }
    }

    /** Recounts only when no connection is left. */
    method RemoveConnection(id: PeerId, connection: ConnectionId, now: Time)
      requires Valid()
      modifies this
      ensures Valid()
      ensures id !in old(peers) ==> peers == old(peers)
      ensures id in old(peers) ==>
                var peer := old(peers)[id].(connections := old(peers)[id].connections - {connection});
                peers == old(peers)[id := if peer.connections != map[] then peer
                                          else peer.(nodeKind := Unknown, archival := false, disconnectedAt := Some(now))]
    {
      if id !in peers { return; }
      var peer := peers[id];
      var after := peer.(connections := peer.connections - {connection});
      if !after.IsConnected() {
        after := after.(nodeKind := Unknown, archival := false, disconnectedAt := Some(now));
        SameHolders(peers, id, after);
        peers := peers[id := after];
        RecountPeerTrackerInfo();
      } else {
        SameStatistics(peers, id, after);
        SameHolders(peers, id, after);
        peers := peers[id := after];
      }
    }

    method OnAgentVersion(id: PeerId, agent: string)
      requires Valid()
      modifies this
      ensures Valid()
      ensures peers == if id in old(peers) && old(peers)[id].connections != map[]
                       then old(peers)[id := old(peers)[id].(nodeKind := FromAgentVersion(agent))] else old(peers)
    {
      if id in peers && peers[id].IsConnected() {
        SameHolders(peers, id, peers[id].(nodeKind := FromAgentVersion(agent)));
        peers := peers[id := peers[id].(nodeKind := FromAgentVersion(agent))];
        RecountPeerTrackerInfo();
      }
    }

    method OnPingEvent(id: PeerId, connection: ConnectionId, ping: Option<Time>)
      requires Valid()
      modifies this
      ensures Valid()
      ensures peers == if id in old(peers) && connection in old(peers)[id].connections
                       then old(peers)[id := old(peers)[id].(connections := old(peers)[id].connections[connection := ping])]
                       else old(peers)
    {
      if id in peers && connection in peers[id].connections {
        var after := peers[id].(connections := peers[id].connections[connection := ping]);
        assert connection in after.connections;
        SameStatistics(peers, id, after);
        SameHolders(peers, id, after);
        peers := peers[id := after];
      }
    }

    method MarkAsArchival(id: PeerId, now: Time)
      requires Valid()
      modifies this
      ensures Valid() && peers == old(peers)[id := (if id in old(peers) then old(peers)[id] else NewPeer(now)).(archival := true)]
    {
      var peer := GetOrNew(peers, id, now).(archival := true);
      SameHolders(peers, id, peer);
      peers := peers[id := peer];
      RecountPeerTrackerInfo();
    }

    /** No recount: connected and protected peers are never dropped. */
    method Gc(now: Time)
      requires Valid()
      modifies this
      ensures Valid() && info == old(info)
      ensures forall p :: p in peers <==>
                && p in old(peers)
                && (|| old(peers)[p].connections != map[] || old(peers)[p].protected != {}
                    || old(peers)[p].disconnectedAt.None? || now - old(peers)[p].disconnectedAt.value <= 120)
      ensures forall p :: p in peers ==> peers[p] == old(peers)[p]
    {
      var kept := map p | p in peers && IsKept(peers[p], now) :: peers[p];
      assert forall s :: Those(kept, s) == Those(peers, s);
      assert forall tag :: Holders(kept, tag) == Holders(peers, tag);
      peers := kept;
    }
  }

  predicate IsKept(peer: Peer, now: Time) {
    peer.IsConnected() || peer.IsProtected() ||
    peer.disconnectedAt.None? || now - peer.disconnectedAt.value <= EXPIRED_AFTER
  }

  lemma CountOneMore(seen: map<PeerId, Peer>, id: PeerId, peer: Peer)
    requires id !in seen
    ensures forall s :: |Those(seen[id := peer], s)| == |Those(seen, s)| + (if Counts(peer, s) then 1 else 0)
  {
    hide Counts;
    forall s: Statistic
      ensures |Those(seen[id := peer], s)| == |Those(seen, s)| + (if Counts(peer, s) then 1 else 0)
    {
      if Counts(peer, s) {
        assert Those(seen[id := peer], s) == Those(seen, s) + {id};
      } else {
        assert Those(seen[id := peer], s) == Those(seen, s);
      }
    }
  }

  lemma HoldersAfter(peers: map<PeerId, Peer>, id: PeerId, after: Peer, tag: nat)
    ensures id in Holders(peers, tag) <==> id in peers && tag in peers[id].protected
    ensures Holders(peers[id := after], tag) ==
            if tag in after.protected then Holders(peers, tag) + {id} else Holders(peers, tag) - {id}
  {}

  lemma OtherTag(holders: set<PeerId>, id: PeerId)
    ensures id in holders ==> holders + {id} == holders
    ensures id !in holders ==> holders - {id} == holders
  {}

  /** Gaining a tag is one more holder of that tag and of no other. */
  lemma GainTag(peers: map<PeerId, Peer>, counters: map<nat, nat>, id: PeerId, after: Peer, tag: nat)
    requires Counted(peers, counters)
    requires var before := if id in peers then peers[id].protected else {};
             tag !in before && after.protected == before + {tag}
    ensures Counted(peers[id := after], counters[tag := Counter(counters, tag) + 1])
  {
    hide Holders;
    var peers', counters' := peers[id := after], counters[tag := Counter(counters, tag) + 1];
    forall t
      ensures Counter(counters', t) == |Holders(peers', t)|
    {
      HoldersAfter(peers, id, after, t);
      assert Counter(counters, t) == |Holders(peers, t)|;
      if t != tag {
        OtherTag(Holders(peers, t), id);
      }
    }
  }

  /** Losing a tag is one holder less of that tag and of no other. */
  lemma LoseTag(peers: map<PeerId, Peer>, counters: map<nat, nat>, id: PeerId, after: Peer, tag: nat)
    requires Counted(peers, counters) && id in peers && tag in peers[id].protected
    requires after.protected == peers[id].protected - {tag}
    ensures 0 < Counter(counters, tag)
    ensures Counted(peers[id := after], counters[tag := Counter(counters, tag) - 1])
  {
    hide Holders;
    HoldersAfter(peers, id, after, tag);
    assert Counter(counters, tag) == |Holders(peers, tag)|;
    var peers', counters' := peers[id := after], counters[tag := Counter(counters, tag) - 1];
    forall t
      ensures Counter(counters', t) == |Holders(peers', t)|
    {
      HoldersAfter(peers, id, after, t);
      assert Counter(counters, t) == |Holders(peers, t)|;
      if t != tag {
        OtherTag(Holders(peers, t), id);
      }
    }
  }
}
