/** P2PNetClass.cs: the session layer. A host accepts joiners, tells each newcomer who is
    already in the game and tells everyone about the newcomer; a joiner learns the game from
    the host and completes handshakes with the other peers. Handlers never touch `peers` or
    `pendingPeers` directly: they stage peers in `peersToAdd` / `pendingPeersToRemove`, and
    `PollMessages` commits the staging at the end.

    Sockets are not modelled: a send is an entry appended to `outbox`, received messages are
    given to `PollMessages` as arguments, and payloads written with `BinaryWriter` are kept as
    structured `Payload` values. Event callbacks are recorded in the ghost log `events`. */
module Session {
  import opened Wire
  import opened Message
  import opened Peers

  /** What `SendServerInformation` and `OnConnectionRequest` write per peer: the address,
      the listening port and the name. */
  datatype PeerInfo = PeerInfo(address: seq<byte>, port: int, name: string)

  /** The payloads the session exchanges, by notice. */
  datatype Payload =
    | JoinRequest(port: int, username: string)                              // ClientJoinRequest
    | GameInformation(hostName: string, peerCount: int, records: seq<PeerInfo>) // ServerGameInformation
    | PlayerJoinedInfo(info: PeerInfo)                                       // ServerPlayerJoined
    | PeerConnectName(username: string)                                      // PeerConnect
    | Bytes(data: seq<byte>)                                                 // raw bytes, e.g. ServerStartGame

  /** A received message: its notice code and its payload. */
  datatype Incoming = Incoming(messageType: int, payload: Payload)

  /** One `peer.SendData(type, bytes)`. */
  datatype Send = Send(to: Peer, messageType: int, payload: Payload)

  /** The four C# events, as fired. */
  datatype NetEvent =
    | PlayerJoinedEvent(username: string)
    | JoinedGameEvent(otherPeers: seq<Peer>)
    | PeerConnectedEvent(peer: Peer)
    | GameStartedEvent(seed: i32)

  /** The lists the handlers stage into and `PollMessages` commits. */
  datatype Lists = Lists(peers: seq<Peer>, pending: seq<Peer>, toRemove: seq<Peer>, toAdd: seq<Peer>, expected: seq<string>)

  /** The peers of `ps` whose `isLoggedIn` is set, in list order (what the `foreach ... if
      (peer.isLoggedIn)` loops visit). */
  function LoggedIn(ps: seq<Peer>): (r: seq<Peer>)
    reads ps
    ensures |r| <= |ps|
    decreases |ps|
  {
    if ps == [] then []
    else LoggedIn(ps[..|ps| - 1]) + (if ps[|ps| - 1].isLoggedIn then [ps[|ps| - 1]] else [])
  }

  /** One more element of the list adds at most one peer to the filter. */
  lemma LoggedInSnoc(ps: seq<Peer>, i: int)
    requires 0 <= i < |ps|
    ensures LoggedIn(ps[..i + 1]) == LoggedIn(ps[..i]) + (if ps[i].isLoggedIn then [ps[i]] else [])
  {
    assert ps[..i + 1][..i] == ps[..i];
  }

  /** The filter keeps exactly the logged-in peers of the list. */
  lemma {:induction false} LoggedInMembers(ps: seq<Peer>)
    ensures forall i :: 0 <= i < |LoggedIn(ps)| ==> LoggedIn(ps)[i] in ps && LoggedIn(ps)[i].isLoggedIn
    ensures forall i :: 0 <= i < |ps| && ps[i].isLoggedIn ==> ps[i] in LoggedIn(ps)
    decreases |ps|
  {
    if ps != [] {
      var init := ps[..|ps| - 1];
      LoggedInMembers(init);
      assert ps == init + [ps[|ps| - 1]];
      forall i | 0 <= i < |ps| - 1 && ps[i].isLoggedIn
        ensures ps[i] in LoggedIn(ps)
      {
        assert ps[i] == init[i];
      }
    }
  }

  /** `ps.Count(p => p.isLoggedIn)`. */
  function CountLoggedIn(ps: seq<Peer>): (n: nat)
    reads ps
    ensures n == |LoggedIn(ps)|
    decreases |ps|
  {
    if ps == [] then 0
    else CountLoggedIn(ps[..|ps| - 1]) + (if ps[|ps| - 1].isLoggedIn then 1 else 0)
  }

  /** No logged-in peer lacks a name; `BinaryWriter.Write(null)` would throw otherwise. */
  predicate LoggedInNamed(ps: seq<Peer>)
    reads ps
  {
    forall i :: 0 <= i < |ps| && ps[i].isLoggedIn ==> ps[i].name.Some?
  }

  function Info(p: Peer): PeerInfo
    reads p
    requires p.name.Some?
  {
    PeerInfo(p.ip.address, p.listenPort, p.name.value)
  }

  predicate Named(ps: seq<Peer>)
    reads ps
  {
    forall i :: 0 <= i < |ps| ==> ps[i].name.Some?
  }

  /** The records of `ps`, one per peer, in order. */
  function Infos(ps: seq<Peer>): (r: seq<PeerInfo>)
    reads ps
    requires Named(ps)
    ensures |r| == |ps|
    ensures forall i :: 0 <= i < |ps| ==> r[i] == Info(ps[i])
    decreases |ps|
  {
    if ps == [] then [] else Infos(ps[..|ps| - 1]) + [Info(ps[|ps| - 1])]
  }

  /** What one `foreach ... if (peer.isLoggedIn) { Write(address); Write(listenPort);
      Write(name); }` writes: a record per logged-in peer. */
  function LoggedInRecords(ps: seq<Peer>): (r: seq<PeerInfo>)
    reads ps
    requires LoggedInNamed(ps)
    decreases |ps|
  {
    if ps == [] then []
    else
      var init := ps[..|ps| - 1];
      assert LoggedInNamed(init) by {
        forall i | 0 <= i < |init| && init[i].isLoggedIn
          ensures init[i].name.Some?
        {
          assert init[i] == ps[i];
        }
      }
      LoggedInRecords(init) + (if ps[|ps| - 1].isLoggedIn then [Info(ps[|ps| - 1])] else [])
  }

  /** The records written are those of the logged-in peers, in list order: every peer the
      filter keeps has a name, and record `i` describes the `i`-th of them. */
  lemma {:induction false} LoggedInRecordsAreInfos(ps: seq<Peer>)
    requires LoggedInNamed(ps)
    ensures Named(LoggedIn(ps)) && LoggedInRecords(ps) == Infos(LoggedIn(ps))
    decreases |ps|
  {
    if ps != [] {
      var init := ps[..|ps| - 1];
      assert LoggedInNamed(init) by {
        forall i | 0 <= i < |init| && init[i].isLoggedIn
          ensures init[i].name.Some?
        {
          assert init[i] == ps[i];
        }
      }
      LoggedInRecordsAreInfos(init);
      var last := ps[|ps| - 1];
      if last.isLoggedIn {
        assert (LoggedIn(init) + [last])[..|LoggedIn(init)|] == LoggedIn(init);
      } else {
        assert LoggedIn(ps) == LoggedIn(init) + [];
      }
    }
  }

  /** The `ServerGameInformation` payload the host `host` sends when its lists are `ps`
      (`peers`) and `qs` (`peersToAdd`): the host name, the number of logged-in peers, then
      their records, those of `ps` first. The count is stated as the number of records;
      `ServerInformation` computes it by counting flags, as the source does. */
  function InformationOf(host: string, ps: seq<Peer>, qs: seq<Peer>): (r: Payload)
    reads ps, qs
    requires LoggedInNamed(ps) && LoggedInNamed(qs)
  {
    var records := LoggedInRecords(ps) + LoggedInRecords(qs);
    GameInformation(host, |records|, records)
  }

  /** The game information describes exactly the logged-in peers of both lists, in order:
      its count is how many there are, and its records are theirs. */
  lemma InformationDescribesLoggedIn(host: string, ps: seq<Peer>, qs: seq<Peer>)
    requires LoggedInNamed(ps) && LoggedInNamed(qs)
    ensures Named(LoggedIn(ps)) && Named(LoggedIn(qs))
    ensures InformationOf(host, ps, qs) ==
      GameInformation(host, |LoggedIn(ps)| + |LoggedIn(qs)|, Infos(LoggedIn(ps)) + Infos(LoggedIn(qs)))
  {
    LoggedInRecordsAreInfos(ps);
    LoggedInRecordsAreInfos(qs);
  }

  /** One record per logged-in peer: counting the flags gives the number of records. */
  lemma {:induction false} RecordsCounted(ps: seq<Peer>)
    requires LoggedInNamed(ps)
    ensures |LoggedInRecords(ps)| == CountLoggedIn(ps)
    decreases |ps|
  {
    if ps != [] {
      var init := ps[..|ps| - 1];
      assert LoggedInNamed(init) by {
        forall i | 0 <= i < |init| && init[i].isLoggedIn
          ensures init[i].name.Some?
        {
          assert init[i] == ps[i];
        }
      }
      RecordsCounted(init);
    }
  }

  /** One send of `payload` with notice `t` to each peer of `ps`, in order. */
  function SendAll(ps: seq<Peer>, t: int, payload: Payload): seq<Send>
  {
    seq(|ps|, i requires 0 <= i < |ps| => Send(ps[i], t, payload))
  }

  lemma SendAllAppend(a: seq<Peer>, b: seq<Peer>, t: int, payload: Payload)
    ensures SendAll(a + b, t, payload) == SendAll(a, t, payload) + SendAll(b, t, payload)
  {
  }

  /** The filter depends on the `isLoggedIn` flags only. */
  twostate lemma {:induction false} LoggedInSame(ps: seq<Peer>)
    requires forall i :: 0 <= i < |ps| ==> old(ps[i].isLoggedIn) == ps[i].isLoggedIn
    ensures old(LoggedIn(ps)) == LoggedIn(ps)
    decreases |ps|
  {
    if ps != [] {
      LoggedInSame(ps[..|ps| - 1]);
    }
  }

  /** The records depend on the flags, and on the address, port and name of
      the logged-in peers only. */
  twostate lemma {:induction false} LoggedInRecordsSame(ps: seq<Peer>)
    requires old(LoggedInNamed(ps))
    requires forall i :: 0 <= i < |ps| ==> old(ps[i].isLoggedIn) == ps[i].isLoggedIn
    requires forall i :: 0 <= i < |ps| && ps[i].isLoggedIn ==>
      old(ps[i].name) == ps[i].name && old(ps[i].ip) == ps[i].ip && old(ps[i].listenPort) == ps[i].listenPort
    ensures LoggedInNamed(ps)
    ensures old(LoggedInRecords(ps)) == LoggedInRecords(ps)
    decreases |ps|
  {
    LoggedInSame(ps);
    if ps != [] {
      var init := ps[..|ps| - 1];
      assert old(LoggedInNamed(init)) by {
        forall i | 0 <= i < |init| && old(init[i].isLoggedIn)
          ensures old(init[i].name.Some?)
        {
          assert init[i] == ps[i];
        }
      }
      LoggedInRecordsSame(init);
    }
  }

  /** `List<Peer>.Contains(p)`: some element `Equals` `p`, that is, has its player number. */
  predicate ContainsEqual(staged: seq<Peer>, p: Peer)
    reads staged, p
  {
    exists i :: 0 <= i < |staged| && staged[i].Equals(p)
  }

  /** `pendingPeers.RemoveAll(p => pendingPeersToRemove.Contains(p))`. */
  function RemoveMatching(ps: seq<Peer>, staged: seq<Peer>): (r: seq<Peer>)
    reads ps, staged
    ensures forall i :: 0 <= i < |r| ==> r[i] in ps && !ContainsEqual(staged, r[i])
    ensures forall i :: 0 <= i < |ps| && !ContainsEqual(staged, ps[i]) ==> ps[i] in r
    ensures IsSubsequence(r, ps)
    decreases |ps|
  {
    if ps == [] then []
    else
      var rest := RemoveMatching(ps[1..], staged);
      if ContainsEqual(staged, ps[0]) then rest else [ps[0]] + rest
  }

  /** Every staged peer is gone from the pending list after the commit. */
  lemma StagedPeersRemoved(ps: seq<Peer>, staged: seq<Peer>, q: Peer)
    requires q in staged
    ensures q !in RemoveMatching(ps, staged)
  {
    var i :| 0 <= i < |staged| && staged[i] == q;
    assert staged[i].Equals(q);
  }

  /** Because `Contains` compares player numbers, a pending peer that was never staged is removed
      too when it shares its player number with a staged one. */
  lemma SamePlayerNumberRemoved(ps: seq<Peer>, staged: seq<Peer>, q: Peer, p: Peer)
    requires q in staged && p in ps && p.playerNumber == q.playerNumber
    ensures p !in RemoveMatching(ps, staged)
  {
    var i :| 0 <= i < |staged| && staged[i] == q;
    assert staged[i].Equals(p);
  }

  /** Index of the first element `Equals` to `peer` (`|ps|` when none): what `List.Remove` finds. */
  function FirstEqualIndex(ps: seq<Peer>, peer: Peer): (i: nat)
    reads ps, peer
    ensures i <= |ps|
    ensures i < |ps| ==> ps[i].Equals(peer)
    ensures forall j :: 0 <= j < i ==> !ps[j].Equals(peer)
    decreases |ps|
  {
    if ps == [] then 0
    else if ps[0].Equals(peer) then 0
    else 1 + FirstEqualIndex(ps[1..], peer)
  }

  /** Index of the first peer named `name` (`|ps|` when none). */
  function FirstNamedIndex(ps: seq<Peer>, name: string): (i: nat)
    reads ps
    ensures i <= |ps|
    ensures i < |ps| ==> ps[i].name == Some(name)
    ensures forall j :: 0 <= j < i ==> ps[j].name != Some(name)
    decreases |ps|
  {
    if ps == [] then 0
    else if ps[0].name == Some(name) then 0
    else 1 + FirstNamedIndex(ps[1..], name)
  }

  /** Index of the first peer at endpoint `ip` (`|ps|` when none). */
  function FirstAtIndex(ps: seq<Peer>, ip: Endpoint): (i: nat)
    reads ps
    ensures i <= |ps|
    ensures i < |ps| ==> ps[i].ip == ip
    ensures forall j :: 0 <= j < i ==> ps[j].ip != ip
    decreases |ps|
  {
    if ps == [] then 0
    else if ps[0].ip == ip then 0
    else 1 + FirstAtIndex(ps[1..], ip)
  }

  /** Index of the first occurrence of `x` (`|s|` when none). */
  function FirstIndexOf<T(==)>(s: seq<T>, x: T): (i: nat)
    ensures i <= |s|
    ensures i < |s| <==> x in s
    ensures i < |s| ==> s[i] == x
    ensures forall j :: 0 <= j < i ==> s[j] != x
    decreases |s|
  {
    if s == [] then 0
    else if s[0] == x then 0
    else 1 + FirstIndexOf(s[1..], x)
  }

  /** `List<string>.Remove(x)`: the first occurrence goes, nothing else. */
  function RemoveFirst(s: seq<string>, x: string): (r: seq<string>)
    ensures x in s ==> |r| == |s| - 1 && multiset(r) == multiset(s) - multiset{x}
    ensures x !in s ==> r == s
    ensures forall u :: u != x ==> (u in r <==> u in s)
  {
    var i := FirstIndexOf(s, x);
    if i < |s| then
      assert s == s[..i] + [s[i]] + s[i + 1..];
      s[..i] + s[i + 1..]
    else s
  }

  /** Appending one element leaves the first occurrence of every earlier element where it was;
      an element new to the list is found at the end. */
  lemma {:induction false} FirstIndexOfSnoc<T>(s: seq<T>, y: T, x: T)
    ensures FirstIndexOf(s + [y], x) == if x in s then FirstIndexOf(s, x) else if x == y then |s| else |s| + 1
    decreases |s|
  {
    if s != [] {
      assert (s + [y])[1..] == s[1..] + [y];
      FirstIndexOfSnoc(s[1..], y, x);
    }
  }

  /** `peers.Union(peersToAdd)`: first `a` then `b`, each object once, in the order of first
      appearance. The comparer hashes by reference, so only the same object is dropped. */
  function Union(a: seq<Peer>, b: seq<Peer>): (r: seq<Peer>)
    ensures forall i :: 0 <= i < |r| ==> r[i] in a || r[i] in b
    ensures forall i :: 0 <= i < |a| ==> a[i] in r
    ensures forall i :: 0 <= i < |b| ==> b[i] in r
    ensures forall i, j :: 0 <= i < j < |r| ==> r[i] != r[j]
    ensures forall i, j :: 0 <= i < j < |r| ==> FirstIndexOf(a + b, r[i]) < FirstIndexOf(a + b, r[j])
  {
    assert forall i :: 0 <= i < |a| ==> (a + b)[i] == a[i];
    assert forall i :: 0 <= i < |b| ==> (a + b)[|a| + i] == b[i];
    DistinctInOrder(a + b);
    Distinct(a + b)
  }

  /** Each element of `s` once, keeping the first occurrence. */
  function Distinct(s: seq<Peer>): (r: seq<Peer>)
    ensures forall i :: 0 <= i < |r| ==> r[i] in s
    ensures forall i :: 0 <= i < |s| ==> s[i] in r
    ensures forall i, j :: 0 <= i < j < |r| ==> r[i] != r[j]
    decreases |s|
  {
    if s == [] then []
    else
      var d := Distinct(s[..|s| - 1]);
      assert s == s[..|s| - 1] + [s[|s| - 1]];
      if s[|s| - 1] in d then d else d + [s[|s| - 1]]
  }

  /** `Distinct` lists the elements in the order in which they first appear in `s`. */
  lemma {:induction false} DistinctInOrder(s: seq<Peer>)
    ensures forall i, j :: 0 <= i < j < |Distinct(s)| ==>
      FirstIndexOf(s, Distinct(s)[i]) < FirstIndexOf(s, Distinct(s)[j])
    decreases |s|
  {
    if s != [] {
      var init, last := s[..|s| - 1], s[|s| - 1];
      assert s == init + [last];
      var d := Distinct(init);
      DistinctInOrder(init);
      forall x | x in init
        ensures FirstIndexOf(s, x) == FirstIndexOf(init, x)
      {
        FirstIndexOfSnoc(init, last, x);
      }
      if last !in d {
        FirstIndexOfSnoc(init, last, last);
        assert Distinct(s) == d + [last];
      }
    }
  }

  /** Which pending-peer messages the handlers can decode: a `ClientJoinRequest` seen by the host
      carries a port and a name, a `PeerConnect` seen by a joiner carries a name. A payload of
      the wrong shape makes `BinaryReader` throw, and nothing catches it. */
  predicate PendingDecodes(isHost: bool, m: Incoming)
  {
    && (isHost && m.messageType == ClientJoinRequest ==> m.payload.JoinRequest?)
    && (!isHost && m.messageType == PeerConnect ==> m.payload.PeerConnectName?)
  }

  /** Some message of `inbox` is a join request. */
  predicate JoinRequested(inbox: seq<Incoming>)
  {
    inbox != [] && (JoinRequested(inbox[..|inbox| - 1]) || inbox[|inbox| - 1].messageType == ClientJoinRequest)
  }

  /** `m` is a peer handshake carrying the name `u`. */
  predicate ConnectNames(m: Incoming, u: string)
  {
    m.messageType == PeerConnect && m.payload.PeerConnectName? && m.payload.username == u
  }

  /** Some handshake of `inbox` carries the name `u`. */
  predicate Connects(inbox: seq<Incoming>, u: string)
  {
    inbox != [] && (Connects(inbox[..|inbox| - 1], u) || ConnectNames(inbox[|inbox| - 1], u))
  }

  /** Some handshake of `inbox` carries a name listed in `expected` that no earlier handshake
      of `inbox` carried, so the name is still expected when that handshake is read. */
  predicate ConnectsExpected(inbox: seq<Incoming>, expected: seq<string>)
  {
    && inbox != []
    && var last := inbox[|inbox| - 1];
    || ConnectsExpected(inbox[..|inbox| - 1], expected)
    || (&& last.messageType == PeerConnect && last.payload.PeerConnectName?
        && last.payload.username in expected && !Connects(inbox[..|inbox| - 1], last.payload.username))
  }

  /** Some handshake in one of `inboxes` carries the name `u`. */
  predicate ConnectsIn(inboxes: seq<seq<Incoming>>, u: string)
  {
    inboxes != [] && (ConnectsIn(inboxes[..|inboxes| - 1], u) || Connects(inboxes[|inboxes| - 1], u))
  }

  /** The names of `expected` that no handshake of `inboxes` carries. */
  function StillExpected(expected: seq<string>, inboxes: seq<seq<Incoming>>): (r: seq<string>)
    ensures forall u :: u in r <==> u in expected && !ConnectsIn(inboxes, u)
  {
    if expected == [] then []
    else (if ConnectsIn(inboxes, expected[0]) then [] else [expected[0]]) + StillExpected(expected[1..], inboxes)
  }

  /** A handshake that finds its name expected still finds it in any list holding more names. */
  lemma {:induction false} ConnectsExpectedMonotone(inbox: seq<Incoming>, e: seq<string>, f: seq<string>)
    requires forall u :: u in e ==> u in f
    requires ConnectsExpected(inbox, e)
    ensures ConnectsExpected(inbox, f)
    decreases |inbox|
  {
    if ConnectsExpected(inbox[..|inbox| - 1], e) {
      ConnectsExpectedMonotone(inbox[..|inbox| - 1], e, f);
    }
  }

  /** The number of messages in all of `inboxes`. */
  function MessageCount(inboxes: seq<seq<Incoming>>): nat
  {
    if inboxes == [] then 0 else MessageCount(inboxes[..|inboxes| - 1]) + |inboxes[|inboxes| - 1]|
  }

  /** Reading one more pending peer's messages extends the handshakes and the messages read. */
  lemma PendingInboxSnoc(inboxes: seq<seq<Incoming>>, k: int)
    requires 0 <= k < |inboxes|
    ensures forall u :: ConnectsIn(inboxes[..k + 1], u) <==> ConnectsIn(inboxes[..k], u) || Connects(inboxes[k], u)
    ensures MessageCount(inboxes[..k + 1]) == MessageCount(inboxes[..k]) + |inboxes[k]|
  {
    assert inboxes[..k + 1][..k] == inboxes[..k];
  }

  /** The records a game-information notice lists: the first `peerCount` (none for a negative
      count). */
  function ListedRecords(m: Incoming): seq<PeerInfo>
  {
    if m.messageType == ServerGameInformation && m.payload.GameInformation? && m.payload.peerCount <= |m.payload.records|
    then m.payload.records[..if m.payload.peerCount < 0 then 0 else m.payload.peerCount]
    else []
  }

  /** The records the game-information notices of `inbox` list, in order. */
  function AllListed(inbox: seq<Incoming>): seq<PeerInfo>
  {
    if inbox == [] then [] else AllListed(inbox[..|inbox| - 1]) + ListedRecords(inbox[|inbox| - 1])
  }

  /** The number of player-joined notices in `inbox`. */
  function JoinNotices(inbox: seq<Incoming>): nat
  {
    if inbox == [] then 0 else JoinNotices(inbox[..|inbox| - 1]) + JoinNotice(inbox[|inbox| - 1])
  }

  /** One for a player-joined notice, which may stage one more peer. */
  function JoinNotice(m: Incoming): nat
  {
    if m.messageType == ServerPlayerJoined then 1 else 0
  }

  /** Reading one more server message extends what the earlier ones listed and announced. */
  lemma ServerInboxSnoc(inbox: seq<Incoming>, j: int)
    requires 0 <= j < |inbox|
    ensures AllListed(inbox[..j + 1]) == AllListed(inbox[..j]) + ListedRecords(inbox[j])
    ensures JoinNotices(inbox[..j + 1]) == JoinNotices(inbox[..j]) + JoinNotice(inbox[j])
  {
    assert inbox[..j + 1][..j] == inbox[..j];
  }

  /** `p` is the peer the record describes, logged in and connected. */
  predicate Describes(p: Peer, r: PeerInfo)
    reads p
  {
    0 <= r.port < 0x1_0000 && p.ip == Endpoint(r.address, r.port) && p.name == Some(r.name) && p.isLoggedIn && p.isConnected
  }

  /** Which server messages a joiner can decode: the game information holds at least as many
      records as its count says, each with a valid port (`IPEndPoint` throws otherwise), and
      the start-game payload holds the 4-byte seed. */
  predicate ServerDecodes(m: Incoming)
  {
    && (m.messageType == ServerGameInformation ==>
          m.payload.GameInformation? && m.payload.peerCount <= |m.payload.records| &&
          forall i :: 0 <= i < m.payload.peerCount ==> 0 <= m.payload.records[i].port < 0x1_0000)
    && (m.messageType == ServerPlayerJoined ==> m.payload.PlayerJoinedInfo?)
    && (m.messageType == ServerStartGame ==> m.payload.Bytes? && 4 <= |m.payload.data|)
  }

  /** The sends of one `foreach (peer in ps) if (peer.isLoggedIn) peer.SendData(t, payload)`. */
  method LoggedInSends(ps: seq<Peer>, t: int, payload: Payload) returns (sent: seq<Send>)
    ensures sent == SendAll(LoggedIn(ps), t, payload)
  {
    sent := [];
    var i := 0;
    while i < |ps|
      invariant 0 <= i <= |ps|
      invariant sent == SendAll(LoggedIn(ps[..i]), t, payload)
    {
      LoggedInSnoc(ps, i);
      SendAllAppend(LoggedIn(ps[..i]), if ps[i].isLoggedIn then [ps[i]] else [], t, payload);
      if ps[i].isLoggedIn {
        sent := sent + [Send(ps[i], t, payload)];
      }
      i := i + 1;
    }
    assert ps[..i] == ps;
  }

  /** One `foreach` of `SendServerInformation`: a record per logged-in peer, in list order. */
  method Records(ps: seq<Peer>) returns (records: seq<PeerInfo>)
    requires LoggedInNamed(ps)
    ensures records == LoggedInRecords(ps)
  {
    records := [];
    var i := 0;
    while i < |ps|
      invariant 0 <= i <= |ps|
      invariant LoggedInNamed(ps[..i]) && records == LoggedInRecords(ps[..i])
    {
      assert ps[..i + 1][..i] == ps[..i];
      if ps[i].isLoggedIn {
        records := records + [Info(ps[i])];
      }
      i := i + 1;
    }
    assert ps[..i] == ps;
  }

  /** The payload `SendServerInformation` writes for the host `host` and the lists `ps`
      (`peers`) and `qs` (`peersToAdd`). */
  method ServerInformation(host: string, ps: seq<Peer>, qs: seq<Peer>) returns (information: Payload)
    requires LoggedInNamed(ps) && LoggedInNamed(qs)
    ensures information == InformationOf(host, ps, qs)
  {
    var peerCount := CountLoggedIn(ps) + CountLoggedIn(qs);
    var records := Records(ps);
    var more := Records(qs);
    RecordsCounted(ps);
    RecordsCounted(qs);
    information := GameInformation(host, peerCount, records + more);
  }

  /** The loop of `OnServerInformationReceived`: for each of the first `count` records, a new
      peer at the record's address and port, named by it, sent `user` in a `PeerConnect`, then
      marked logged in and connected. A negative count runs no iteration. */
  method ConnectToListed(records: seq<PeerInfo>, count: int, user: string) returns (added: seq<Peer>, sent: seq<Send>)
    requires count <= |records|
    requires forall i :: 0 <= i < count ==> 0 <= records[i].port < 0x1_0000
    ensures |added| == if count < 0 then 0 else count
    ensures forall i :: 0 <= i < |added| ==>
      fresh(added[i]) && added[i].ip == Endpoint(records[i].address, records[i].port) &&
      added[i].name == Some(records[i].name) && added[i].isLoggedIn && added[i].isConnected
    ensures forall i, j :: 0 <= i < j < |added| ==> added[i] != added[j]
    ensures sent == SendAll(added, PeerConnect, PeerConnectName(user))
  {
    added, sent := [], [];
    var n := if count < 0 then 0 else count;
    var i := 0;
    while i < n
      invariant 0 <= i <= n && |added| == i
      invariant forall k :: 0 <= k < i ==>
        fresh(added[k]) && added[k].ip == Endpoint(records[k].address, records[k].port) &&
        added[k].name == Some(records[k].name) && added[k].isLoggedIn && added[k].isConnected
      invariant forall k, l :: 0 <= k < l < |added| ==> added[k] != added[l]
      invariant sent == SendAll(added, PeerConnect, PeerConnectName(user))
    {
      var peer := new Peer(Endpoint(records[i].address, records[i].port));
      peer.name := Some(records[i].name);
      sent := sent + [Send(peer, PeerConnect, PeerConnectName(user))];
      peer.isLoggedIn := true;
      peer.isConnected := true;
      added := added + [peer];
      i := i + 1;
    }
  }

  /** The first block of `OnConnectionRequest`: the peer takes the name and listening port of
      its join request. Which peers of the lists `ps` and `qs` are logged in does not change,
      nor, unless the peer is itself logged in, their records. */
  method Login(connectingPeer: Peer, port: int, username: string, ps: seq<Peer>, qs: seq<Peer>)
    requires LoggedInNamed(ps) && LoggedInNamed(qs)
    modifies connectingPeer
    ensures connectingPeer.name == Some(username) && connectingPeer.listenPort == port
    ensures connectingPeer.ip == old(connectingPeer.ip) && connectingPeer.isLoggedIn == old(connectingPeer.isLoggedIn)
    ensures connectingPeer.isConnected == old(connectingPeer.isConnected)
    ensures connectingPeer.playerNumber == old(connectingPeer.playerNumber)
    ensures LoggedInNamed(ps) && LoggedInNamed(qs)
    ensures LoggedIn(ps) == old(LoggedIn(ps)) && LoggedIn(qs) == old(LoggedIn(qs))
    ensures !connectingPeer.isLoggedIn ==>
      LoggedInRecords(ps) == old(LoggedInRecords(ps)) && LoggedInRecords(qs) == old(LoggedInRecords(qs))
  {
    connectingPeer.name := Some(username);
    connectingPeer.listenPort := port;
    LoggedInSame(ps);
    LoggedInSame(qs);
    if !connectingPeer.isLoggedIn {
      LoggedInRecordsSame(ps);
      LoggedInRecordsSame(qs);
    }
  }

  /** `connectingPeer.isLoggedIn = true`. For a peer already logged in, the records of the
      lists `ps` and `qs` do not change. */
  method Promote(connectingPeer: Peer, ps: seq<Peer>, qs: seq<Peer>)
    requires LoggedInNamed(ps) && LoggedInNamed(qs) && connectingPeer.name.Some?
    modifies connectingPeer
    ensures connectingPeer.isLoggedIn
    ensures connectingPeer.name == old(connectingPeer.name) && connectingPeer.listenPort == old(connectingPeer.listenPort)
    ensures connectingPeer.ip == old(connectingPeer.ip) && connectingPeer.isConnected == old(connectingPeer.isConnected)
    ensures connectingPeer.playerNumber == old(connectingPeer.playerNumber)
    ensures LoggedInNamed(ps) && LoggedInNamed(qs)
    ensures old(connectingPeer.isLoggedIn) ==>
      LoggedInRecords(ps) == old(LoggedInRecords(ps)) && LoggedInRecords(qs) == old(LoggedInRecords(qs))
  {
    connectingPeer.isLoggedIn := true;
    if old(connectingPeer.isLoggedIn) {
      LoggedInRecordsSame(ps);
      LoggedInRecordsSame(qs);
    }
  }

  /** The sends of `OnConnectionRequest`, once the connecting peer has its name and port:
      its record to every logged-in peer of `ps` (`peers`) and `qs` (`peersToAdd`), then the
      game information of host `host` to it. */
  method Announce(connectingPeer: Peer, host: string, ps: seq<Peer>, qs: seq<Peer>) returns (sends: seq<Send>)
    requires connectingPeer.name.Some? && LoggedInNamed(ps) && LoggedInNamed(qs)
    ensures sends == SendAll(LoggedIn(ps) + LoggedIn(qs), ServerPlayerJoined, PlayerJoinedInfo(Info(connectingPeer)))
      + [Send(connectingPeer, ServerGameInformation, InformationOf(host, ps, qs))]
  {
    var info := PeerInfo(connectingPeer.ip.address, connectingPeer.listenPort, connectingPeer.name.value);
    var joinedA := LoggedInSends(ps, ServerPlayerJoined, PlayerJoinedInfo(info));
    var joinedB := LoggedInSends(qs, ServerPlayerJoined, PlayerJoinedInfo(info));
    var information := ServerInformation(host, ps, qs);
    SendAllAppend(LoggedIn(ps), LoggedIn(qs), ServerPlayerJoined, PlayerJoinedInfo(info));
    sends := joinedA + joinedB + [Send(connectingPeer, ServerGameInformation, information)];
  }

  /** What `OnConnectionRequest` does to the connecting peer and sends, given the host name
      `host` and the lists `ps` (`peers`) and `qs` (`peersToAdd`): the peer takes its name and
      port, every logged-in peer hears its record, it receives the game information, and it is
      marked logged in. The information describes the lists as they were, except that a peer
      already logged in (a second join request in the same poll) is described with its new
      name and port. */
  method Welcome(connectingPeer: Peer, port: int, username: string, host: string, ps: seq<Peer>, qs: seq<Peer>)
    returns (sends: seq<Send>)
    requires LoggedInNamed(ps) && LoggedInNamed(qs)
    modifies connectingPeer
    ensures connectingPeer.name == Some(username) && connectingPeer.listenPort == port && connectingPeer.isLoggedIn
    ensures connectingPeer.ip == old(connectingPeer.ip) && connectingPeer.isConnected == old(connectingPeer.isConnected)
    ensures connectingPeer.playerNumber == old(connectingPeer.playerNumber)
    ensures LoggedInNamed(ps) && LoggedInNamed(qs)
    ensures var joined := SendAll(old(LoggedIn(ps)) + old(LoggedIn(qs)), ServerPlayerJoined,
        PlayerJoinedInfo(PeerInfo(connectingPeer.ip.address, port, username)));
      var information := if old(connectingPeer.isLoggedIn) then InformationOf(host, ps, qs) else old(InformationOf(host, ps, qs));
      sends == joined + [Send(connectingPeer, ServerGameInformation, information)]
    ensures !old(connectingPeer.isLoggedIn) ==> forall k :: 0 <= k < |sends| - 1 ==> sends[k].to != connectingPeer
  {
    ghost var announced := LoggedIn(ps) + LoggedIn(qs);
    LoggedInMembers(ps);
    LoggedInMembers(qs);
    assert forall k :: 0 <= k < |announced| ==> announced[k].isLoggedIn by {
      forall k | 0 <= k < |announced| ensures announced[k].isLoggedIn {
        if k >= |LoggedIn(ps)| {
          assert announced[k] == LoggedIn(qs)[k - |LoggedIn(ps)|];
        }
      }
    }
    Login(connectingPeer, port, username, ps, qs);
    sends := Announce(connectingPeer, host, ps, qs);
    Promote(connectingPeer, ps, qs);
  }

  class P2PNetClass {
    var currentUser: string
    var isServerHost: bool
    var isInGame: bool
    var serverIP: Option<Endpoint>
    var serverPeer: Peer?
    /** The port of the listener; for a joiner, the one the system picked. */
    var localPort: u16

    var peers: seq<Peer>
    var pendingPeers: seq<Peer>
    var pendingPeersToRemove: seq<Peer>
    var peersToAdd: seq<Peer>
    var expectedPeers: seq<string>

    var outbox: seq<Send>
    ghost var events: seq<NetEvent>

    /** A joiner always has its server peer, and every logged-in peer the host may describe
        has a name. */
    ghost predicate Valid()
      reads this, peers, peersToAdd
    {
      && (!isServerHost ==> serverPeer != null)
      && LoggedInNamed(peers) && LoggedInNamed(peersToAdd)
    }

    ghost function Settings(): (string, bool, bool, Option<Endpoint>, Peer?, u16)
      reads this
    {
      (currentUser, isServerHost, isInGame, serverIP, serverPeer, localPort)
    }

    ghost function Staging(): Lists
      reads this
    {
      Lists(peers, pendingPeers, pendingPeersToRemove, peersToAdd, expectedPeers)
    }

    /** `P2PNetClass(port, username)`: a host with every list empty. */
    constructor Host(port: u16, username: string)
      ensures Valid()
      ensures Settings() == (username, true, false, None, null, port)
      ensures Staging() == Lists([], [], [], [], [])
      ensures outbox == [] && events == []
    {
      currentUser := username;
      isServerHost := true;
      isInGame := false;
      serverIP := None;
      serverPeer := null;
      localPort := port;
      peers, pendingPeers, pendingPeersToRemove, peersToAdd, expectedPeers := [], [], [], [], [];
      outbox := [];
      events := [];
    }

    /** `P2PNetClass(ip, port, username)`: a joiner whose only peer is the server, to which
        the join request has been sent. */
    constructor Joiner(address: seq<byte>, port: u16, username: string, listenerPort: u16)
      ensures Valid()
      ensures Settings() == (username, false, false, Some(Endpoint(address, port)), serverPeer, listenerPort)
      ensures serverPeer != null && fresh(serverPeer)
      ensures serverPeer.ip == Endpoint(address, port) && serverPeer.isConnected && !serverPeer.isLoggedIn
      ensures Staging() == Lists([serverPeer], [], [], [], [])
      ensures outbox == [Send(serverPeer, ClientJoinRequest, JoinRequest(listenerPort, username))]
      ensures events == []
    {
      currentUser := username;
      isServerHost := false;
      isInGame := false;
      serverIP := None;
      localPort := listenerPort;
      peers, pendingPeers, pendingPeersToRemove, peersToAdd, expectedPeers := [], [], [], [], [];
      outbox := [];
      events := [];
      serverPeer := null;
      new;
      ConnectToServer(address, port);
    }

    /** `ConnectToServer`: a new connected peer for the server, added to `peers`, and the join
        request (listening port, user name) sent to it. */
    method ConnectToServer(address: seq<byte>, port: u16)
      requires LoggedInNamed(peers) && LoggedInNamed(peersToAdd)
      modifies this
      ensures Valid()
      ensures Settings() == old(Settings()).(3 := serverIP, 4 := serverPeer)
      ensures serverIP == Some(Endpoint(address, port))
      ensures serverPeer != null && fresh(serverPeer)
      ensures serverPeer.ip == Endpoint(address, port) && serverPeer.isConnected && !serverPeer.isLoggedIn
      ensures Staging() == old(Staging()).(peers := old(peers) + [serverPeer])
      ensures outbox == old(outbox) + [Send(serverPeer, ClientJoinRequest, JoinRequest(localPort, currentUser))]
      ensures events == old(events)
    {
      serverIP := Some(Endpoint(address, port));
      var peer := new Peer(Endpoint(address, port));
      serverPeer := peer;
      AddPeer(peer);
      peer.isConnected := true;
      outbox := outbox + [Send(peer, ClientJoinRequest, JoinRequest(localPort, currentUser))];
    }

    /** `ConnectToPeer` as written: a new connected peer is added to `peers`, but the handshake
        carrying the user name goes through `ServerPeer` (on a host, where that is null, the
        call throws). The new peer itself is sent nothing. */
    method ConnectToPeerAsWritten(address: seq<byte>, port: u16) returns (peer: Peer)
      requires Valid() && serverPeer != null
      modifies this
      ensures Valid() && Settings() == old(Settings())
      ensures fresh(peer) && peer.ip == Endpoint(address, port) && peer.isConnected && !peer.isLoggedIn && peer.name == None
      ensures Staging() == old(Staging()).(peers := old(peers) + [peer])
      ensures outbox == old(outbox) + [Send(serverPeer, PeerConnect, PeerConnectName(currentUser))]
      ensures forall k :: |old(outbox)| <= k < |outbox| ==> outbox[k].to != peer
      ensures events == old(events)
    {
      peer := new Peer(Endpoint(address, port));
      AddPeer(peer);
      peer.isConnected := true;
      outbox := outbox + [Send(serverPeer, PeerConnect, PeerConnectName(currentUser))];
    }

    /** `ConnectToPeer` as evidently intended, and as `OnServerInformationReceived` does it for
        each listed peer: the handshake goes to the new peer, on a host as on a joiner. */
    method ConnectToPeer(address: seq<byte>, port: u16) returns (peer: Peer)
      requires Valid()
      modifies this
      ensures Valid() && Settings() == old(Settings())
      ensures fresh(peer) && peer.ip == Endpoint(address, port) && peer.isConnected && !peer.isLoggedIn && peer.name == None
      ensures Staging() == old(Staging()).(peers := old(peers) + [peer])
      ensures outbox == old(outbox) + [Send(peer, PeerConnect, PeerConnectName(currentUser))]
      ensures events == old(events)
    {
      peer := new Peer(Endpoint(address, port));
      AddPeer(peer);
      peer.isConnected := true;
      outbox := outbox + [Send(peer, PeerConnect, PeerConnectName(currentUser))];
    }

    /** The body of the accept loop in `CheckEvents`: a new connection becomes a pending peer,
        connected but not logged in. */
    method AcceptPeer(ip: Endpoint) returns (peer: Peer)
      requires Valid()
      modifies this
      ensures Valid() && Settings() == old(Settings())
      ensures fresh(peer) && peer.ip == ip && peer.isConnected && !peer.isLoggedIn && peer.name == None
      ensures Staging() == old(Staging()).(pending := old(pendingPeers) + [peer])
      ensures outbox == old(outbox) && events == old(events)
    {
      peer := new Peer(ip);
      peer.isLoggedIn := false;
      peer.isConnected := true;
      pendingPeers := pendingPeers + [peer];
    }

    method AddPeer(peer: Peer)
      modifies this
      ensures Settings() == old(Settings())
      ensures Staging() == old(Staging()).(peers := old(peers) + [peer])
      ensures outbox == old(outbox) && events == old(events)
    {
      peers := peers + [peer];
    }

    /** `RemovePeer`: `List.Remove`, which drops the first peer `Equals` to the argument, that
        is, the first with its player number. */
    method RemovePeer(peer: Peer)
      modifies this
      ensures var i := FirstEqualIndex(old(peers), peer);
        Staging() == old(Staging()).(peers := if i < |old(peers)| then old(peers)[..i] + old(peers)[i + 1..] else old(peers))
      ensures Settings() == old(Settings())
      ensures outbox == old(outbox) && events == old(events)
    {
      var i := FirstEqualIndex(peers, peer);
      if i < |peers| {
        peers := peers[..i] + peers[i + 1..];
      }
    }

    /** `GetPeerFromIP`: the first peer at that endpoint. */
    function GetPeerFromIP(ip: Endpoint): (r: Option<Peer>)
      reads this, peers
      ensures r.Some? <==> FirstAtIndex(peers, ip) < |peers|
      ensures r.Some? ==> r.value == peers[FirstAtIndex(peers, ip)] && r.value.ip == ip
      ensures r.None? ==> forall p :: p in peers ==> p.ip != ip
    {
      var i := FirstAtIndex(peers, ip);
      if i < |peers| then Some(peers[i]) else None
    }

    /** `GetPeerFromName`: the first peer with that name. `current.name.Equals(name)` throws on
        a nameless peer, so every peer before the match must have a name. */
    function GetPeerFromName(name: string): (r: Option<Peer>)
      reads this, peers
      requires forall j :: 0 <= j < FirstNamedIndex(peers, name) ==> peers[j].name.Some?
      ensures r.Some? <==> FirstNamedIndex(peers, name) < |peers|
      ensures r.Some? ==> r.value == peers[FirstNamedIndex(peers, name)] && r.value.name == Some(name)
      ensures r.None? ==> forall p :: p in peers ==> p.name != Some(name)
    {
      var i := FirstNamedIndex(peers, name);
      if i < |peers| then Some(peers[i]) else None
    }

    /** `SendData(type, bytes)`: one send to every peer in `peers`, logged in or not. */
    method SendData(messageType: int, bytes: seq<byte>)
      modifies this
      ensures outbox == old(outbox) + SendAll(peers, messageType, Bytes(bytes))
      ensures Settings() == old(Settings()) && Staging() == old(Staging()) && events == old(events)
    {
      var i := 0;
      while i < |peers|
        invariant 0 <= i <= |peers|
        invariant Settings() == old(Settings()) && Staging() == old(Staging()) && events == old(events)
        invariant outbox == old(outbox) + SendAll(peers[..i], messageType, Bytes(bytes))
      {
        outbox := outbox + [Send(peers[i], messageType, Bytes(bytes))];
        i := i + 1;
      }
      assert peers[..i] == peers;
    }

    /** `StartGame(seed)`: the seed, as 4 little-endian bytes, to every peer. */
    method StartGame(seed: i32)
      modifies this
      ensures outbox == old(outbox) + SendAll(peers, ServerStartGame, Bytes(I32Bytes(seed)))
      ensures Settings() == old(Settings()) && Staging() == old(Staging()) && events == old(events)
    {
      SendData(ServerStartGame, I32Bytes(seed));
    }

    /** `SendServerInformation(destinationPeer)`: the host name, the count of logged-in peers
        in `peers` and `peersToAdd`, then a record for each of them in list order. */
    method SendServerInformation(destinationPeer: Peer)
      requires Valid()
      modifies this
      ensures Valid() && Settings() == old(Settings()) && Staging() == old(Staging()) && events == old(events)
      ensures outbox == old(outbox) + [Send(destinationPeer, ServerGameInformation, InformationOf(currentUser, peers, peersToAdd))]
    {
      var information := ServerInformation(currentUser, peers, peersToAdd);
      outbox := outbox + [Send(destinationPeer, ServerGameInformation, information)];
    }

    /** `OnConnectionRequest`: the pending peer gets its name and listening port, every peer
        already logged in hears about it, it receives the game information, and it is staged
        for promotion, logged in. The information describes the lists as they were, except
        that when the peer was already logged in (a second join request in the same poll)
        its own record carries the new name and port. */
    method OnConnectionRequest(connectingPeer: Peer, port: int, username: string)
      requires Valid()
      modifies this, connectingPeer
      ensures Valid()
      ensures Settings() == old(Settings())
      ensures ConnectionRequestHandled(connectingPeer, port, username)
      ensures !old(connectingPeer.isLoggedIn) ==>
        forall k :: |old(outbox)| <= k < |outbox| - 1 ==> outbox[k].to != connectingPeer
    {
      var sends := Welcome(connectingPeer, port, username, currentUser, peers, peersToAdd);
      Admit(connectingPeer, sends);
    }

    /** What `OnConnectionRequest(peer, port, username)` does: the peer takes its name and port
        and is logged in; every peer logged in before hears its record; it receives the game
        information of the lists as they were (its own record updated when it was already
        logged in); both events fire; it is staged to leave `pendingPeers` and join `peers`. */
    twostate predicate ConnectionRequestHandled(peer: Peer, port: int, username: string)
      reads this, peer, peers, peersToAdd
    {
      && Staging() == old(Staging()).(toRemove := old(pendingPeersToRemove) + [peer], toAdd := old(peersToAdd) + [peer])
      && peer.name == Some(username) && peer.listenPort == port && peer.isLoggedIn
      && peer.ip == old(peer.ip) && peer.isConnected == old(peer.isConnected) && peer.playerNumber == old(peer.playerNumber)
      && old(Valid()) && LoggedInNamed(peers) && LoggedInNamed(peersToAdd)
      && var joined := SendAll(old(LoggedIn(peers)) + old(LoggedIn(peersToAdd)), ServerPlayerJoined,
          PlayerJoinedInfo(PeerInfo(peer.ip.address, port, username)));
        // `peersToAdd` without the newcomer is the old list
        var information := if old(peer.isLoggedIn) then InformationOf(currentUser, peers, peersToAdd[..|peersToAdd| - 1])
          else old(InformationOf(currentUser, peers, peersToAdd));
        && outbox == old(outbox) + joined + [Send(peer, ServerGameInformation, information)]
        && events == old(events) + [PlayerJoinedEvent(username), PeerConnectedEvent(peer)]
    }

    /** The end of `OnConnectionRequest`, once the peer is logged in: the sends go out, both
        events fire, and the peer is staged to leave `pendingPeers` and join `peers`. */
    method Admit(connectingPeer: Peer, sends: seq<Send>)
      requires Valid() && connectingPeer.name.Some?
      modifies this
      ensures Valid() && Settings() == old(Settings())
      ensures Staging() == old(Staging()).(toRemove := old(pendingPeersToRemove) + [connectingPeer],
        toAdd := old(peersToAdd) + [connectingPeer])
      ensures outbox == old(outbox) + sends
      ensures events == old(events) + [PlayerJoinedEvent(connectingPeer.name.value), PeerConnectedEvent(connectingPeer)]
    {
      outbox := outbox + sends;
      events := events + [PlayerJoinedEvent(connectingPeer.name.value), PeerConnectedEvent(connectingPeer)];
      pendingPeersToRemove := pendingPeersToRemove + [connectingPeer];
      peersToAdd := peersToAdd + [connectingPeer];
    }

    /** `OnServerInformationReceived`: the server peer gets the host's name; each of the first
        `peerCount` records becomes a new peer, logged in and connected, sent this user's name
        and staged for `peers`; `JoinedGame` gets `peers` united with `peersToAdd`. */
    method OnServerInformationReceived(hostName: string, peerCount: int, records: seq<PeerInfo>)
      requires Valid() && !isServerHost
      requires peerCount <= |records|
      requires forall i :: 0 <= i < peerCount ==> 0 <= records[i].port < 0x1_0000
      modifies this, serverPeer
      ensures Valid() && Settings() == old(Settings())
      ensures InformationHandled(hostName, peerCount, records)
    {
      serverPeer.name := Some(hostName);
      var added, sent := ConnectToListed(records, peerCount, currentUser);
      JoinListed(added, sent);
      assert peersToAdd[|old(peersToAdd)|..] == added;
    }

    /** What `OnServerInformationReceived` does with the host name, the count and the records:
        the server peer gets the host's name; the first `peerCount` records become new peers,
        distinct, logged in and connected, each sent this user's name and staged for `peers`;
        `JoinedGame` fires with `peers` united with `peersToAdd`. */
    twostate predicate InformationHandled(hostName: string, peerCount: int, records: seq<PeerInfo>)
      reads this, serverPeer, peersToAdd
    {
      var n := if peerCount < 0 then 0 else peerCount;
      && serverPeer != null && old(serverPeer) == serverPeer
      && serverPeer.name == Some(hostName) && serverPeer.ip == old(serverPeer.ip)
      && serverPeer.isLoggedIn == old(serverPeer.isLoggedIn) && serverPeer.isConnected == old(serverPeer.isConnected)
      && n <= |records| && (forall i :: 0 <= i < n ==> 0 <= records[i].port < 0x1_0000)
      && |peersToAdd| == |old(peersToAdd)| + n
      && var added := peersToAdd[|old(peersToAdd)|..];
      && Staging() == old(Staging()).(toAdd := old(peersToAdd) + added)
      && (forall i :: 0 <= i < n ==>
            fresh(added[i]) && added[i].ip == Endpoint(records[i].address, records[i].port) &&
            added[i].name == Some(records[i].name) && added[i].isLoggedIn && added[i].isConnected)
      && (forall i, j :: 0 <= i < j < n ==> added[i] != added[j])
      && outbox == old(outbox) + SendAll(added, PeerConnect, PeerConnectName(currentUser))
      && events == old(events) + [JoinedGameEvent(Union(peers, peersToAdd))]
    }

    /** The end of `OnServerInformationReceived`: the handshakes go out, the new peers are
        staged for `peers`, and `JoinedGame` fires with `peers` united with `peersToAdd`. */
    method JoinListed(added: seq<Peer>, sent: seq<Send>)
      requires Valid() && Named(added)
      modifies this
      ensures Valid() && Settings() == old(Settings())
      ensures Staging() == old(Staging()).(toAdd := old(peersToAdd) + added)
      ensures outbox == old(outbox) + sent
      ensures events == old(events) + [JoinedGameEvent(Union(peers, peersToAdd))]
    {
      outbox := outbox + sent;
      peersToAdd := peersToAdd + added;
      events := events + [JoinedGameEvent(Union(peers, peersToAdd))];
    }

    /** `OnPlayerJoined`: a pending peer already bearing the name is staged for promotion;
        otherwise the name becomes expected. */
    method OnPlayerJoined(info: PeerInfo)
      requires Valid()
      modifies this
      ensures Valid() && Settings() == old(Settings())
      ensures PlayerJoinedHandled(info.name)
    {
      var i := FirstNamedIndex(pendingPeers, info.name);
      if i == |pendingPeers| {
        expectedPeers := expectedPeers + [info.name];
        events := events + [PlayerJoinedEvent(info.name)];
      } else {
        var peer := pendingPeers[i];
        pendingPeersToRemove := pendingPeersToRemove + [peer];
        peersToAdd := peersToAdd + [peer];
        events := events + [PeerConnectedEvent(peer)];
      }
    }

    /** What `OnPlayerJoined` does with the name: the first pending peer bearing it is staged
        for promotion and `PeerConnected` fires; without one, the name becomes expected and
        `PlayerJoined` fires. Nothing is sent. */
    twostate predicate PlayerJoinedHandled(name: string)
      reads this
    {
      && outbox == old(outbox)
      && var i := old(FirstNamedIndex(pendingPeers, name));
        if i < |old(pendingPeers)| then
          var peer := old(pendingPeers)[i];
          Staging() == old(Staging()).(toRemove := old(pendingPeersToRemove) + [peer], toAdd := old(peersToAdd) + [peer]) &&
          events == old(events) + [PeerConnectedEvent(peer)]
        else
          Staging() == old(Staging()).(expected := old(expectedPeers) + [name]) &&
          events == old(events) + [PlayerJoinedEvent(name)]
    }

    /** `OnPeerConnected`: the peer gets its name; if that name was expected, one occurrence
        leaves `expectedPeers` and the peer is staged for promotion, otherwise it stays pending. */
    method OnPeerConnected(peer: Peer, username: string)
      requires Valid()
      modifies this, peer
      ensures Valid() && Settings() == old(Settings())
      ensures PeerConnectHandled(peer, username)
    {
      peer.name := Some(username);
      if username in expectedPeers {
        expectedPeers := RemoveFirst(expectedPeers, username);
        pendingPeersToRemove := pendingPeersToRemove + [peer];
        peersToAdd := peersToAdd + [peer];
        events := events + [PeerConnectedEvent(peer)];
      }
    }

    /** What `OnPeerConnected(peer, username)` does: the peer takes the name; an expected name
        loses one occurrence from `expectedPeers`, the peer is staged for promotion and
        `PeerConnected` fires; an unexpected name changes nothing else. Nothing is sent. */
    twostate predicate PeerConnectHandled(peer: Peer, username: string)
      reads this, peer
    {
      && outbox == old(outbox)
      && peer.name == Some(username) && peer.ip == old(peer.ip) && peer.isLoggedIn == old(peer.isLoggedIn)
      && peer.isConnected == old(peer.isConnected) && peer.playerNumber == old(peer.playerNumber)
      && (username in old(expectedPeers) ==>
            Staging() == old(Staging()).(expected := RemoveFirst(old(expectedPeers), username),
              toRemove := old(pendingPeersToRemove) + [peer], toAdd := old(peersToAdd) + [peer]) &&
            events == old(events) + [PeerConnectedEvent(peer)])
      && (username !in old(expectedPeers) ==> Staging() == old(Staging()) && events == old(events))
    }

    /** `OnGameStarted`: the seed is the payload's first 4 bytes; the only effect is the event. */
    method OnGameStarted(data: seq<byte>)
      requires 4 <= |data|
      modifies this
      ensures Settings() == old(Settings()) && Staging() == old(Staging()) && outbox == old(outbox)
      ensures events == old(events) + [GameStartedEvent(ReadI32(data, 0))]
    {
      var seed := ReadI32(data, 0);
      events := events + [GameStartedEvent(seed)];
    }

    /** The `switch` over a pending peer's message: a join request is handled only by the host,
        a peer handshake only by a joiner, and anything else is ignored. */
    method HandlePendingMessage(peer: Peer, m: Incoming)
      requires Valid() && PendingDecodes(isServerHost, m)
      modifies this, peer
      ensures Valid() && Settings() == old(Settings())
      ensures peers == old(peers) && pendingPeers == old(pendingPeers)
      ensures |old(peersToAdd)| <= |peersToAdd| && peersToAdd[..|old(peersToAdd)|] == old(peersToAdd)
      ensures |old(pendingPeersToRemove)| <= |pendingPeersToRemove| && pendingPeersToRemove[..|old(pendingPeersToRemove)|] == old(pendingPeersToRemove)
      ensures forall q :: q in old(peersToAdd) ==> q in peersToAdd
      ensures forall q :: q in old(pendingPeersToRemove) ==> q in pendingPeersToRemove
      ensures old(peer.isLoggedIn) ==> peer.isLoggedIn
      ensures isServerHost && m.messageType == ClientJoinRequest ==>
        peer.isLoggedIn && peer in peersToAdd && peer in pendingPeersToRemove
      ensures !isServerHost && m.messageType == PeerConnect && m.payload.username in old(expectedPeers) ==>
        peer in peersToAdd && peer in pendingPeersToRemove
      ensures |peersToAdd| <= |old(peersToAdd)| + 1
      ensures forall u :: !ConnectNames(m, u) ==> (u in expectedPeers <==> u in old(expectedPeers))
      ensures !(isServerHost && m.messageType == ClientJoinRequest) && !(!isServerHost && m.messageType == PeerConnect) ==>
        Staging() == old(Staging()) && outbox == old(outbox) && events == old(events) && unchanged(peer)
      ensures isServerHost && m.messageType == ClientJoinRequest ==>
        ConnectionRequestHandled(peer, m.payload.port, m.payload.username)
      ensures !isServerHost && m.messageType == PeerConnect ==> PeerConnectHandled(peer, m.payload.username)
    {
      if m.messageType == ClientJoinRequest {
        if isServerHost {
          OnConnectionRequest(peer, m.payload.port, m.payload.username);
        }
      } else if m.messageType == PeerConnect {
        if !isServerHost {
          OnPeerConnected(peer, m.payload.username);
        }
      }
    }

    /** What the loop needs of a handled game-information notice: the rosters stay, and the
        staged peers are the old ones followed by one fresh peer per listed record. */
    twostate lemma InformationStages(m: Incoming)
      requires m.messageType == ServerGameInformation && m.payload.GameInformation?
      requires InformationHandled(m.payload.hostName, m.payload.peerCount, m.payload.records)
      ensures peers == old(peers) && pendingPeers == old(pendingPeers)
      ensures pendingPeersToRemove == old(pendingPeersToRemove)
      ensures |peersToAdd| == |old(peersToAdd)| + |ListedRecords(m)| && peersToAdd[..|old(peersToAdd)|] == old(peersToAdd)
      ensures forall q :: q in old(peersToAdd) ==> q in peersToAdd
      ensures forall i :: 0 <= i < |ListedRecords(m)| ==>
        fresh(peersToAdd[|old(peersToAdd)| + i]) && Describes(peersToAdd[|old(peersToAdd)| + i], ListedRecords(m)[i])
    {
      assert peersToAdd == old(peersToAdd) + peersToAdd[|old(peersToAdd)|..];
    }

    /** What the loop needs of a handled player-joined notice: the rosters stay, and at most one
        peer is staged. */
    twostate lemma PlayerJoinedStages(name: string)
      requires PlayerJoinedHandled(name)
      ensures peers == old(peers) && pendingPeers == old(pendingPeers)
      ensures |old(peersToAdd)| <= |peersToAdd| <= |old(peersToAdd)| + 1 && peersToAdd[..|old(peersToAdd)|] == old(peersToAdd)
      ensures |old(pendingPeersToRemove)| <= |pendingPeersToRemove| && pendingPeersToRemove[..|old(pendingPeersToRemove)|] == old(pendingPeersToRemove)
      ensures forall q :: q in old(peersToAdd) ==> q in peersToAdd
      ensures forall q :: q in old(pendingPeersToRemove) ==> q in pendingPeersToRemove
    {
    }

    /** The `switch` over a server message, as seen by a joiner. */
    method HandleServerMessage(m: Incoming) returns (ghost listed: seq<Peer>)
      requires Valid() && !isServerHost && ServerDecodes(m)
      modifies this, serverPeer
      ensures Valid() && Settings() == old(Settings())
      ensures peers == old(peers) && pendingPeers == old(pendingPeers)
      ensures |old(peersToAdd)| <= |peersToAdd| && peersToAdd[..|old(peersToAdd)|] == old(peersToAdd)
      ensures |old(pendingPeersToRemove)| <= |pendingPeersToRemove| && pendingPeersToRemove[..|old(pendingPeersToRemove)|] == old(pendingPeersToRemove)
      ensures m.messageType !in {ServerGameInformation, ServerPlayerJoined, ServerStartGame} ==>
        Staging() == old(Staging()) && outbox == old(outbox) && events == old(events) && unchanged(serverPeer)
      ensures forall q :: q in old(peersToAdd) ==> q in peersToAdd
      ensures forall q :: q in old(pendingPeersToRemove) ==> q in pendingPeersToRemove
      ensures |old(peersToAdd)| + |ListedRecords(m)| <= |peersToAdd|
      ensures |peersToAdd| <= |old(peersToAdd)| + |ListedRecords(m)| + JoinNotice(m)
      ensures |listed| == |ListedRecords(m)|
      ensures forall i :: 0 <= i < |listed| ==>
        listed[i] in peersToAdd && fresh(listed[i]) && Describes(listed[i], ListedRecords(m)[i])
      ensures m.messageType == ServerGameInformation ==>
        InformationHandled(m.payload.hostName, m.payload.peerCount, m.payload.records)
      ensures m.messageType == ServerPlayerJoined ==> unchanged(serverPeer) && PlayerJoinedHandled(m.payload.info.name)
      ensures m.messageType == ServerStartGame ==>
        && unchanged(serverPeer) && Staging() == old(Staging()) && outbox == old(outbox)
        && events == old(events) + [GameStartedEvent(ReadI32(m.payload.data, 0))]
    {
      listed := [];
      if m.messageType == ServerGameInformation {
        OnServerInformationReceived(m.payload.hostName, m.payload.peerCount, m.payload.records);
        InformationStages(m);
        listed := peersToAdd[|old(peersToAdd)|..];
      } else if m.messageType == ServerPlayerJoined {
        OnPlayerJoined(m.payload.info);
        PlayerJoinedStages(m.payload.info.name);
      } else if m.messageType == ServerStartGame {
        OnGameStarted(m.payload.data);
      }
    }

    /** The end of `PollMessages`: staged removals leave `pendingPeers` (by `Equals`), staged
        additions are appended to `peers` in order, and both staging lists are cleared. */
    method Commit()
      requires Valid()
      modifies this
      ensures Valid() && Settings() == old(Settings())
      ensures Staging() == Lists(old(peers) + old(peersToAdd), RemoveMatching(old(pendingPeers), old(pendingPeersToRemove)), [], [], old(expectedPeers))
      ensures outbox == old(outbox) && events == old(events)
      ensures forall q :: q in old(pendingPeersToRemove) ==> q !in pendingPeers
    {
      var kept := RemoveMatching(pendingPeers, pendingPeersToRemove);
      var joined := peers + peersToAdd;
      assert LoggedInNamed(joined);
      pendingPeers := kept;
      peers := joined;
      pendingPeersToRemove := [];
      peersToAdd := [];
      forall q | q in old(pendingPeersToRemove)
        ensures q !in pendingPeers
      {
        StagedPeersRemoved(old(pendingPeers), old(pendingPeersToRemove), q);
      }
    }

    /** One turn of a pending peer's message loop: `HandlePendingMessage`, keeping only what the
        loop carries from one message to the next. */
    method ReadPeerMessage(peer: Peer, m: Incoming)
      requires Valid() && PendingDecodes(isServerHost, m)
      modifies this, peer
      ensures Valid() && Settings() == old(Settings())
      ensures peers == old(peers) && pendingPeers == old(pendingPeers)
      ensures |old(peersToAdd)| <= |peersToAdd| && peersToAdd[..|old(peersToAdd)|] == old(peersToAdd)
      ensures |old(pendingPeersToRemove)| <= |pendingPeersToRemove| && pendingPeersToRemove[..|old(pendingPeersToRemove)|] == old(pendingPeersToRemove)
      ensures forall q :: q in old(peersToAdd) ==> q in peersToAdd
      ensures forall q :: q in old(pendingPeersToRemove) ==> q in pendingPeersToRemove
      ensures old(peer.isLoggedIn) ==> peer.isLoggedIn
      ensures isServerHost && m.messageType == ClientJoinRequest ==>
        peer.isLoggedIn && peer in peersToAdd && peer in pendingPeersToRemove
      ensures !isServerHost && m.messageType == PeerConnect && m.payload.username in old(expectedPeers) ==>
        peer in peersToAdd && peer in pendingPeersToRemove
      ensures |peersToAdd| <= |old(peersToAdd)| + 1
      ensures forall u :: !ConnectNames(m, u) ==> (u in expectedPeers <==> u in old(expectedPeers))
    {
      HandlePendingMessage(peer, m);
    }

    /** The `while (peer.CheckForData(...))` loop over one pending peer's messages, `inbox` in
        order. The staging lists only grow; on the host, a join request among the messages
        leaves the peer logged in and staged both to leave `pendingPeers` and to join `peers`. */
    method HandlePeerMessages(peer: Peer, inbox: seq<Incoming>)
      requires Valid()
      requires forall j :: 0 <= j < |inbox| ==> PendingDecodes(isServerHost, inbox[j])
      modifies this, peer
      ensures Valid() && Settings() == old(Settings())
      ensures peers == old(peers) && pendingPeers == old(pendingPeers)
      ensures |old(peersToAdd)| <= |peersToAdd| && peersToAdd[..|old(peersToAdd)|] == old(peersToAdd)
      ensures |old(pendingPeersToRemove)| <= |pendingPeersToRemove| && pendingPeersToRemove[..|old(pendingPeersToRemove)|] == old(pendingPeersToRemove)
      ensures forall q :: q in old(peersToAdd) ==> q in peersToAdd
      ensures forall q :: q in old(pendingPeersToRemove) ==> q in pendingPeersToRemove
      ensures old(peer.isLoggedIn) ==> peer.isLoggedIn
      ensures isServerHost && JoinRequested(inbox) ==>
        peer.isLoggedIn && peer in peersToAdd && peer in pendingPeersToRemove
      ensures !isServerHost && ConnectsExpected(inbox, old(expectedPeers)) ==>
        peer in peersToAdd && peer in pendingPeersToRemove
      ensures |peersToAdd| <= |old(peersToAdd)| + |inbox|
      ensures forall u :: !Connects(inbox, u) ==> (u in expectedPeers <==> u in old(expectedPeers))
    {
      var j := 0;
      while j < |inbox|
        invariant 0 <= j <= |inbox|
        invariant Valid() && Settings() == old(Settings())
        invariant peers == old(peers) && pendingPeers == old(pendingPeers)
        invariant |old(peersToAdd)| <= |peersToAdd| && peersToAdd[..|old(peersToAdd)|] == old(peersToAdd)
        invariant |old(pendingPeersToRemove)| <= |pendingPeersToRemove| && pendingPeersToRemove[..|old(pendingPeersToRemove)|] == old(pendingPeersToRemove)
        invariant old(peer.isLoggedIn) ==> peer.isLoggedIn
        invariant isServerHost && JoinRequested(inbox[..j]) ==>
          peer.isLoggedIn && peer in peersToAdd && peer in pendingPeersToRemove
        invariant !isServerHost && ConnectsExpected(inbox[..j], old(expectedPeers)) ==>
          peer in peersToAdd && peer in pendingPeersToRemove
        invariant |peersToAdd| <= |old(peersToAdd)| + j
        invariant forall u :: !Connects(inbox[..j], u) ==> (u in expectedPeers <==> u in old(expectedPeers))
      {
        ReadPeerMessage(peer, inbox[j]);
        assert inbox[..j + 1][..j] == inbox[..j];
        j := j + 1;
      }
      assert inbox[..j] == inbox;
    }

    /** One turn of the joiner's server loop: `HandleServerMessage`, keeping only what the loop
        carries from one message to the next. The peers `joined` listed earlier are not the
        server peer, so they still describe their `records`. */
    method ReadServerMessage(m: Incoming, ghost joined: seq<Peer>, ghost records: seq<PeerInfo>) returns (ghost listed: seq<Peer>)
      requires Valid() && !isServerHost && ServerDecodes(m)
      requires |joined| == |records|
      requires forall k :: 0 <= k < |joined| ==> joined[k] != serverPeer && Describes(joined[k], records[k])
      modifies this, serverPeer
      ensures forall k :: 0 <= k < |joined| ==> Describes(joined[k], records[k])
      ensures Valid() && Settings() == old(Settings())
      ensures peers == old(peers) && pendingPeers == old(pendingPeers)
      ensures |old(peersToAdd)| <= |peersToAdd| && peersToAdd[..|old(peersToAdd)|] == old(peersToAdd)
      ensures |old(pendingPeersToRemove)| <= |pendingPeersToRemove| && pendingPeersToRemove[..|old(pendingPeersToRemove)|] == old(pendingPeersToRemove)
      ensures forall q :: q in old(peersToAdd) ==> q in peersToAdd
      ensures forall q :: q in old(pendingPeersToRemove) ==> q in pendingPeersToRemove
      ensures |old(peersToAdd)| + |ListedRecords(m)| <= |peersToAdd|
      ensures |peersToAdd| <= |old(peersToAdd)| + |ListedRecords(m)| + JoinNotice(m)
      ensures |listed| == |ListedRecords(m)|
      ensures forall i :: 0 <= i < |listed| ==>
        listed[i] in peersToAdd && fresh(listed[i]) && Describes(listed[i], ListedRecords(m)[i])
    {
      listed := HandleServerMessage(m);
    }

    /** The `while (ServerPeer.CheckForData(...))` loop of a joiner, `inbox` in order: the staging
        lists only grow and the rosters are untouched. */
    method HandleServerMessages(inbox: seq<Incoming>) returns (ghost joined: seq<Peer>)
      requires Valid() && !isServerHost
      requires forall j :: 0 <= j < |inbox| ==> ServerDecodes(inbox[j])
      modifies this, serverPeer
      ensures Valid() && Settings() == old(Settings())
      ensures peers == old(peers) && pendingPeers == old(pendingPeers)
      ensures |old(peersToAdd)| <= |peersToAdd| && peersToAdd[..|old(peersToAdd)|] == old(peersToAdd)
      ensures |old(pendingPeersToRemove)| <= |pendingPeersToRemove| && pendingPeersToRemove[..|old(pendingPeersToRemove)|] == old(pendingPeersToRemove)
      ensures forall q :: q in old(peersToAdd) ==> q in peersToAdd
      ensures forall q :: q in old(pendingPeersToRemove) ==> q in pendingPeersToRemove
      ensures |joined| == |AllListed(inbox)|
      ensures |old(peersToAdd)| + |joined| <= |peersToAdd| <= |old(peersToAdd)| + |joined| + JoinNotices(inbox)
      ensures forall k :: 0 <= k < |joined| ==>
        joined[k] in peersToAdd && fresh(joined[k]) && Describes(joined[k], AllListed(inbox)[k])
    {
      joined := [];
      ghost var records, notices := [], 0;
      var j := 0;
      while j < |inbox|
        invariant 0 <= j <= |inbox|
        invariant Valid() && Settings() == old(Settings())
        invariant peers == old(peers) && pendingPeers == old(pendingPeers)
        invariant |old(peersToAdd)| <= |peersToAdd| && peersToAdd[..|old(peersToAdd)|] == old(peersToAdd)
        invariant |old(pendingPeersToRemove)| <= |pendingPeersToRemove| && pendingPeersToRemove[..|old(pendingPeersToRemove)|] == old(pendingPeersToRemove)
        invariant forall q :: q in old(peersToAdd) ==> q in peersToAdd
        invariant forall q :: q in old(pendingPeersToRemove) ==> q in pendingPeersToRemove
        invariant records == AllListed(inbox[..j]) && notices == JoinNotices(inbox[..j])
        invariant |joined| == |records|
        invariant |old(peersToAdd)| + |joined| <= |peersToAdd| <= |old(peersToAdd)| + |joined| + notices
        invariant forall k :: 0 <= k < |joined| ==> joined[k] in peersToAdd && fresh(joined[k]) && Describes(joined[k], records[k])
      {
        // the peers listed so far are fresh, so none of them is the server peer
        var listed := ReadServerMessage(inbox[j], joined, records);
        ServerInboxSnoc(inbox, j);
        joined, records, notices := joined + listed, records + ListedRecords(inbox[j]), notices + JoinNotice(inbox[j]);
        j := j + 1;
      }
      assert inbox[..j] == inbox;
    }

    /** The `if (!IsServerHost && !IsInGame)` block: only a joiner not yet in game reads the
        server's messages; otherwise nothing changes. */
    method PollServer(inbox: seq<Incoming>) returns (ghost joined: seq<Peer>)
      requires Valid()
      requires !isServerHost && !isInGame ==> forall j :: 0 <= j < |inbox| ==> ServerDecodes(inbox[j])
      modifies this, serverPeer
      ensures Valid() && Settings() == old(Settings())
      ensures peers == old(peers) && pendingPeers == old(pendingPeers)
      ensures |old(peersToAdd)| <= |peersToAdd| && peersToAdd[..|old(peersToAdd)|] == old(peersToAdd)
      ensures |old(pendingPeersToRemove)| <= |pendingPeersToRemove| && pendingPeersToRemove[..|old(pendingPeersToRemove)|] == old(pendingPeersToRemove)
      ensures forall q :: q in old(peersToAdd) ==> q in peersToAdd
      ensures forall q :: q in old(pendingPeersToRemove) ==> q in pendingPeersToRemove
      ensures isServerHost || isInGame ==> unchanged(this) && (serverPeer != null ==> unchanged(serverPeer))
      ensures |joined| == if !isServerHost && !isInGame then |AllListed(inbox)| else 0
      ensures |old(peersToAdd)| + |joined| <= |peersToAdd|
      ensures |peersToAdd| <= |old(peersToAdd)| + |joined| + if !isServerHost && !isInGame then JoinNotices(inbox) else 0
      ensures forall k :: 0 <= k < |joined| ==>
        joined[k] in peersToAdd && fresh(joined[k]) && Describes(joined[k], AllListed(inbox)[k])
    {
      joined := [];
      if !isServerHost && !isInGame {
        joined := HandleServerMessages(inbox);
      }
    }

    /** The `foreach (Peer peer in pendingPeers)` loop: each pending peer's messages, in list
        order. On the host, every pending peer that sent a join request ends logged in and
        staged both to leave `pendingPeers` and to join `peers`. */
    method HandlePendingPeers(pendingInbox: seq<seq<Incoming>>)
      requires Valid()
      requires |pendingInbox| == |pendingPeers|
      requires forall i, j :: 0 <= i < |pendingInbox| && 0 <= j < |pendingInbox[i]| ==> PendingDecodes(isServerHost, pendingInbox[i][j])
      modifies this, pendingPeers
      ensures Valid() && Settings() == old(Settings())
      ensures peers == old(peers) && pendingPeers == old(pendingPeers)
      ensures |old(peersToAdd)| <= |peersToAdd| && peersToAdd[..|old(peersToAdd)|] == old(peersToAdd)
      ensures |old(pendingPeersToRemove)| <= |pendingPeersToRemove| && pendingPeersToRemove[..|old(pendingPeersToRemove)|] == old(pendingPeersToRemove)
      ensures isServerHost ==> forall i :: 0 <= i < |pendingPeers| && JoinRequested(pendingInbox[i]) ==>
        pendingPeers[i].isLoggedIn && pendingPeers[i] in peersToAdd && pendingPeers[i] in pendingPeersToRemove
      ensures !isServerHost ==> forall i ::
        (0 <= i < |pendingPeers| && ConnectsExpected(pendingInbox[i], StillExpected(old(expectedPeers), pendingInbox[..i]))) ==>
        pendingPeers[i] in peersToAdd && pendingPeers[i] in pendingPeersToRemove
      ensures |peersToAdd| <= |old(peersToAdd)| + MessageCount(pendingInbox)
    {
      ghost var count := 0;
      var k := 0;
      while k < |pendingPeers|
        invariant 0 <= k <= |pendingPeers|
        invariant Valid() && Settings() == old(Settings())
        invariant peers == old(peers) && pendingPeers == old(pendingPeers)
        invariant |old(peersToAdd)| <= |peersToAdd| && peersToAdd[..|old(peersToAdd)|] == old(peersToAdd)
        invariant |old(pendingPeersToRemove)| <= |pendingPeersToRemove| && pendingPeersToRemove[..|old(pendingPeersToRemove)|] == old(pendingPeersToRemove)
        invariant isServerHost ==> forall i :: 0 <= i < k && JoinRequested(pendingInbox[i]) ==>
          pendingPeers[i].isLoggedIn && pendingPeers[i] in peersToAdd && pendingPeers[i] in pendingPeersToRemove
        invariant !isServerHost ==> forall i ::
          (0 <= i < k && ConnectsExpected(pendingInbox[i], StillExpected(old(expectedPeers), pendingInbox[..i]))) ==>
          pendingPeers[i] in peersToAdd && pendingPeers[i] in pendingPeersToRemove
        invariant forall u :: !ConnectsIn(pendingInbox[..k], u) ==> (u in expectedPeers <==> u in old(expectedPeers))
        invariant count == MessageCount(pendingInbox[..k]) && |peersToAdd| <= |old(peersToAdd)| + count
      {
        var still := StillExpected(old(expectedPeers), pendingInbox[..k]);
        if !isServerHost && ConnectsExpected(pendingInbox[k], still) {
          ConnectsExpectedMonotone(pendingInbox[k], still, expectedPeers);
        }
        HandlePeerMessages(pendingPeers[k], pendingInbox[k]);
        PendingInboxSnoc(pendingInbox, k);
        count := count + |pendingInbox[k]|;
        k := k + 1;
      }
      assert pendingInbox[..k] == pendingInbox;
    }

    /** `PollMessages`: every pending peer's messages, in list order; then, for a joiner not yet
        in game, the server's messages; then the commit. `pendingInbox[i]` is what
        `CheckForData` yields for `pendingPeers[i]`, `serverInbox` what it yields for the server.
        `added` and `removed` are the staging lists as they stood at the commit: the staged peers
        are appended to `peers`, and every staged removal has left `pendingPeers`. On the host, a
        pending peer that sent a join request is logged in, in `peers` and no longer pending. On
        a joiner, a pending peer whose handshake found its name expected is in `peers` and no
        longer pending, and `joined` are the new peers the game information listed, one per
        record, each in `peers`. */
    method PollMessages(pendingInbox: seq<seq<Incoming>>, serverInbox: seq<Incoming>)
      returns (ghost added: seq<Peer>, ghost removed: seq<Peer>, ghost joined: seq<Peer>)
      requires Valid()
      requires |pendingInbox| == |pendingPeers|
      requires forall i, j :: 0 <= i < |pendingInbox| && 0 <= j < |pendingInbox[i]| ==> PendingDecodes(isServerHost, pendingInbox[i][j])
      requires !isServerHost && !isInGame ==> forall j :: 0 <= j < |serverInbox| ==> ServerDecodes(serverInbox[j])
      modifies this, pendingPeers, serverPeer
      ensures Valid() && Settings() == old(Settings())
      ensures peers == old(peers) + added && pendingPeers == RemoveMatching(old(pendingPeers), removed)
      ensures pendingPeersToRemove == [] && peersToAdd == []
      ensures |old(peersToAdd)| <= |added| && added[..|old(peersToAdd)|] == old(peersToAdd)
      ensures |old(pendingPeersToRemove)| <= |removed| && removed[..|old(pendingPeersToRemove)|] == old(pendingPeersToRemove)
      ensures forall q :: q in removed ==> q !in pendingPeers
      ensures forall p :: p in pendingPeers ==> p in old(pendingPeers)
      ensures isServerHost ==> forall k :: 0 <= k < |pendingInbox| && JoinRequested(pendingInbox[k]) ==>
        old(pendingPeers)[k].isLoggedIn && old(pendingPeers)[k] in peers && old(pendingPeers)[k] !in pendingPeers
      ensures !isServerHost ==> forall k ::
        (0 <= k < |pendingInbox| && ConnectsExpected(pendingInbox[k], StillExpected(old(expectedPeers), pendingInbox[..k]))) ==>
        old(pendingPeers)[k] in peers && old(pendingPeers)[k] !in pendingPeers
      ensures |joined| == if !isServerHost && !isInGame then |AllListed(serverInbox)| else 0
      ensures forall k :: 0 <= k < |joined| ==>
        joined[k] in peers && fresh(joined[k]) && Describes(joined[k], AllListed(serverInbox)[k])
      ensures |old(peersToAdd)| + |joined| <= |added|
      ensures |added| <= |old(peersToAdd)| + MessageCount(pendingInbox) + |joined| +
        if !isServerHost && !isInGame then JoinNotices(serverInbox) else 0
    {
      HandlePendingPeers(pendingInbox);
      joined := PollServer(serverInbox);
      added, removed := peersToAdd, pendingPeersToRemove;
      Commit();
    }
  }

  /** A joiner's first poll, with a host that lists one other player: `peers` ends as the server
      peer followed by one new peer for that player, logged in at the listed endpoint. */
  method JoinerFirstPoll() returns (net: P2PNetClass, other: Peer)
    ensures |net.peers| == 2 && net.peers[0] == net.serverPeer && net.peers[1] == other
    ensures other.name == Some("carl") && other.isLoggedIn && other.ip == Endpoint([10, 0, 0, 2], 7000)
  {
    net := new P2PNetClass.Joiner([10, 0, 0, 1], 7777, "ann", 7000);
    var notice := Incoming(ServerGameInformation, GameInformation("host", 1, [PeerInfo([10, 0, 0, 2], 7000, "carl")]));
    assert AllListed([notice]) == [PeerInfo([10, 0, 0, 2], 7000, "carl")];
    var _, _, joined := net.PollMessages([], [notice]);
    other := net.peers[1];
    assert other == joined[0];
  }
}
