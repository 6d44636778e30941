/** The gateway's sessions: the table with its address index, the packets that bind
    addresses, and what a session writes when it sends. */
module Sessions {
  import opened Types
  import F = Framing

  const HANDSHAKE: byte := 0
  const KCP: byte := 1
  const RAW_UDP: byte := 2

  /** How many packets the KCP channel buffers. */
  const CHANNEL_CAPACITY: nat := 1024

  // ---- The table as a value ----

  datatype Entry = Entry(key: uint32, uid: uint32, addr: Option<string>)

  datatype Table = Table(sessions: map<uint32, Entry>, addrMap: map<string, uint32>)

  function Lookup(t: Table, addr: string): Option<uint32> {
    if addr in t.addrMap && t.addrMap[addr] in t.sessions then Some(t.addrMap[addr]) else None
  }

  function MapAddr(t: Table, id: uint32, addr: string): Table {
    t.(addrMap := t.addrMap[addr := id])
  }

  function Remove(t: Table, id: uint32): Table {
    if id !in t.sessions then t
    else
      var addr := t.sessions[id].addr;
      Table(t.sessions - {id}, if addr.Some? then t.addrMap - {addr.value} else t.addrMap)
  }

  /** The header of a packet that names a live session and carries its key. */
  function Accepted(t: Table, data: seq<byte>): Option<F.Header> {
    var h := F.DecodeHeader(data);
    if h.Some? && h.value.id in t.sessions && t.sessions[h.value.id].key == h.value.key then h else None
  }

  /** The first accepted packet binds its session to the address it came from. */
  function Receive(t: Table, data: seq<byte>, addr: string): Table {
    var h := Accepted(t, data);
    if h.Some? && t.sessions[h.value.id].addr == None then
      var id := h.value.id;
      MapAddr(t.(sessions := t.sessions[id := t.sessions[id].(addr := Some(addr))]), id, addr)
    else t
  }

  /** The first draw that is neither zero nor a live session's id. */
  function FirstFree(t: Table, draws: seq<uint32>): Option<uint32> {
    if draws == [] then None
    else if draws[0] != 0 && draws[0] !in t.sessions then Some(draws[0])
    else FirstFree(t, draws[1..])
  }

  /** Draw `k` is free and every earlier one is not. */
  ghost predicate FirstAt(t: Table, draws: seq<uint32>, k: int) {
    && 0 <= k < |draws| && draws[k] != 0 && draws[k] !in t.sessions
    && forall j | 0 <= j < k :: draws[j] == 0 || draws[j] in t.sessions
  }

  lemma {:induction false} FirstFreeIsFirst(t: Table, draws: seq<uint32>, id: uint32)
    ensures FirstFree(t, draws) == Some(id) <==> exists k :: FirstAt(t, draws, k) && draws[k] == id
  {
    if draws != [] {
      FirstFreeIsFirst(t, draws[1..], id);
      if draws[0] != 0 && draws[0] !in t.sessions {
        assert FirstAt(t, draws, 0);
      } else {
        forall k | FirstAt(t, draws, k)
          ensures FirstAt(t, draws[1..], k - 1)
        {
          assert forall j | 0 <= j < k - 1 :: draws[1..][j] == draws[j + 1];
        }
        forall k | FirstAt(t, draws[1..], k)
          ensures FirstAt(t, draws, k + 1)
        {
          assert forall j | 0 < j < k + 1 :: draws[j] == draws[1..][j - 1];
        }
      }
    }
  }

  // ---- The objects ----

  datatype Sent = Refused | Panicked | Wrote(transport: Transport, bytes: seq<byte>)

  datatype Transport = WebSocket | KcpStream | Udp

  /** What `Send` hands to which transport. */
  function Outgoing(id: uint32, key: uint32, connected: bool, kcp: bool, udp: bool, channel: int, data: seq<byte>): Sent
  {
    if !connected then Refused
    else if channel == 1 && kcp then
      var frame := F.KcpBytes(data);
      if frame.Some? then Wrote(KcpStream, frame.value) else Panicked
    else if (channel == 1 || channel == 2) && udp then Wrote(Udp, F.HeaderBytes(F.Header(id, key, RAW_UDP)) + data)
    else Wrote(WebSocket, data)
  }

  datatype Resource = GameStream | WebSocketConn | KcpConn

  datatype Route = ToLobby | ToGame | Dropped

  class Session {
    const id: uint32
    const key: uint32
    const uid: uint32
    var udpAddr: Option<string>
    var kcpConn: bool    // whether there is a KCP connection
    var gameStream: bool // whether there is a stream to the game server
    var connected: bool
    var released: seq<Resource> // what Close has cancelled or closed

    ghost function View(): Entry
      reads this`udpAddr
    {
      Entry(key, uid, udpAddr)
    }

    constructor (id: uint32, key: uint32, uid: uint32)
      ensures this.id == id && this.key == key && this.uid == uid
      ensures connected && !kcpConn && !gameStream && released == [] && View() == Entry(key, uid, None)
    {
      this.id, this.key, this.uid := id, key, uid;
      udpAddr, kcpConn, gameStream, connected, released := None, false, false, true, [];
    }

    method SetUDPAddr(addr: string)
      modifies this`udpAddr
      ensures udpAddr == Some(addr)
    {
      udpAddr := Some(addr);
    }

    method SetKCPConn(conn: bool)
      modifies this`kcpConn
      ensures kcpConn == conn
    {
      kcpConn := conn;
    }

    /** The transport is settled by what the session has and the channel asked for. */
    method Send(channel: int, data: seq<byte>, udpServer: bool) returns (sent: Sent)
      ensures sent == Refused <==> !connected
      ensures sent.Panicked? || (sent.Wrote? && sent.transport == KcpStream) <==> connected && channel == 1 && kcpConn
      ensures sent.Wrote? && sent.transport == Udp <==>
        connected && !(channel == 1 && kcpConn) && (channel == 1 || channel == 2) && udpAddr.Some? && udpServer
      ensures sent.Wrote? && sent.transport == WebSocket <==>
        connected && !(channel == 1 && kcpConn) && !((channel == 1 || channel == 2) && udpAddr.Some? && udpServer)
      ensures sent.Wrote? && sent.transport == Udp ==>
        && F.DecodeHeader(sent.bytes) == Some(F.Header(id, key, 2)) && sent.bytes[9..] == data
      ensures sent.Wrote? && sent.transport == WebSocket ==> sent.bytes == data
      ensures sent == Outgoing(id, key, connected, kcpConn, udpServer && udpAddr.Some?, channel, data)
    {
      hide F.DecodeHeader, F.HeaderBytes, F.KcpBytes;
      if !connected {
        return Refused;
      }
      if channel == 1 && kcpConn {
        var frame := F.FrameForKcp(data);
        if frame == None {
          return Panicked;
        }
        return Wrote(KcpStream, frame.value);
      }
      if (channel == 1 || channel == 2) && udpAddr.Some? && udpServer {
        var hdr := F.EncodeHeader(id, key, RAW_UDP);
        F.HeaderRoundTrip(F.Header(id, key, RAW_UDP), data);
        return Wrote(Udp, hdr + data);
      }
      return Wrote(WebSocket, data);
    }

    /** Commands below 2000 are the lobby's; the others are the game server's, and the first
        of them opens the game stream, if the game server can be reached. */
    method DispatchPacket(cmd: uint16, gameUp: bool) returns (route: Route)
      modifies this`gameStream
      ensures route == if cmd < 2000 then ToLobby else if old(gameStream) || gameUp then ToGame else Dropped
      ensures gameStream == (old(gameStream) || (cmd >= 2000 && gameUp))
    {
      if cmd < 2000 {
        return ToLobby;
      }
      if !gameStream {
        if !gameUp {
          return Dropped;
        }
        gameStream := true;
      }
      return ToGame;
    }

    /** Run alone; the races of several callers are in CloseOnce. */
    method Close(manager: SessionManager, lobbyUp: bool)
      requires manager.Valid()
      modifies this`connected, this`released, manager`sessions, manager`addrMap, manager`notices
      ensures manager.Valid() && !connected
      ensures !old(connected) ==>
        && released == old(released)
        && manager.View() == old(manager.View()) && manager.notices == old(manager.notices)
      ensures old(connected) ==>
        && released == old(released) + (if gameStream then [GameStream] else []) + [WebSocketConn] +
             (if kcpConn then [KcpConn] else [])
        && manager.View() == Remove(old(manager.View()), id)
        && manager.notices == old(manager.notices) + if lobbyUp then [(id, uid)] else []
    {
      hide Remove, SessionManager.View;
      if !connected {
        return;
      }
      connected := false;
      if gameStream {
        released := released + [GameStream];
      }
      if lobbyUp {
        manager.NotifyDisconnect(id, uid);
      }
      CloseConnections();
      manager.RemoveSession(id);
    }

    method CloseConnections()
      modifies this`released
      ensures released == old(released) + [WebSocketConn] + if kcpConn then [KcpConn] else []
    {
      released := released + [WebSocketConn];
      if kcpConn {
        released := released + [KcpConn];
      }
    }
  }

  class SessionManager {
    var sessions: map<uint32, Session>
    var addrMap: map<string, uint32>
    var notices: seq<(uint32, uint32)> // the disconnect notices sent to the lobby

    ghost predicate Valid()
      reads this`sessions
    {
      forall id | id in sessions :: sessions[id].id == id
    }

    ghost function View(): Table
      reads this`sessions, this`addrMap, sessions.Values`udpAddr
    {
      Table(map id | id in sessions :: sessions[id].View(), addrMap)
    }

    constructor ()
      ensures Valid() && View() == Table(map[], map[]) && notices == []
    {
      sessions, addrMap, notices := map[], map[], [];
    }

    /** The draws stand for the random numbers; the loop ends at the first free one. */
    method AddSession(draws: seq<uint32>, key: uint32, uid: uint32) returns (s: Session?)
      requires Valid()
      modifies this`sessions
      ensures Valid()
      ensures s == null ==> FirstFree(old(View()), draws) == None && View() == old(View())
      ensures s != null ==>
        && fresh(s) && FirstFree(old(View()), draws) == Some(s.id) && s.connected
        && s.id in sessions && sessions[s.id] == s
        && View() == old(View()).(sessions := old(View()).sessions[s.id := Entry(key, uid, None)])
    {
      var i := 0;
      while i < |draws| && (draws[i] == 0 || draws[i] in sessions)
        invariant 0 <= i <= |draws|
        invariant FirstFree(View(), draws[i..]) == FirstFree(View(), draws)
      {
        assert draws[i..][1..] == draws[i + 1..];
        i := i + 1;
      }
      if i == |draws| {
        return null;
      }
      s := new Session(draws[i], key, uid);
      sessions := sessions[s.id := s];
      assert View().sessions == old(View()).sessions[s.id := Entry(key, uid, None)];
    }

    method GetSession(id: uint32) returns (s: Session?)
      requires Valid()
      ensures s == null <==> id !in View().sessions
      ensures s != null ==> s.id == id && s in sessions.Values && View().sessions[id] == s.View()
    {
      s := if id in sessions then sessions[id] else null;
    }

    method GetSessionByAddr(addr: string) returns (s: Session?)
      requires Valid()
      ensures Lookup(View(), addr) == if s == null then None else Some(s.id)
      ensures s != null ==> s in sessions.Values && View().sessions[s.id] == s.View()
    {
      s := null;
      if addr in addrMap {
        s := GetSession(addrMap[addr]);
      }
    }

    method MapUDPAddr(id: uint32, addr: string)
      modifies this`addrMap
      ensures View() == MapAddr(old(View()), id, addr)
    {
      addrMap := addrMap[addr := id];
    }

    method NotifyDisconnect(id: uint32, uid: uint32)
      modifies this`notices
      ensures notices == old(notices) + [(id, uid)]
    {
      notices := notices + [(id, uid)];
    }

    method RemoveSession(id: uint32)
      requires Valid()
      modifies this`sessions, this`addrMap
      ensures Valid() && View() == Remove(old(View()), id)
    {
      var s := GetSession(id);
      if s != null {
        if s.udpAddr.Some? {
          addrMap := addrMap - {s.udpAddr.value};
        }
        sessions := sessions - {id};
        assert View().sessions == old(View()).sessions - {id};
      }
    }

    /** Every session of a player, each once. */
    method GetSessionsByUID(uid: uint32) returns (list: seq<Session>)
      requires Valid()
      ensures NoDuplicates(list)
      ensures forall s :: s in list <==> s in sessions.Values && s.uid == uid
    {
      list := [];
      var rest := sessions.Keys;
      while rest != {}
        invariant rest <= sessions.Keys && NoDuplicates(list)
        invariant forall s | s in list :: s.id in sessions && s.id !in rest && sessions[s.id] == s && s.uid == uid
        invariant forall id | id in sessions && id !in rest && sessions[id].uid == uid :: sessions[id] in list
        decreases rest
      {
        var id :| id in rest;
        if sessions[id].uid == uid {
          list := list + [sessions[id]];
        }
        rest := rest - {id};
      }
    }

    /** Binding one live session's address. */
    method BindAddress(s: Session, addr: string)
      requires Valid() && s.id in sessions && sessions[s.id] == s
      modifies s`udpAddr, this`addrMap
      ensures Valid()
      ensures View() ==
        MapAddr(old(View()).(sessions := old(View()).sessions[s.id := s.View()]), s.id, addr)
      ensures s.View() == old(s.View()).(addr := Some(addr))
    {
      s.SetUDPAddr(addr);
      assert View().sessions == old(View()).sessions[s.id := s.View()];
      MapUDPAddr(s.id, addr);
    }
  }

  /** A datagram with the address it came from or goes to. */
  datatype Datagram = Datagram(bytes: seq<byte>, addr: string)

  function Acknowledgement(t: Table, data: seq<byte>, addr: string): seq<Datagram> {
    var h := Accepted(t, data);
    if h.Some? && h.value.packetType == HANDSHAKE then [Datagram(F.HeaderBytes(h.value), addr)] else []
  }

  function Injected(t: Table, data: seq<byte>, addr: string): seq<Datagram> {
    var h := Accepted(t, data);
    if h.Some? && h.value.packetType == KCP then [Datagram(data[F.HEADER_SIZE..], addr)] else []
  }

  class UdpServer {
    var written: seq<Datagram>
    var readCh: seq<Datagram>

    constructor ()
      ensures written == [] && readCh == []
    {
      written, readCh := [], [];
    }

    /** A full channel drops the packet. */
    method InjectKCP(d: Datagram)
      modifies this`readCh
      ensures readCh == if |old(readCh)| < 1024 then old(readCh) + [d] else old(readCh)
    {
      if |readCh| < CHANNEL_CAPACITY {
        readCh := readCh + [d];
      }
    }

    /** One round of the read loop. */
    method HandlePacket(manager: SessionManager, data: seq<byte>, addr: string)
      requires manager.Valid()
      modifies this, manager`addrMap, manager.sessions.Values
      ensures manager.Valid() && manager.View() == Receive(old(manager.View()), data, addr)
      ensures written == old(written) + Acknowledgement(old(manager.View()), data, addr)
      ensures readCh == old(readCh) +
        if |old(readCh)| < 1024 then Injected(old(manager.View()), data, addr) else []
    {
      ghost var t := manager.View();
      ReceiveUnfolded(t, data, addr);
      hide F.DecodeHeader, F.HeaderBytes, Receive;
      if |data| < F.HEADER_SIZE {
        return;
      }
      var h := F.DecodeHeader(data[..F.HEADER_SIZE]);
      HeaderOfPrefix(data);
      var s := manager.GetSession(h.value.id);
      if s == null || s.key != h.value.key {
        return;
      }
      assert s in manager.sessions.Values && t.sessions[s.id] == s.View();
      if s.udpAddr == None {
        manager.BindAddress(s, addr);
      }
      assert manager.View() == Receive(t, data, addr);
      if h.value.packetType == HANDSHAKE {
        var ack := F.EncodeHeader(h.value.id, h.value.key, HANDSHAKE);
        written := written + [Datagram(ack, addr)];
      } else if h.value.packetType == KCP {
        InjectKCP(Datagram(data[F.HEADER_SIZE..], addr));
      }
    }

    /** A new KCP connection: it is refused without a session for its address; otherwise
        it serves that session, frame by frame, until its stream ends. */
    method AcceptKCP(manager: SessionManager, addr: string, conn: F.Reader)
      returns (s: Session?, dispatched: seq<F.AppFrame>)
      requires manager.Valid()
      modifies manager.sessions.Values, conn
      ensures Lookup(old(manager.View()), addr) == if s == null then None else Some(s.id)
      ensures s == null ==> dispatched == []
      ensures s != null ==> s in manager.sessions.Values && !s.kcpConn && dispatched == F.ParseAll(old(conn.Rest())).0
      ensures manager.Valid() && manager.View() == old(manager.View())
    {
      dispatched := [];
      s := manager.GetSessionByAddr(addr);
      if s != null {
        assert s in manager.sessions.Values;
        s.SetKCPConn(true);
        var error;
        dispatched, error := conn.Serve();
        s.SetKCPConn(false);
      }
    }

    /** The KCP connection's way out: a packet goes out under its session's header. */
    method WriteTo(manager: SessionManager, p: seq<byte>, addr: string) returns (ok: bool)
      requires manager.Valid()
      modifies this`written
      ensures ok == Lookup(manager.View(), addr).Some?
      ensures written == old(written) + if !ok then [] else
        var id := Lookup(manager.View(), addr).value;
        [Datagram(F.HeaderBytes(F.Header(id, manager.View().sessions[id].key, 1)) + p, addr)]
    {
      var s := manager.GetSessionByAddr(addr);
      if s == null {
        return false;
      }
      var hdr := F.EncodeHeader(s.id, s.key, KCP);
      written := written + [Datagram(hdr + p, addr)];
      return true;
    }
  }

  lemma ReceiveUnfolded(t: Table, data: seq<byte>, addr: string)
    ensures |data| < F.HEADER_SIZE ==> F.DecodeHeader(data) == None
    ensures var h := Accepted(t, data);
      && (h == None ==> Receive(t, data, addr) == t)
      && (h.Some? ==>
           var id := h.value.id;
           id in t.sessions && Receive(t, data, addr) ==
             if t.sessions[id].addr == None
             then MapAddr(t.(sessions := t.sessions[id := t.sessions[id].(addr := Some(addr))]), id, addr)
             else t)
  {
  }

  lemma HeaderOfPrefix(data: seq<byte>)
    requires |data| >= F.HEADER_SIZE
    ensures F.DecodeHeader(data[..F.HEADER_SIZE]) == F.DecodeHeader(data) && F.DecodeHeader(data).Some?
  {
    var p := data[..F.HEADER_SIZE];
    assert p[0..4] == data[0..4] && p[4..8] == data[4..8];
  }

  // ---- Agreement of the index with the table ----

  /** Every index entry points to a live session bound to that address. */
  ghost predicate Agrees(t: Table) {
    forall a | a in t.addrMap :: t.addrMap[a] in t.sessions && t.sessions[t.addrMap[a]].addr == Some(a)
  }

  /** Every bound session's address has an index entry. */
  ghost predicate Findable(t: Table) {
    forall id | id in t.sessions && t.sessions[id].addr.Some? :: t.sessions[id].addr.value in t.addrMap
  }

  /** Another live session is bound to the address of session `id`. */
  ghost predicate Shares(t: Table, id: uint32) {
    && id in t.sessions && t.sessions[id].addr.Some?
    && exists other :: other in t.sessions && other != id && t.sessions[other].addr == t.sessions[id].addr
  }

  /** No two live sessions are bound to one address. */
  ghost predicate Apart(t: Table) {
    forall id | id in t.sessions :: !Shares(t, id)
  }

  /** What a linear search of the sessions for an address can answer. */
  ghost predicate SearchFinds(t: Table, addr: string, answer: Option<uint32>) {
    match answer
    case Some(id) => id in t.sessions && t.sessions[id].addr == Some(addr)
    case None => forall id | id in t.sessions :: t.sessions[id].addr != Some(addr)
  }

  datatype Event =
    | Connected(id: uint32, key: uint32, uid: uint32)
    | Packet(data: seq<byte>, addr: string)
    | Removed(id: uint32)

  /** `AddSession` picks only ids that are free. */
  ghost predicate Enabled(t: Table, e: Event) {
    e.Connected? ==> e.id != 0 && e.id !in t.sessions
  }

  function Step(t: Table, e: Event): Table {
    match e
    case Connected(id, key, uid) => t.(sessions := t.sessions[id := Entry(key, uid, None)])
    case Packet(data, addr) => Receive(t, data, addr)
    case Removed(id) => Remove(t, id)
  }

  function After(es: seq<Event>): Table {
    if es == [] then Table(map[], map[]) else Step(After(es[..|es| - 1]), es[|es| - 1])
  }

  ghost predicate CanRun(es: seq<Event>) {
    forall k | 0 <= k < |es| :: Enabled(After(es[..k]), es[k])
  }

  lemma CanRunPrefix(es: seq<Event>, k: nat)
    requires CanRun(es) && k <= |es|
    ensures CanRun(es[..k])
  {
    forall j | 0 <= j < k
      ensures Enabled(After(es[..k][..j]), es[..k][j])
    {
      assert es[..k][..j] == es[..j];
    }
  }

  lemma StepKeepsAgreement(t: Table, e: Event)
    requires Agrees(t) && Enabled(t, e)
    ensures Agrees(Step(t, e))
  {
    hide F.DecodeHeader;
  }

  /** Mapping an address keeps the agreement exactly when the session is live and bound
      to it: so it would not if a removal came between the binding and the mapping. */
  lemma MapAddrAgrees(t: Table, id: uint32, addr: string)
    requires Agrees(t)
    ensures Agrees(MapAddr(t, id, addr)) <==> id in t.sessions && t.sessions[id].addr == Some(addr)
  {
    assert MapAddr(t, id, addr).addrMap[addr] == id;
  }

  /** In every run the index agrees with the table: no address leads to a dead session
      or to one bound elsewhere. */
  lemma {:induction false} IndexAgrees(es: seq<Event>)
    requires CanRun(es)
    ensures Agrees(After(es))
    decreases |es|
  {
    if es != [] {
      var n := |es| - 1;
      CanRunPrefix(es, n);
      IndexAgrees(es[..n]);
      StepKeepsAgreement(After(es[..n]), es[n]);
    }
  }

  /** A step loses a bound session's entry exactly when it removes a session whose
      address another live session shares. */
  lemma StepKeepsFindable(t: Table, e: Event)
    requires Agrees(t) && Findable(t) && Enabled(t, e)
    ensures Findable(Step(t, e)) <==> !(e.Removed? && Shares(t, e.id))
  {
    hide F.DecodeHeader;
    if e.Removed? && Shares(t, e.id) {
      var other :| other in t.sessions && other != e.id && t.sessions[other].addr == t.sessions[e.id].addr;
      assert other in Step(t, e).sessions;
    }
  }

  ghost predicate FindableAt(es: seq<Event>, k: int)
    requires 0 <= k <= |es|
  {
    Findable(After(es[..k]))
  }

  /** Step `k` removes a session whose address another live session shares. */
  ghost predicate RemovesShared(es: seq<Event>, k: int)
    requires 0 <= k < |es|
  {
    es[k].Removed? && Shares(After(es[..k]), es[k].id)
  }

  lemma PrefixLooksTheSame(es: seq<Event>, n: nat)
    requires n <= |es|
    ensures forall k | 0 <= k <= n :: FindableAt(es[..n], k) == FindableAt(es, k)
    ensures forall k | 0 <= k < n :: RemovesShared(es[..n], k) == RemovesShared(es, k)
  {
    assert forall k | 0 <= k <= n :: es[..n][..k] == es[..k];
    hide Findable, Shares, After;
  }

  /** All along a run every bound session has its index entry if and only if no removal
      in it is of a session whose address another live session shares. */
  lemma {:induction false} FindableThroughout(es: seq<Event>)
    requires CanRun(es)
    ensures (forall k | 0 <= k <= |es| :: FindableAt(es, k)) <==> (forall k | 0 <= k < |es| :: !RemovesShared(es, k))
    decreases |es|
  {
    hide FindableAt, RemovesShared, CanRun, Agrees, After;
    if es == [] {
      assert FindableAt(es, 0) by {
        NothingBound(es);
      }
    } else {
      var n := |es| - 1;
      CanRunPrefix(es, n);
      FindableThroughout(es[..n]);
      PrefixLooksTheSame(es, n);
      IndexAgrees(es[..n]);
      if FindableAt(es, n) {
        LastStep(es);
      }
    }
  }

  lemma NothingBound(es: seq<Event>)
    requires es == []
    ensures FindableAt(es, 0)
  {
    assert es[..0] == [];
  }

  lemma LastStep(es: seq<Event>)
    requires es != [] && CanRun(es) && Agrees(After(es[..|es| - 1])) && FindableAt(es, |es| - 1)
    ensures FindableAt(es, |es|) <==> !RemovesShared(es, |es| - 1)
  {
    var n := |es| - 1;
    assert es[..n + 1] == es;
    hide Findable, Shares, Step, Agrees;
    StepKeepsFindable(After(es[..n]), es[n]);
  }

  /** If no state of the run has two live sessions bound to one address, the index
      answers every lookup as a linear search would, and the search has one answer. */
  lemma LookupIsSearch(es: seq<Event>, addr: string)
    requires CanRun(es) && forall k | 0 <= k <= |es| :: Apart(After(es[..k]))
    ensures SearchFinds(After(es), addr, Lookup(After(es), addr))
    ensures forall answer | SearchFinds(After(es), addr, answer) :: answer == Lookup(After(es), addr)
  {
    IndexAgrees(es);
    forall k | 0 <= k < |es|
      ensures !RemovesShared(es, k)
    {
      assert Apart(After(es[..k]));
    }
    FindableThroughout(es);
    assert FindableAt(es, |es|) && es[..|es|] == es;
    SearchIsLookup(After(es), addr);
  }

  lemma SearchIsLookup(t: Table, addr: string)
    requires Agrees(t) && Findable(t) && Apart(t)
    ensures SearchFinds(t, addr, Lookup(t, addr))
    ensures forall answer | SearchFinds(t, addr, answer) :: answer == Lookup(t, addr)
  {
    forall answer | SearchFinds(t, addr, answer)
      ensures answer == Lookup(t, addr)
    {
      if answer.Some? {
        assert !Shares(t, answer.value);
      }
    }
  }

  function HandshakeOf(id: uint32, key: uint32): seq<byte> {
    F.HeaderBytes(F.Header(id, key, HANDSHAKE))
  }

  lemma HandshakeBinds(t: Table, id: uint32, key: uint32, addr: string)
    requires id in t.sessions && t.sessions[id].key == key && t.sessions[id].addr == None
    ensures Receive(t, HandshakeOf(id, key), addr)
         == Table(t.sessions[id := t.sessions[id].(addr := Some(addr))], t.addrMap[addr := id])
  {
    F.HeaderRoundTrip(F.Header(id, key, HANDSHAKE), []);
    hide F.DecodeHeader, F.HeaderBytes;
    assert HandshakeOf(id, key) + [] == HandshakeOf(id, key);
  }

  /** Without that, a live session can be lost: two sessions bind the same address, the
      first is removed, and the second is no longer found under it. */
  lemma SharedAddressLosesSession(addr: string)
    ensures var es := [Connected(1, 7, 10), Connected(2, 8, 20), Packet(HandshakeOf(1, 7), addr),
                       Packet(HandshakeOf(2, 8), addr), Removed(1)];
      && CanRun(es)
      && 2 in After(es).sessions && After(es).sessions[2].addr == Some(addr) && Lookup(After(es), addr) == None
  {
    hide HandshakeOf, Receive, After;
    var es := [Connected(1, 7, 10), Connected(2, 8, 20), Packet(HandshakeOf(1, 7), addr),
               Packet(HandshakeOf(2, 8), addr), Removed(1)];
    assert es[..5] == es;
    assert After(es[..0]) == Table(map[], map[]) by {
      NoEvents();
    }
    var t1 := Table(map[1 := Entry(7, 10, None)], map[]);
    var t2 := Table(map[1 := Entry(7, 10, None), 2 := Entry(8, 20, None)], map[]);
    var t3 := Table(map[1 := Entry(7, 10, Some(addr)), 2 := Entry(8, 20, None)], map[addr := 1]);
    var t4 := Table(map[1 := Entry(7, 10, Some(addr)), 2 := Entry(8, 20, Some(addr))], map[addr := 2]);
    AfterNext(es, 0, Table(map[], map[]), t1);
    AfterNext(es, 1, t1, t2);
    HandshakeBinds(t2, 1, 7, addr);
    AfterNext(es, 2, t2, t3);
    HandshakeBinds(t3, 2, 8, addr);
    AfterNext(es, 3, t3, t4);
    AfterNext(es, 4, t4, Table(map[2 := Entry(8, 20, Some(addr))], map[]));
  }

  lemma NoEvents()
    ensures After([]) == Table(map[], map[])
  {
  }

  lemma AfterNext(es: seq<Event>, k: nat, t: Table, t': Table)
    requires k < |es| && After(es[..k]) == t && Step(t, es[k]) == t'
    ensures After(es[..k + 1]) == t'
  {
    assert es[..k + 1][..k] == es[..k];
  }

  // ---- What packets can do ----

  /** The header names a live session that is still unbound, and carries its key. */
  predicate CanBind(t: Table, h: F.Header) {
    h.id in t.sessions && t.sessions[h.id].key == h.key && t.sessions[h.id].addr == None
  }

  /** A packet changes the table only by binding a live, unbound session whose id and
      key it carries; a bound session keeps its address for life. */
  lemma OnlyKeyHoldersBind(t: Table, data: seq<byte>, addr: string)
    requires Agrees(t)
    ensures Receive(t, data, addr) != t <==>
      exists h: F.Header, rest :: CanBind(t, h) && data == F.HeaderBytes(h) + rest
    ensures forall id | id in t.sessions && t.sessions[id].addr.Some? ::
      id in Receive(t, data, addr).sessions && Receive(t, data, addr).sessions[id] == t.sessions[id]
  {
    var h := F.DecodeHeader(data);
    if h.Some? {
      F.HeaderDecodesOnlyItself(data);
    }
    if sent: F.Header, rest :| CanBind(t, sent) && data == F.HeaderBytes(sent) + rest {
      F.HeaderRoundTrip(sent, rest);
      hide F.DecodeHeader, F.HeaderBytes;
      assert Receive(t, data, addr).sessions[sent.id].addr == Some(addr);
    }
    hide F.DecodeHeader, F.HeaderBytes;
    if Receive(t, data, addr) != t {
      assert CanBind(t, h.value);
    }
  }

  /** What a packet with a live session's id and key does, whatever follows its header: it
      binds the session to its sender's address if it is unbound, and nothing else changes; a
      handshake, type 0, is answered with its own header; what follows the header of a KCP
      packet, type 1, is handed to KCP. */
  lemma AcceptedPacket(t: Table, h: F.Header, rest: seq<byte>, addr: string)
    requires h.id in t.sessions && t.sessions[h.id].key == h.key
    ensures var data, t' := F.HeaderBytes(h) + rest, Receive(t, F.HeaderBytes(h) + rest, addr);
      && (t.sessions[h.id].addr.Some? ==> t' == t)
      && (t.sessions[h.id].addr == None ==>
           && t'.sessions == t.sessions[h.id := Entry(h.key, t.sessions[h.id].uid, Some(addr))]
           && Lookup(t', addr) == Some(h.id)
           && (forall a | a != addr :: a in t'.addrMap <==> a in t.addrMap)
           && (forall a | a != addr && a in t.addrMap :: t'.addrMap[a] == t.addrMap[a]))
      && Acknowledgement(t, data, addr) == (if h.packetType == 0 then [Datagram(F.HeaderBytes(h), addr)] else [])
      && Injected(t, data, addr) == (if h.packetType == 1 then [Datagram(rest, addr)] else [])
  {
    F.HeaderRoundTrip(h, rest);
    assert (F.HeaderBytes(h) + rest)[F.HEADER_SIZE..] == rest;
    hide F.DecodeHeader, F.HeaderBytes;
  }

  /** Any other packet does nothing. */
  lemma RejectedPacket(t: Table, data: seq<byte>, addr: string)
    requires forall h: F.Header, rest ::
      data == F.HeaderBytes(h) + rest ==> h.id !in t.sessions || t.sessions[h.id].key != h.key
    ensures Receive(t, data, addr) == t && Acknowledgement(t, data, addr) == [] && Injected(t, data, addr) == []
  {
    var h := F.DecodeHeader(data);
    if h.Some? {
      F.HeaderDecodesOnlyItself(data);
    }
    hide F.DecodeHeader, F.HeaderBytes;
  }

  /** The answer to a handshake is the handshake's own header, byte for byte. */
  lemma HandshakeIsEchoed(t: Table, data: seq<byte>, addr: string)
    requires Acknowledgement(t, data, addr) != []
    ensures |data| >= F.HEADER_SIZE
    ensures Acknowledgement(t, data, addr) == [Datagram(data[..F.HEADER_SIZE], addr)]
  {
    F.HeaderDecodesOnlyItself(data);
    hide F.DecodeHeader, F.HeaderBytes;
    assert data[..F.HEADER_SIZE] == F.HeaderBytes(Accepted(t, data).value);
  }

  // ---- What a send delivers ----

  /** What the client makes of bytes that arrive on a transport, for its own id and key. */
  function Client(id: uint32, key: uint32, transport: Transport, bytes: seq<byte>): Option<seq<byte>> {
    match transport
    case WebSocket => Some(bytes)
    case Udp =>
      if F.DecodeHeader(bytes) == Some(F.Header(id, key, RAW_UDP)) then Some(bytes[F.HEADER_SIZE..]) else None
    case KcpStream =>
      var (result, rest) := F.ParseFrame(bytes);
      if result.Read? && rest == [] then Some(F.Bytes16(result.frame.cmd) + result.frame.payload) else None
  }

  /** Whichever transport a connected session falls back to, its client recovers the
      message; only a KCP frame whose payload exceeds 65531 bytes does not arrive. */
  lemma SendReachesClient(id: uint32, key: uint32, kcp: bool, udp: bool, channel: int, f: F.AppFrame)
    ensures var data := F.Bytes16(f.cmd) + f.payload;
      var sent := Outgoing(id, key, true, kcp, udp, channel, data);
      (sent.Wrote? && Client(id, key, sent.transport, sent.bytes) == Some(data))
      <==> !(channel == 1 && kcp) || |f.payload| <= F.MAX_PAYLOAD
  {
    var data := F.Bytes16(f.cmd) + f.payload;
    if channel == 1 && kcp {
      KcpReachesClient(f);
    } else if (channel == 1 || channel == 2) && udp {
      var h := F.Header(id, key, RAW_UDP);
      F.HeaderRoundTrip(h, data);
      hide F.DecodeHeader, F.HeaderBytes;
      assert (F.HeaderBytes(h) + data)[F.HEADER_SIZE..] == data;
    }
  }

  lemma KcpReachesClient(f: F.AppFrame)
    ensures var data := F.Bytes16(f.cmd) + f.payload;
      (F.KcpBytes(data).Some? && Client(0, 0, KcpStream, F.KcpBytes(data).value) == Some(data))
      <==> |f.payload| <= F.MAX_PAYLOAD
  {
    var data := F.Bytes16(f.cmd) + f.payload;
    if |f.payload| <= F.MAX_PAYLOAD {
      F.SendFramesLikeEncode(f);
      F.FrameRoundTripExact(f, []);
      hide F.ParseFrame, F.FrameBytes, F.KcpBytes, F.Bytes16;
      assert F.KcpBytes(data).value + [] == F.KcpBytes(data).value;
    } else if F.KcpBytes(data).Some? {
      LongKcpIsCut(data);
      ParsedIsShorter(F.KcpBytes(data).value);
    }
  }

  lemma LongKcpIsCut(data: seq<byte>)
    requires |data| > F.MAX_PAYLOAD + 2 && F.KcpBytes(data).Some?
    ensures |F.KcpBytes(data).value| < |data| + 2
  {
    var totalLen := F.Truncate16(|data|);
    F.Truncate16Adds(|data|, 0);
    F.Truncate16Adds(totalLen, 2);
  }

  lemma ParsedIsShorter(bytes: seq<byte>)
    ensures var (result, rest) := F.ParseFrame(bytes);
      result.Read? ==> |result.frame.payload| + 4 + |rest| == |bytes|
  {
  }
}
