/**
 The router's registry, one event-loop functor at a time.

 Game and team servers connect to the internal listener, gates ("portals") to the portal listener. Every change
 of the game or team set is pushed to all registered portals as a SYNC that carries the whole set.
 Go ranges over maps in no particular order; an event carries the orders in which the two server maps are listed.
 */
module RouterSpec {
  import opened Bytes
  import opened Heads
  import opened Options
  import opened Sequences

  type SessId = nat

  const READY: int := 1
  const SYNC: int := 2
  const MSG: int := 3
  const HEARTBEAT: int := 4
  const DISCONNECT: int := 5

  const BY_KEY: int := 1
  const BROADCAST: int := 2

  const PORTAL: int := 2
  const GAMESVR: int := 3
  const TEAMSVR: int := 6
  const ROUTER: int := 8

  datatype Body = ServerList(ids: seq<int>, serverType: int) | Other(bytes: seq<Byte>)
  datatype Message = Message(head: Head, body: Body)

  datatype RouteClient = RouteClient(session: SessId, id: ServerId, svrType: int)

  datatype Listener = Internal | Portals
  datatype Timer = Pending | Stopped | Fired

  /** A connection: who accepted it, its verification, whether Send still accepts, and everything Send accepted so
      far. */
  datatype Session = Session(listener: Listener, verified: bool, timer: Timer, accepting: bool,
                             userdata: Option<RouteClient>, sent: seq<Message>)

  type Slots = map<ServerId, RouteClient>

  datatype State = State(sessions: map<SessId, Session>, portals: Slots, games: Slots, teams: Slots)

  datatype Order = Order(games: seq<ServerId>, teams: seq<ServerId>)

  datatype Event =
    | Connect(sid: SessId, listener: Listener)
    | VerifyTimeout(sid: SessId)
    | WriteFailed(sid: SessId)
    | Receive(sid: SessId, msg: Message, order: Order)
    | Closed(sid: SessId, order: Order)

  const INIT := State(map[], map[], map[], map[])

  // ---- Sessions ----

  function Send(x: Session, msgs: seq<Message>): Session {
    if x.accepting then x.(sent := x.sent + msgs) else x
  }

  function Shutdown(x: Session): Session {
    x.(accepting := false, timer := if !x.verified && x.timer == Pending then Stopped else x.timer)
  }

  function Verify(x: Session): Session {
    if !x.verified && x.timer == Pending then x.(verified := true, timer := Stopped) else x
  }

  function SendTo(s: State, sid: SessId, msg: Message): State
    requires sid in s.sessions
  {
    s.(sessions := s.sessions[sid := Send(s.sessions[sid], [msg])])
  }

  function CloseSession(s: State, sid: SessId): State
    requires sid in s.sessions
  {
    s.(sessions := s.sessions[sid := Shutdown(s.sessions[sid])])
  }

  function Repeat(msg: Message, n: nat): seq<Message> {
    seq(n, _ => msg)
  }

  /** The slots whose client sits on the given session. */
  function SlotsOf(slots: Slots, sid: SessId): set<ServerId> {
    set k | k in slots && slots[k].session == sid
  }

  /** Every client of the slots is sent the message once. */
  function Broadcast(s: State, slots: Slots, msg: Message): State {
    s.(sessions := map sid | sid in s.sessions :: Send(s.sessions[sid], Repeat(msg, |SlotsOf(slots, sid)|)))
  }

  // ---- Packing ----

  predicate Fits(order: seq<ServerId>, slots: Slots) {
    Lists(order, slots.Keys)
  }

  /** A SYNC names the ids stored in the clients, in the order in which the slots are visited. */
  function Pack(slots: Slots, order: seq<ServerId>, svrType: int, routerId: ServerId): Message
    requires Fits(order, slots)
  {
    Message(Head(SYNC, BY_KEY, ROUTER, 0, routerId, 0),
            ServerList(
              seq(|order|, i requires 0 <= i < |order| => assert order[i] in ToSet(order); slots[order[i]].id as int),
              svrType))
  }

  // ---- Handlers ----

  /** A slot that is taken over closes its former client's session. */
  function Evict(s: State, slots: Slots, id: ServerId): State
    requires id in slots ==> slots[id].session in s.sessions
  {
    if id in slots then CloseSession(s, slots[id].session) else s
  }

  function Bind(s: State, c: RouteClient): State
    requires c.session in s.sessions
  {
    s.(sessions := s.sessions[c.session := Verify(s.sessions[c.session]).(userdata := Some(c))])
  }

  function AddGame(s: State, c: RouteClient): State
    requires c.session in s.sessions && (c.id in s.games ==> s.games[c.id].session in s.sessions)
  {
    var t := Evict(Bind(s, c), s.games, c.id);
    t.(games := t.games[c.id := c])
  }

  function AddTeam(s: State, c: RouteClient): State
    requires c.session in s.sessions && (c.id in s.teams ==> s.teams[c.id].session in s.sessions)
  {
    var t := Evict(Bind(s, c), s.teams, c.id);
    t.(teams := t.teams[c.id := c])
  }

  function AddPortal(s: State, c: RouteClient): State
    requires c.session in s.sessions && (c.id in s.portals ==> s.portals[c.id].session in s.sessions)
  {
    var t := Evict(Bind(s, c), s.portals, c.id);
    t.(portals := t.portals[c.id := c])
  }

  function Unbind(s: State, sid: SessId): State
    requires sid in s.sessions
  {
    s.(sessions := s.sessions[sid := s.sessions[sid].(userdata := None)])
  }

  /** Every stored client sits on a known session, carries the id of its slot and the type of its map. */
  predicate Stored(sessions: map<SessId, Session>, slots: Slots, svrType: int, listener: Listener) {
    forall k :: k in slots ==>
      && slots[k].id == k && slots[k].svrType == svrType
      && slots[k].session in sessions && sessions[slots[k].session].listener == listener
  }

  /** What a session is bound to is of the kind its listener serves. */
  predicate BoundWell(sid: SessId, x: Session) {
    x.userdata.Some? ==>
      && x.userdata.value.session == sid
      && (x.listener == Portals ==> x.userdata.value.svrType == PORTAL)
      && (x.listener == Internal ==> x.userdata.value.svrType == GAMESVR || x.userdata.value.svrType == TEAMSVR)
  }

  predicate AllBound(sessions: map<SessId, Session>) {
    forall sid :: sid in sessions ==> BoundWell(sid, sessions[sid])
  }

  predicate WellStored(s: State) {
    && Stored(s.sessions, s.portals, PORTAL, Portals)
    && Stored(s.sessions, s.games, GAMESVR, Internal)
    && Stored(s.sessions, s.teams, TEAMSVR, Internal)
    && AllBound(s.sessions)
  }

  /** The messages an internal READY or CLOSED pushes, and those a portal READY is answered with. */
  function PushGames(s: State, order: Order, routerId: ServerId): State {
    if Fits(order.games, s.games) then Broadcast(s, s.portals, Pack(s.games, order.games, GAMESVR, routerId)) else s
  }

  function PushTeams(s: State, order: Order, routerId: ServerId): State {
    if Fits(order.teams, s.teams) then Broadcast(s, s.portals, Pack(s.teams, order.teams, TEAMSVR, routerId)) else s
  }

  function InternalReady(s: State, sid: SessId, msg: Message, order: Order, routerId: ServerId): State
    requires WellStored(s) && sid in s.sessions
  {
    if msg.head.srcType == GAMESVR then
      PushGames(AddGame(s, RouteClient(sid, msg.head.srcID, GAMESVR)), order, routerId)
    else if msg.head.srcType == TEAMSVR then
      PushTeams(AddTeam(s, RouteClient(sid, msg.head.srcID, TEAMSVR)), order, routerId)
    else s
  }

  function PortalReady(s: State, sid: SessId, msg: Message, order: Order, routerId: ServerId): State
    requires WellStored(s) && sid in s.sessions
  {
    var t := AddPortal(s, RouteClient(sid, msg.head.srcID, PORTAL));
    if Fits(order.games, t.games) && Fits(order.teams, t.teams) then
      SendTo(SendTo(t, sid, Pack(t.games, order.games, GAMESVR, routerId)),
             sid, Pack(t.teams, order.teams, TEAMSVR, routerId))
    else t
  }

  /** Deletion is by id alone: whatever client sits in the slot goes. */
  function InternalClosed(s: State, sid: SessId, order: Order, routerId: ServerId): State
    requires WellStored(s) && sid in s.sessions
  {
    var x := s.sessions[sid];
    if !x.verified || x.userdata.None? then s
    else
      var t, id := Unbind(s, sid), x.userdata.value.id;
      if x.userdata.value.svrType == GAMESVR then PushGames(t.(games := t.games - {id}), order, routerId)
      else if x.userdata.value.svrType == TEAMSVR then PushTeams(t.(teams := t.teams - {id}), order, routerId)
      else t
  }

  function PortalClosed(s: State, sid: SessId): State
    requires sid in s.sessions
  {
    var x := s.sessions[sid];
    if !x.verified || x.userdata.None? then s
    else
      var t := Unbind(s, sid);
      t.(portals := t.portals - {x.userdata.value.id})
  }

  /** Delivery to one client of the slots, if the id is registered. */
  function Forward(s: State, slots: Slots, msg: Message): State
    requires msg.head.dstID in slots ==> slots[msg.head.dstID].session in s.sessions
  {
    if msg.head.dstID in slots then SendTo(s, slots[msg.head.dstID].session, msg) else s
  }

  function Relay(s: State, slots: Slots, msg: Message): State
    requires forall k :: k in slots ==> slots[k].session in s.sessions
  {
    if msg.head.transType == BY_KEY then Forward(s, slots, msg)
    else if msg.head.transType == BROADCAST then Broadcast(s, slots, msg)
    else s
  }

  /** Messages other than READY: a heartbeat is echoed, a disconnect closes, a message is relayed. */
  function Verified(s: State, sid: SessId, msg: Message): State
    requires WellStored(s) && sid in s.sessions
  {
    var x := s.sessions[sid];
    if !x.verified || x.userdata.None? then s
    else if msg.head.ssCmd == HEARTBEAT then SendTo(s, sid, msg)
    else if msg.head.ssCmd == DISCONNECT then CloseSession(s, sid)
    else if msg.head.ssCmd == MSG then
      if x.listener == Internal then Relay(s, s.portals, msg)
      else if msg.head.dstType == GAMESVR then Relay(s, s.games, msg)
      else if msg.head.dstType == TEAMSVR then Relay(s, s.teams, msg)
      else s
    else s
  }

  function Next(s: State, e: Event, routerId: ServerId): State
    requires WellStored(s)
  {
    match e
    case Connect(sid, listener) =>
      if sid in s.sessions then s
      else s.(sessions := s.sessions[sid := Session(listener, false, Pending, true, None, [])])
    case VerifyTimeout(sid) =>
      if sid in s.sessions && s.sessions[sid].timer == Pending
      then s.(sessions := s.sessions[sid := s.sessions[sid].(timer := Fired, accepting := false)]) else s
    case WriteFailed(sid) =>
      if sid in s.sessions then s.(sessions := s.sessions[sid := s.sessions[sid].(accepting := false)]) else s
    case Receive(sid, msg, order) =>
      if sid !in s.sessions then s
      else if msg.head.ssCmd != READY then Verified(s, sid, msg)
      else if s.sessions[sid].listener == Internal then InternalReady(s, sid, msg, order, routerId)
      else PortalReady(s, sid, msg, order, routerId)
    case Closed(sid, order) =>
      if sid !in s.sessions then s
      else if s.sessions[sid].listener == Internal then InternalClosed(s, sid, order, routerId)
      else PortalClosed(s, sid)
  }

  /** The orders an event carries list the server maps as the event leaves them. */
  predicate Possible(s: State, e: Event, routerId: ServerId)
    requires WellStored(s)
  {
    var t := Next(s, e, routerId);
    (e.Receive? || e.Closed?) ==> Fits(e.order.games, t.games) && Fits(e.order.teams, t.teams)
  }
}
