/** The WebSocket hub as a state machine: connections, rooms, per-user counts and send buffers. */
module Hub {

  type ConnId = nat
  type Room = string
  type User = string
  type Message = string

  /** Capacity of a client's send channel. */
  const BUFFER: nat := 256

  /** A connection: its rooms, its send channel, and what the write pump has taken from it. */
  datatype Client = Client(user: User, rooms: set<Room>, buffer: seq<Message>, closed: bool, taken: seq<Message>)

  /** `pending` and `leaving` are the clients waiting in the register and in the unregister channel,
      `readers` those whose read pump is running, `evicted` those disconnected for being slow. */
  datatype HubState = HubState(
    conns: map<ConnId, Client>,
    readers: set<ConnId>,
    leaving: set<ConnId>,
    pending: set<ConnId>,
    clients: set<ConnId>,
    rooms: map<Room, set<ConnId>>,
    userConns: map<User, nat>,
    evicted: set<ConnId>)

  datatype Event =
    | Connect(c: ConnId, user: User)
    | Register(c: ConnId)
    | ReaderEnds(c: ConnId)
    | Unregister(c: ConnId)
    | Join(c: ConnId, room: Room)
    | Broadcast(room: Room, message: Message)
    | Take(c: ConnId)

  const EMPTY: HubState := HubState(map[], {}, {}, {}, {}, map[], map[], {})

  function UserCount(s: HubState, u: User): nat {
    if u in s.userConns then s.userConns[u] else 0
  }

  function InRoom(s: HubState, room: Room): set<ConnId> {
    if room in s.rooms then s.rooms[room] else {}
  }

  /** The empty room name addresses every client. */
  function Targets(s: HubState, room: Room): set<ConnId> {
    if room == "" then s.clients else InRoom(s, room)
  }

  /** All ids the hub mentions are known connections. */
  ghost predicate WellFormed(s: HubState) {
    && s.clients <= s.conns.Keys && s.pending <= s.conns.Keys
    && s.readers <= s.conns.Keys && s.leaving <= s.conns.Keys && s.readers !! s.leaving
    && forall r <- s.rooms :: s.rooms[r] <= s.conns.Keys
  }

  // ---------------------------------------------------------------------------------------
  // Steps
  // ---------------------------------------------------------------------------------------

  function DoConnect(s: HubState, c: ConnId, user: User): HubState {
    s.(conns := s.conns[c := Client(user, {}, [], false, [])], readers := s.readers + {c}, pending := s.pending + {c})
  }

  function DoRegister(s: HubState, c: ConnId): HubState
    requires c in s.conns
  {
    var u := s.conns[c].user;
    s.(pending := s.pending - {c}, clients := s.clients + {c}, userConns := s.userConns[u := UserCount(s, u) + 1])
  }

  function Closed(conns: map<ConnId, Client>, cs: set<ConnId>): map<ConnId, Client> {
    map c | c in conns :: if c in cs then conns[c].(closed := true) else conns[c]
  }

  /** The room index without the clients of `cs`, as far as those clients know their rooms. */
  function Leave(conns: map<ConnId, Client>, rooms: map<Room, set<ConnId>>, cs: set<ConnId>): map<Room, set<ConnId>> {
    map r | r in rooms :: rooms[r] - (set c | c in cs && c in conns && r in conns[c].rooms)
  }

  function Decremented(userConns: map<User, nat>, u: User): map<User, nat> {
    if u !in userConns || userConns[u] == 0 then userConns
    else if userConns[u] == 1 then userConns - {u}
    else userConns[u := userConns[u] - 1]
  }

  /** The read pump stops and sends its client to the unregister channel. */
  function DoReaderEnds(s: HubState, c: ConnId): HubState {
    s.(readers := s.readers - {c}, leaving := s.leaving + {c})
  }

  function DoUnregister(s: HubState, c: ConnId): HubState
    requires c in s.clients ==> c in s.conns
  {
    if c !in s.clients then s.(leaving := s.leaving - {c})
    else s.(leaving := s.leaving - {c}, conns := Closed(s.conns, {c}), clients := s.clients - {c}, rooms := Leave(s.conns, s.rooms, {c}),
            userConns := Decremented(s.userConns, s.conns[c].user))
  }

  function DoJoin(s: HubState, c: ConnId, room: Room): HubState
    requires c in s.conns
  {
    s.(rooms := s.rooms[room := InRoom(s, room) + {c}],
       conns := s.conns[c := s.conns[c].(rooms := s.conns[c].rooms + {room})])
  }

  /** Targets whose buffer is full. */
  function Slow(s: HubState, room: Room): set<ConnId> {
    set c | c in Targets(s, room) && c in s.conns && |s.conns[c].buffer| >= BUFFER
  }

  /** Sending on a closed channel panics. */
  ghost predicate BroadcastPanics(s: HubState, room: Room) {
    exists c :: c in Targets(s, room) && c in s.conns && s.conns[c].closed
  }

  function Sent(conns: map<ConnId, Client>, cs: set<ConnId>, m: Message): map<ConnId, Client> {
    map c | c in conns ::
      if c in cs && |conns[c].buffer| < BUFFER then conns[c].(buffer := conns[c].buffer + [m]) else conns[c]
  }

  /** Disconnecting slow clients leaves the per-user counts alone. */
  function Evict(s: HubState, cs: set<ConnId>): HubState {
    s.(conns := Closed(s.conns, cs), clients := s.clients - cs, rooms := Leave(s.conns, s.rooms, cs),
       evicted := s.evicted + cs)
  }

  function DoBroadcast(s: HubState, room: Room, m: Message): HubState {
    Evict(s.(conns := Sent(s.conns, Targets(s, room), m)), Slow(s, room))
  }

  function DoTake(s: HubState, c: ConnId): HubState
    requires c in s.conns && s.conns[c].buffer != []
  {
    var k := s.conns[c];
    s.(conns := s.conns[c := k.(buffer := k.buffer[1..], taken := k.taken + [k.buffer[0]])])
  }

  /** When an event can happen. Each connection enters the register channel once, and the unregister
      channel when its read pump stops. Until then the pump may subscribe it to rooms, also before it
      is registered and after it was evicted. */
  predicate Enabled(s: HubState, e: Event) {
    match e
    case Connect(c, _) => c !in s.conns
    case Register(c) => c in s.pending && c in s.conns
    case ReaderEnds(c) => c in s.readers
    case Unregister(c) => c in s.leaving && c in s.conns
    case Join(c, _) => c in s.readers && c in s.conns
    case Broadcast(_, _) => true
    case Take(c) => c in s.conns && s.conns[c].buffer != []
  }

  /** Sending on a closed channel panics, and so does closing it again. */
  ghost predicate Panics(s: HubState, e: Event) {
    match e
    case Broadcast(room, _) => BroadcastPanics(s, room)
    case Unregister(c) => c in s.clients && c in s.conns && s.conns[c].closed
    case _ => false
  }

  function Apply(s: HubState, e: Event): HubState
    requires Enabled(s, e)
  {
    match e
    case Connect(c, user) => DoConnect(s, c, user)
    case Register(c) => DoRegister(s, c)
    case ReaderEnds(c) => DoReaderEnds(s, c)
    case Unregister(c) => DoUnregister(s, c)
    case Join(c, room) => DoJoin(s, c, room)
    case Broadcast(room, m) => DoBroadcast(s, room, m)
    case Take(c) => DoTake(s, c)
  }

  /** The event can happen and does not panic. */
  ghost predicate Steps(s: HubState, e: Event) {
    Enabled(s, e) && !Panics(s, e)
  }

  /** The runs of the hub: every sequence of events up to the first panic. */
  ghost predicate Runs(log: seq<Event>)
    decreases |log|, 0
  {
    log == [] || (Runs(log[..|log| - 1]) && Steps(Exec(log[..|log| - 1]), log[|log| - 1]))
  }

  ghost function Exec(log: seq<Event>): HubState
    requires Runs(log)
    decreases |log|, 1
  {
    if log == [] then EMPTY else Apply(Exec(log[..|log| - 1]), log[|log| - 1])
  }

  /** The room subscriptions made by clients that had been evicted by then. */
  ghost function LateJoins(log: seq<Event>): set<(ConnId, Room)>
    requires Runs(log)
  {
    if log == [] then {}
    else
      var init, e := log[..|log| - 1], log[|log| - 1];
      LateJoins(init) + LateJoin(Exec(init), e)
  }

  ghost function LateJoin(s: HubState, e: Event): set<(ConnId, Room)> {
    if e.Join? && e.c in s.evicted then {(e.c, e.room)} else {}
  }

  /** The clients that had been evicted by the time they were registered. */
  ghost function DeadRegistrations(log: seq<Event>): set<ConnId>
    requires Runs(log)
  {
    if log == [] then {}
    else
      var init, e := log[..|log| - 1], log[|log| - 1];
      DeadRegistrations(init) + DeadRegistration(Exec(init), e)
  }

  ghost function DeadRegistration(s: HubState, e: Event): set<ConnId> {
    if e.Register? && e.c in s.evicted then {e.c} else {}
  }

  // ---------------------------------------------------------------------------------------
  // The room index
  // ---------------------------------------------------------------------------------------

  ghost predicate Member(s: HubState, c: ConnId, r: Room) {
    r in s.rooms && c in s.rooms[r]
  }

  predicate Open(s: HubState, c: ConnId) {
    c in s.conns && !s.conns[c].closed
  }

  predicate Shut(s: HubState, c: ConnId) {
    c in s.conns && s.conns[c].closed
  }

  ghost predicate RoomIndex(s: HubState, late: set<(ConnId, Room)>) {
    forall c, r :: Member(s, c, r) <==> (Open(s, c) && r in s.conns[c].rooms) || (c, r) in late
  }

  /** A client is listed in a room exactly when its channel is open and it knows it joined, or it
      joined after being evicted. Every open client is either live or waiting to be registered; a
      closed one is live only by a dead registration. As long as its read pump has not been
      unregistered, a client is closed only by eviction. Channels hold at most their capacity. */
  ghost predicate Index(s: HubState, late: set<(ConnId, Room)>, dead: set<ConnId>) {
    && WellFormed(s)
    && RoomIndex(s, late)
    && (forall c, r :: (c, r) in late ==> c in s.evicted)
    && s.clients !! s.pending
    && (forall c :: Shut(s, c) && (c in s.readers || c in s.leaving) ==> c in s.evicted)
    && (forall c <- s.conns :: Open(s, c) ==> c in s.clients || c in s.pending)
    && (forall c :: c in dead <==> c in s.clients && Shut(s, c))
    && (forall c :: Shut(s, c) && (c in s.clients || c in s.pending) ==> c in s.evicted)
    && (forall c <- s.evicted :: Shut(s, c))
    && (forall c <- s.conns :: |s.conns[c].buffer| <= BUFFER)
  }

  /** Closing channels and taking their owners out of the rooms they know. */
  lemma RemovalKeepsRooms(s: HubState, t: HubState, late: set<(ConnId, Room)>, cs: set<ConnId>)
    requires RoomIndex(s, late) && (forall c <- cs :: Open(s, c))
    requires forall c, r :: (c, r) in late ==> Shut(s, c)
    requires t.rooms == Leave(s.conns, s.rooms, cs) && t.conns.Keys == s.conns.Keys
    requires forall c <- s.conns :: t.conns[c].rooms == s.conns[c].rooms
                                    && (t.conns[c].closed <==> s.conns[c].closed || c in cs)
    ensures RoomIndex(t, late)
  {
    forall c, r
      ensures Member(t, c, r) <==> (Open(t, c) && r in t.conns[c].rooms) || (c, r) in late
    {
      assert Member(s, c, r) <==> (Open(s, c) && r in s.conns[c].rooms) || (c, r) in late;
    }
  }

  /** Steps that leave the rooms and the open channels' memberships alone. */
  lemma QuietStepKeepsRooms(s: HubState, t: HubState, late: set<(ConnId, Room)>)
    requires RoomIndex(s, late) && t.rooms == s.rooms
    requires forall c :: Open(s, c) ==> Open(t, c) && t.conns[c].rooms == s.conns[c].rooms
    requires forall c :: Open(t, c) ==> Open(s, c) || t.conns[c].rooms == {}
    ensures RoomIndex(t, late)
  {
    forall c, r
      ensures Member(t, c, r) <==> (Open(t, c) && r in t.conns[c].rooms) || (c, r) in late
    {
      assert Member(s, c, r) <==> (Open(s, c) && r in s.conns[c].rooms) || (c, r) in late;
    }
  }

  lemma JoinKeepsRooms(s: HubState, late: set<(ConnId, Room)>, c: ConnId, room: Room)
    requires RoomIndex(s, late) && c in s.conns && (Shut(s, c) <==> c in s.evicted)
    ensures RoomIndex(DoJoin(s, c, room), late + LateJoin(s, Join(c, room)))
  {
    var t, late' := DoJoin(s, c, room), late + LateJoin(s, Join(c, room));
    forall d, r
      ensures Member(t, d, r) <==> (Open(t, d) && r in t.conns[d].rooms) || (d, r) in late'
    {
      assert Member(s, d, r) <==> (Open(s, d) && r in s.conns[d].rooms) || (d, r) in late;
    }
  }

  lemma LeaveDependsOnRooms(a: map<ConnId, Client>, b: map<ConnId, Client>, rooms: map<Room, set<ConnId>>, cs: set<ConnId>)
    requires a.Keys == b.Keys && forall c <- a :: a[c].rooms == b[c].rooms
    ensures Leave(a, rooms, cs) == Leave(b, rooms, cs)
  {
    forall r | r in rooms
      ensures Leave(a, rooms, cs)[r] == Leave(b, rooms, cs)[r]
    {
      assert (set c | c in cs && c in a && r in a[c].rooms) == (set c | c in cs && c in b && r in b[c].rooms);
    }
  }

  lemma UnregisterKeepsIndex(s: HubState, late: set<(ConnId, Room)>, dead: set<ConnId>, c: ConnId)
    requires Index(s, late, dead) && Steps(s, Unregister(c))
    ensures Index(DoUnregister(s, c), late, dead)
  {
    if c in s.clients {
      RemovalKeepsRooms(s, DoUnregister(s, c), late, {c});
    }
  }

  lemma TargetsOpen(s: HubState, room: Room)
    requires WellFormed(s) && !BroadcastPanics(s, room)
    ensures forall c <- Targets(s, room) :: Open(s, c)
  {
    forall c | c in Targets(s, room)
      ensures Open(s, c)
    {
      assert c in s.conns;
    }
  }

  lemma BroadcastKeepsIndex(s: HubState, late: set<(ConnId, Room)>, dead: set<ConnId>, room: Room, m: Message)
    requires Index(s, late, dead) && !BroadcastPanics(s, room)
    ensures Index(DoBroadcast(s, room, m), late, dead)
  {
    TargetsOpen(s, room);
    LeaveDependsOnRooms(Sent(s.conns, Targets(s, room), m), s.conns, s.rooms, Slow(s, room));
    RemovalKeepsRooms(s, DoBroadcast(s, room, m), late, Slow(s, room));
  }

  lemma RegisterKeepsIndex(s: HubState, late: set<(ConnId, Room)>, dead: set<ConnId>, c: ConnId)
    requires Index(s, late, dead) && Enabled(s, Register(c))
    ensures Index(DoRegister(s, c), late, dead + DeadRegistration(s, Register(c)))
  {
    QuietStepKeepsRooms(s, DoRegister(s, c), late);
  }

  lemma JoinKeepsIndex(s: HubState, late: set<(ConnId, Room)>, dead: set<ConnId>, c: ConnId, room: Room)
    requires Index(s, late, dead) && Enabled(s, Join(c, room))
    ensures Index(DoJoin(s, c, room), late + LateJoin(s, Join(c, room)), dead)
  {
    JoinKeepsRooms(s, late, c, room);
  }

  lemma ConnectKeepsIndex(s: HubState, late: set<(ConnId, Room)>, dead: set<ConnId>, c: ConnId, user: User)
    requires Index(s, late, dead) && c !in s.conns
    ensures Index(DoConnect(s, c, user), late, dead)
  {
    QuietStepKeepsRooms(s, DoConnect(s, c, user), late);
  }

  lemma ReaderEndKeepsIndex(s: HubState, late: set<(ConnId, Room)>, dead: set<ConnId>, c: ConnId)
    requires Index(s, late, dead) && Enabled(s, ReaderEnds(c))
    ensures Index(DoReaderEnds(s, c), late, dead)
  {
    QuietStepKeepsRooms(s, DoReaderEnds(s, c), late);
  }

  lemma TakeKeepsIndex(s: HubState, late: set<(ConnId, Room)>, dead: set<ConnId>, c: ConnId)
    requires Index(s, late, dead) && Enabled(s, Take(c))
    ensures Index(DoTake(s, c), late, dead)
  {
    QuietStepKeepsRooms(s, DoTake(s, c), late);
  }

  lemma StepKeepsIndex(s: HubState, late: set<(ConnId, Room)>, dead: set<ConnId>, e: Event)
    requires Index(s, late, dead) && Steps(s, e)
    ensures Index(Apply(s, e), late + LateJoin(s, e), dead + DeadRegistration(s, e))
  {
    assert late + {} == late && dead + {} == dead;
    match e
    case Register(c) => RegisterKeepsIndex(s, late, dead, c);
    case Unregister(c) => UnregisterKeepsIndex(s, late, dead, c);
    case Join(c, room) => JoinKeepsIndex(s, late, dead, c, room);
    case Broadcast(room, m) => BroadcastKeepsIndex(s, late, dead, room, m);
    case Connect(c, user) => ConnectKeepsIndex(s, late, dead, c, user);
    case ReaderEnds(c) => ReaderEndKeepsIndex(s, late, dead, c);
    case Take(c) => TakeKeepsIndex(s, late, dead, c);
  }

  // ---------------------------------------------------------------------------------------
  // Per-user connection counts
  // ---------------------------------------------------------------------------------------

  /** The user's live connections and the registered ones the hub disconnected for being slow. */
  ghost function Counted(s: HubState, u: User): set<ConnId> {
    set c | c in s.clients + (s.evicted - s.pending) && c in s.conns && s.conns[c].user == u
  }

  ghost predicate CountsExact(s: HubState) {
    forall u :: UserCount(s, u) == |Counted(s, u)|
  }

  /** The map has no entry for a user without counted connections. */
  ghost predicate NoZeroCounts(s: HubState) {
    forall u <- s.userConns :: s.userConns[u] > 0
  }

  lemma StepKeepsNoZeroCounts(s: HubState, e: Event)
    requires NoZeroCounts(s) && Enabled(s, e)
    ensures NoZeroCounts(Apply(s, e))
  {
  }

  lemma RegisterCounts(s: HubState, c: ConnId, u: User)
    requires Enabled(s, Register(c)) && c !in s.clients
    ensures Counted(DoRegister(s, c), u) == Counted(s, u) + if s.conns[c].user == u then {c} else {}
    ensures c !in Counted(s, u)
  {
  }

  lemma RegisterKeepsCounts(s: HubState, c: ConnId)
    requires CountsExact(s) && Enabled(s, Register(c)) && c !in s.clients
    ensures CountsExact(DoRegister(s, c))
  {
    var t := DoRegister(s, c);
    forall u
      ensures UserCount(t, u) == |Counted(t, u)|
    {
      assert UserCount(s, u) == |Counted(s, u)|;
      RegisterCounts(s, c, u);
    }
  }

  lemma UnregisterKeepsCounts(s: HubState, c: ConnId)
    requires CountsExact(s) && c in s.clients && c in s.conns && c !in s.evicted
    ensures CountsExact(DoUnregister(s, c))
  {
    var t := DoUnregister(s, c);
    forall u
      ensures UserCount(t, u) == |Counted(t, u)|
    {
      assert UserCount(s, u) == |Counted(s, u)|;
      if u == s.conns[c].user {
        assert Counted(t, u) == Counted(s, u) - {c} && c in Counted(s, u);
      } else {
        assert Counted(t, u) == Counted(s, u);
      }
    }
  }

  /** Steps that only move clients from live to evicted, or change neither. */
  lemma SameCounted(s: HubState, t: HubState)
    requires CountsExact(s) && t.userConns == s.userConns
    requires t.clients + (t.evicted - t.pending) == s.clients + (s.evicted - s.pending)
    requires forall c <- s.clients + s.evicted :: c in s.conns && c in t.conns && t.conns[c].user == s.conns[c].user
    ensures CountsExact(t)
  {
    forall u
      ensures UserCount(t, u) == |Counted(t, u)|
    {
      assert UserCount(s, u) == |Counted(s, u)|;
      assert Counted(t, u) == Counted(s, u);
    }
  }

  lemma StepKeepsCounts(s: HubState, late: set<(ConnId, Room)>, dead: set<ConnId>, e: Event)
    requires Index(s, late, dead) && CountsExact(s) && Steps(s, e)
    ensures CountsExact(Apply(s, e))
  {
    match e
    case Register(c) => RegisterKeepsCounts(s, c);
    case Unregister(c) =>
      if c in s.clients {
        UnregisterKeepsCounts(s, c);
      } else {
        SameCounted(s, Apply(s, e));
      }
    case ReaderEnds(_) => SameCounted(s, Apply(s, e));
    case Broadcast(room, m) => BroadcastKeepsCounts(s, late, dead, room, m);
    case Connect(_, _) => SameCounted(s, Apply(s, e));
    case Join(_, _) => SameCounted(s, Apply(s, e));
    case Take(_) => SameCounted(s, Apply(s, e));
  }

  /** A slow client was counted and stays so, or waits to be registered and stays uncounted. */
  lemma BroadcastKeepsCounts(s: HubState, late: set<(ConnId, Room)>, dead: set<ConnId>, room: Room, m: Message)
    requires Index(s, late, dead) && CountsExact(s) && !BroadcastPanics(s, room)
    ensures CountsExact(DoBroadcast(s, room, m))
  {
    TargetsOpen(s, room);
    var t := DoBroadcast(s, room, m);
    assert t.clients + (t.evicted - t.pending) == s.clients + (s.evicted - s.pending);
    SameCounted(s, t);
  }

  // ---------------------------------------------------------------------------------------
  // Gap-free delivery
  // ---------------------------------------------------------------------------------------

  /** A room addresses the clients that joined it, the empty room those that were registered. */
  predicate Addressed(log: seq<Event>, c: ConnId, room: Room) {
    if room == "" then Register(c) in log else Join(c, room) in log
  }

  /** The messages broadcast to the client's rooms, or to all, since it joined, in order. */
  function Due(log: seq<Event>, c: ConnId): seq<Message> {
    if log == [] then []
    else
      var init, e := log[..|log| - 1], log[|log| - 1];
      if e.Broadcast? && Addressed(init, c, e.room) then Due(init, c) + [e.message] else Due(init, c)
  }

  ghost predicate NeverSeen(log: seq<Event>, c: ConnId) {
    Register(c) !in log && forall r :: Join(c, r) !in log
  }

  /** What was ever put into a channel: taken by the write pump or still buffered. */
  function Stream(k: Client): seq<Message> {
    k.taken + k.buffer
  }

  /** The client knows the rooms it joined, is live once it was registered, and has been sent
      exactly what is due to it. */
  ghost predicate Served(s: HubState, log: seq<Event>, c: ConnId)
    requires c in s.conns
  {
    && (c in s.clients <==> Register(c) in log)
    && (forall r :: r in s.conns[c].rooms <==> Join(c, r) in log)
    && Stream(s.conns[c]) == Due(log, c)
  }

  /** Every client that has not been disconnected is served. */
  ghost predicate Delivered(s: HubState, log: seq<Event>) {
    && (forall c <- s.conns :: Open(s, c) ==> Served(s, log, c))
    && (forall c :: c !in s.conns ==> NeverSeen(log, c))
  }

  lemma {:induction false} NothingDue(log: seq<Event>, c: ConnId)
    requires NeverSeen(log, c)
    ensures Due(log, c) == []
  {
    if log != [] {
      assert log == log[..|log| - 1] + [log[|log| - 1]];
      NothingDue(log[..|log| - 1], c);
    }
  }

  lemma DueSnoc(log: seq<Event>, e: Event, c: ConnId)
    ensures Due(log + [e], c) ==
            if e.Broadcast? && Addressed(log, c, e.room) then Due(log, c) + [e.message] else Due(log, c)
  {
    assert (log + [e])[..|log|] == log;
  }

  /** A broadcast reaches an open client exactly when it is addressed to it. */
  lemma TargetIffAddressed(s: HubState, late: set<(ConnId, Room)>, dead: set<ConnId>, log: seq<Event>, c: ConnId, room: Room)
    requires Index(s, late, dead) && Open(s, c) && Served(s, log, c)
    ensures c in Targets(s, room) <==> Addressed(log, c, room)
  {
    if room != "" {
      assert Member(s, c, room) <==> (Open(s, c) && room in s.conns[c].rooms) || (c, room) in late;
    }
  }

  lemma OtherEventsSeen(log: seq<Event>, e: Event)
    requires !e.Register? && !e.Join?
    ensures forall c :: Register(c) in log + [e] <==> Register(c) in log
    ensures forall c, r :: Join(c, r) in log + [e] <==> Join(c, r) in log
    ensures forall c :: NeverSeen(log + [e], c) <==> NeverSeen(log, c)
  {
  }

  /** A broadcast serves whoever survives it: a full buffer evicts, it never skips a message. */
  lemma BroadcastDelivers(s: HubState, late: set<(ConnId, Room)>, dead: set<ConnId>, log: seq<Event>, room: Room, m: Message)
    requires Index(s, late, dead) && Delivered(s, log) && !BroadcastPanics(s, room)
    ensures Delivered(DoBroadcast(s, room, m), log + [Broadcast(room, m)])
  {
    var t, e := DoBroadcast(s, room, m), Broadcast(room, m);
    OtherEventsSeen(log, e);
    forall c | c in t.conns && Open(t, c)
      ensures Served(t, log + [e], c)
    {
      TargetIffAddressed(s, late, dead, log, c, room);
      DueSnoc(log, e, c);
      var k := s.conns[c];
      assert k.taken + (k.buffer + [m]) == Stream(k) + [m];
    }
  }

  /** Steps other than broadcasts keep the streams; `e` may be the registration or a join of c. */
  lemma StreamsDelivered(s: HubState, t: HubState, log: seq<Event>, e: Event, c: ConnId)
    requires Open(s, c) && Served(s, log, c) && !e.Broadcast?
    requires Open(t, c) && Stream(t.conns[c]) == Stream(s.conns[c])
    requires t.conns[c].rooms == s.conns[c].rooms + if e.Join? && e.c == c then {e.room} else {}
    requires c in t.clients <==> c in s.clients || e == Register(c)
    ensures Served(t, log + [e], c)
  {
    DueSnoc(log, e, c);
    assert Register(c) in log + [e] <==> Register(c) in log || e == Register(c);
    forall r
      ensures r in t.conns[c].rooms <==> Join(c, r) in log + [e]
    {
      assert Join(c, r) in log + [e] <==> Join(c, r) in log || e == Join(c, r);
    }
  }

  lemma ConnectDelivers(s: HubState, log: seq<Event>, c: ConnId, user: User)
    requires Delivered(s, log) && c !in s.conns && c !in s.clients
    ensures Delivered(DoConnect(s, c, user), log + [Connect(c, user)])
  {
    var t, e := DoConnect(s, c, user), Connect(c, user);
    OtherEventsSeen(log, e);
    forall d | d in t.conns && Open(t, d)
      ensures Served(t, log + [e], d)
    {
      if d == c {
        NothingDue(log + [e], c);
      } else {
        StreamsDelivered(s, t, log, e, d);
      }
    }
  }

  lemma TakeKeepsStream(s: HubState, c: ConnId)
    requires Enabled(s, Take(c))
    ensures Stream(DoTake(s, c).conns[c]) == Stream(s.conns[c])
  {
    var k := s.conns[c];
    assert k.taken + [k.buffer[0]] + k.buffer[1..] == k.taken + k.buffer;
  }

  lemma QuietStepDelivers(s: HubState, log: seq<Event>, e: Event)
    requires WellFormed(s) && Delivered(s, log) && Enabled(s, e) && !e.Connect? && !e.Broadcast?
    ensures Delivered(Apply(s, e), log + [e])
  {
    var t := Apply(s, e);
    if e.Take? {
      TakeKeepsStream(s, e.c);
    }
    forall c | c in t.conns && Open(t, c)
      ensures Served(t, log + [e], c)
    {
      StreamsDelivered(s, t, log, e, c);
    }
  }

  lemma StepDelivers(s: HubState, late: set<(ConnId, Room)>, dead: set<ConnId>, log: seq<Event>, e: Event)
    requires Index(s, late, dead) && Delivered(s, log) && Steps(s, e)
    ensures Delivered(Apply(s, e), log + [e])
  {
    match e
    case Connect(c, user) => ConnectDelivers(s, log, c, user);
    case Broadcast(room, m) => BroadcastDelivers(s, late, dead, log, room, m);
    case _ => QuietStepDelivers(s, log, e);
  }

  // ---------------------------------------------------------------------------------------
  // Over whole runs
  // ---------------------------------------------------------------------------------------

  lemma EmptyHub()
    ensures Index(EMPTY, {}, {}) && CountsExact(EMPTY) && Delivered(EMPTY, [])
  {
    forall u
      ensures UserCount(EMPTY, u) == |Counted(EMPTY, u)|
    {
      assert Counted(EMPTY, u) == {};
    }
  }

  lemma StepKeepsLaw(s: HubState, late: set<(ConnId, Room)>, dead: set<ConnId>, log: seq<Event>, e: Event)
    requires Index(s, late, dead) && CountsExact(s) && NoZeroCounts(s) && Delivered(s, log) && Steps(s, e)
    ensures Index(Apply(s, e), late + LateJoin(s, e), dead + DeadRegistration(s, e))
    ensures CountsExact(Apply(s, e)) && NoZeroCounts(Apply(s, e)) && Delivered(Apply(s, e), log + [e])
  {
    StepKeepsNoZeroCounts(s, e);
    StepKeepsIndex(s, late, dead, e);
    StepKeepsCounts(s, late, dead, e);
    StepDelivers(s, late, dead, log, e);
  }

  /** Over every run up to its first panic, whoever joins whenever: the room index is exact, the
      per-user counts are the live and slow-evicted registered connections, and every client that
      has not been disconnected has been sent exactly the messages addressed to it, in order. */
  lemma {:induction false} HubLaw(log: seq<Event>)
    requires Runs(log)
    ensures Index(Exec(log), LateJoins(log), DeadRegistrations(log))
    ensures CountsExact(Exec(log)) && NoZeroCounts(Exec(log)) && Delivered(Exec(log), log)
  {
    if log == [] {
      EmptyHub();
    } else {
      var init, e := log[..|log| - 1], log[|log| - 1];
      HubLaw(init);
      StepKeepsLaw(Exec(init), LateJoins(init), DeadRegistrations(init), init, e);
      assert log == init + [e];
    }
  }

  /** When an event panics, in terms of what happened before. */
  ghost predicate PanicCause(log: seq<Event>, e: Event)
    requires Runs(log)
  {
    match e
    case Broadcast(room, _) =>
      if room == "" then DeadRegistrations(log) != {} else exists c :: (c, room) in LateJoins(log)
    case Unregister(c) => c in DeadRegistrations(log)
    case _ => false
  }

  /** The hub panics exactly when a message goes to a room that somebody joined after being evicted
      as slow, or when a client registered after being evicted is sent to or unregistered. */
  lemma PanicsIff(log: seq<Event>, e: Event)
    requires Runs(log) && Enabled(Exec(log), e)
    ensures Panics(Exec(log), e) <==> PanicCause(log, e)
  {
    HubLaw(log);
    var s, late, dead := Exec(log), LateJoins(log), DeadRegistrations(log);
    if e.Broadcast? {
      if e.room == "" {
        assert BroadcastPanics(s, "") <==> exists c :: c in s.clients && Shut(s, c);
        assert dead != {} ==> exists c :: c in dead;
      } else {
        RoomPanicsIff(s, late, dead, e.room);
      }
    }
  }

  lemma RoomPanicsIff(s: HubState, late: set<(ConnId, Room)>, dead: set<ConnId>, room: Room)
    requires Index(s, late, dead) && room != ""
    ensures BroadcastPanics(s, room) <==> exists c :: (c, room) in late
  {
    forall c
      ensures c in Targets(s, room) && Shut(s, c) <==> (c, room) in late
    {
      assert Member(s, c, room) <==> (Open(s, c) && room in s.conns[c].rooms) || (c, room) in late;
    }
    if BroadcastPanics(s, room) {
      var c :| c in Targets(s, room) && c in s.conns && s.conns[c].closed;
      assert (c, room) in late;
    }
  }

  /** A join makes the broadcasts to its room panic exactly when the channel of the joining
      client is closed, or they did so already. */
  lemma JoinPanicsIff(s: HubState, c: ConnId, room: Room)
    requires c in s.conns && room != ""
    ensures BroadcastPanics(DoJoin(s, c, room), room) <==> s.conns[c].closed || BroadcastPanics(s, room)
  {
    var t := DoJoin(s, c, room);
    assert Targets(t, room) == Targets(s, room) + {c};
    forall d | d in s.conns
      ensures t.conns[d].closed == s.conns[d].closed
    {
    }
  }

  /** Every join so far was made by a registered client that was not disconnected. */
  ghost predicate LiveJoinsOnly(log: seq<Event>)
    requires Runs(log)
  {
    log == [] ||
    var init, e := log[..|log| - 1], log[|log| - 1];
    LiveJoinsOnly(init) && (e.Join? ==> e.c in Exec(init).clients && Open(Exec(init), e.c))
  }

  /** A client waiting to be registered that has joined nothing is never closed. */
  ghost predicate PendingIdle(s: HubState) {
    forall c <- s.pending :: Open(s, c) && s.conns[c].rooms == {}
  }

  lemma StepKeepsPendingIdle(s: HubState, e: Event)
    requires Index(s, {}, {}) && PendingIdle(s) && Steps(s, e) && (e.Join? ==> e.c in s.clients)
    ensures PendingIdle(Apply(s, e))
  {
    if e.Broadcast? {
      PendingNotAddressed(s, e.room);
    }
  }

  lemma {:induction false} LiveJoinsLeaveNoTrace(log: seq<Event>)
    requires Runs(log) && LiveJoinsOnly(log)
    ensures LateJoins(log) == {} && DeadRegistrations(log) == {} && PendingIdle(Exec(log))
  {
    if log != [] {
      var init, e := log[..|log| - 1], log[|log| - 1];
      LiveJoinsLeaveNoTrace(init);
      HubLaw(init);
      StepKeepsPendingIdle(Exec(init), e);
    }
  }

  lemma PendingNotAddressed(s: HubState, room: Room)
    requires Index(s, {}, {}) && PendingIdle(s)
    ensures Targets(s, room) !! s.pending
  {
    forall c | c in s.pending
      ensures c !in Targets(s, room)
    {
      assert room in s.rooms ==> (Member(s, c, room) <==> Open(s, c) && room in s.conns[c].rooms);
    }
  }

  /** As long as only live clients join rooms, nothing panics. */
  lemma LiveJoinsNeverPanic(log: seq<Event>, e: Event)
    requires Runs(log) && LiveJoinsOnly(log) && Enabled(Exec(log), e)
    ensures !Panics(Exec(log), e)
  {
    LiveJoinsLeaveNoTrace(log);
    PanicsIff(log, e);
  }

  // ---------------------------------------------------------------------------------------
  // Closing
  // ---------------------------------------------------------------------------------------

  /** The channels the hub closes in a step. */
  function Closes(s: HubState, e: Event): set<ConnId> {
    match e
    case Unregister(c) => {c} * s.clients
    case Broadcast(room, _) => Slow(s, room)
    case _ => {}
  }

  /** From s to t the channel of c is closed only if it was open and is among `closing`; it is
      never reopened, and nothing is put into it once closed. */
  ghost predicate ClosedWell(s: HubState, t: HubState, closing: set<ConnId>, c: ConnId) {
    && c in s.conns && c in t.conns
    && (c in closing ==> !s.conns[c].closed)
    && (t.conns[c].closed <==> s.conns[c].closed || c in closing)
    && (s.conns[c].closed ==> Stream(t.conns[c]) == Stream(s.conns[c]))
  }

  lemma BroadcastClosesWell(s: HubState, room: Room, m: Message, c: ConnId)
    requires WellFormed(s) && !BroadcastPanics(s, room) && c in s.conns
    ensures ClosedWell(s, DoBroadcast(s, room, m), Slow(s, room), c)
  {
    TargetsOpen(s, room);
    var sent := Sent(s.conns, Targets(s, room), m);
    assert DoBroadcast(s, room, m).conns == Closed(sent, Slow(s, room));
  }

  /** A step that does not panic closes only open channels, and a closed channel is neither
      reopened nor written to; the write pump may still drain it. */
  lemma ClosedOnceNeverUsed(s: HubState, e: Event, c: ConnId)
    requires WellFormed(s) && Steps(s, e) && c in s.conns
    ensures ClosedWell(s, Apply(s, e), Closes(s, e), c)
  {
    match e
    case Broadcast(room, m) => BroadcastClosesWell(s, room, m, c);
    case Take(d) => TakeKeepsStream(s, d);
    case _ =>
  }

  /** How far the client is behind: what is due to it and not yet taken by its write pump. */
  ghost function Backlog(log: seq<Event>, c: ConnId): int
    requires Runs(log) && c in Exec(log).conns
  {
    |Due(log, c)| - |Exec(log).conns[c].taken|
  }

  /** A channel is closed exactly when its registered client is unregistered, or when a message is
      addressed to a client that is 256 messages behind. */
  lemma ClosesIff(log: seq<Event>, e: Event, c: ConnId)
    requires Runs(log) && Steps(Exec(log), e) && Open(Exec(log), c)
    ensures Shut(Apply(Exec(log), e), c) <==>
            || (e == Unregister(c) && Register(c) in log)
            || (e.Broadcast? && Addressed(log, c, e.room) && Backlog(log, c) == 256)
  {
    var s := Exec(log);
    HubLaw(log);
    assert |Stream(s.conns[c])| == |s.conns[c].taken| + |s.conns[c].buffer|;
    ClosedOnceNeverUsed(s, e, c);
    if e.Broadcast? {
      TargetIffAddressed(s, LateJoins(log), DeadRegistrations(log), log, c, e.room);
    }
  }

  // ---------------------------------------------------------------------------------------
  // Counts and live connections
  // ---------------------------------------------------------------------------------------

  ghost function LiveOf(s: HubState, u: User): set<ConnId> {
    set c | c in s.clients && c in s.conns && s.conns[c].user == u
  }

  lemma LiveAreCounted(s: HubState, u: User)
    requires CountsExact(s)
    ensures |LiveOf(s, u)| <= UserCount(s, u)
  {
    var live, counted := LiveOf(s, u), Counted(s, u);
    assert UserCount(s, u) == |counted|;
    assert live <= counted;
    assert counted == live + (counted - live);
  }

  /** The count of a user never falls below the number of that user's live connections. */
  lemma CountsCoverLive(log: seq<Event>, u: User)
    requires Runs(log)
    ensures |LiveOf(Exec(log), u)| <= UserCount(Exec(log), u)
  {
    HubLaw(log);
    LiveAreCounted(Exec(log), u);
  }

  // ---------------------------------------------------------------------------------------
  // Both kinds of panic do happen
  // ---------------------------------------------------------------------------------------

  lemma RunsOn(log: seq<Event>, e: Event)
    requires Runs(log) && Steps(Exec(log), e)
    ensures Runs(log + [e]) && Exec(log + [e]) == Apply(Exec(log), e)
    ensures LateJoins(log + [e]) == LateJoins(log) + LateJoin(Exec(log), e)
    ensures DeadRegistrations(log + [e]) == DeadRegistrations(log) + DeadRegistration(Exec(log), e)
  {
    assert (log + [e])[..|log|] == log;
  }

  /** A client, registered or not, that joined one room, after n messages to the room. */
  ghost predicate Filled(s: HubState, room: Room, registered: bool, n: nat) {
    && s.conns.Keys == {0} && s.readers == {0} && s.leaving == {} && s.evicted == {}
    && (if registered then s.clients == {0} && s.pending == {} else s.clients == {} && s.pending == {0})
    && s.rooms.Keys == {room} && s.rooms[room] == {0}
    && s.conns[0].rooms == {room} && !s.conns[0].closed && |s.conns[0].buffer| == n
  }

  /** The client alone in the hub, registered or not. */
  ghost predicate Alone(s: HubState, registered: bool) {
    && s.conns.Keys == {0} && s.readers == {0} && s.leaving == {} && s.evicted == {} && s.rooms == map[]
    && (if registered then s.clients == {0} && s.pending == {} else s.clients == {} && s.pending == {0})
    && s.conns[0].rooms == {} && !s.conns[0].closed && s.conns[0].buffer == []
  }

  lemma ConnectAlone(user: User, registered: bool) returns (log: seq<Event>)
    ensures Runs(log) && Alone(Exec(log), registered) && LateJoins(log) == {} && DeadRegistrations(log) == {}
  {
    RunsOn([], Connect(0, user));
    log := [] + [Connect(0, user)];
    if registered {
      RunsOn(log, Register(0));
      log := log + [Register(0)];
    }
  }

  lemma JoinAlone(user: User, room: Room, registered: bool) returns (log: seq<Event>)
    ensures Runs(log) && Filled(Exec(log), room, registered, 0) && LateJoins(log) == {} && DeadRegistrations(log) == {}
  {
    log := ConnectAlone(user, registered);
    RunsOn(log, Join(0, room));
    log := log + [Join(0, room)];
  }

  /** Messages fill the buffer of a client whose write pump does not take any. */
  lemma {:induction false} FillBuffer(user: User, room: Room, registered: bool, m: Message, n: nat) returns (log: seq<Event>)
    requires room != "" && n <= BUFFER
    ensures Runs(log) && Filled(Exec(log), room, registered, n) && LateJoins(log) == {} && DeadRegistrations(log) == {}
  {
    if n == 0 {
      log := JoinAlone(user, room, registered);
    } else {
      log := FillBuffer(user, room, registered, m, n - 1);
      assert !BroadcastPanics(Exec(log), room);
      assert Slow(Exec(log), room) == {};
      RunsOn(log, Broadcast(room, m));
      log := log + [Broadcast(room, m)];
      assert Exec(log).rooms[room] == {0};
    }
  }

  /** One more message evicts it; its read pump goes on. */
  lemma EvictFull(user: User, room: Room, registered: bool, m: Message) returns (log: seq<Event>)
    requires room != ""
    ensures Runs(log) && LateJoins(log) == {} && DeadRegistrations(log) == {}
    ensures var s := Exec(log);
            && s.conns.Keys == {0} && s.readers == {0} && s.evicted == {0} && s.clients == {} && s.conns[0].closed
            && (0 in s.pending <==> !registered)
  {
    log := FillBuffer(user, room, registered, m, BUFFER);
    assert !BroadcastPanics(Exec(log), room);
    assert Slow(Exec(log), room) == {0};
    RunsOn(log, Broadcast(room, m));
    log := log + [Broadcast(room, m)];
  }

  /** A registered client is evicted as slow while its read pump goes on, and subscribes to another
      room: the next message to that room panics. */
  lemma LateJoinPanics(user: User, first: Room, room: Room, m: Message) returns (log: seq<Event>)
    requires first != "" && room != ""
    ensures Runs(log) && DeadRegistrations(log) == {}
    ensures Panics(Exec(log), Broadcast(room, m))
  {
    log := EvictFull(user, first, true, m);
    RunsOn(log, Join(0, room));
    log := log + [Join(0, room)];
    assert (0, room) in LateJoins(log);
    PanicsIff(log, Broadcast(room, m));
  }

  /** A client evicted while it waits in the register channel is registered with a closed channel;
      when its read pump stops, its unregistration closes the channel again. Nobody joined late. */
  lemma DeadRegistrationPanics(user: User, room: Room, m: Message) returns (log: seq<Event>)
    requires room != ""
    ensures Runs(log) && LateJoins(log) == {}
    ensures Panics(Exec(log), Unregister(0)) && Enabled(Exec(log), Unregister(0))
    ensures Panics(Exec(log), Broadcast("", m))
  {
    log := EvictFull(user, room, false, m);
    RunsOn(log, Register(0));
    log := log + [Register(0)];
    RunsOn(log, ReaderEnds(0));
    log := log + [ReaderEnds(0)];
    assert DeadRegistrations(log) == {0};
    PanicsIff(log, Unregister(0));
    PanicsIff(log, Broadcast("", m));
  }
}
