/** The hub object: the cases of Run and JoinRoom as methods over its maps, each proved to make
    exactly the step of the hub state machine. */
module HubServer {
  import opened Hub

  class Server {
    var conns: map<ConnId, Client>
    var pending: set<ConnId>
    var leaving: set<ConnId>
    var clients: set<ConnId>
    var rooms: map<Room, set<ConnId>>
    var userConns: map<User, nat>
    ghost var readers: set<ConnId>
    ghost var evicted: set<ConnId>

    ghost function View(): HubState
      reads this
    {
      HubState(conns, readers, leaving, pending, clients, rooms, userConns, evicted)
    }

    constructor ()
      ensures View() == EMPTY
    {
      conns, pending, leaving, clients, rooms, userConns := map[], {}, {}, {}, map[], map[];
      readers, evicted := {}, {};
    }

    /** Hub.Register: a new client enters the register channel. */
    method Connect(c: ConnId, user: User)
      requires c !in conns
      modifies this
      ensures View() == DoConnect(old(View()), c, user)
    {
      conns := conns[c := Client(user, {}, [], false, [])];
      pending := pending + {c};
      readers := readers + {c};
    }

    /** The deferred exit of ReadPump. */
    method EndReader(c: ConnId)
      modifies this
      ensures View() == DoReaderEnds(old(View()), c)
    {
      leaving := leaving + {c};
      readers := readers - {c};
    }

    /** The register case of Run. */
    method HandleRegister(c: ConnId)
      requires c in conns
      modifies this
      ensures View() == DoRegister(old(View()), c)
    {
      pending := pending - {c};
      clients := clients + {c};
      var u := conns[c].user;
      userConns := userConns[u := (if u in userConns then userConns[u] else 0) + 1];
    }

    /** JoinRoom. */
    method JoinRoom(c: ConnId, room: Room)
      requires c in conns
      modifies this
      ensures View() == DoJoin(old(View()), c, room)
    {
      if room !in rooms {
        rooms := rooms[room := {}];
      }
      rooms := rooms[room := rooms[room] + {c}];
      conns := conns[c := conns[c].(rooms := conns[c].rooms + {room})];
      assert rooms == old(rooms)[room := InRoom(old(View()), room) + {c}];
    }

    /** Deleting a client from every room it knows. */
    method LeaveRooms(c: ConnId)
      requires c in conns
      modifies this`rooms
      ensures rooms == Leave(conns, old(rooms), {c})
    {
      var todo := conns[c].rooms;
      while todo != {}
        invariant todo <= conns[c].rooms
        invariant rooms.Keys == old(rooms).Keys
        invariant forall r <- rooms :: rooms[r] == if r in conns[c].rooms - todo then old(rooms)[r] - {c} else old(rooms)[r]
        decreases |todo|
      {
        var r :| r in todo;
        if r in rooms {
          rooms := rooms[r := rooms[r] - {c}];
        }
        todo := todo - {r};
      }
      forall r | r in rooms
        ensures rooms[r] == Leave(conns, old(rooms), {c})[r]
      {
        LeaveOne(conns, old(rooms), c, r);
      }
    }

    /** The unregister case of Run: a client that is no longer live is ignored. */
    method HandleUnregister(c: ConnId) returns (panicked: bool)
      requires c in conns
      modifies this
      ensures panicked <==> Panics(old(View()), Unregister(c))
      ensures !panicked ==> View() == DoUnregister(old(View()), c)
    {
      panicked := false;
      leaving := leaving - {c};
      if c in clients {
        clients := clients - {c};
        if conns[c].closed {
          return true;
        }
        ghost var before := conns;
        LeaveRooms(c);
        conns := conns[c := conns[c].(closed := true)];
        ClosedOne(before, c);
        var u := conns[c].user;
        if u in userConns && userConns[u] > 0 {
          userConns := userConns[u := userConns[u] - 1];
          if userConns[u] == 0 {
            userConns := userConns - {u};
          }
        }
        assert userConns == Decremented(old(userConns), u);
      }
    }

    /** The sends of one broadcast, in any order over the targets. */
    method SendAll(targets: set<ConnId>, m: Message) returns (slow: set<ConnId>, panicked: bool)
      requires targets <= conns.Keys
      modifies this`conns
      ensures panicked <==> !AllOpen(old(conns), targets)
      ensures !panicked ==> conns == Sent(old(conns), targets, m) && slow == Full(old(conns), targets)
    {
      slow, panicked := {}, false;
      var todo := targets;
      SentNone(conns, m);
      while todo != {}
        invariant todo <= targets
        invariant conns == Sent(old(conns), targets - todo, m)
        invariant slow == Full(old(conns), targets - todo)
        invariant AllOpen(old(conns), targets - todo)
        decreases |todo|
      {
        var c :| c in todo;
        SentMore(old(conns), targets - todo, c, m);
        assert targets - (todo - {c}) == targets - todo + {c};
        if conns[c].closed {
          panicked := true;
          return;
        }
        if |conns[c].buffer| < BUFFER {
          conns := conns[c := conns[c].(buffer := conns[c].buffer + [m])];
        } else {
          slow := slow + {c};
        }
        todo := todo - {c};
      }
      assert targets - todo == targets;
    }

    /** Disconnecting one slow client. */
    method EvictOne(c: ConnId)
      requires c in conns
      modifies this
      ensures View() == Evict(old(View()), {c})
    {
      ghost var before := conns;
      LeaveRooms(c);
      conns := conns[c := conns[c].(closed := true)];
      ClosedOne(before, c);
      clients := clients - {c};
      evicted := evicted + {c};
    }

    /** Disconnecting the slow clients, in any order. */
    method EvictAll(slow: set<ConnId>)
      requires slow <= conns.Keys
      modifies this
      ensures View() == Evict(old(View()), slow)
    {
      ghost var s := View();
      EvictNone(s);
      var todo := slow;
      assert slow - todo == {};
      while todo != {}
        invariant todo <= slow <= s.conns.Keys
        invariant View() == Evict(s, slow - todo)
        decreases |todo|
      {
        var c :| c in todo;
        EvictMore(s, slow - todo, c);
        assert slow - (todo - {c}) == slow - todo + {c};
        EvictOne(c);
        todo := todo - {c};
      }
      assert slow - todo == slow;
    }

    /** The broadcast case of Run. It panics exactly when a target's channel is closed. */
    method HandleBroadcast(room: Room, m: Message) returns (panicked: bool)
      requires WellFormed(View())
      modifies this
      ensures panicked <==> BroadcastPanics(old(View()), room)
      ensures !panicked ==> View() == DoBroadcast(old(View()), room, m)
    {
      var targets := if room == "" then clients else if room in rooms then rooms[room] else {};
      assert targets == Targets(View(), room);
      var slow;
      slow, panicked := SendAll(targets, m);
      if !panicked {
        FullAreSlow(old(View()), room);
        EvictAll(slow);
      }
    }
  }

  ghost predicate AllOpen(conns: map<ConnId, Client>, cs: set<ConnId>) {
    forall c <- cs :: c in conns ==> !conns[c].closed
  }

  function Full(conns: map<ConnId, Client>, cs: set<ConnId>): set<ConnId> {
    set c | c in cs && c in conns && |conns[c].buffer| >= BUFFER
  }

  lemma FullAreSlow(s: HubState, room: Room)
    ensures Full(s.conns, Targets(s, room)) == Slow(s, room)
  {
  }

  lemma SentNone(conns: map<ConnId, Client>, m: Message)
    ensures Sent(conns, {}, m) == conns
  {
  }

  /** One more send after a set of them. */
  lemma SentMore(conns: map<ConnId, Client>, done: set<ConnId>, c: ConnId, m: Message)
    requires c in conns && c !in done
    ensures Sent(conns, done, m)[c] == conns[c]
    ensures Sent(conns, done + {c}, m) ==
            (if |conns[c].buffer| < BUFFER
             then Sent(conns, done, m)[c := conns[c].(buffer := conns[c].buffer + [m])]
             else Sent(conns, done, m))
    ensures Full(conns, done + {c}) ==
            if |conns[c].buffer| < BUFFER then Full(conns, done) else Full(conns, done) + {c}
    ensures AllOpen(conns, done + {c}) <==> AllOpen(conns, done) && !conns[c].closed
  {
  }

  lemma LeaveOne(conns: map<ConnId, Client>, rooms: map<Room, set<ConnId>>, c: ConnId, r: Room)
    requires c in conns && r in rooms
    ensures Leave(conns, rooms, {c})[r] == if r in conns[c].rooms then rooms[r] - {c} else rooms[r]
  {
  }

  lemma ClosedOne(conns: map<ConnId, Client>, c: ConnId)
    requires c in conns
    ensures Closed(conns, {c}) == conns[c := conns[c].(closed := true)]
  {
  }

  lemma EvictNone(s: HubState)
    ensures Evict(s, {}) == s
  {
    assert Closed(s.conns, {}) == s.conns;
    forall r | r in s.rooms
      ensures Leave(s.conns, s.rooms, {})[r] == s.rooms[r]
    {
    }
    assert Leave(s.conns, s.rooms, {}) == s.rooms;
  }

  /** Evicting one more client after a set of them is evicting the larger set. */
  lemma EvictMore(s: HubState, cs: set<ConnId>, c: ConnId)
    requires c in s.conns
    ensures Evict(Evict(s, cs), {c}) == Evict(s, cs + {c})
  {
    var t := Evict(s, cs);
    assert Closed(Closed(s.conns, cs), {c}) == Closed(s.conns, cs + {c});
    forall r | r in s.rooms
      ensures Leave(t.conns, t.rooms, {c})[r] == Leave(s.conns, s.rooms, cs + {c})[r]
    {
      assert t.conns[c].rooms == s.conns[c].rooms;
    }
    assert Leave(t.conns, t.rooms, {c}) == Leave(s.conns, s.rooms, cs + {c});
  }
}
