/** RoomThrottle of the browser client: per-room rate limit that keeps only the latest message. */
module RoomThrottle {
  import opened Wrappers

  type Room = string
  type Message = string

  /** Milliseconds between callbacks of a room; 0 for rooms that are not throttled. */
  function Interval(room: Room): nat {
    if room == "tasks" then 100 else if room == "vms" then 250 else if room == "inventory" then 500 else 0
  }

  /** A deferred message and the time its timer was set for. */
  datatype Deferred = Deferred(message: Message, due: int)

  datatype Fire = Fire(message: Message, time: int)

  /** `offered` and `fired` record what happened in each room. */
  datatype State = State(
    lastFired: map<Room, int>,
    pending: map<Room, Deferred>,
    clock: int,
    offered: map<Room, seq<Message>>,
    fired: map<Room, seq<Fire>>)

  const EMPTY: State := State(map[], map[], 0, map[], map[])

  datatype Event = Offer(room: Room, message: Message, now: int) | TimerFires(room: Room, now: int)

  function Last(s: State, room: Room): int {
    if room in s.lastFired then s.lastFired[room] else 0
  }

  function OfferedIn(s: State, room: Room): seq<Message> {
    if room in s.offered then s.offered[room] else []
  }

  function FiredIn(s: State, room: Room): seq<Fire> {
    if room in s.fired then s.fired[room] else []
  }

  /** The clock never goes back, and a timer does not go off early. */
  predicate Enabled(s: State, e: Event) {
    && s.clock <= e.now
    && (e.TimerFires? ==> e.room in s.pending && s.pending[e.room].due <= e.now)
  }

  function Fired(s: State, room: Room, f: Fire): map<Room, seq<Fire>> {
    s.fired[room := FiredIn(s, room) + [f]]
  }

  function Apply(s: State, e: Event): State
    requires Enabled(s, e)
  {
    match e
    case Offer(room, message, now) =>
      var t := s.(clock := now, offered := s.offered[room := OfferedIn(s, room) + [message]]);
      if Interval(room) == 0 then t.(fired := Fired(s, room, Fire(message, now)))
      else if now - Last(s, room) >= Interval(room) then
        t.(lastFired := s.lastFired[room := now], pending := s.pending - {room},
           fired := Fired(s, room, Fire(message, now)))
      else t.(pending := s.pending[room := Deferred(message, now + (Interval(room) - (now - Last(s, room))))])
    case TimerFires(room, now) =>
      s.(clock := now, lastFired := s.lastFired[room := now], pending := s.pending - {room},
         fired := Fired(s, room, Fire(s.pending[room].message, now)))
  }

  predicate Runs(events: seq<Event>)
    decreases |events|, 0
  {
    events == [] || (Runs(events[..|events| - 1]) && Enabled(Exec(events[..|events| - 1]), events[|events| - 1]))
  }

  function Exec(events: seq<Event>): State
    requires Runs(events)
    decreases |events|, 1
  {
    if events == [] then EMPTY else Apply(Exec(events[..|events| - 1]), events[|events| - 1])
  }

  // ---------------------------------------------------------------------------------------
  // Laws
  // ---------------------------------------------------------------------------------------

  /** Fires are at least the interval apart. */
  ghost predicate Spaced(fires: seq<Fire>, interval: int) {
    forall i, j :: 0 <= i < j < |fires| ==> fires[j].time - fires[i].time >= interval
  }

  function PendingIn(s: State, room: Room): Option<Deferred> {
    if room in s.pending then Some(s.pending[room]) else None
  }

  /** What holds of one room: its fires, its offers, its pending message, the time of its last fire
      as the object remembers it, and the clock. */
  ghost predicate Law(interval: nat, fires: seq<Fire>, offered: seq<Message>, pending: Option<Deferred>, last: int,
                      clock: int)
  {
    && Spaced(fires, interval)
    && (fires != [] ==> fires[|fires| - 1].time <= clock)
    && (fires != [] && interval > 0 ==> last == fires[|fires| - 1].time)
    && (pending.Some? ==> interval > 0 && pending.value.due == last + interval)
    && (pending.Some? ==> offered != [] && pending.value.message == offered[|offered| - 1])
    && (pending.None? && offered != [] ==>
          fires != [] && fires[|fires| - 1].message == offered[|offered| - 1])
  }

  ghost predicate RoomInv(s: State, room: Room) {
    Law(Interval(room), FiredIn(s, room), OfferedIn(s, room), PendingIn(s, room), Last(s, room), s.clock)
  }

  lemma SpacedSnoc(fires: seq<Fire>, interval: int, f: Fire)
    requires Spaced(fires, interval) && interval >= 0
    requires fires != [] ==> f.time - fires[|fires| - 1].time >= interval
    ensures Spaced(fires + [f], interval)
  {
    var fires' := fires + [f];
    forall i, j | 0 <= i < j < |fires'|
      ensures fires'[j].time - fires'[i].time >= interval
    {
      assert j < |fires| ==> fires'[j] == fires[j];
      assert i < |fires| - 1 ==> fires[|fires| - 1].time - fires[i].time >= interval;
    }
  }

  /** A message that fires at once. */
  lemma FireNow(interval: nat, fires: seq<Fire>, offered: seq<Message>, pending: Option<Deferred>, last: int,
                clock: int, m: Message, now: int)
    requires Law(interval, fires, offered, pending, last, clock) && clock <= now
    requires interval == 0 || now - last >= interval
    ensures Law(interval, fires + [Fire(m, now)], offered + [m], None, now, now)
  {
    SpacedSnoc(fires, interval, Fire(m, now));
  }

  /** A timer that delivers the pending message. */
  lemma FireDeferred(interval: nat, fires: seq<Fire>, offered: seq<Message>, pending: Option<Deferred>, last: int,
                     clock: int, now: int)
    requires Law(interval, fires, offered, pending, last, clock) && clock <= now
    requires pending.Some? && pending.value.due <= now
    ensures Law(interval, fires + [Fire(pending.value.message, now)], offered, None, now, now)
  {
    SpacedSnoc(fires, interval, Fire(pending.value.message, now));
  }

  lemma OfferKeepsRoom(s: State, room: Room, m: Message, now: int)
    requires Enabled(s, Offer(room, m, now)) && RoomInv(s, room)
    ensures RoomInv(Apply(s, Offer(room, m, now)), room)
  {
    var t := Apply(s, Offer(room, m, now));
    if Interval(room) == 0 || now - Last(s, room) >= Interval(room) {
      FireNow(Interval(room), FiredIn(s, room), OfferedIn(s, room), PendingIn(s, room), Last(s, room), s.clock, m, now);
      assert FiredIn(t, room) == FiredIn(s, room) + [Fire(m, now)];
    } else {
      assert FiredIn(t, room) == FiredIn(s, room);
    }
  }

  lemma TimerKeepsRoom(s: State, room: Room, now: int)
    requires Enabled(s, TimerFires(room, now)) && RoomInv(s, room)
    ensures RoomInv(Apply(s, TimerFires(room, now)), room)
  {
    FireDeferred(Interval(room), FiredIn(s, room), OfferedIn(s, room), PendingIn(s, room), Last(s, room), s.clock, now);
  }

  lemma StepKeepsRoom(s: State, e: Event, room: Room)
    requires Enabled(s, e) && RoomInv(s, room)
    ensures RoomInv(Apply(s, e), room)
  {
    if e.room == room {
      match e
      case Offer(_, m, now) => OfferKeepsRoom(s, room, m, now);
      case TimerFires(_, now) => TimerKeepsRoom(s, room, now);
    } else {
      var t := Apply(s, e);
      assert FiredIn(t, room) == FiredIn(s, room) && OfferedIn(t, room) == OfferedIn(s, room);
      assert PendingIn(t, room) == PendingIn(s, room) && Last(t, room) == Last(s, room);
    }
  }

  /** Over every sequence of messages and timers: two fires of a room are at least its interval
      apart, at most one message is pending, and it is the latest offered one; when none is pending
      the last fired message is the last one offered. */
  lemma {:induction false} ThrottleLaw(events: seq<Event>, room: Room)
    requires Runs(events)
    ensures RoomInv(Exec(events), room)
  {
    if events != [] {
      ThrottleLaw(events[..|events| - 1], room);
      StepKeepsRoom(Exec(events[..|events| - 1]), events[|events| - 1], room);
    }
  }

  /** When the room last fired; the epoch if it never did. */
  function LastFireTime(s: State, room: Room): int {
    var fires := FiredIn(s, room);
    if fires == [] then 0 else fires[|fires| - 1].time
  }

  /** In any run a message fires at once exactly when its room is not throttled or the interval has
      passed since the room last fired; otherwise it waits for exactly the rest of the interval. */
  lemma FiresAtOnceIff(events: seq<Event>, room: Room, m: Message, now: int)
    requires Runs(events) && Enabled(Exec(events), Offer(room, m, now))
    ensures var s, t := Exec(events), Apply(Exec(events), Offer(room, m, now));
            if Interval(room) == 0 || now >= LastFireTime(s, room) + Interval(room)
            then FiredIn(t, room) == FiredIn(s, room) + [Fire(m, now)] && room !in t.pending
            else FiredIn(t, room) == FiredIn(s, room) && room in t.pending
                 && t.pending[room] == Deferred(m, LastFireTime(s, room) + Interval(room))
  {
    ThrottleLaw(events, room);
    NeverFiredInv(events, room);
  }

  lemma StepKeepsUnfired(s: State, e: Event, room: Room)
    requires Enabled(s, e) && (FiredIn(s, room) == [] ==> Last(s, room) == 0)
    ensures FiredIn(Apply(s, e), room) == [] ==> Last(Apply(s, e), room) == 0
  {
    var t := Apply(s, e);
    assert |FiredIn(t, room)| >= |FiredIn(s, room)|;
    if Last(t, room) != Last(s, room) {
      assert e.room == room && |FiredIn(t, room)| == |FiredIn(s, room)| + 1;
    }
  }

  lemma {:induction false} NeverFiredInv(events: seq<Event>, room: Room)
    requires Runs(events)
    ensures FiredIn(Exec(events), room) == [] ==> Last(Exec(events), room) == 0
  {
    if events != [] {
      NeverFiredInv(events[..|events| - 1], room);
      StepKeepsUnfired(Exec(events[..|events| - 1]), events[|events| - 1], room);
    }
  }

  /** A pending message can be delivered from the moment its interval has passed, and then the room
      has fired what was offered to it last. */
  lemma PendingIsDelivered(events: seq<Event>, room: Room, now: int)
    requires Runs(events) && room in Exec(events).pending
    requires Exec(events).clock <= now && LastFireTime(Exec(events), room) + Interval(room) <= now
    ensures Enabled(Exec(events), TimerFires(room, now))
    ensures var s, t := Exec(events), Apply(Exec(events), TimerFires(room, now));
            && room !in t.pending && OfferedIn(s, room) != []
            && FiredIn(t, room) == FiredIn(s, room) + [Fire(OfferedIn(s, room)[|OfferedIn(s, room)| - 1], now)]
  {
    ThrottleLaw(events, room);
    NeverFiredInv(events, room);
    assert PendingIn(Exec(events), room).Some?;
  }

  /** The throttled rooms of the client. */
  lemma ThrottledRooms(room: Room)
    ensures Interval(room) > 0 <==> room in ["tasks", "vms", "inventory"]
    ensures Interval("tasks") == 100 && Interval("vms") == 250 && Interval("inventory") == 500
  {
  }

  class Throttle {
    var lastFired: map<Room, int>
    var pending: map<Room, Deferred>
    ghost var clock: int
    ghost var offered: map<Room, seq<Message>>
    ghost var fired: map<Room, seq<Fire>>

    ghost function View(): State
      reads this
    {
      State(lastFired, pending, clock, offered, fired)
    }

    constructor ()
      ensures View() == EMPTY
    {
      lastFired, pending, clock, offered, fired := map[], map[], 0, map[], map[];
    }

    /** shouldFire. `fires` tells whether the callback ran at once. */
    method ShouldFire(room: Room, message: Message, now: int) returns (fires: bool)
      requires Enabled(View(), Offer(room, message, now))
      modifies this
      ensures View() == Apply(old(View()), Offer(room, message, now))
      ensures fires <==> FiredIn(View(), room) != FiredIn(old(View()), room)
    {
      clock := now;
      offered := offered[room := OfferedIn(old(View()), room) + [message]];
      var throttleMs := Interval(room);
      if throttleMs == 0 {
        fired := Fired(old(View()), room, Fire(message, now));
        return true;
      }
      var last := if room in lastFired then lastFired[room] else 0;
      var elapsed := now - last;
      if room in pending {
        pending := pending - {room};
      }
      if elapsed >= throttleMs {
        lastFired := lastFired[room := now];
        fired := Fired(old(View()), room, Fire(message, now));
        assert pending == old(pending) - {room};
        return true;
      }
      var delay := throttleMs - elapsed;
      pending := pending[room := Deferred(message, now + delay)];
      assert pending == old(pending)[room := Deferred(message, now + delay)];
      return false;
    }

    /** The timer callback of the pending message. */
    method OnTimer(room: Room, now: int) returns (message: Message)
      requires Enabled(View(), TimerFires(room, now))
      modifies this
      ensures View() == Apply(old(View()), TimerFires(room, now))
      ensures message == old(pending)[room].message
    {
      message := pending[room].message;
      fired := Fired(View(), room, Fire(message, now));
      clock := now;
      lastFired := lastFired[room := now];
      pending := pending - {room};
    }
  }
}
