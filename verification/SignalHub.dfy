/** The in-memory signaling exchange: internal/signal/hub.go. */
module SignalHub {
  import opened Octets

  const CAPACITY: nat := 32

  datatype Envelope = Envelope(kind: Bytes, from: Bytes, to: Bytes, room: Bytes, sdp: Bytes, ice: Bytes)

  type Queues = map<Bytes, seq<Envelope>>
  type Rooms = map<Bytes, Queues>

  function RoomID(a: Bytes, b: Bytes): Bytes {
    if Less(a, b) then a + Ascii("|") + b else b + Ascii("|") + a
  }

  lemma RoomIDSymmetric(a: Bytes, b: Bytes)
    ensures RoomID(a, b) == RoomID(b, a)
  {
    LessTotal(a, b);
  }

  /** The envelope with its room filled in. */
  function Routed(env: Envelope): Envelope {
    if env.room == [] && env.to != [] && env.from != [] then env.(room := RoomID(env.from, env.to)) else env
  }

  function Open(rooms: Rooms, room: Bytes): Rooms {
    if room in rooms then rooms else rooms[room := map[]]
  }

  function Register(rooms: Rooms, room: Bytes, dev: Bytes): (r: Rooms)
    ensures room in r && dev in r[room]
  {
    var r := Open(rooms, room);
    if dev in r[room] then r else r[room := r[room][dev := []]]
  }

  function Queue(rooms: Rooms, room: Bytes, dev: Bytes): seq<Envelope> {
    if room in rooms && dev in rooms[room] then rooms[room][dev] else []
  }

  /** A non-blocking channel send. */
  function Offer(rooms: Rooms, room: Bytes, dev: Bytes, env: Envelope): Rooms
    requires room in rooms && dev in rooms[room]
  {
    var q := rooms[room][dev];
    if |q| < CAPACITY then rooms[room := rooms[room][dev := q + [env]]] else rooms
  }

  function Broadcast(q: Queues, env: Envelope): Queues {
    map dev | dev in q :: if dev == env.from || |q[dev]| >= CAPACITY then q[dev] else q[dev] + [env]
  }

  function PublishSpec(rooms: Rooms, env: Envelope): (Rooms, bool) {
    var e := Routed(env);
    if e.to == [] then
      var r := Open(rooms, e.room);
      (r[e.room := Broadcast(r[e.room], e)], true)
    else
      var r := Register(rooms, e.room, e.to);
      (Offer(r, e.room, e.to, e), |r[e.room][e.to]| < CAPACITY)
  }

  function Pop(rooms: Rooms, room: Bytes, dev: Bytes, n: nat): Rooms
    requires room in rooms && dev in rooms[room] && n <= |rooms[room][dev]|
  {
    rooms[room := rooms[room][dev := rooms[room][dev][n..]]]
  }

  lemma PopNone(rooms: Rooms, room: Bytes, dev: Bytes)
    requires room in rooms && dev in rooms[room]
    ensures Pop(rooms, room, dev, 0) == rooms
  {
    assert rooms[room][dev][0..] == rooms[room][dev];
    assert rooms[room][dev := rooms[room][dev]] == rooms[room];
  }

  lemma PopAgain(rooms: Rooms, room: Bytes, dev: Bytes, n: nat)
    requires room in rooms && dev in rooms[room] && n < |rooms[room][dev]|
    ensures Pop(Pop(rooms, room, dev, n), room, dev, 1) == Pop(rooms, room, dev, n + 1)
  {
    var q := rooms[room][dev];
    assert q[n..][1..] == q[n + 1..];
    assert rooms[room][dev := q[n..]][dev := q[n + 1..]] == rooms[room][dev := q[n + 1..]];
  }

  predicate Registered(rooms: Rooms, room: Bytes, dev: Bytes) {
    room in rooms && dev in rooms[room]
  }

  /** What others can do to the rooms in one atomic step: a room is opened, a device registers, an envelope is
      sent to a registered device, or a device's queue gives up its head. A broadcast is several sends. */
  datatype Tick =
    | Opened(room: Bytes)
    | Joined(room: Bytes, dev: Bytes)
    | Sent(room: Bytes, dev: Bytes, env: Envelope)
    | Took(room: Bytes, dev: Bytes)

  function Elapse(rooms: Rooms, t: Tick): Rooms {
    match t
    case Opened(room) => Open(rooms, room)
    case Joined(room, dev) => Register(rooms, room, dev)
    case Sent(room, dev, env) => if Registered(rooms, room, dev) then Offer(rooms, room, dev, env) else rooms
    case Took(room, dev) =>
      if Registered(rooms, room, dev) && rooms[room][dev] != [] then Pop(rooms, room, dev, 1) else rooms
  }

  function ElapseAll(rooms: Rooms, ticks: seq<Tick>): Rooms {
    if ticks == [] then rooms else Elapse(ElapseAll(rooms, ticks[..|ticks| - 1]), ticks[|ticks| - 1])
  }

  lemma ElapseKeepsRegistered(rooms: Rooms, t: Tick, room: Bytes, dev: Bytes)
    requires Registered(rooms, room, dev)
    ensures Registered(Elapse(rooms, t), room, dev)
  {
  }

  class Hub {
    var rooms: Rooms

    constructor ()
      ensures rooms == map[]
    {
      rooms := map[];
    }

    method Publish(env: Envelope) returns (ok: bool)
      modifies this
      ensures (rooms, ok) == PublishSpec(old(rooms), env)
    {
      var e := Routed(env);
      if e.to == [] {
        rooms := Open(rooms, e.room);
        var before := rooms[e.room];
        var todo := before.Keys;
        var queues := before;
        while todo != {}
          invariant todo <= before.Keys == queues.Keys
          invariant forall d :: d in before && d in todo ==> queues[d] == before[d]
          invariant forall d :: d in before && d !in todo ==> queues[d] == Broadcast(before, e)[d]
          decreases |todo|
        {
          var d :| d in todo;
          todo := todo - {d};
          if d != e.from && |queues[d]| < CAPACITY {
            queues := queues[d := queues[d] + [e]];
          }
        }
        assert queues == Broadcast(before, e);
        rooms := rooms[e.room := queues];
        return true;
      }
      rooms := Register(rooms, e.room, e.to);
      if |rooms[e.room][e.to]| < CAPACITY {
        rooms := Offer(rooms, e.room, e.to, e);
        return true;
      }
      return false;
    }

    /** `Subscribe` registers under the lock and then waits without it. `meanwhile` is what others do until it
        takes the head of its queue or gives up on an empty one. */
    method Subscribe(room: Bytes, dev: Bytes, meanwhile: seq<Tick>) returns (env: Option<Envelope>)
      modifies this
      ensures
        var r := ElapseAll(Register(old(rooms), room, dev), meanwhile);
        if Queue(r, room, dev) == [] then env == None && rooms == r
        else Registered(r, room, dev) && env == Some(r[room][dev][0]) && rooms == Pop(r, room, dev, 1)
    {
      rooms := Register(rooms, room, dev);
      ghost var r := rooms;
      for i := 0 to |meanwhile|
        invariant rooms == ElapseAll(r, meanwhile[..i]) && Registered(rooms, room, dev)
      {
        ElapseKeepsRegistered(rooms, meanwhile[i], room, dev);
        assert meanwhile[..i + 1][..i] == meanwhile[..i];
        rooms := Elapse(rooms, meanwhile[i]);
      }
      assert meanwhile[..|meanwhile|] == meanwhile;
      if rooms[room][dev] == [] {
        return None;
      }
      env := Some(rooms[room][dev][0]);
      rooms := Pop(rooms, room, dev, 1);
    }

    method Drain(room: Bytes, dev: Bytes, max: int) returns (out: seq<Envelope>)
      modifies this
      ensures
        var r := Register(old(rooms), room, dev);
        var q := r[room][dev];
        out == q[..if max <= 0 then 0 else if max < |q| then max else |q|] && rooms == Pop(r, room, dev, |out|)
    {
      rooms := Register(rooms, room, dev);
      ghost var r := rooms;
      ghost var q := rooms[room][dev];
      out := [];
      PopNone(r, room, dev);
      var i := 0;
      while i < max && rooms[room][dev] != []
        invariant 0 <= i == |out| <= |q| && (max <= 0 ==> i == 0) && (0 < max ==> i <= max)
        invariant out == q[..i] && rooms == Pop(r, room, dev, i)
      {
        out := out + [rooms[room][dev][0]];
        rooms := Pop(rooms, room, dev, 1);
        PopAgain(r, room, dev, i);
        i := i + 1;
      }
    }
  }

  // ------------------------------------------------------------------ interleavings

  /** A broadcast under way: it holds the hub's lock and still has these queues to visit. */
  datatype Cast = Cast(env: Envelope, left: set<Bytes>)

  type Address = (Bytes, Bytes)
  type Log = map<Address, seq<Envelope>>

  function Logged(m: Log, a: Address): seq<Envelope> {
    if a in m then m[a] else []
  }

  function Append(m: Log, a: Address, env: Envelope): Log {
    m[a := Logged(m, a) + [env]]
  }

  /** The exchange with its history. Receivers do not hold the lock, so a receive may fall between two
      sends of one broadcast. */
  datatype Exchange = Exchange(
    rooms: Rooms, lock: Option<Cast>, published: seq<Envelope>, accepted: Log, delivered: Log)

  datatype Action =
    | Publish(env: Envelope)
    | SendNext(dev: Bytes)
    | Unlock
    | Join(room: Bytes, dev: Bytes)
    | Receive(room: Bytes, dev: Bytes)

  const START := Exchange(map[], None, [], map[], map[])

  function SendTo(x: Exchange, env: Envelope, dev: Bytes): Exchange
    requires env.room in x.rooms && dev in x.rooms[env.room]
  {
    if |x.rooms[env.room][dev]| < CAPACITY then
      x.(rooms := Offer(x.rooms, env.room, dev, env), accepted := Append(x.accepted, (env.room, dev), env))
    else x
  }

  /** One atomic step; an action that is not enabled changes nothing. */
  function Step(x: Exchange, a: Action): Exchange {
    match a
    case Publish(env0) =>
      var env := Routed(env0);
      if x.lock.Some? then x
      else if env.to != [] then
        SendTo(x.(rooms := Register(x.rooms, env.room, env.to), published := x.published + [env]), env, env.to)
      else
        var r := Open(x.rooms, env.room);
        x.(rooms := r, lock := Some(Cast(env, r[env.room].Keys - {env.from})), published := x.published + [env])
    case SendNext(dev) =>
      if CanSendNext(x, dev) then
        SendTo(x, x.lock.value.env, dev).(lock := Some(x.lock.value.(left := x.lock.value.left - {dev})))
      else x
    case Unlock =>
      if x.lock.Some? && x.lock.value.left == {} then x.(lock := None) else x
    case Join(room, dev) =>
      if x.lock.Some? then x else x.(rooms := Register(x.rooms, room, dev))
    case Receive(room, dev) =>
      if Queue(x.rooms, room, dev) == [] then x
      else x.(rooms := Pop(x.rooms, room, dev, 1),
              delivered := Append(x.delivered, (room, dev), x.rooms[room][dev][0]))
  }

  function Run(actions: seq<Action>): Exchange {
    if actions == [] then START else Step(Run(actions[..|actions| - 1]), actions[|actions| - 1])
  }

  /** a is b with some elements left out. */
  predicate Subsequence(a: seq<Envelope>, b: seq<Envelope>) {
    if a == [] then true
    else if b == [] then false
    else
      (a[|a| - 1] == b[|b| - 1] && Subsequence(a[..|a| - 1], b[..|b| - 1])) || Subsequence(a, b[..|b| - 1])
  }

  lemma SubsequenceGrows(a: seq<Envelope>, b: seq<Envelope>, x: Envelope)
    requires Subsequence(a, b)
    ensures Subsequence(a, b + [x]) && Subsequence(a + [x], b + [x])
  {
    assert (b + [x])[..|b|] == b && (a + [x])[..|a|] == a;
  }

  predicate Addressed(env: Envelope, room: Bytes, dev: Bytes) {
    env.room == room && (env.to == dev || (env.to == [] && env.from != dev))
  }

  /** What every step keeps at one address, in terms of that address's own history. */
  ghost predicate Consistent(delivered: seq<Envelope>, queue: seq<Envelope>, accepted: seq<Envelope>,
                             published: seq<Envelope>, room: Bytes, dev: Bytes)
  {
    && delivered + queue == accepted
    && |queue| <= CAPACITY
    && (forall i :: 0 <= i < |accepted| ==> Addressed(accepted[i], room, dev))
    && Subsequence(accepted, published)
  }

  /** A broadcast under way is the latest publication and has not yet reached the queues it has left. */
  ghost predicate CastPending(c: Cast, accepted: seq<Envelope>, published: seq<Envelope>, room: Bytes, dev: Bytes) {
    && published != [] && published[|published| - 1] == c.env && c.env.to == [] && c.env.from !in c.left
    && (c.env.room == room && dev in c.left ==> Subsequence(accepted, published[..|published| - 1]))
  }

  ghost predicate Sound(x: Exchange, room: Bytes, dev: Bytes) {
    var accepted := Logged(x.accepted, (room, dev));
    && Consistent(Logged(x.delivered, (room, dev)), Queue(x.rooms, room, dev), accepted, x.published, room, dev)
    && (x.lock.Some? ==> CastPending(x.lock.value, accepted, x.published, room, dev))
  }

  lemma SendEffect(x: Exchange, env: Envelope, to: Bytes, room: Bytes, dev: Bytes)
    requires env.room in x.rooms && to in x.rooms[env.room]
    ensures
      var x' := SendTo(x, env, to);
      var q, acc := Queue(x.rooms, room, dev), Logged(x.accepted, (room, dev));
      var hit := env.room == room && to == dev && |q| < CAPACITY;
      && Queue(x'.rooms, room, dev) == (if hit then q + [env] else q)
      && Logged(x'.accepted, (room, dev)) == (if hit then acc + [env] else acc)
      && x'.delivered == x.delivered && x'.published == x.published && x'.lock == x.lock
  {
  }

  lemma SendKeeps(delivered: seq<Envelope>, queue: seq<Envelope>, accepted: seq<Envelope>,
                  earlier: seq<Envelope>, env: Envelope, room: Bytes, dev: Bytes)
    requires Consistent(delivered, queue, accepted, earlier, room, dev)
    requires |queue| < CAPACITY && Addressed(env, room, dev)
    ensures Consistent(delivered, queue + [env], accepted + [env], earlier + [env], room, dev)
  {
    hide Subsequence, Addressed;
    SubsequenceGrows(accepted, earlier, env);
    assert delivered + (queue + [env]) == (delivered + queue) + [env];
    forall i | 0 <= i < |accepted + [env]|
      ensures Addressed((accepted + [env])[i], room, dev)
    {
      assert i < |accepted| ==> (accepted + [env])[i] == accepted[i];
    }
  }

  lemma RegisterKeepsQueues(rooms: Rooms, r: Bytes, d: Bytes, room: Bytes, dev: Bytes)
    ensures Queue(Register(rooms, r, d), room, dev) == Queue(rooms, room, dev)
    ensures Queue(Open(rooms, r), room, dev) == Queue(rooms, room, dev)
  {
  }

  lemma TargetedKeeps(x: Exchange, env: Envelope, room: Bytes, dev: Bytes)
    requires Sound(x, room, dev) && x.lock.None? && env.to != []
    ensures
      var y := x.(rooms := Register(x.rooms, env.room, env.to), published := x.published + [env]);
      Sound(SendTo(y, env, env.to), room, dev)
  {
    hide Queue, Register, Logged, SendTo, Subsequence;
    var accepted, queue := Logged(x.accepted, (room, dev)), Queue(x.rooms, room, dev);
    var y := x.(rooms := Register(x.rooms, env.room, env.to), published := x.published + [env]);
    RegisterKeepsQueues(x.rooms, env.room, env.to, room, dev);
    SendEffect(y, env, env.to, room, dev);
    if env.room == room && env.to == dev && |queue| < CAPACITY {
      SendKeeps(Logged(x.delivered, (room, dev)), queue, accepted, x.published, env, room, dev);
    } else {
      SubsequenceGrows(accepted, x.published, env);
    }
  }

  lemma PublishKeeps(x: Exchange, env0: Envelope, room: Bytes, dev: Bytes)
    requires Sound(x, room, dev)
    ensures Sound(Step(x, Publish(env0)), room, dev)
  {
    hide Queue, Register, Open, Logged, SendTo, Subsequence, Routed;
    var env := Routed(env0);
    if x.lock.None? {
      if env.to != [] {
        TargetedKeeps(x, env, room, dev);
      } else {
        SubsequenceGrows(Logged(x.accepted, (room, dev)), x.published, env);
        assert (x.published + [env])[..|x.published|] == x.published;
        RegisterKeepsQueues(x.rooms, env.room, env.to, room, dev);
      }
    }
  }

  lemma AddressedByCast(env: Envelope, room: Bytes, dev: Bytes)
    requires env.room == room && env.to == [] && env.from != dev
    ensures Addressed(env, room, dev)
  {
  }

  predicate CanSendNext(x: Exchange, to: Bytes) {
    x.lock.Some? && to in x.lock.value.left && x.lock.value.env.room in x.rooms
    && to in x.rooms[x.lock.value.env.room]
  }

  /** One send of a broadcast, seen from one address. */
  lemma SendNextEffect(x: Exchange, to: Bytes, room: Bytes, dev: Bytes)
    requires CanSendNext(x, to)
    ensures
      var x', c := Step(x, SendNext(to)), x.lock.value;
      var q, acc := Queue(x.rooms, room, dev), Logged(x.accepted, (room, dev));
      var hit := c.env.room == room && to == dev && |q| < CAPACITY;
      && Queue(x'.rooms, room, dev) == (if hit then q + [c.env] else q)
      && Logged(x'.accepted, (room, dev)) == (if hit then acc + [c.env] else acc)
      && x'.delivered == x.delivered && x'.published == x.published
      && x'.lock == Some(c.(left := c.left - {to}))
  {
    SendEffect(x, x.lock.value.env, to, room, dev);
    hide SendTo, Queue, Logged;
  }

  lemma CastAdvances(c: Cast, accepted: seq<Envelope>, published: seq<Envelope>, to: Bytes, room: Bytes, dev: Bytes)
    requires CastPending(c, accepted, published, room, dev)
    ensures CastPending(c.(left := c.left - {to}), accepted, published, room, dev)
    ensures to == dev ==> CastPending(c.(left := c.left - {to}), accepted + [c.env], published, room, dev)
  {
    hide Subsequence;
  }

  lemma CastReaches(delivered: seq<Envelope>, queue: seq<Envelope>, accepted: seq<Envelope>,
                    published: seq<Envelope>, c: Cast, room: Bytes, dev: Bytes)
    requires Consistent(delivered, queue, accepted, published, room, dev)
    requires CastPending(c, accepted, published, room, dev) && dev in c.left && c.env.room == room
    requires |queue| < CAPACITY
    ensures Consistent(delivered, queue + [c.env], accepted + [c.env], published, room, dev)
  {
    hide Subsequence, Addressed;
    var earlier := published[..|published| - 1];
    assert published == earlier + [c.env];
    AddressedByCast(c.env, room, dev);
    SendKeeps(delivered, queue, accepted, earlier, c.env, room, dev);
  }

  lemma SendNextKeeps(x: Exchange, to: Bytes, room: Bytes, dev: Bytes)
    requires Sound(x, room, dev)
    ensures Sound(Step(x, SendNext(to)), room, dev)
  {
    if CanSendNext(x, to) {
      hide Step, Queue, Logged, Consistent, CastPending;
      var c, queue, accepted := x.lock.value, Queue(x.rooms, room, dev), Logged(x.accepted, (room, dev));
      SendNextEffect(x, to, room, dev);
      CastAdvances(c, accepted, x.published, to, room, dev);
      if c.env.room == room && to == dev && |queue| < CAPACITY {
        CastReaches(Logged(x.delivered, (room, dev)), queue, accepted, x.published, c, room, dev);
      }
    }
  }

  lemma ReceiveEffect(x: Exchange, r: Bytes, d: Bytes, room: Bytes, dev: Bytes)
    ensures
      var x' := Step(x, Receive(r, d));
      var q, done := Queue(x.rooms, room, dev), Logged(x.delivered, (room, dev));
      && x'.accepted == x.accepted && x'.published == x.published && x'.lock == x.lock
      && (if (r, d) == (room, dev) && q != [] then
            Queue(x'.rooms, room, dev) == q[1..] && Logged(x'.delivered, (room, dev)) == done + [q[0]]
          else Queue(x'.rooms, room, dev) == q && Logged(x'.delivered, (room, dev)) == done)
  {
  }

  lemma ReceiveKeeps(x: Exchange, r: Bytes, d: Bytes, room: Bytes, dev: Bytes)
    requires Sound(x, room, dev)
    ensures Sound(Step(x, Receive(r, d)), room, dev)
  {
    var q, done := Queue(x.rooms, room, dev), Logged(x.delivered, (room, dev));
    ReceiveEffect(x, r, d, room, dev);
    hide Step, Queue, Logged, Subsequence, CastPending, Addressed;
    if q != [] {
      assert (done + [q[0]]) + q[1..] == done + q;
    }
  }

  lemma StepKeeps(x: Exchange, a: Action, room: Bytes, dev: Bytes)
    requires Sound(x, room, dev)
    ensures Sound(Step(x, a), room, dev)
  {
    match a
    case Publish(env) => PublishKeeps(x, env, room, dev);
    case SendNext(to) => SendNextKeeps(x, to, room, dev);
    case Unlock =>
    case Join(r, d) => RegisterKeepsQueues(x.rooms, r, d, room, dev);
    case Receive(r, d) => ReceiveKeeps(x, r, d, room, dev);
  }

  /** In every interleaving, at every address: delivered messages followed by queued ones are exactly the
      accepted ones in order; accepted messages are a subsequence of what was published, each meant for
      this room and device; and no queue exceeds its capacity. */
  lemma {:induction false} DeliveryConserved(actions: seq<Action>, room: Bytes, dev: Bytes)
    ensures Sound(Run(actions), room, dev)
  {
    if actions != [] {
      DeliveryConserved(actions[..|actions| - 1], room, dev);
      StepKeeps(Run(actions[..|actions| - 1]), actions[|actions| - 1], room, dev);
    }
  }

  /** A targeted publish is refused exactly when the target's queue is full, and a refusal changes no
      queue; otherwise exactly the target's queue grows, by the routed envelope. */
  lemma TargetedPublish(rooms: Rooms, env: Envelope, room: Bytes, dev: Bytes)
    requires Routed(env).to != []
    ensures
      var e := Routed(env);
      var (rooms', ok) := PublishSpec(rooms, env);
      && (ok <==> |Queue(rooms, e.room, e.to)| < 32)
      && Queue(rooms', room, dev) ==
           if ok && (room, dev) == (e.room, e.to) then Queue(rooms, room, dev) + [e] else Queue(rooms, room, dev)
  {
  }

  /** A broadcast never fails. It reaches exactly the other registered devices of its room whose queue is not full;
      every other queue stays as it was. */
  lemma BroadcastReaches(rooms: Rooms, env: Envelope, room: Bytes, dev: Bytes)
    requires env.to == []
    ensures
      var (rooms', ok) := PublishSpec(rooms, env);
      var q := Queue(rooms, room, dev);
      && ok && Queue(rooms', room, dev) ==
           if room == env.room && Registered(rooms, room, dev) && dev != env.from && |q| < 32 then q + [env] else q
  {
  }

  /** Where an envelope goes: to its own room, or to the one its two devices share. */
  lemma RoomOf(env: Envelope)
    ensures Routed(env).to == env.to && Routed(env).from == env.from
    ensures env.room != [] || env.to == [] || env.from == [] ==> Routed(env) == env
    ensures env.room == [] && env.to != [] && env.from != [] ==>
      Routed(env).room == (if Less(env.from, env.to) then env.from + ['|' as int] + env.to
                           else env.to + ['|' as int] + env.from)
  {
  }

  /** Replying inside a derived room lands in the same room, whoever speaks. */
  lemma RepliesShareRoom(a: Envelope, b: Envelope)
    requires a.room == [] && b.room == [] && a.from != [] && a.to != [] && b.from == a.to && b.to == a.from
    ensures Routed(a).room == Routed(b).room
  {
    RoomIDSymmetric(a.from, a.to);
  }

  // ------------------------------------------------------------------ the machine and the class

  /** A targeted publication of the machine does to the rooms what `Publish` does, and is logged as accepted
      exactly when `Publish` reports success. */
  lemma TargetedStepIsPublish(x: Exchange, env: Envelope)
    requires x.lock.None? && Routed(env).to != []
    ensures
      var e := Routed(env);
      var x' := Step(x, Publish(env));
      && x'.rooms == PublishSpec(x.rooms, env).0 && x'.lock.None? && x'.published == x.published + [e]
      && x'.accepted == if PublishSpec(x.rooms, env).1 then Append(x.accepted, (e.room, e.to), e) else x.accepted
  {
  }

  /** The broadcast's visits, in any order. */
  function Visits(x: Exchange, devs: seq<Bytes>): Exchange
    decreases |devs|
  {
    if devs == [] then x else Visits(Step(x, SendNext(devs[0])), devs[1..])
  }

  /** The queues once the broadcast has visited these devices. */
  function Reached(q: Queues, env: Envelope, devs: set<Bytes>): Queues {
    map dev | dev in q :: if dev !in devs || |q[dev]| >= CAPACITY then q[dev] else q[dev] + [env]
  }

  ghost predicate Casting(x: Exchange, c: Cast) {
    x.lock == Some(c) && c.env.room in x.rooms && c.left <= x.rooms[c.env.room].Keys
  }

  lemma VisitReaches(x: Exchange, c: Cast, d: Bytes)
    requires Casting(x, c)
    ensures
      var x' := Step(x, SendNext(d));
      && Casting(x', c.(left := c.left - {d}))
      && x'.rooms == x.rooms[c.env.room := Reached(x.rooms[c.env.room], c.env, c.left * {d})]
  {
    var q := x.rooms[c.env.room];
    if d in c.left {
      if |q[d]| < CAPACITY {
        assert Reached(q, c.env, c.left * {d}) == q[d := q[d] + [c.env]];
      } else {
        assert Reached(q, c.env, c.left * {d}) == q;
      }
    } else {
      assert c.left - {d} == c.left && Reached(q, c.env, c.left * {d}) == q;
    }
  }

  lemma {:induction false} VisitsReach(x: Exchange, c: Cast, devs: seq<Bytes>, all: set<Bytes>)
    requires Casting(x, c) && all == set d | d in devs
    ensures
      var x' := Visits(x, devs);
      && Casting(x', c.(left := c.left - all))
      && x'.rooms == x.rooms[c.env.room := Reached(x.rooms[c.env.room], c.env, c.left * all)]
    decreases |devs|
  {
    var room, q := c.env.room, x.rooms[c.env.room];
    if devs == [] {
      assert c.left - all == c.left && Reached(q, c.env, c.left * all) == q;
    } else {
      var d, c' := devs[0], c.(left := c.left - {devs[0]});
      var rest := set e | e in devs[1..];
      assert devs == [d] + devs[1..];
      assert all == {d} + rest;
      hide Step, Reached;
      LeftSplits(c.left, d, rest);
      VisitReaches(x, c, d);
      VisitsReach(Step(x, SendNext(d)), c', devs[1..], rest);
      ReachedTwice(q, c.env, c.left * {d}, c'.left * rest);
    }
  }

  lemma LeftSplits(left: set<Bytes>, d: Bytes, rest: set<Bytes>)
    ensures left - ({d} + rest) == left - {d} - rest
    ensures left * ({d} + rest) == left * {d} + (left - {d}) * rest
  {
  }

  lemma ReachedTwice(q: Queues, env: Envelope, a: set<Bytes>, b: set<Bytes>)
    requires a !! b
    ensures Reached(Reached(q, env, a), env, b) == Reached(q, env, a + b)
  {
  }

  /** A broadcast that visits all its queues in any order, with no receive in between, is what the loop of
      `Publish` computes. */
  lemma BroadcastIsPublish(x: Exchange, env: Envelope, devs: seq<Bytes>)
    requires x.lock.None? && Routed(env).to == []
    requires forall d :: d in Open(x.rooms, Routed(env).room)[Routed(env).room] ==> d in devs
    ensures
      var x' := Step(Visits(Step(x, Publish(env)), devs), Unlock);
      x'.rooms == PublishSpec(x.rooms, env).0 && x'.lock.None?
  {
    var e := Routed(env);
    var q := Open(x.rooms, e.room)[e.room];
    var c := Cast(e, q.Keys - {e.from});
    var all := set d | d in devs;
    assert c.left - all == {} && c.left * all == c.left;
    hide Routed, Step, Visits, Open, Reached, Broadcast;
    BroadcastBegins(x, env);
    var y := Step(x, Publish(env));
    VisitsReach(y, c, devs, all);
    UnlockEnds(Visits(y, devs), c.(left := {}));
    ReachedAll(q, e);
  }

  lemma BroadcastBegins(x: Exchange, env: Envelope)
    requires x.lock.None? && Routed(env).to == []
    ensures
      var e := Routed(env);
      var r := Open(x.rooms, e.room);
      var y := Step(x, Publish(env));
      y.rooms == r && Casting(y, Cast(e, r[e.room].Keys - {e.from}))
  {
  }

  lemma UnlockEnds(x: Exchange, c: Cast)
    requires Casting(x, c) && c.left == {}
    ensures Step(x, Unlock).rooms == x.rooms && Step(x, Unlock).lock.None?
  {
  }

  lemma ReachedAll(q: Queues, env: Envelope)
    ensures Reached(q, env, q.Keys - {env.from}) == Broadcast(q, env)
  {
  }

  /** A subscription that finds its queue undisturbed joins and then receives. */
  lemma SubscribeIsJoinAndReceive(x: Exchange, room: Bytes, dev: Bytes)
    requires x.lock.None?
    ensures
      var r := Register(x.rooms, room, dev);
      var x' := Step(Step(x, Join(room, dev)), Receive(room, dev));
      if r[room][dev] == [] then x'.rooms == r && x'.delivered == x.delivered
      else x'.rooms == Pop(r, room, dev, 1) && x'.delivered == Append(x.delivered, (room, dev), r[room][dev][0])
  {
  }

  function Receives(x: Exchange, room: Bytes, dev: Bytes, n: nat): Exchange {
    if n == 0 then x else Step(Receives(x, room, dev, n - 1), Receive(room, dev))
  }

  lemma ReceiveTakes(x: Exchange, room: Bytes, dev: Bytes)
    requires Registered(x.rooms, room, dev) && x.rooms[room][dev] != []
    ensures
      var x' := Step(x, Receive(room, dev));
      && x'.rooms == Pop(x.rooms, room, dev, 1)
      && Logged(x'.delivered, (room, dev)) == Logged(x.delivered, (room, dev)) + [x.rooms[room][dev][0]]
  {
  }

  lemma {:induction false} ReceivesPop(x: Exchange, room: Bytes, dev: Bytes, n: nat)
    requires Registered(x.rooms, room, dev) && n <= |x.rooms[room][dev]|
    ensures
      var x' := Receives(x, room, dev, n);
      && x'.rooms == Pop(x.rooms, room, dev, n)
      && Logged(x'.delivered, (room, dev)) == Logged(x.delivered, (room, dev)) + x.rooms[room][dev][..n]
  {
    hide Step, Logged, Pop;
    var q, done := x.rooms[room][dev], Logged(x.delivered, (room, dev));
    if n == 0 {
      PopNone(x.rooms, room, dev);
      assert q[..0] == [] && done + [] == done;
    } else {
      ReceivesPop(x, room, dev, n - 1);
      PopAgain(x.rooms, room, dev, n - 1);
      PoppedQueue(x.rooms, room, dev, n - 1);
      ReceiveTakes(Receives(x, room, dev, n - 1), room, dev);
      PrefixGrows(done, q, n);
    }
  }

  lemma PoppedQueue(rooms: Rooms, room: Bytes, dev: Bytes, n: nat)
    requires Registered(rooms, room, dev) && n <= |rooms[room][dev]|
    ensures
      var r := Pop(rooms, room, dev, n);
      Registered(r, room, dev) && r[room][dev] == rooms[room][dev][n..]
  {
  }

  lemma PrefixGrows(done: seq<Envelope>, q: seq<Envelope>, n: nat)
    requires 0 < n <= |q|
    ensures done + q[..n - 1] + [q[n - 1..][0]] == done + q[..n]
  {
    assert q[..n] == q[..n - 1] + [q[n - 1]];
  }

  /** An undisturbed `Drain` joins and then receives as often as it returns envelopes, and those are what the
      machine logs as delivered. */
  lemma DrainIsJoinAndReceives(x: Exchange, room: Bytes, dev: Bytes, max: int)
    requires x.lock.None?
    ensures
      var r := Register(x.rooms, room, dev);
      var n := if max <= 0 then 0 else if max < |r[room][dev]| then max else |r[room][dev]|;
      var x' := Receives(Step(x, Join(room, dev)), room, dev, n);
      && x'.rooms == Pop(r, room, dev, n)
      && Logged(x'.delivered, (room, dev)) == Logged(x.delivered, (room, dev)) + r[room][dev][..n]
  {
    var q := Register(x.rooms, room, dev)[room][dev];
    ReceivesPop(Step(x, Join(room, dev)), room, dev, if max <= 0 then 0 else if max < |q| then max else |q|);
  }
}
