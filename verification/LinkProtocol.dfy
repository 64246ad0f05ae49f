/** The link under concurrency: any number of requester threads exchanging at once, each
    step between two lock operations on its own, interleaved with the receive callback. */
module LinkProtocol {
  import opened Wrappers
  import opened SysExCodec
  import opened DeviceLink

  // ---- states and steps ----------------------------------------------------------------------

  /** Where a requester stands in its exchange. `Crashed` is a poll that found no entry. */
  datatype Phase = Registered | Polling(emptyPolls: nat) | Returned(result: Option<Bytes>) | Crashed

  datatype Requester = Requester(key: Bytes, phase: Phase)

  /** Where the receive callback stands: it holds no frame, has parsed a data reply but not
      yet taken the lock, or has found nobody waiting and is about to call the handler. */
  datatype Receiver = Idle | Parsed(reply: DataReply) | Forwarding(reply: DataReply)

  datatype State = State(deviceId: int, pending: Pending, receiver: Receiver, requesters: map<nat, Requester>)

  datatype Action =
    | Register(thread: nat, key: Bytes)
    | Send(thread: nat)
    | Poll(thread: nat)
    | GiveUp(thread: nat)
    | Pop(thread: nat)
    | Arrive(frame: Bytes)
    | Store
    | Forward

  /** The one thing asked of callers: no two requests in flight share an address. */
  predicate Enabled(retryCount: nat, s: State, a: Action) {
    match a
    case Register(t, key) => t !in s.requesters && forall u | u in s.requesters :: s.requesters[u].key != key
    case Send(t) => t in s.requesters && s.requesters[t].phase == Registered
    case Poll(t) => t in s.requesters && s.requesters[t].phase.Polling? && s.requesters[t].phase.emptyPolls < retryCount
    case GiveUp(t) => t in s.requesters && s.requesters[t].phase == Polling(retryCount)
    case Pop(t) => t in s.requesters && s.requesters[t].phase.Returned?
    case Arrive(_) => s.receiver.Idle?
    case Store => s.receiver.Parsed?
    case Forward => s.receiver.Forwarding?
  }

  function Move(s: State, t: nat, phase: Phase): State
    requires t in s.requesters
  {
    s.(requesters := s.requesters[t := s.requesters[t].(phase := phase)])
  }

  function Next(retryCount: nat, s: State, a: Action): State
    requires Enabled(retryCount, s, a)
  {
    match a
    case Register(t, key) =>
      s.(pending := s.pending[key := None], requesters := s.requesters[t := Requester(key, Registered)])
    case Send(t) => Move(s, t, Polling(0))
    case Poll(t) =>
      var r := s.requesters[t];
      if r.key !in s.pending then Move(s, t, Crashed)
      else if s.pending[r.key].Some? then Move(s, t, Returned(s.pending[r.key]))
      else Move(s, t, Polling(r.phase.emptyPolls + 1))
    case GiveUp(t) => Move(s, t, Returned(None))
    case Pop(t) =>
      s.(pending := s.pending - {s.requesters[t].key}, requesters := s.requesters - {t})
    case Arrive(frame) =>
      var reply := Carries(s.deviceId, frame);
      s.(deviceId := DeviceIdAfter(s.deviceId, frame),
         receiver := if reply.Some? then Parsed(reply.value) else Idle)
    case Store =>
      var reply := s.receiver.reply;
      if reply.offset in s.pending then
        s.(pending := s.pending[reply.offset := Some(reply.data)], receiver := Idle)
      else s.(receiver := Forwarding(reply))
    case Forward => s.(receiver := Idle)
  }

  predicate Init(s: State) {
    s.pending == map[] && s.receiver == Idle && s.requesters == map[]
  }

  ghost predicate StepAt(retryCount: nat, states: seq<State>, acts: seq<Action>, i: nat)
    requires i < |acts| < |states|
  {
    Enabled(retryCount, states[i], acts[i]) && states[i + 1] == Next(retryCount, states[i], acts[i])
  }

  /** `states[i]` is where the run stands before `acts[i]`. */
  ghost predicate Run(retryCount: nat, states: seq<State>, acts: seq<Action>) {
    && |states| == |acts| + 1
    && Init(states[0])
    && forall i | 0 <= i < |acts| :: StepAt(retryCount, states, acts, i)
  }

  // ---- what a run looks like from outside --------------------------------------------------

  /** When thread t last registered before step i, or -1. */
  function RegisteredAt(acts: seq<Action>, t: nat, i: nat): (r: int)
    requires i <= |acts|
    ensures -1 <= r < i
    ensures r >= 0 ==> acts[r].Register? && acts[r].thread == t
  {
    if i == 0 then -1
    else if acts[i - 1].Register? && acts[i - 1].thread == t then i - 1
    else RegisteredAt(acts, t, i - 1)
  }

  /** The data of the latest reply at `key` that the callback stored in steps lo..hi-1. */
  function LatestStored(states: seq<State>, acts: seq<Action>, key: Bytes, lo: nat, hi: nat): Option<Bytes>
    requires hi <= |acts| <= |states|
  {
    if hi <= lo then None
    else if acts[hi - 1].Store? && states[hi - 1].receiver.Parsed? && states[hi - 1].receiver.reply.offset == key
    then Some(states[hi - 1].receiver.reply.data)
    else LatestStored(states, acts, key, lo, hi - 1)
  }

  /** How many times thread t polled in steps lo..hi-1. */
  function Polls(acts: seq<Action>, t: nat, lo: nat, hi: nat): nat
    requires hi <= |acts|
  {
    if hi <= lo then 0 else Polls(acts, t, lo, hi - 1) + if acts[hi - 1] == Poll(t) then 1 else 0
  }

  /** Every poll thread t made in steps r..i-1 came before any reply to it. */
  ghost predicate PollsEmpty(states: seq<State>, acts: seq<Action>, t: nat, key: Bytes, r: nat, i: nat)
    requires i <= |acts| <= |states|
  {
    forall p | r < p < i && acts[p] == Poll(t) :: LatestStored(states, acts, key, r, p) == None
  }

  /** Poll p found `data` stored; the exchange's earlier polls found nothing, and it is the last. */
  ghost predicate AnsweredAt(states: seq<State>, acts: seq<Action>, t: nat, key: Bytes, r: nat, p: nat, i: nat, data: Bytes)
    requires i <= |acts| <= |states|
  {
    && r < p < i && acts[p] == Poll(t)
    && LatestStored(states, acts, key, r, p) == Some(data)
    && PollsEmpty(states, acts, t, key, r, p)
    && Polls(acts, t, p + 1, i) == 0
  }

  ghost predicate Answered(states: seq<State>, acts: seq<Action>, t: nat, key: Bytes, r: nat, i: nat, data: Bytes)
    requires i <= |acts| <= |states|
  {
    exists p: nat :: AnsweredAt(states, acts, t, key, r, p, i, data)
  }

  // ---- the invariant -------------------------------------------------------------------------

  /** The table's keys are exactly the addresses of the requests in flight. */
  ghost predicate KeysInFlight(s: State) {
    && (forall k :: k in s.pending <==> exists t :: t in s.requesters && s.requesters[t].key == k)
    && (forall t, u | t in s.requesters && u in s.requesters && s.requesters[t].key == s.requesters[u].key :: t == u)
  }

  ghost predicate Tracked(retryCount: nat, states: seq<State>, acts: seq<Action>, i: nat, t: nat)
    requires i <= |acts| < |states|
    requires t in states[i].requesters
  {
    var r, Requester(key, phase) := RegisteredAt(acts, t, i), states[i].requesters[t];
    && r >= 0 && acts[r] == Register(t, key)
    && key in states[i].pending && Polls(acts, t, r, i) <= retryCount
    && match phase
       case Registered =>
         Polls(acts, t, r, i) == 0 && Current(states, acts, i, key, r) && PollsEmpty(states, acts, t, key, r, i)
       case Polling(n) =>
         && Polls(acts, t, r, i) == n && Current(states, acts, i, key, r)
         && PollsEmpty(states, acts, t, key, r, i)
       case Returned(None) => Polls(acts, t, r, i) == retryCount && PollsEmpty(states, acts, t, key, r, i)
       case Returned(Some(data)) => Answered(states, acts, t, key, r, i, data)
       case Crashed => false
  }

  /** The table entry is what the callback last stored there since step r. */
  ghost predicate Current(states: seq<State>, acts: seq<Action>, i: nat, key: Bytes, r: nat)
    requires i <= |acts| < |states|
  {
    key in states[i].pending && states[i].pending[key] == LatestStored(states, acts, key, r, i)
  }

  ghost predicate Inv(retryCount: nat, states: seq<State>, acts: seq<Action>, i: nat)
    requires i <= |acts| < |states|
  {
    && KeysInFlight(states[i])
    && forall t | t in states[i].requesters :: Tracked(retryCount, states, acts, i, t)
  }

  /** A step that changes neither the table's keys nor any request's address. */
  lemma KeysSame(s: State, s': State)
    requires KeysInFlight(s) && s'.pending.Keys == s.pending.Keys && s'.requesters.Keys == s.requesters.Keys
    requires forall t | t in s.requesters :: s'.requesters[t].key == s.requesters[t].key
    ensures KeysInFlight(s')
  {
    forall k ensures k in s'.pending <==> exists t :: t in s'.requesters && s'.requesters[t].key == k {
      if t :| t in s.requesters && s.requesters[t].key == k {
        assert s'.requesters[t].key == k;
      }
    }
  }

  lemma RegisterKeepsKeys(retryCount: nat, s: State, t: nat, key: Bytes)
    requires KeysInFlight(s) && Enabled(retryCount, s, Register(t, key))
    ensures KeysInFlight(Next(retryCount, s, Register(t, key)))
  {
    var s' := Next(retryCount, s, Register(t, key));
    forall k ensures k in s'.pending <==> exists u :: u in s'.requesters && s'.requesters[u].key == k {
      assert s'.requesters[t].key == key;
      if u :| u in s.requesters && s.requesters[u].key == k {
        assert s'.requesters[u].key == k;
      }
    }
  }

  lemma PopKeepsKeys(retryCount: nat, s: State, t: nat)
    requires KeysInFlight(s) && Enabled(retryCount, s, Pop(t))
    ensures KeysInFlight(Next(retryCount, s, Pop(t)))
  {
    var s' := Next(retryCount, s, Pop(t));
    forall k ensures k in s'.pending <==> exists u :: u in s'.requesters && s'.requesters[u].key == k {
      if u :| u in s.requesters && s.requesters[u].key == k {
        assert u in s'.requesters ==> s'.requesters[u].key == k;
      }
    }
  }

  lemma KeysInFlightKept(retryCount: nat, s: State, a: Action)
    requires KeysInFlight(s) && Enabled(retryCount, s, a)
    ensures KeysInFlight(Next(retryCount, s, a))
  {
    match a {
      case Register(t, key) => RegisterKeepsKeys(retryCount, s, t, key);
      case Pop(t) => PopKeepsKeys(retryCount, s, t);
      case _ => KeysSame(s, Next(retryCount, s, a));
    }
  }

  lemma CurrentKept(retryCount: nat, states: seq<State>, acts: seq<Action>, i: nat, key: Bytes, r: nat)
    requires |states| == |acts| + 1 && r < i < |acts| && StepAt(retryCount, states, acts, i)
    requires Current(states, acts, i, key, r)
    requires !(acts[i].Register? && acts[i].key == key)
    requires key in states[i + 1].pending
    ensures Current(states, acts, i + 1, key, r)
  {
  }

  /** A thread that takes no step in i keeps its history, and the table entry keeps up
      with what is stored for it. */
  lemma OthersTracked(retryCount: nat, states: seq<State>, acts: seq<Action>, i: nat, t: nat)
    requires |states| == |acts| + 1 && i < |acts| && StepAt(retryCount, states, acts, i)
    requires KeysInFlight(states[i]) && KeysInFlight(states[i + 1])
    requires t in states[i].requesters && t in states[i + 1].requesters
    requires states[i + 1].requesters[t] == states[i].requesters[t]
    requires acts[i] != Poll(t) && !(acts[i].Register? && acts[i].thread == t)
    requires Tracked(retryCount, states, acts, i, t)
    ensures Tracked(retryCount, states, acts, i + 1, t)
  {
    var Requester(key, phase) := states[i].requesters[t];
    var r := RegisteredAt(acts, t, i);
    assert RegisteredAt(acts, t, i + 1) == r;
    assert Polls(acts, t, r, i + 1) == Polls(acts, t, r, i);
    assert states[i + 1].requesters[t].key == key && key in states[i + 1].pending;
    if Current(states, acts, i, key, r) {
      CurrentKept(retryCount, states, acts, i, key, r);
    }
    if phase.Returned? && phase.result.Some? {
      var p: nat :| AnsweredAt(states, acts, t, key, r, p, i, phase.result.value);
      assert Polls(acts, t, p + 1, i + 1) == Polls(acts, t, p + 1, i);
      assert AnsweredAt(states, acts, t, key, r, p, i + 1, phase.result.value);
    }
  }

  lemma PollTracked(retryCount: nat, states: seq<State>, acts: seq<Action>, i: nat, t: nat)
    requires |states| == |acts| + 1 && i < |acts| && StepAt(retryCount, states, acts, i)
    requires acts[i] == Poll(t) && t in states[i].requesters
    requires Tracked(retryCount, states, acts, i, t)
    ensures Tracked(retryCount, states, acts, i + 1, t)
  {
    var key := states[i].requesters[t].key;
    var r := RegisteredAt(acts, t, i);
    assert RegisteredAt(acts, t, i + 1) == r;
    assert Polls(acts, t, r, i + 1) == Polls(acts, t, r, i) + 1;
    assert LatestStored(states, acts, key, r, i + 1) == LatestStored(states, acts, key, r, i);
    var entry := states[i].pending[key];
    if entry.Some? {
      assert AnsweredAt(states, acts, t, key, r, i, i + 1, entry.value);
    }
  }

  lemma SendOrGiveUpTracked(retryCount: nat, states: seq<State>, acts: seq<Action>, i: nat, t: nat)
    requires |states| == |acts| + 1 && i < |acts| && StepAt(retryCount, states, acts, i)
    requires (acts[i] == Send(t) || acts[i] == GiveUp(t)) && t in states[i].requesters
    requires Tracked(retryCount, states, acts, i, t)
    ensures Tracked(retryCount, states, acts, i + 1, t)
  {
    var key := states[i].requesters[t].key;
    var r := RegisteredAt(acts, t, i);
    assert RegisteredAt(acts, t, i + 1) == r;
    assert Polls(acts, t, r, i + 1) == Polls(acts, t, r, i);
    assert LatestStored(states, acts, key, r, i + 1) == LatestStored(states, acts, key, r, i);
  }

  lemma InvKept(retryCount: nat, states: seq<State>, acts: seq<Action>, i: nat)
    requires |states| == |acts| + 1 && i < |acts| && StepAt(retryCount, states, acts, i)
    requires Inv(retryCount, states, acts, i)
    ensures Inv(retryCount, states, acts, i + 1)
  {
    var s, s', a := states[i], states[i + 1], acts[i];
    KeysInFlightKept(retryCount, s, a);
    forall t | t in s'.requesters ensures Tracked(retryCount, states, acts, i + 1, t) {
      TrackedKept(retryCount, states, acts, i, t);
    }
  }

  lemma TrackedKept(retryCount: nat, states: seq<State>, acts: seq<Action>, i: nat, t: nat)
    requires |states| == |acts| + 1 && i < |acts| && StepAt(retryCount, states, acts, i)
    requires Inv(retryCount, states, acts, i) && KeysInFlight(states[i + 1])
    requires t in states[i + 1].requesters
    ensures Tracked(retryCount, states, acts, i + 1, t)
  {
    var a := acts[i];
    if a == Poll(t) {
      assert Tracked(retryCount, states, acts, i, t);
      PollTracked(retryCount, states, acts, i, t);
    } else if a == Send(t) || a == GiveUp(t) {
      assert Tracked(retryCount, states, acts, i, t);
      SendOrGiveUpTracked(retryCount, states, acts, i, t);
    } else if a.Register? && a.thread == t {
      assert RegisteredAt(acts, t, i + 1) == i;
    } else {
      assert Tracked(retryCount, states, acts, i, t);
      OthersTracked(retryCount, states, acts, i, t);
    }
  }

  lemma {:induction false} InvHolds(retryCount: nat, states: seq<State>, acts: seq<Action>, i: nat)
    requires Run(retryCount, states, acts) && i <= |acts|
    ensures Inv(retryCount, states, acts, i)
  {
    if i > 0 {
      InvHolds(retryCount, states, acts, i - 1);
      assert StepAt(retryCount, states, acts, i - 1);
      InvKept(retryCount, states, acts, i - 1);
    }
  }

  // ---- main results: correlation -------------------------------------------------------------

  /** No cross-talk. A request that returns None polled exactly `retryCount` times and no
      reply at its address had been stored by any of those polls. One that returns data
      returns the latest reply at its own address stored between its registration and the
      poll that answered it, its earlier polls having come before any. */
  lemma NoCrossTalk(retryCount: nat, states: seq<State>, acts: seq<Action>, i: nat, t: nat)
    requires Run(retryCount, states, acts) && i < |acts| && acts[i] == Pop(t)
    ensures var r := RegisteredAt(acts, t, i);
            t in states[i].requesters && r >= 0 &&
            var key := states[i].requesters[t].key;
            && acts[r] == Register(t, key)
            && states[i].requesters[t].phase.Returned?
            && Polls(acts, t, r, i) <= retryCount
            && match states[i].requesters[t].phase.result
               case None => Polls(acts, t, r, i) == retryCount && PollsEmpty(states, acts, t, key, r, i)
               case Some(data) => Answered(states, acts, t, key, r, i, data)
  {
    InvHolds(retryCount, states, acts, i);
    assert StepAt(retryCount, states, acts, i);
    assert Tracked(retryCount, states, acts, i, t);
  }

  /** In every reachable state the table's keys are exactly the addresses in flight, each
      of one requester, and no poll has met or can meet a missing key. */
  lemma PendingIsInFlight(retryCount: nat, states: seq<State>, acts: seq<Action>, i: nat)
    requires Run(retryCount, states, acts) && i <= |acts|
    ensures var s := states[i];
            && s.pending.Keys == (set t | t in s.requesters :: s.requesters[t].key)
            && (forall t, u | t in s.requesters && u in s.requesters :: t != u ==> s.requesters[t].key != s.requesters[u].key)
            && forall t | t in s.requesters :: s.requesters[t].phase != Crashed
  {
    InvHolds(retryCount, states, acts, i);
    forall t | t in states[i].requesters ensures states[i].requesters[t].phase != Crashed {
      assert Tracked(retryCount, states, acts, i, t);
    }
  }

  // ---- main results: routing -------------------------------------------------------------------

  /** What became of an inbound frame. */
  datatype Outcome = Negotiated(identity: IdentityReply) | Stored(reply: DataReply) | Forwarded(reply: DataReply) | Dropped

  /** The fate a step settles, if it settles one. */
  function Settles(s: State, a: Action): seq<Outcome> {
    match a
    case Arrive(frame) =>
      var identity := Negotiates(s.deviceId, frame);
      if identity.Some? then [Negotiated(identity.value)]
      else if Carries(s.deviceId, frame) == None then [Dropped]
      else []
    case Store => if s.receiver.Parsed? && s.receiver.reply.offset in s.pending then [Stored(s.receiver.reply)] else []
    case Forward => if s.receiver.Forwarding? then [Forwarded(s.receiver.reply)] else []
    case _ => []
  }

  function Outcomes(states: seq<State>, acts: seq<Action>, i: nat): seq<Outcome>
    requires i <= |acts| <= |states|
  {
    if i == 0 then [] else Outcomes(states, acts, i - 1) + Settles(states[i - 1], acts[i - 1])
  }

  /** A frame and the device id the link had when it came in. */
  datatype Arrival = Arrival(deviceId: int, frame: Bytes)

  function Arrivals(states: seq<State>, acts: seq<Action>, i: nat): seq<Arrival>
    requires i <= |acts| <= |states|
  {
    if i == 0 then []
    else Arrivals(states, acts, i - 1)
         + if acts[i - 1].Arrive? then [Arrival(states[i - 1].deviceId, acts[i - 1].frame)] else []
  }

  /** The fate a frame deserves, from the frame and the device id alone. */
  predicate Deserves(arrival: Arrival, o: Outcome) {
    var Arrival(id, frame) := arrival;
    match o
    case Negotiated(identity) => id == DEVICE_ID_BCAST && ParseIdentityReply(frame) == Some(identity)
    case Stored(reply) => ParseDataReply(id, frame) == Some(reply)
    case Forwarded(reply) => ParseDataReply(id, frame) == Some(reply)
    case Dropped => ParseDataReply(id, frame) == None && (id == DEVICE_ID_BCAST ==> ParseIdentityReply(frame) == None)
  }

  /** Every frame is settled once, in the order of arrival, and as it deserves; only the
      frame the callback is holding is still open. So the forwarded replies are forwarded
      in arrival order. */
  lemma {:induction false} RoutedOnceInOrder(retryCount: nat, states: seq<State>, acts: seq<Action>, i: nat)
    requires Run(retryCount, states, acts) && i <= |acts|
    ensures var outcomes, arrivals := Outcomes(states, acts, i), Arrivals(states, acts, i);
            && |arrivals| == |outcomes| + (if states[i].receiver.Idle? then 0 else 1)
            && (forall j :: 0 <= j < |outcomes| ==> Deserves(arrivals[j], outcomes[j]))
            && (!states[i].receiver.Idle? ==>
                var last := arrivals[|outcomes|];
                ParseDataReply(last.deviceId, last.frame) == Some(states[i].receiver.reply))
  {
    if i > 0 {
      RoutedOnceInOrder(retryCount, states, acts, i - 1);
      assert StepAt(retryCount, states, acts, i - 1);
    }
  }

  /** A data reply is handed to a waiter exactly when some request in flight has its
      address, and otherwise goes on to the unsolicited handler. */
  lemma StoredIffAwaited(retryCount: nat, states: seq<State>, acts: seq<Action>, i: nat)
    requires Run(retryCount, states, acts) && i < |acts| && acts[i] == Store
    ensures var s := states[i];
            && s.receiver.Parsed?
            && (Settles(s, Store) == [Stored(s.receiver.reply)] <==>
                exists t :: t in s.requesters && s.requesters[t].key == s.receiver.reply.offset)
            && (Settles(s, Store) == [] <==> states[i + 1].receiver == Forwarding(s.receiver.reply))
  {
    InvHolds(retryCount, states, acts, i);
    assert StepAt(retryCount, states, acts, i);
  }

  /** Once off the broadcast id, the link's device id is never changed by any frame. */
  lemma {:induction false} DeviceIdFixed(retryCount: nat, states: seq<State>, acts: seq<Action>, i: nat, j: nat)
    requires Run(retryCount, states, acts) && i <= j <= |acts|
    requires states[i].deviceId != DEVICE_ID_BCAST
    ensures states[j].deviceId == states[i].deviceId
    decreases j
  {
    if i < j {
      DeviceIdFixed(retryCount, states, acts, i, j - 1);
      assert StepAt(retryCount, states, acts, j - 1);
    }
  }

  /** The callback's three steps, uninterrupted, are the callback of the DeviceLink class. */
  lemma UninterruptedReceive(retryCount: nat, s: State, l: Link, frame: Bytes)
    requires s.receiver.Idle? && (s.deviceId, s.pending) == (l.deviceId, l.pending)
    ensures var arrived := Next(retryCount, s, Arrive(frame));
            var stored := if arrived.receiver.Parsed? then Next(retryCount, arrived, Store) else arrived;
            var done := if stored.receiver.Forwarding? then Next(retryCount, stored, Forward) else stored;
            var l' := Receive(l, frame);
            && done.receiver.Idle? && (done.deviceId, done.pending) == (l'.deviceId, l'.pending)
            && l'.unsolicited == l.unsolicited + if stored.receiver.Forwarding? then [stored.receiver.reply] else []
  {
  }
}
