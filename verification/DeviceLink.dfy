/** The request/response conversation with the unit: one table correlating requests in
    flight with their replies, the receive callback that routes every inbound frame, and
    the exchange that registers, sends, polls and pops. */
module DeviceLink {
  import opened Wrappers
  import opened SysExCodec

  /** Address of a request in flight -> its reply, None while it has none. */
  type Pending = map<Bytes, Option<Bytes>>

  /** What the receive callback reads and writes. The two logs are the calls made to the
      handlers registered for identity replies and for unsolicited data. */
  datatype Link = Link(deviceId: int, pending: Pending, identities: seq<IdentityReply>, unsolicited: seq<DataReply>)

  // ---- one inbound frame -------------------------------------------------------------------

  /** The identity reply a frame negotiates; only a link still on the broadcast id listens. */
  function Negotiates(deviceId: int, message: Bytes): Option<IdentityReply> {
    if deviceId == DEVICE_ID_BCAST then ParseIdentityReply(message) else None
  }

  function DeviceIdAfter(deviceId: int, message: Bytes): int {
    var reply := Negotiates(deviceId, message);
    if reply.Some? then reply.value.deviceId else deviceId
  }

  /** The data reply a frame carries for this link, if it is one. */
  function Carries(deviceId: int, message: Bytes): Option<DataReply> {
    if Negotiates(deviceId, message).Some? then None else ParseDataReply(deviceId, message)
  }

  function Receive(s: Link, message: Bytes): Link {
    var identity, reply := Negotiates(s.deviceId, message), Carries(s.deviceId, message);
    if identity.Some? then s.(deviceId := identity.value.deviceId, identities := s.identities + [identity.value])
    else if reply == None then s
    else if reply.value.offset in s.pending then
      s.(pending := s.pending[reply.value.offset := Some(reply.value.data)])
    else s.(unsolicited := s.unsolicited + [reply.value])
  }

  /** What a link makes of an identity reply: on the broadcast id it moves onto the device id
      the reply names and reports it, and nothing else changes; off it, nothing changes. */
  lemma ReceivesIdentity(s: Link, message: Bytes)
    requires |message| == 15 && message[..2] == [0xF0, 0x7E] && message[3..8] == [0x06, 0x02, 0x41, 0x4F, 0x03]
    ensures s.deviceId == 0x7F ==>
              && ParseIdentityReply(message).Some?
              && Receive(s, message) ==
                 Link(message[2], s.pending, s.identities + [ParseIdentityReply(message).value], s.unsolicited)
    ensures s.deviceId != 0x7F ==> Receive(s, message) == s
  {
    IdentityReplyExactly(message);
    OtherFramesAreNoDataReply(s.deviceId, s.deviceId, [], [], None, message);
  }

  /** What it makes of a data reply of its own device: the data goes to the request that waits
      at that address, and without one the reply goes to the unsolicited handler; and nothing
      else changes. One for another device is dropped. */
  lemma ReceivesData(s: Link, deviceId: int, offset: Bytes, data: Bytes, checksum: int)
    requires |offset| == 4
    ensures var message := [0xF0, 0x41, deviceId, 0x00, 0x00, 0x00, 0x4F, 0x12] + offset + data + [checksum, 0xF7];
            Receive(s, message) ==
              if deviceId != s.deviceId then s
              else if offset in s.pending then
                Link(s.deviceId, s.pending[offset := Some(data)], s.identities, s.unsolicited)
              else
                Link(s.deviceId, s.pending, s.identities, s.unsolicited + [DataReply(offset, data)])
  {
    var h := [0xF0, 0x41, deviceId, 0x00, 0x00, 0x00, 0x4F, 0x12];
    var message := h + offset + data + [checksum, 0xF7];
    DataReplyExactly(deviceId, message, offset, data);
    assert message[..2] == [0xF0, 0x41] && message[1] != 0x7E;
    IdentityReplyExactly(message);
    if |message| == 15 {
      assert message[..2][1] == 0x41;
    }
    if deviceId != s.deviceId && ParseDataReply(s.deviceId, message).Some? {
      var reply := ParseDataReply(s.deviceId, message).value;
      DataReplyExactly(s.deviceId, message, reply.offset, reply.data);
      assert message[2] == deviceId;
    }
  }

  function ReceiveAll(s: Link, messages: seq<Bytes>): Link
    decreases |messages|
  {
    if messages == [] then s else ReceiveAll(Receive(s, messages[0]), messages[1..])
  }

  // ---- what a request is owed --------------------------------------------------------------

  /** The data of the last of these frames to carry a reply at this address, for a link
      that started on `deviceId`. It looks at the frames alone, not at any table. */
  function LatestReply(deviceId: int, messages: seq<Bytes>, key: Bytes): Option<Bytes>
    decreases |messages|
  {
    if messages == [] then None
    else
      var later := LatestReply(DeviceIdAfter(deviceId, messages[0]), messages[1..], key);
      var first := Carries(deviceId, messages[0]);
      if later.Some? then later
      else if first.Some? && first.value.offset == key then Some(first.value.data)
      else None
  }

  /** The frames of consecutive batches, one after the other. */
  function Flatten(batches: seq<seq<Bytes>>): seq<Bytes> {
    if batches == [] then [] else Flatten(batches[..|batches| - 1]) + batches[|batches| - 1]
  }

  lemma {:induction false} ReceiveAllAppend(s: Link, a: seq<Bytes>, b: seq<Bytes>)
    ensures ReceiveAll(s, a + b) == ReceiveAll(ReceiveAll(s, a), b)
    decreases |a|
  {
    if a == [] {
      assert a + b == b;
    } else {
      assert (a + b)[0] == a[0] && (a + b)[1..] == a[1..] + b;
      ReceiveAllAppend(Receive(s, a[0]), a[1..], b);
    }
  }

  /** Any number of frames: the table keeps its keys, and a waiting entry holds the latest
      reply at its own address, or what it held before when there was none. */
  lemma {:induction false} ReceiveAllCorrelates(s: Link, messages: seq<Bytes>, key: Bytes)
    ensures var t := ReceiveAll(s, messages);
            && t.pending.Keys == s.pending.Keys
            && (key in s.pending ==>
                var reply := LatestReply(s.deviceId, messages, key);
                t.pending[key] == if reply.Some? then reply else s.pending[key])
            && (s.deviceId != DEVICE_ID_BCAST ==> t.deviceId == s.deviceId && t.identities == s.identities)
    decreases |messages|
  {
    if messages != [] {
      ReceiveAllCorrelates(Receive(s, messages[0]), messages[1..], key);
    }
  }

  /** What one more poll sees. */
  lemma AwaitedAfter(s: Link, arrivals: seq<seq<Bytes>>, i: nat, key: Bytes)
    requires i < |arrivals| && key in s.pending && s.pending[key] == None
    ensures var t := ReceiveAll(s, Flatten(arrivals[..i + 1]));
            && t == ReceiveAll(ReceiveAll(s, Flatten(arrivals[..i])), arrivals[i])
            && key in t.pending && t.pending[key] == LatestReply(s.deviceId, Flatten(arrivals[..i + 1]), key)
  {
    assert arrivals[..i + 1][..i] == arrivals[..i];
    ReceiveAllAppend(s, Flatten(arrivals[..i]), arrivals[i]);
    ReceiveAllCorrelates(s, Flatten(arrivals[..i + 1]), key);
  }

  // ---- the link ------------------------------------------------------------------------------

  class DeviceLink {
    const retryCount: nat
    var deviceId: int
    var pending: Pending
    var identities: seq<IdentityReply>
    var unsolicited: seq<DataReply>
    // The frames handed to the transport, in order.
    var sent: seq<Bytes>

    constructor (deviceId: int, retryCount: nat)
      ensures State() == Link(deviceId, map[], [], []) && sent == [] && this.retryCount == retryCount
    {
      this.deviceId, this.retryCount := deviceId, retryCount;
      pending, identities, unsolicited, sent := map[], [], [], [];
    }

    ghost function State(): Link
      reads this
    {
      Link(deviceId, pending, identities, unsolicited)
    }

    /** True when the frame was an identity reply, which moves the link onto its device id. */
    method NegotiateIdentity(message: Bytes) returns (negotiated: bool)
      requires deviceId == DEVICE_ID_BCAST
      modifies this`deviceId, this`identities
      ensures negotiated == Negotiates(old(deviceId), message).Some?
      ensures State() == if negotiated then Receive(old(State()), message) else old(State())
    {
      var reply := ParseIdentityReply(message);
      if reply == None {
        return false;
      }
      deviceId := reply.value.deviceId;
      identities := identities + [reply.value];
      return true;
    }

    /** The transport's inbound callback. */
    method OnReceive(message: Bytes)
      modifies this`deviceId, this`identities, this`pending, this`unsolicited
      ensures State() == Receive(old(State()), message)
    {
      if deviceId == DEVICE_ID_BCAST {
        var negotiated := NegotiateIdentity(message);
        if negotiated {
          return;
        }
      }
      var parsed := ParseDataReply(deviceId, message);
      if parsed == None {
        return;
      }
      var DataReply(offset, data) := parsed.value;
      if offset in pending {
        pending := pending[offset := Some(data)];
        return;
      }
      unsolicited := unsolicited + [parsed.value];
    }

    method OnReceiveAll(messages: seq<Bytes>)
      modifies this`deviceId, this`identities, this`pending, this`unsolicited
      ensures State() == ReceiveAll(old(State()), messages)
    {
      for i := 0 to |messages|
        invariant ReceiveAll(State(), messages[i..]) == ReceiveAll(old(State()), messages)
      {
        OnReceive(messages[i]);
      }
    }

    /** Polls for the reply. `arrivals[i]` is what the callback received between poll i - 1
        (or the send) and poll i; the poll that answers, or the last one, is number `polls`. */
    method Wait(key: Bytes, arrivals: seq<seq<Bytes>>) returns (data: Option<Bytes>, polls: nat)
      requires key in pending && pending[key] == None
      requires |arrivals| > retryCount
      modifies this`deviceId, this`identities, this`pending, this`unsolicited
      ensures polls <= retryCount
      ensures State() == ReceiveAll(old(State()), Flatten(arrivals[..polls]))
      ensures data == LatestReply(old(deviceId), Flatten(arrivals[..polls]), key)
      ensures data == None ==> polls == retryCount
      ensures forall k :: 0 <= k < polls ==> LatestReply(old(deviceId), Flatten(arrivals[..k]), key) == None
    {
      polls := 0;
      for i := 0 to retryCount
        invariant polls == i
        invariant State() == ReceiveAll(old(State()), Flatten(arrivals[..i]))
        invariant forall k :: 0 <= k <= i ==> LatestReply(old(deviceId), Flatten(arrivals[..k]), key) == None
      {
        AwaitedAfter(old(State()), arrivals, i, key);
        OnReceiveAll(arrivals[i]);
        polls := polls + 1;
        if pending[key] != None {
          return pending[key], polls;
        }
      }
      return None, polls;
    }

    /** Registers the address, sends, waits and takes the address off the table again. The
        answer is the latest reply at this address among the frames received by the poll
        that returned it, every earlier poll having seen none; without an answer all
        `retryCount` polls saw none. No other request's entry is added or dropped. */
    method Exchange(message: Bytes, key: Bytes, arrivals: seq<seq<Bytes>>)
      returns (data: Option<Bytes>, polls: nat)
      requires |arrivals| > retryCount
      modifies this
      ensures polls <= retryCount && sent == old(sent) + [message]
      ensures data == LatestReply(old(deviceId), Flatten(arrivals[..polls]), key)
      ensures data == None ==> polls == retryCount
      ensures forall k :: 0 <= k < polls ==> LatestReply(old(deviceId), Flatten(arrivals[..k]), key) == None
      ensures var registered := old(State()).(pending := old(pending)[key := None]);
              var received := ReceiveAll(registered, Flatten(arrivals[..polls + 1]));
              State() == received.(pending := received.pending - {key})
      ensures pending.Keys == old(pending).Keys - {key}
    {
      pending := pending[key := None];
      ghost var registered := State();
      sent := sent + [message];
      data, polls := Wait(key, arrivals);
      assert arrivals[..polls + 1][..polls] == arrivals[..polls];
      ReceiveAllAppend(registered, Flatten(arrivals[..polls]), arrivals[polls]);
      ReceiveAllCorrelates(registered, Flatten(arrivals[..polls + 1]), key);
      OnReceiveAll(arrivals[polls]);
      pending := pending - {key};
    }

    /** Sends a data request for `length` bytes at `address` and waits for the answer. */
    method Request(address: Bytes, length: Bytes, overrideChecksum: Option<Bytes>, arrivals: seq<seq<Bytes>>)
      returns (data: Option<Bytes>, polls: nat)
      requires |arrivals| > retryCount
      modifies this
      ensures polls <= retryCount && (data == None ==> polls == retryCount)
      ensures var check := if overrideChecksum.Some? then overrideChecksum.value else [128 - Sum(address + length) % 128];
              sent == old(sent) + [[0xF0, 0x41, old(deviceId), 0x00, 0x00, 0x00, 0x4F, 0x11] + address + length + check + [0xF7]]
      ensures data == LatestReply(old(deviceId), Flatten(arrivals[..polls]), address)
      ensures pending.Keys == old(pending).Keys - {address}
    {
      Rq1Bytes(deviceId, address, length, if overrideChecksum.Some? then overrideChecksum.value else []);
      ghost var head, c := [0xF0, 0x41, deviceId, 0x00, 0x00, 0x00, 0x4F, 0x11], 128 - Sum(address + length) % 128;
      assert head + address + length + [c, 0xF7] == head + address + length + [c] + [0xF7];
      data, polls := Exchange(EncodeRq1(deviceId, address, length, overrideChecksum), address, arrivals);
    }

    /** Writes `value` at `address` and waits for the unit to echo that address. */
    method SetAndAwait(address: Bytes, value: Bytes, arrivals: seq<seq<Bytes>>)
      returns (data: Option<Bytes>, polls: nat)
      requires |arrivals| > retryCount
      modifies this
      ensures polls <= retryCount && (data == None ==> polls == retryCount)
      ensures var check := 128 - Sum(address + value) % 128;
              sent == old(sent) + [[0xF0, 0x41, old(deviceId), 0x00, 0x00, 0x00, 0x4F, 0x12] + address + value + [check, 0xF7]]
      ensures data == LatestReply(old(deviceId), Flatten(arrivals[..polls]), address)
      ensures pending.Keys == old(pending).Keys - {address}
    {
      Dt1Bytes(deviceId, address + value, []);
      ghost var head, c := [0xF0, 0x41, deviceId, 0x00, 0x00, 0x00, 0x4F, 0x12], 128 - Sum(address + value) % 128;
      assert head + (address + value) + [c, 0xF7] == head + address + value + [c, 0xF7];
      data, polls := Exchange(EncodeDt1(deviceId, address + value, None), address, arrivals);
    }
  }
}
