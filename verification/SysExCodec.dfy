/** The SysEx wire format: framing DT1 and RQ1 messages, and reading data replies and
    identity replies back. Bytes are the integers of Python's lists. */
module SysExCodec {
  import opened Wrappers

  type Bytes = seq<int>

  const SYSEX_START: Bytes := [0xF0]
  const SYSEX_END: Bytes := [0xF7]
  const MANUFACTURER_ID: Bytes := [0x41]
  const MODEL_ID: Bytes := [0x00, 0x00, 0x00, 0x4F]
  const RQ1_COMMAND_ID: Bytes := [0x11]
  const DT1_COMMAND_ID: Bytes := [0x12]
  const DEVICE_ID_BCAST := 0x7F
  const DT1_SYSEX_HEADER: Bytes := MANUFACTURER_ID + [DEVICE_ID_BCAST] + MODEL_ID + DT1_COMMAND_ID
  const RQ1_SYSEX_HEADER: Bytes := MANUFACTURER_ID + [DEVICE_ID_BCAST] + MODEL_ID + RQ1_COMMAND_ID
  const NON_RT_MSG := 0x7E
  const GEN_INFO := 0x06
  const IDENTITY_REPLY := 0x02
  const GT1000_FAMILY: Bytes := [0x4F, 0x03]

  datatype Model = Gt1000 | Gt1000L | Gt1000Core

  datatype IdentityReply = IdentityReply(deviceId: int, model: Option<Model>)

  datatype DataReply = DataReply(offset: Bytes, data: Bytes)

  // ---- encoding --------------------------------------------------------------------------

  function Sum(data: Bytes): int {
    if data == [] then 0 else data[0] + Sum(data[1..])
  }

  lemma {:induction false} SumAppend(a: Bytes, b: Bytes)
    ensures Sum(a + b) == Sum(a) + Sum(b)
  {
    if a == [] {
      assert a + b == b;
    } else {
      assert (a + b)[0] == a[0] && (a + b)[1..] == a[1..] + b;
      SumAppend(a[1..], b);
    }
  }

  /** The checksum brings the payload sum to a multiple of 128. It is the data byte 128,
      which is no seven-bit value, exactly when the sum is one already. */
  function CalculateChecksum(data: Bytes): (checksum: Bytes)
    ensures |checksum| == 1 && 1 <= checksum[0] <= 128
    ensures (Sum(data) + checksum[0]) % 128 == 0
    ensures checksum[0] == 128 <==> Sum(data) % 128 == 0
  {
    [128 - Sum(data) % 128]
  }

  function Frame(deviceId: int, header: Bytes, payload: Bytes, overrideChecksum: Option<Bytes>): Bytes
    requires |header| >= 2
  {
    var checksum := if overrideChecksum.Some? then overrideChecksum.value else CalculateChecksum(payload);
    SYSEX_START + (header[..1] + [deviceId] + header[2..]) + payload + checksum + SYSEX_END
  }

  function EncodeDt1(deviceId: int, payload: Bytes, overrideChecksum: Option<Bytes>): Bytes {
    Frame(deviceId, DT1_SYSEX_HEADER, payload, overrideChecksum)
  }

  function EncodeRq1(deviceId: int, address: Bytes, length: Bytes, overrideChecksum: Option<Bytes>): Bytes {
    Frame(deviceId, RQ1_SYSEX_HEADER, address + length, overrideChecksum)
  }

  /** Adding a byte adds its value. */
  lemma SumOneMore(data: Bytes, byte: int)
    ensures Sum(data + [byte]) == Sum(data) + byte
  {
    SumAppend(data, [byte]);
    assert [byte][1..] == [];
  }

  /** The bytes of a request: the header with the link's device id, the address, the length,
      one checksum byte that brings the two to a multiple of 128, or the bytes given in its
      place, and the end of the message. */
  lemma Rq1Bytes(deviceId: int, address: Bytes, length: Bytes, given: Bytes)
    ensures var c := 128 - Sum(address + length) % 128;
            && 1 <= c <= 128 && (Sum(address + length) + c) % 128 == 0
            && EncodeRq1(deviceId, address, length, None) ==
               [0xF0, 0x41, deviceId, 0x00, 0x00, 0x00, 0x4F, 0x11] + address + length + [c, 0xF7]
    ensures EncodeRq1(deviceId, address, length, Some(given)) ==
            [0xF0, 0x41, deviceId, 0x00, 0x00, 0x00, 0x4F, 0x11] + address + length + given + [0xF7]
  {
    var c := 128 - Sum(address + length) % 128;
    assert CalculateChecksum(address + length) == [c];
    assert EncodeRq1(deviceId, address, length, None) ==
           [0xF0, 0x41, deviceId, 0x00, 0x00, 0x00, 0x4F, 0x11] + address + length + [c, 0xF7];
  }

  /** And of a write, whose payload is the address and the data. */
  lemma Dt1Bytes(deviceId: int, payload: Bytes, given: Bytes)
    ensures var c := 128 - Sum(payload) % 128;
            && 1 <= c <= 128 && (Sum(payload) + c) % 128 == 0
            && EncodeDt1(deviceId, payload, None) ==
               [0xF0, 0x41, deviceId, 0x00, 0x00, 0x00, 0x4F, 0x12] + payload + [c, 0xF7]
    ensures EncodeDt1(deviceId, payload, Some(given)) ==
            [0xF0, 0x41, deviceId, 0x00, 0x00, 0x00, 0x4F, 0x12] + payload + given + [0xF7]
  {
    var c := 128 - Sum(payload) % 128;
    assert CalculateChecksum(payload) == [c];
    assert EncodeDt1(deviceId, payload, None) ==
           [0xF0, 0x41, deviceId, 0x00, 0x00, 0x00, 0x4F, 0x12] + payload + [c, 0xF7];
  }

  // ---- parsing ---------------------------------------------------------------------------

  function ReplyHeader(deviceId: int): Bytes {
    SYSEX_START + MANUFACTURER_ID + [deviceId] + MODEL_ID + DT1_COMMAND_ID
  }

  /** message[from : -2], empty when the bounds cross. */
  function DropTrailer(message: Bytes, from: nat): Bytes
    requires from <= |message|
  {
    if from + 2 <= |message| then message[from..|message| - 2] else []
  }

  function ParseDataReply(deviceId: int, message: Bytes): Option<DataReply> {
    var header := ReplyHeader(deviceId);
    var n := |header|;
    if |message| < n + 4 then None
    else if exists i :: 0 <= i < n && message[i] != header[i] then None
    else Some(DataReply(message[n..n + 4], DropTrailer(message, n + 4)))
  }

  function ModelOf(softwareRev1: int, softwareRev2: int): Option<Model> {
    if softwareRev1 == 0x00 && softwareRev2 == 0x01 then Some(Gt1000)
    else if softwareRev1 == 0x01 && softwareRev2 == 0x01 then Some(Gt1000L)
    else if softwareRev1 == 0x02 && softwareRev2 == 0x00 then Some(Gt1000Core)
    else None
  }

  function ParseIdentityReply(message: Bytes): Option<IdentityReply> {
    if |message| != 15 then None
    else if && message[0] == SYSEX_START[0] && message[1] == NON_RT_MSG
            && message[3] == GEN_INFO && message[4] == IDENTITY_REPLY
            && message[5] == MANUFACTURER_ID[0]
            && message[6] == GT1000_FAMILY[0] && message[7] == GT1000_FAMILY[1]
    then Some(IdentityReply(message[2], ModelOf(message[10], message[12])))
    else None
  }

  // ---- what the two directions owe each other --------------------------------------------

  /** A frame is read as (offset, data) exactly when it begins with the reply header, that
      offset of four bytes and that data, and two trailing bytes follow; or fewer than two do
      and the data is empty. */
  lemma DataReplyExactly(deviceId: int, message: Bytes, offset: Bytes, data: Bytes)
    ensures ParseDataReply(deviceId, message) == Some(DataReply(offset, data))
       <==> && |offset| == 4
            && [0xF0, 0x41, deviceId, 0x00, 0x00, 0x00, 0x4F, 0x12] + offset + data <= message
            && (|message| == 14 + |data| || (data == [] && |message| < 14))
  {
    var h := ReplyHeader(deviceId);
    assert h == [0xF0, 0x41, deviceId, 0x00, 0x00, 0x00, 0x4F, 0x12];
    if |offset| == 4 && h + offset + data <= message && (|message| == 14 + |data| || (data == [] && |message| < 14)) {
      assert forall i :: 0 <= i < 12 + |data| ==> message[i] == (h + offset + data)[i];
      assert message[8..12] == offset;
      assert DropTrailer(message, 12) == data;
    }
    if ParseDataReply(deviceId, message) == Some(DataReply(offset, data)) {
      assert h + offset == message[..8] + message[8..12];
      assert h + offset + data == message[..12 + |data|];
    }
  }

  /** A data reply is read back from the DT1 frame that carries it, by the device it is
      addressed to and by no other. */
  lemma Dt1RoundTrip(deviceId: int, reader: int, address: Bytes, data: Bytes, overrideChecksum: Option<Bytes>)
    requires |address| == 4
    requires overrideChecksum.Some? ==> |overrideChecksum.value| == 1
    ensures ParseDataReply(reader, EncodeDt1(deviceId, address + data, overrideChecksum))
            == if reader == deviceId then Some(DataReply(address, data)) else None
  {
    var message := EncodeDt1(deviceId, address + data, overrideChecksum);
    assert message[..8] == ReplyHeader(deviceId);
    assert message[2] == deviceId && ReplyHeader(reader)[2] == reader;
    if reader == deviceId {
      assert message == ReplyHeader(deviceId) + address + data + message[12 + |data|..];
      DataReplyExactly(deviceId, message, address, data);
    }
  }

  /** Requests and identity replies are never taken for data replies. */
  lemma OtherFramesAreNoDataReply(deviceId: int, reader: int, address: Bytes, length: Bytes,
                                  overrideChecksum: Option<Bytes>, message: Bytes)
    ensures ParseDataReply(reader, EncodeRq1(deviceId, address, length, overrideChecksum)) == None
    ensures ParseIdentityReply(message).Some? ==> ParseDataReply(reader, message) == None
  {
    var request := EncodeRq1(deviceId, address, length, overrideChecksum);
    assert request[7] == 0x11 && ReplyHeader(reader)[7] == 0x12;
    assert ReplyHeader(reader)[1] == 0x41;
  }

  /** Between its header and its end byte, every frame sums to a multiple of 128. */
  lemma FrameSum(deviceId: int, header: Bytes, payload: Bytes)
    requires |header| >= 2
    ensures var frame := Frame(deviceId, header, payload, None);
            Sum(frame[1 + |header|..|frame| - 1]) % 128 == 0
  {
    var frame := Frame(deviceId, header, payload, None);
    var checksum := CalculateChecksum(payload);
    assert frame[1 + |header|..|frame| - 1] == payload + checksum;
    SumAppend(payload, checksum);
    assert checksum[1..] == [];
  }

  /** A frame is an identity reply exactly when it has 15 bytes, and they are those of the
      Universal System Exclusive header, manufacturer and family, whatever the device id and
      the revisions are. */
  lemma IdentityReplyExactly(message: Bytes)
    ensures ParseIdentityReply(message).Some? <==>
              |message| == 15 && message[..2] == [0xF0, 0x7E] && message[3..8] == [0x06, 0x02, 0x41, 0x4F, 0x03]
    ensures ParseIdentityReply(message).Some? ==> ParseIdentityReply(message).value.deviceId == message[2]
  {
    if |message| == 15 {
      assert message[..2] == [message[0], message[1]];
      assert message[3..8] == [message[3], message[4], message[5], message[6], message[7]];
    }
  }

  /** The Device Inquiry reply of this family, as the unit sends it. */
  function IdentityFrame(deviceId: int, rev1: int, rev2: int): Bytes {
    [0xF0, 0x7E, deviceId, 0x06, 0x02, 0x41, 0x4F, 0x03, 0x00, 0x00, rev1, 0x00, rev2, 0x00, 0xF7]
  }

  /** The unit's own reply is recognised with its device id, and naming a model takes
      exactly one pair of revision bytes. */
  lemma IdentityRoundTrip(deviceId: int, rev1: int, rev2: int, model: Model)
    ensures var reply := ParseIdentityReply(IdentityFrame(deviceId, rev1, rev2));
            && reply.Some? && reply.value.deviceId == deviceId
            && (reply.value.model == Some(model) <==>
                match model
                case Gt1000 => (rev1, rev2) == (0, 1)
                case Gt1000L => (rev1, rev2) == (1, 1)
                case Gt1000Core => (rev1, rev2) == (2, 0))
  {
    var m := IdentityFrame(deviceId, rev1, rev2);
    assert |m| == 15 && m[0] == 0xF0 && m[10] == rev1 && m[12] == rev2;
  }
}
