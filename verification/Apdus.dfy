/** Application layer PDUs (bacpypes3/apdu.py) as values, with the two length tables of section 20.1.2. */
module Apdus {

  type byte = n: int | 0 <= n < 256

  type Bytes = seq<byte>

  datatype Option<+T> = None | Some(value: T)

  /** The fields of APCI that each PDU type carries, plus its user data.
      An unsegmented PDU has no sequence number and no window on the wire; both are 0 here. */
  datatype Apdu =
    | ConfirmedRequest(seg: bool, mor: bool, sa: bool, maxSegs: byte, maxResp: byte,
                       invokeID: byte, seqNo: byte, win: byte, service: byte, data: Bytes)
    | UnconfirmedRequest(service: byte, data: Bytes)
    | SimpleAck(invokeID: byte, service: byte, data: Bytes)
    | ComplexAck(seg: bool, mor: bool, invokeID: byte, seqNo: byte, win: byte, service: byte, data: Bytes)
    | SegmentAck(nak: bool, srv: bool, invokeID: byte, seqNo: byte, win: byte, data: Bytes)
    | ErrorAck(invokeID: byte, service: byte, data: Bytes)
    | Reject(invokeID: byte, reason: byte, data: Bytes)
    | Abort(srv: bool, invokeID: byte, reason: byte, data: Bytes)

  /** Reasons used by the state machines. */
  const INVALID_APDU_IN_THIS_STATE: byte := 2
  const SEGMENTATION_NOT_SUPPORTED: byte := 4
  const APDU_TOO_LONG: byte := 11
  const SERVER_TIMEOUT: byte := 64
  const NO_RESPONSE: byte := 65

  function SegmentAckOf(nak: bool, srv: bool, invokeID: byte, seqNo: byte, win: byte): Apdu {
    SegmentAck(nak, srv, invokeID, seqNo, win, [])
  }

  function AbortOf(srv: bool, invokeID: byte, reason: byte): Apdu {
    Abort(srv, invokeID, reason, [])
  }

  const MAX_SEGMENTS: seq<nat> := [0, 2, 4, 8, 16, 32, 64, 0]

  const MAX_APDU_LENGTH: seq<nat> := [50, 128, 206, 480, 1024, 1476]

  /** None stands for the ValueError raised when only one segment is accepted. */
  function EncodeMaxSegments(arg: Option<nat>): (code: Option<byte>)
    ensures code.Some? ==> code.value < 8
    ensures code.None? <==> arg == Some(1)
    ensures arg.None? || arg.value == 0 ==> code == Some(0)
    ensures arg.Some? && 64 < arg.value ==> code == Some(7)
    ensures arg.Some? && 2 <= arg.value <= 64 ==>
      1 <= code.value <= 6 && MAX_SEGMENTS[code.value] <= arg.value < 2 * MAX_SEGMENTS[code.value]
  {
    if arg.None? || arg.value == 0 then Some(0)
    else if arg.value > 64 then Some(7)
    else
      assert MAX_SEGMENTS[1] == 2;
      var code := LargestSegments(arg.value, 6);
      assert code.Some? && code.value < 6 ==> MAX_SEGMENTS[code.value + 1] == 2 * MAX_SEGMENTS[code.value];
      code
  }

  function LargestSegments(arg: nat, i: nat): (code: Option<byte>)
    requires i <= 6
    ensures code.Some? ==> 1 <= code.value <= i && MAX_SEGMENTS[code.value] <= arg
    ensures code.Some? ==> forall k :: code.value < k <= i ==> arg < MAX_SEGMENTS[k]
    ensures code.None? ==> forall k :: 0 < k <= i ==> arg < MAX_SEGMENTS[k]
  {
    if i == 0 then None
    else if MAX_SEGMENTS[i] <= arg then Some(i)
    else LargestSegments(arg, i - 1)
  }

  function DecodeMaxSegments(code: byte): Option<nat>
    requires code < 8
  {
    if code == 0 || code == 7 then None else Some(MAX_SEGMENTS[code])
  }

  /** None stands for the ValueError raised below 50 octets. */
  function EncodeMaxApduLength(arg: nat): (code: Option<byte>)
    ensures code.None? <==> arg < 50
    ensures code.Some? ==> code.value < 6 && MAX_APDU_LENGTH[code.value] <= arg
    ensures code.Some? && code.value < 5 ==> arg < MAX_APDU_LENGTH[code.value + 1]
  {
    LargestLength(arg, 6)
  }

  function LargestLength(arg: nat, i: nat): (code: Option<byte>)
    requires i <= 6
    requires i < 6 ==> arg < MAX_APDU_LENGTH[i]
    ensures code.None? <==> arg < 50
    ensures code.Some? ==> code.value < 6 && MAX_APDU_LENGTH[code.value] <= arg
    ensures code.Some? && code.value < 5 ==> arg < MAX_APDU_LENGTH[code.value + 1]
  {
    if i == 0 then None
    else if MAX_APDU_LENGTH[i - 1] <= arg then Some(i - 1)
    else LargestLength(arg, i - 1)
  }

  /** None stands for the ValueError raised on a reserved code. */
  function DecodeMaxApduLength(code: byte): Option<nat> {
    if code < 6 then Some(MAX_APDU_LENGTH[code]) else None
  }
}
