/** Length-prefixed PDO frames and the readings they carry. */
module PdoFrames {
  import opened MachineIntegers
  import opened Timestamps

  type Byte = b: int | 0 <= b < 256

  datatype Option<+T> = None | Some(value: T)

  // ---------- Records ----------

  datatype PdoType = RxCia402 | RxXtMotor | RxImuVn | OtherType

  datatype MotorRx = MotorRx(linkPos: real, linkVel: real, torque: real)

  datatype Quaternion = Quaternion(x: real, y: real, z: real, w: real)

  datatype Vector3 = Vector3(x: real, y: real, z: real)

  datatype ImuRx = ImuRx(quat: Quaternion, rate: Vector3, acc: Vector3)

  datatype Pdo = Pdo(kind: PdoType, stamp: Option<Timespec>,
                     cia402: Option<MotorRx>, xtMotor: Option<MotorRx>, imu: Option<ImuRx>)

  /** The protobuf decoder: any partial function of the bytes and the size it is given. */
  type Decoder = (seq<Byte>, int) -> Option<Pdo>

  // ---------- The length check ----------

  function Sum32(b0: int, b1: int, b2: int, b3: int): int
  {
    b0 + 256 * b1 + 65536 * b2 + 16777216 * b3
  }

  function LittleEndian32(s: seq<Byte>): nat
    requires |s| == 4
  {
    Sum32(s[0], s[1], s[2], s[3])
  }

  /** What the decoder is called with for a frame, if it is called at all. */
  datatype Call = NoCall | Call(payload: seq<Byte>, size: int)

  function FrameCall(frame: seq<Byte>): Call
  {
    if |frame| < 4 then
      NoCall
    else
      var pbLen := LittleEndian32(frame[..4]);
      if ToU32(pbLen + 4) != |frame| then NoCall else Call(frame[4..], ToI32(pbLen))
  }

  /** The decoder is called if and only if the prefix is the length of the rest and the
      whole length fits 32 bits. */
  lemma CallIsExact(frame: seq<Byte>)
    ensures FrameCall(frame).Call?
       <==> |frame| >= 4 && LittleEndian32(frame[..4]) == |frame| - 4 && |frame| < TWO_32
  {
    if |frame| >= 4 {
      var pbLen := LittleEndian32(frame[..4]);
      if pbLen + 4 >= TWO_32 {
        assert ToU32(pbLen + 4) == pbLen + 4 - TWO_32 < 4;
      }
    }
  }

  /** The sum in the check wraps: a frame of 2^32 bytes with the right prefix is rejected. */
  lemma LongestPrefixRejected(frame: seq<Byte>)
    requires |frame| == TWO_32 && frame[..4] == [0xFC, 0xFF, 0xFF, 0xFF]
    ensures LittleEndian32(frame[..4]) == |frame| - 4 && FrameCall(frame) == NoCall
  {
    CallIsExact(frame);
  }

  function Bytes32(n: nat): (s: seq<Byte>)
    ensures |s| == 4
  {
    [n % 256, n / 256 % 256, n / 256 / 256 % 256, n / 256 / 256 / 256 % 256]
  }

  /** The frame a sender builds around a payload. */
  function Frame(payload: seq<Byte>): seq<Byte>
  {
    Bytes32(|payload|) + payload
  }

  lemma Remainder32(n: nat, d: nat, s: nat)
    requires n == TWO_32 * d + s && s < TWO_32
    ensures n % TWO_32 == s
  {
  }

  lemma BytesRoundTrip(n: nat)
    ensures LittleEndian32(Bytes32(n)) == ToU32(n)
  {
    var a := n / 256;
    var b := a / 256;
    var c := b / 256;
    var d := c / 256;
    var s := LittleEndian32(Bytes32(n));
    assert n == 256 * a + n % 256;
    assert a == 256 * b + a % 256;
    assert b == 256 * c + b % 256;
    assert c == 256 * d + c % 256;
    Remainder32(n, d, s);
  }

  lemma SumDigits(b0: int, b1: int, b2: int, b3: int)
    requires 0 <= b0 < 256 && 0 <= b1 < 256 && 0 <= b2 < 256 && 0 <= b3 < 256
    ensures var n := Sum32(b0, b1, b2, b3);
            n % 256 == b0 && n / 256 % 256 == b1 && n / 256 / 256 % 256 == b2 && n / 256 / 256 / 256 % 256 == b3
  {
    var n := Sum32(b0, b1, b2, b3);
    assert n / 256 == b1 + 256 * b2 + 65536 * b3;
    assert n / 256 / 256 == b2 + 256 * b3;
    assert n / 256 / 256 / 256 == b3;
  }

  lemma BytesOf(s: seq<Byte>)
    requires |s| == 4
    ensures Bytes32(LittleEndian32(s)) == s
  {
    SumDigits(s[0], s[1], s[2], s[3]);
  }

  /** Framing and checking hands the decoder the payload with its size, exactly for
      payloads shorter than 2^31 bytes. */
  lemma FrameRoundTrip(payload: seq<Byte>)
    ensures FrameCall(Frame(payload)) == Call(payload, |payload|) <==> |payload| < TWO_31
  {
    hide Bytes32, LittleEndian32;
    var f := Frame(payload);
    BytesRoundTrip(|payload|);
    assert f[..4] == Bytes32(|payload|) && f[4..] == payload;
    CallIsExact(f);
  }

  /** An accepted frame is the framing of its payload, and of no other. */
  lemma AcceptedFrameUnique(frame: seq<Byte>, payload: seq<Byte>)
    requires FrameCall(frame).Call?
    ensures frame == Frame(payload) <==> FrameCall(frame).payload == payload
  {
    hide Bytes32, LittleEndian32;
    CallIsExact(frame);
    BytesOf(frame[..4]);
    assert frame == frame[..4] + frame[4..];
    if frame == Frame(payload) {
      assert frame[4..] == payload;
    }
  }

  // ---------- Readings ----------

  function Parse(decode: Decoder, frame: seq<Byte>): Option<Pdo>
  {
    match FrameCall(frame)
    case NoCall => None
    case Call(payload, size) => decode(payload, size)
  }

  /** The stamp of a record, or the present time if it carries none. */
  function StampOf(pdo: Pdo, now: nat): nat
  {
    match pdo.stamp
    case Some(ts) => ts.ToNs()
    case None => now
  }

  datatype Reading = Reading(pos: real, vel: real, eff: real, stamp: nat)

  function MotorData(pdo: Pdo): Option<MotorRx>
  {
    if pdo.kind == RxCia402 && pdo.cia402.Some? then pdo.cia402
    else if pdo.kind == RxXtMotor && pdo.xtMotor.Some? then pdo.xtMotor
    else None
  }

  function JointReading(decode: Decoder, frame: seq<Byte>, now: nat): Option<Reading>
  {
    match Parse(decode, frame)
    case None => None
    case Some(pdo) =>
      match MotorData(pdo)
      case None => None
      case Some(rx) => Some(Reading(rx.linkPos, rx.linkVel, rx.torque, StampOf(pdo, now)))
  }

  datatype ImuReading = ImuReading(stamp: nat, orientation: Quaternion, angular: Vector3, linear: Vector3)

  function ImuReadingOf(decode: Decoder, frame: seq<Byte>, now: nat): Option<ImuReading>
  {
    match Parse(decode, frame)
    case None => None
    case Some(pdo) =>
      if pdo.kind != RxImuVn || pdo.imu.None? then None
      else Some(ImuReading(StampOf(pdo, now), pdo.imu.value.quat, pdo.imu.value.rate, pdo.imu.value.acc))
  }

  // ---------- What the readings are ----------

  lemma PrefixIs(frame: seq<Byte>)
    requires |frame| >= 4
    ensures LittleEndian32(frame[..4])
         == frame[0] as int + 256 * frame[1] as int + 65536 * frame[2] as int + 16777216 * frame[3] as int
  {
  }

  lemma SizeIs(frame: seq<Byte>)
    requires |frame| >= 4 && FrameCall(frame).Call?
    ensures FrameCall(frame).payload == frame[4..]
    ensures LittleEndian32(frame[..4]) == |frame| - 4 && |frame| < TWO_32 ==>
              FrameCall(frame).size == if |frame| - 4 < TWO_31 then |frame| - 4 else |frame| - 4 - TWO_32
  {
    hide LittleEndian32;
  }

  /** For frames of every length: what reaches the decoder, and what is refused. */
  lemma ParseMeaning(decode: Decoder, frame: seq<Byte>)
    ensures |frame| < 4 ==> Parse(decode, frame).None?
    ensures |frame| >= 4 && frame[0] as int + 256 * frame[1] as int + 65536 * frame[2] as int + 16777216 * frame[3] as int != |frame| - 4 ==>
              Parse(decode, frame).None?
    ensures |frame| >= TWO_32 ==> Parse(decode, frame).None?
    ensures |frame| >= 4 && frame[0] as int + 256 * frame[1] as int + 65536 * frame[2] as int + 16777216 * frame[3] as int == |frame| - 4
            && |frame| < TWO_32 ==>
              Parse(decode, frame) == decode(frame[4..], if |frame| - 4 < TWO_31 then |frame| - 4 else |frame| - 4 - TWO_32)
  {
    CallIsExact(frame);
    if |frame| >= 4 {
      PrefixIs(frame);
      if FrameCall(frame).Call? {
        SizeIs(frame);
      }
      hide LittleEndian32, FrameCall, ToI32, ToU32;
    }
  }

  /** Parsing a framed payload decodes the payload. */
  lemma ParseOfFrame(decode: Decoder, payload: seq<Byte>)
    requires |payload| < TWO_31
    ensures Parse(decode, Frame(payload)) == decode(payload, |payload|)
  {
    FrameRoundTrip(payload);
    hide FrameCall, Frame;
  }

  /** The frame's prefix is the length of the rest, and the rest decodes to the record. */
  ghost predicate Carries(decode: Decoder, frame: seq<Byte>, pdo: Pdo)
  {
    && |frame| >= 4
    && frame[0] as int + 256 * frame[1] as int + 65536 * frame[2] as int + 16777216 * frame[3] as int == |frame| - 4
    && decode(frame[4..], |frame| - 4) == Some(pdo)
  }

  /** The motor data of a record, in the field of its type. */
  ghost predicate HasMotor(pdo: Pdo, rx: MotorRx)
  {
    || (pdo.kind == RxCia402 && pdo.cia402 == Some(rx))
    || (pdo.kind == RxXtMotor && pdo.xtMotor == Some(rx))
  }

  ghost predicate HasImu(pdo: Pdo, rx: ImuRx)
  {
    pdo.kind == RxImuVn && pdo.imu == Some(rx)
  }

  /** The record's own time as a nanosecond count, or the present time if it has none. */
  ghost predicate HasStamp(pdo: Pdo, now: nat, stamp: nat)
  {
    && (forall ts :: pdo.stamp == Some(ts) ==> stamp == ts.ToNs())
    && (pdo.stamp == None ==> stamp == now)
  }

  lemma CarriedIsParsed(decode: Decoder, frame: seq<Byte>, pdo: Pdo)
    requires |frame| < TWO_31
    ensures Carries(decode, frame, pdo) <==> Parse(decode, frame) == Some(pdo)
  {
    ParseMeaning(decode, frame);
    hide Parse;
  }

  /** A joint reading is the position, velocity and torque of the motor data of a carried
      record, with its stamp; there is none exactly if no record with motor data is carried. */
  lemma JointReadingMeaning(decode: Decoder, frame: seq<Byte>, now: nat)
    requires |frame| < TWO_31
    ensures forall pdo, rx, stamp ::
              Carries(decode, frame, pdo) && HasMotor(pdo, rx) && HasStamp(pdo, now, stamp) ==>
                JointReading(decode, frame, now) == Some(Reading(rx.linkPos, rx.linkVel, rx.torque, stamp))
    ensures JointReading(decode, frame, now).Some? ==>
              exists pdo, rx ::
                Carries(decode, frame, pdo) && HasMotor(pdo, rx)
                && HasStamp(pdo, now, JointReading(decode, frame, now).value.stamp)
  {
    forall pdo ensures Carries(decode, frame, pdo) <==> Parse(decode, frame) == Some(pdo) {
      CarriedIsParsed(decode, frame, pdo);
    }
    hide Carries, Parse;
    if JointReading(decode, frame, now).Some? {
      var pdo := Parse(decode, frame).value;
      var rx := MotorData(pdo).value;
      assert HasMotor(pdo, rx) && HasStamp(pdo, now, StampOf(pdo, now));
    }
  }

  /** The same of the IMU: orientation, rate and acceleration of a carried IMU record. */
  lemma ImuReadingMeaning(decode: Decoder, frame: seq<Byte>, now: nat)
    requires |frame| < TWO_31
    ensures forall pdo, rx, stamp ::
              Carries(decode, frame, pdo) && HasImu(pdo, rx) && HasStamp(pdo, now, stamp) ==>
                ImuReadingOf(decode, frame, now) == Some(ImuReading(stamp, rx.quat, rx.rate, rx.acc))
    ensures ImuReadingOf(decode, frame, now).Some? ==>
              exists pdo, rx ::
                Carries(decode, frame, pdo) && HasImu(pdo, rx)
                && HasStamp(pdo, now, ImuReadingOf(decode, frame, now).value.stamp)
  {
    forall pdo ensures Carries(decode, frame, pdo) <==> Parse(decode, frame) == Some(pdo) {
      CarriedIsParsed(decode, frame, pdo);
    }
    hide Carries, Parse;
    if ImuReadingOf(decode, frame, now).Some? {
      var pdo := Parse(decode, frame).value;
      assert HasImu(pdo, pdo.imu.value) && HasStamp(pdo, now, StampOf(pdo, now));
    }
  }

  // ---------- The parsers over the read buffer ----------

  lemma ParseIs(decode: Decoder, frame: seq<Byte>)
    requires |frame| >= 4
    ensures var pbLen := Sum32(frame[0], frame[1], frame[2], frame[3]);
            Parse(decode, frame) == if ToU32(pbLen + 4) != |frame| then None else decode(frame[4..], ToI32(pbLen))
  {
    hide Sum32, ToU32, ToI32;
  }

  /** Checks and decodes the first n bytes of the buffer. */
  method ParseFrame(decode: Decoder, buf: array<Byte>, n: int) returns (result: Option<Pdo>)
    requires n <= buf.Length
    ensures result == if n < 0 then None else Parse(decode, buf[..n])
    ensures n < 4 ==> result == None
    ensures n >= 4 && buf[0] as int + 256 * buf[1] as int + 65536 * buf[2] as int + 16777216 * buf[3] as int != n - 4 ==> result == None
    ensures 4 <= n < TWO_31 + 4 && buf[0] as int + 256 * buf[1] as int + 65536 * buf[2] as int + 16777216 * buf[3] as int == n - 4 ==>
              result == decode(buf[4..n], n - 4)
  {
    if n < 4 {
      return None;
    }
    var pbLen := Sum32(buf[0], buf[1], buf[2], buf[3]);
    ghost var frame := buf[..n];
    assert frame[0] == buf[0] && frame[1] == buf[1] && frame[2] == buf[2] && frame[3] == buf[3];
    assert frame[4..] == buf[4..n];
    hide *;
    PrefixIs(frame);
    ParseMeaning(decode, frame);
    ParseIs(decode, frame);
    if ToU32(pbLen + 4) != n {
      return None;
    }
    result := decode(buf[4..n], ToI32(pbLen));
  }

  /** The out-parameters keep their values unless the frame yields a reading; only the stamp
      is already written when the record turns out to be of another type. */
  method ParseJointFrame(decode: Decoder, buf: array<Byte>, n: int, now: nat,
                         pos0: real, vel0: real, eff0: real, stamp0: nat)
    returns (ok: bool, pos: real, vel: real, eff: real, stamp: nat)
    requires 0 <= n <= buf.Length
    ensures ok <==> JointReading(decode, buf[..n], now).Some?
    ensures ok ==> JointReading(decode, buf[..n], now) == Some(Reading(pos, vel, eff, stamp))
    ensures !ok ==> pos == pos0 && vel == vel0 && eff == eff0
    ensures !ok ==> stamp == match Parse(decode, buf[..n]) case None => stamp0 case Some(pdo) => StampOf(pdo, now)
    ensures n < TWO_31 ==> forall pdo :: Carries(decode, buf[..n], pdo) ==>
              && HasStamp(pdo, now, stamp)
              && (ok <==> exists rx :: HasMotor(pdo, rx))
              && (forall rx :: HasMotor(pdo, rx) ==> pos == rx.linkPos && vel == rx.linkVel && eff == rx.torque)
    ensures n < TWO_31 && (forall pdo :: !Carries(decode, buf[..n], pdo)) ==> !ok && stamp == stamp0
  {
    ok, pos, vel, eff, stamp := false, pos0, vel0, eff0, stamp0;
    if n < TWO_31 {
      forall pdo ensures Carries(decode, buf[..n], pdo) <==> Parse(decode, buf[..n]) == Some(pdo) {
        CarriedIsParsed(decode, buf[..n], pdo);
      }
    }
    hide Parse, Carries;
    var parsed := ParseFrame(decode, buf, n);
    if parsed.None? {
      return;
    }
    var pdo := parsed.value;
    stamp := StampOf(pdo, now);
    if pdo.kind == RxCia402 && pdo.cia402.Some? {
      var rx := pdo.cia402.value;
      assert HasMotor(pdo, rx);
      ok, pos, vel, eff := true, rx.linkPos, rx.linkVel, rx.torque;
      return;
    }
    if pdo.kind == RxXtMotor && pdo.xtMotor.Some? {
      var rx := pdo.xtMotor.value;
      assert HasMotor(pdo, rx);
      ok, pos, vel, eff := true, rx.linkPos, rx.linkVel, rx.torque;
    }
  }

  method ParseImuFrame(decode: Decoder, buf: array<Byte>, n: int, now: nat) returns (reading: Option<ImuReading>)
    requires 0 <= n <= buf.Length
    ensures reading == ImuReadingOf(decode, buf[..n], now)
    ensures n < TWO_31 ==> forall pdo :: Carries(decode, buf[..n], pdo) ==>
              && (reading.Some? <==> exists rx :: HasImu(pdo, rx))
              && (reading.Some? ==> HasStamp(pdo, now, reading.value.stamp))
              && (forall rx :: HasImu(pdo, rx) ==>
                    reading.Some? && reading.value.orientation == rx.quat
                    && reading.value.angular == rx.rate && reading.value.linear == rx.acc)
    ensures n < TWO_31 && (forall pdo :: !Carries(decode, buf[..n], pdo)) ==> reading == None
  {
    if n < TWO_31 {
      forall pdo ensures Carries(decode, buf[..n], pdo) <==> Parse(decode, buf[..n]) == Some(pdo) {
        CarriedIsParsed(decode, buf[..n], pdo);
      }
    }
    hide Parse, Carries;
    var parsed := ParseFrame(decode, buf, n);
    if parsed.None? {
      return None;
    }
    var pdo := parsed.value;
    if pdo.kind != RxImuVn || pdo.imu.None? {
      return None;
    }
    var rx := pdo.imu.value;
    assert HasImu(pdo, rx);
    reading := Some(ImuReading(StampOf(pdo, now), rx.quat, rx.rate, rx.acc));
  }
}
