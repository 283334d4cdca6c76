/**
 * The serial commands of the arm's servo controller board (XArmDriver):
 * the multi-servo move command built by SpinServos and the decoding of the
 * position report read by GetCurrentPosition.
 *
 * The HID transport (MyHid::MakeAndSendCmd and MyHid::Read) is not
 * modelled: a sent command is the value `Command(code, argv)` handed to
 * MakeAndSendCmd, and a received report is the byte sequence Read returns.
 */
module ServoCodec {
  import opened Wrappers

  type Byte = x: int | 0 <= x < 0x100
  type UInt32 = x: int | 0 <= x < 0x1_0000_0000
  type Int32 = x: int | -0x8000_0000 <= x < 0x8000_0000

  /** SERVO_NUM */
  const ServoNum: nat := 6
  /** CMD_MULT_SERVO_SPIN */
  const CmdMultServoSpin: nat := 3
  /** CMD_MULT_SERVO_POS_READ */
  const CmdMultServoPosRead: nat := 21
  /** Largest period, in milliseconds, a move command carries. */
  const MaxPeriod: nat := 5000

  /** The arguments of one MakeAndSendCmd call. */
  datatype Command = Command(code: nat, argv: seq<UInt32>)

  /** `x & 0xFF` on a two's-complement int (Dafny's % is Euclidean, so this holds for negative x too). */
  function LowByte(x: int): Byte
  {
    x % 0x100
  }

  /** `(x >> 8) & 0xFF`, with an arithmetic right shift. */
  function HighByte(x: int): Byte
  {
    (x / 0x100) % 0x100
  }

  /** `lo + (hi << 8)`: a 16-bit little-endian field. */
  function Word(lo: int, hi: int): int
  {
    lo + hi * 0x100
  }

  /** Splitting a value into its two low bytes and joining them keeps exactly its low 16 bits. */
  lemma SplitJoin(x: int)
    ensures Word(LowByte(x), HighByte(x)) == x % 0x1_0000
  {
    var q, r := x / 0x100, x % 0x100;
    var q2, r2 := q / 0x100, q % 0x100;
    assert x == 0x100 * q + r;
    assert q == 0x100 * q2 + r2;
    assert x == 0x1_0000 * q2 + (0x100 * r2 + r);
    assert 0 <= 0x100 * r2 + r < 0x1_0000;
  }

  /** Joining two bytes and splitting the result gives the same two bytes back. */
  lemma JoinSplit(lo: Byte, hi: Byte)
    ensures 0 <= Word(lo, hi) < 0x1_0000
    ensures LowByte(Word(lo, hi)) == lo && HighByte(Word(lo, hi)) == hi
  {
    var w := Word(lo, hi);
    assert w == 0x100 * hi + lo;
    assert w / 0x100 == hi;
  }

  /** The per-servo part of a move command: id, low byte and high byte of the position, per servo. */
  function ServoFields(ids: seq<UInt32>, positions: seq<Int32>): (r: seq<UInt32>)
    requires |ids| == |positions|
    ensures |r| == 3 * |ids|
    ensures forall k :: 0 <= k < |ids| ==>
              && r[3 * k] == ids[k]
              && r[3 * k + 1] == LowByte(positions[k])
              && r[3 * k + 2] == HighByte(positions[k])
  {
    if ids == [] then []
    else
      var head := [ids[0], LowByte(positions[0]) as UInt32, HighByte(positions[0]) as UInt32];
      var rest := ServoFields(ids[1..], positions[1..]);
      assert forall m :: 0 <= m < |rest| ==> (head + rest)[3 + m] == rest[m];
      head + rest
  }

  /**
   * SpinServos: nothing is sent when the id and position lists differ in
   * length; otherwise the command carries the servo count, the period
   * clamped to 5000 ms as a little-endian 16-bit field, then three entries
   * per servo.
   */
  function SpinServos(ids: seq<UInt32>, positions: seq<Int32>, period: UInt32): (r: Option<Command>)
    ensures r.None? <==> |ids| != |positions|
    ensures r.Some? ==>
              && r.value.code == CmdMultServoSpin
              && |r.value.argv| == 3 + 3 * |ids|
              && r.value.argv[0] == |ids| % 0x1_0000_0000
              && r.value.argv[1] == LowByte(if period > MaxPeriod then MaxPeriod else period)
              && r.value.argv[2] == HighByte(if period > MaxPeriod then MaxPeriod else period)
              && forall k :: 0 <= k < |ids| ==>
                   && r.value.argv[3 + 3 * k] == ids[k]
                   && r.value.argv[4 + 3 * k] == LowByte(positions[k])
                   && r.value.argv[5 + 3 * k] == HighByte(positions[k])
  {
    if |ids| != |positions| then None
    else
      var per := if period > MaxPeriod then MaxPeriod else period;
      var header := [|ids| % 0x1_0000_0000, LowByte(per) as UInt32, HighByte(per) as UInt32];
      var fields := ServoFields(ids, positions);
      assert forall m :: 0 <= m < |fields| ==> (header + fields)[3 + m] == fields[m];
      Some(Command(CmdMultServoSpin, header + fields))
  }

  /** A move command as the servo board reads it. */
  datatype SpinRequest = SpinRequest(period: int, ids: seq<int>, positions: seq<int>)

  /** The board's reading of the per-servo fields, three entries per servo. */
  function ParseFields(fields: seq<UInt32>, count: nat): (r: (seq<int>, seq<int>))
    requires |fields| == 3 * count
    ensures |r.0| == |r.1| == count
  {
    if count == 0 then ([], [])
    else
      var rest := ParseFields(fields[3..], count - 1);
      ([fields[0] as int] + rest.0, [Word(fields[1], fields[2])] + rest.1)
  }

  /** The board's reading of a move command; `None` for anything that is not a well-formed one. */
  function ParseSpin(c: Command): Option<SpinRequest>
  {
    if c.code != CmdMultServoSpin || |c.argv| < 3 || |c.argv| != 3 + 3 * (c.argv[0] as int) then None
    else
      var fields := ParseFields(c.argv[3..], c.argv[0]);
      Some(SpinRequest(Word(c.argv[1], c.argv[2]), fields.0, fields.1))
  }

  /** Each position reduced to its low 16 bits. */
  function Low16(positions: seq<int>): (r: seq<int>)
    ensures |r| == |positions|
  {
    seq(|positions|, k requires 0 <= k < |positions| => positions[k] % 0x1_0000)
  }

  /** The servo fields read back: the ids, and each position's low 16 bits. */
  lemma {:induction false} FieldsRoundTrip(ids: seq<UInt32>, positions: seq<Int32>)
    requires |ids| == |positions|
    ensures ParseFields(ServoFields(ids, positions), |ids|) == (ids, Low16(positions))
  {
    if ids != [] {
      var fields := ServoFields(ids, positions);
      assert fields[3..] == ServoFields(ids[1..], positions[1..]);
      FieldsRoundTrip(ids[1..], positions[1..]);
      SplitJoin(positions[0]);
      assert ids == [ids[0]] + ids[1..];
      assert Low16(positions) == [positions[0] % 0x1_0000] + Low16(positions[1..]);
    }
  }

  /** The period field reads back as the clamped period. */
  lemma PeriodRoundTrip(period: UInt32)
    ensures var per := if period > MaxPeriod then MaxPeriod else period;
            Word(LowByte(per), HighByte(per)) == per
  {
    var per := if period > MaxPeriod then MaxPeriod else period;
    SplitJoin(per);
  }

  /**
   * Round trip of the move command: the board reads back the clamped period,
   * the ids in order, and each position modulo 2^16 (exactly the position
   * when it lies in 0..65535).
   */
  lemma SpinRoundTrip(ids: seq<UInt32>, positions: seq<Int32>, period: UInt32)
    requires |ids| == |positions| < 0x1_0000_0000
    ensures SpinServos(ids, positions, period).Some?
    ensures ParseSpin(SpinServos(ids, positions, period).value) ==
              Some(SpinRequest(if period > MaxPeriod then MaxPeriod else period, ids, Low16(positions)))
  {
    var c := SpinServos(ids, positions, period).value;
    var per := if period > MaxPeriod then MaxPeriod else period;
    assert c.argv[0] == |ids|;
    assert c.argv[3..] == ServoFields(ids, positions);
    var fields := ParseFields(c.argv[3..], |ids|);
    assert ParseSpin(c) == Some(SpinRequest(Word(c.argv[1], c.argv[2]), fields.0, fields.1));
    FieldsRoundTrip(ids, positions);
    PeriodRoundTrip(period);
    assert Word(c.argv[1], c.argv[2]) == per;
  }

  datatype ReadStatus = Completed | OutOfRange

  /** currPosArray_ after a read, and whether the read threw std::out_of_range. */
  datatype PositionRead = PositionRead(status: ReadStatus, positions: seq<int>)

  /** The report header GetCurrentPosition requires: the read command code, then the servo count. */
  predicate HeaderAccepted(response: seq<Byte>)
  {
    |response| >= 2 && response[0] == CmdMultServoPosRead && response[1] == ServoNum
  }

  /**
   * The decoding loop from slot `i` on: slot k takes the 16-bit value at
   * bytes 3k + 3 and 3k + 4; the first slot whose bytes are missing makes
   * `.at()` throw, after the slots before it have been written.
   */
  function ReadSlots(response: seq<Byte>, current: seq<int>, i: nat): (r: PositionRead)
    requires i <= ServoNum && |current| == ServoNum
    ensures |r.positions| == ServoNum
    ensures r.status == OutOfRange <==> i < ServoNum && |response| < 3 * ServoNum + 2
    ensures forall k :: 0 <= k < ServoNum ==>
              r.positions[k] == if i <= k && 3 * k + 4 < |response|
                                then Word(response[3 * k + 3], response[3 * k + 4])
                                else current[k]
    decreases ServoNum - i
  {
    if i == ServoNum then PositionRead(Completed, current)
    else if 3 * i + 4 >= |response| then PositionRead(OutOfRange, current)
    else ReadSlots(response, current[i := Word(response[3 * i + 3], response[3 * i + 4])], i + 1)
  }

  /**
   * GetCurrentPosition: a report that is empty, or does not start with the
   * read command code and the servo count, leaves the positions unchanged.
   * An accepted report of at least 20 bytes overwrites all six; a shorter
   * one (or a lone command byte) throws.
   */
  function GetCurrentPosition(response: seq<Byte>, current: seq<int>): (r: PositionRead)
    requires |current| == ServoNum
    ensures |r.positions| == ServoNum
    ensures r.status == OutOfRange <==>
              |response| > 0 && response[0] == CmdMultServoPosRead &&
              (|response| == 1 || (response[1] == ServoNum && |response| < 20))
    ensures forall k :: 0 <= k < ServoNum ==>
              r.positions[k] == if HeaderAccepted(response) && 3 * k + 4 < |response|
                                then Word(response[3 * k + 3], response[3 * k + 4])
                                else current[k]
    ensures HeaderAccepted(response) && |response| >= 20 ==> r.status == Completed
  {
    if |response| == 0 || response[0] != CmdMultServoPosRead then PositionRead(Completed, current)
    else if |response| < 2 then PositionRead(OutOfRange, current)
    else if response[1] != ServoNum then PositionRead(Completed, current)
    else ReadSlots(response, current, 0)
  }

  /** The board's report body: id, low byte and high byte of the position, per servo. */
  function ReportFields(ids: seq<Byte>, positions: seq<int>): (r: seq<Byte>)
    requires |ids| == |positions|
    ensures |r| == 3 * |ids|
    ensures forall k :: 0 <= k < |ids| ==>
              && r[3 * k] == ids[k]
              && r[3 * k + 1] == LowByte(positions[k])
              && r[3 * k + 2] == HighByte(positions[k])
  {
    if ids == [] then []
    else
      var head := [ids[0], LowByte(positions[0]), HighByte(positions[0])];
      var rest := ReportFields(ids[1..], positions[1..]);
      assert forall m :: 0 <= m < |rest| ==> (head + rest)[3 + m] == rest[m];
      head + rest
  }

  /** A position report as the board sends it: command code, servo count, then the servo fields. */
  function PositionReport(ids: seq<Byte>, positions: seq<int>): seq<Byte>
    requires |ids| == |positions|
  {
    [CmdMultServoPosRead, ServoNum] + ReportFields(ids, positions)
  }

  /**
   * Round trip of the report: whatever the previous positions, decoding a
   * report of six 16-bit positions (followed by any trailing bytes) yields
   * exactly those positions.
   */
  lemma ReadRoundTrip(ids: seq<Byte>, positions: seq<int>, tail: seq<Byte>, current: seq<int>)
    requires |ids| == ServoNum && |positions| == ServoNum && |current| == ServoNum
    requires forall k :: 0 <= k < ServoNum ==> 0 <= positions[k] < 0x1_0000
    ensures GetCurrentPosition(PositionReport(ids, positions) + tail, current) ==
              PositionRead(Completed, positions)
  {
    var fields := ReportFields(ids, positions);
    var response := PositionReport(ids, positions) + tail;
    assert forall m :: 0 <= m < |fields| ==> response[2 + m] == fields[m];
    var r := GetCurrentPosition(response, current);
    forall k | 0 <= k < ServoNum
      ensures r.positions[k] == positions[k]
    {
      assert response[3 * k + 3] == fields[3 * k + 1];
      assert response[3 * k + 4] == fields[3 * k + 2];
      SplitJoin(positions[k]);
    }
  }
}
