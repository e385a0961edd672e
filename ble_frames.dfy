/**
 * `Frame.kt`: the initialization frame of CTAP 2.0 BLE framing
 * (section 8.3.4): a command byte, a two-byte length, then data.
 */
module Frames {
  import opened JvmTypes
  import opened Wrappers
  import opened BleConstants

  /** `len` is the length of the whole message, not of this frame's data. */
  datatype Frame = Frame(command: BLECommandType, len: int, data: seq<Byte>)

  /** `Pair<T?, BLEErrorType?>` as returned by the `fromByteArray` functions: exactly one side is present. */
  datatype Parsed<+T> = Parsed(frame: T) | Failed(error: BLEErrorType)

  /**
   * `bytes[1].toInt() and 0x0000_ff00`: the sign-extended byte keeps
   * bits 8 to 15 only when it is negative, and then they are all ones.
   */
  function MaskedHigh(b: Byte): (r: int)
    ensures r == 0 || r == 0xff00
  {
    if Signed(b) < 0 then 0xff00 else 0
  }

  /** The length `fromByteArray` reads from the two length bytes. */
  function ReadLen(hi: Byte, lo: Byte): (r: int)
    ensures 0 <= r < 0x100 || 0xff00 <= r <= 0xffff
  {
    MaskedHigh(hi) + lo
  }

  /** `Frame.fromByteArray`. */
  function FromBytes(bytes: seq<Byte>): (r: Parsed<Frame>)
    ensures |bytes| < 3 <==> r == Failed(InvalidLen)
    ensures |bytes| >= 3 ==> (r == Failed(InvalidCmd) <==> CommandFromByte(bytes[0]).None?)
    ensures r.Parsed? ==> Some(r.frame.command) == CommandFromByte(bytes[0]) && r.frame.data == bytes[3..]
  {
    if |bytes| < 3 then Failed(InvalidLen)
    else match CommandFromByte(bytes[0])
      case None => Failed(InvalidCmd)
      case Some(command) => Parsed(Frame(command, ReadLen(bytes[1], bytes[2]), bytes[3..]))
  }

  /** `(len and 0xff00).shr(8).toByte()`: bits 8 to 15 of the two's-complement length. */
  function HighLenByte(len: int): Byte
  {
    (len % 0x1_0000) / 0x100
  }

  /** `(len and 0xff).toByte()`. */
  function LowLenByte(len: int): Byte
  {
    len % 0x100
  }

  /** `Frame.toByteArray`: the three header bytes merged with the data. */
  function ToBytes(f: Frame): (r: seq<Byte>)
    ensures |r| == 3 + |f.data| && r[3..] == f.data
  {
    [f.command.ToByte(), HighLenByte(f.len), LowLenByte(f.len)] + f.data
  }

  /** The length that survives a trip through `toByteArray` and `fromByteArray`. */
  function DecodedLen(len: int): int
  {
    ReadLen(HighLenByte(len), LowLenByte(len))
  }

  /**
   * Serializing then parsing keeps the command and the data. The length
   * comes back only when it is below 256 or in 0xff00..0xffff, because
   * the high byte is masked in place and never shifted down.
   */
  lemma RoundTrip(f: Frame)
    ensures FromBytes(ToBytes(f)) == Parsed(Frame(f.command, DecodedLen(f.len), f.data))
    ensures DecodedLen(f.len) == f.len <==> 0 <= f.len < 0x100 || 0xff00 <= f.len <= 0xffff
  {
    var b := ToBytes(f);
    CommandRoundTrip(f.command, b[0]);
  }

  /** One length beyond the first byte: a 256-byte message announces length 0. */
  lemma LengthDecodeExample()
    ensures DecodedLen(0x100) == 0 && DecodedLen(300) == 44
  {
  }

  /** The evidently intended decoding: `(hi shl 8) or lo`, on the unsigned bytes. */
  function FromBytesIntended(bytes: seq<Byte>): (r: Parsed<Frame>)
    ensures r.Parsed? ==> |bytes| >= 3 && r.frame.len == (bytes[1] as int) * 0x100 + bytes[2] as int
  {
    if |bytes| < 3 then Failed(InvalidLen)
    else match CommandFromByte(bytes[0])
      case None => Failed(InvalidCmd)
      case Some(command) => Parsed(Frame(command, (bytes[1] as int) * 0x100 + bytes[2] as int, bytes[3..]))
  }

  /** With that decoding every length of the two-byte field comes back. */
  lemma IntendedRoundTrip(f: Frame)
    requires 0 <= f.len <= 0xffff
    ensures FromBytesIntended(ToBytes(f)) == Parsed(f)
  {
    CommandRoundTrip(f.command, f.command.ToByte());
    LenBytes(f.len);
    hide HighLenByte, LowLenByte;
    var b := ToBytes(f);
    assert b[1] == HighLenByte(f.len) && b[2] == LowLenByte(f.len) && b[3..] == f.data;
  }

  /** The two length bytes of a 16-bit length give it back. */
  lemma LenBytes(len: int)
    requires 0 <= len <= 0xffff
    ensures HighLenByte(len) as int * 0x100 + LowLenByte(len) as int == len
  {
  }
}

/** `ContinuationFrame.kt`: a sequence byte, then data. */
module ContinuationFrames {
  import opened JvmTypes
  import opened BleConstants
  import opened Frames

  datatype ContinuationFrame = ContinuationFrame(seqNum: int, data: seq<Byte>)

  /** `ContinuationFrame.fromByteArray`: the sequence number is byte 0 read as signed. */
  function FromBytes(bytes: seq<Byte>): (r: Parsed<ContinuationFrame>)
    ensures |bytes| < 2 <==> r == Failed(InvalidLen)
    ensures r.Parsed? ==> r.frame.seqNum == Signed(bytes[0]) && r.frame.data == bytes[1..]
  {
    if |bytes| < 2 then Failed(InvalidLen)
    else Parsed(ContinuationFrame(Signed(bytes[0]), bytes[1..]))
  }

  /** `toByteArray`: `seqNum.toByte()` merged with the data. */
  function ToBytes(c: ContinuationFrame): (r: seq<Byte>)
    ensures |r| == 1 + |c.data| && r[1..] == c.data
  {
    [ToByte(c.seqNum)] + c.data
  }

  /** A frame comes back unchanged exactly when its seqNum fits a signed byte and it carries data. */
  lemma RoundTrip(c: ContinuationFrame)
    ensures FromBytes(ToBytes(c)) == Parsed(c) <==> -128 <= c.seqNum < 128 && c.data != []
    ensures 0 <= c.seqNum < 128 && c.data != [] ==> FromBytes(ToBytes(c)) == Parsed(c)
  {
    var b := ToBytes(c);
    if |b| >= 2 {
      assert b[1..] == c.data;
      if -128 <= c.seqNum < 128 {
        assert Signed(ToByte(c.seqNum)) == c.seqNum;
      }
    }
  }
}

/** `FrameSplitter.kt`: cutting a message into an initialization frame and continuation frames. */
module FrameSplitting {
  import opened JvmTypes
  import opened Wrappers
  import opened BleConstants
  import opened Frames
  import opened ContinuationFrames

  /** `firstFragmentMaxDataSize`: `maxPacketDataSize - 3` in 32-bit arithmetic. */
  function FirstMax(max: Int32): int
  {
    ToInt(max - 3)
  }

  /** `restFragmentsMaxDataSize`: `maxPacketDataSize - 1` in 32-bit arithmetic. */
  function RestMax(max: Int32): int
  {
    ToInt(max - 1)
  }

  /** The continuation step is never 0 when the first step is usable. */
  lemma RestMaxNonZero(max: Int32)
    requires FirstMax(max) >= 0
    ensures RestMax(max) != 0
  {
    if max == INT_MIN {
      assert RestMax(max) == INT_MAX;
    } else {
      assert RestMax(max) == max - 1;
      assert max == 1 ==> FirstMax(max) == -2;
    }
  }

  datatype Fragments = Fragments(first: Frame, rest: seq<ContinuationFrame>)

  /** The continuation frames the loop adds from position pos on, numbered from seqNum. */
  function Pieces(data: seq<Byte>, pos: nat, step: nat, seqNum: nat): seq<ContinuationFrame>
    requires step > 0 && pos <= |data|
    decreases |data| - pos
  {
    if pos >= |data| then []
    else if |data| - pos < step then [ContinuationFrame(seqNum, data[pos..])]
    else [ContinuationFrame(seqNum, data[pos..pos + step])] + Pieces(data, pos + step, step, seqNum + 1)
  }

  /**
   * What `split` returns; None is the IllegalArgumentException
   * `copyOfRange` throws for a negative fragment size.
   */
  function SplitResult(max: Int32, command: BLECommandType, data: seq<Byte>): (r: Option<Fragments>)
    ensures 3 <= max ==> r.Some?
    ensures r.Some? ==> r.value.first.command == command && r.value.first.len == |data| && r.value.first.data <= data
    ensures r.Some? && |data| <= FirstMax(max) ==> r.value.first.data == data && r.value.rest == []
  {
    var firstMax := FirstMax(max);
    var restMax := RestMax(max);
    if |data| > firstMax then
      if firstMax < 0 || restMax <= 0 then None
      else Some(Fragments(Frame(command, |data|, data[..firstMax]), Pieces(data, firstMax, restMax, 0)))
    else Some(Fragments(Frame(command, |data|, data), []))
  }

  /** One full-size piece, then the rest. */
  lemma PiecesFull(data: seq<Byte>, pos: nat, step: nat, seqNum: nat)
    requires step > 0 && pos + step <= |data|
    ensures Pieces(data, pos, step, seqNum) == [ContinuationFrame(seqNum, data[pos..pos + step])] + Pieces(data, pos + step, step, seqNum + 1)
  {
  }

  /** The last, shorter piece. */
  lemma PiecesLast(data: seq<Byte>, pos: nat, step: nat, seqNum: nat)
    requires step > 0 && pos < |data| < pos + step
    ensures Pieces(data, pos, step, seqNum) == [ContinuationFrame(seqNum, data[pos..])]
  {
  }

  /** Nothing left, no piece. */
  lemma PiecesEnd(data: seq<Byte>, pos: nat, step: nat, seqNum: nat)
    requires step > 0 && pos == |data|
    ensures Pieces(data, pos, step, seqNum) == []
  {
  }

  lemma AppendPiece(f: seq<ContinuationFrame>, c: ContinuationFrame, rest: seq<ContinuationFrame>)
    ensures f + ([c] + rest) == (f + [c]) + rest && f + [] == f
  {
  }

  /**
   * The loop of `split`: continuation frames from position firstMax on;
   * a negative step makes `copyOfRange` throw on the first round.
   */
  method SplitRest(data: array<Byte>, firstMax: nat, restMax: int) returns (r: Option<seq<ContinuationFrame>>)
    requires firstMax < data.Length && restMax != 0
    ensures restMax < 0 ==> r.None?
    ensures restMax > 0 ==> r == Some(Pieces(data[..], firstMax, restMax, 0))
  {
    ghost var d := data[..];
    var len := data.Length;
    var pos := firstMax;
    var fragments: seq<ContinuationFrame> := [];
    var seqNum := 0;
    hide *;
    while pos < len
      invariant firstMax <= pos <= len
      invariant restMax < 0 ==> pos == firstMax
      invariant restMax > 0 ==> fragments + Pieces(d, pos, restMax, seqNum) == Pieces(d, firstMax, restMax, 0)
      decreases len - pos
    {
      var restSize := len - pos;
      if restSize < restMax {
        var fragment := data[pos..pos + restSize];
        assert fragment == d[pos..];
        PiecesLast(d, pos, restMax, seqNum);
        fragments := fragments + [ContinuationFrame(seqNum, fragment)];
        break;
      } else {
        if restMax < 0 {
          return None;
        }
        var fragment := data[pos..pos + restMax];
        assert fragment == d[pos..pos + restMax];
        PiecesFull(d, pos, restMax, seqNum);
        AppendPiece(fragments, ContinuationFrame(seqNum, fragment), Pieces(d, pos + restMax, restMax, seqNum + 1));
        pos := pos + restMax;
        fragments := fragments + [ContinuationFrame(seqNum, fragment)];
        seqNum := seqNum + 1;
      }
    }
    if pos >= len {
      PiecesEnd(d, pos, restMax, seqNum);
      AppendPiece(fragments, ContinuationFrame(0, []), []);
    }
    return Some(fragments);
  }

  /** `FrameSplitter(max).split(command, data)`. */
  method Split(max: Int32, command: BLECommandType, data: array<Byte>) returns (r: Option<Fragments>)
    requires data.Length <= INT_MAX
    ensures r == SplitResult(max, command, data[..])
  {
    var firstMax := FirstMax(max);
    var restMax := RestMax(max);
    var len := data.Length;
    if len > firstMax {
      if firstMax < 0 {
        return None;
      }
      RestMaxNonZero(max);
      var firstData := data[..firstMax];
      var first := Frame(command, len, firstData);
      var fragments := SplitRest(data, firstMax, restMax);
      if fragments.None? {
        return None;
      }
      return Some(Fragments(first, fragments.value));
    } else {
      assert data[..] == data[..len];
      return Some(Fragments(Frame(command, len, data[..]), []));
    }
  }

  /** All the continuation payloads, in order. */
  function Payloads(cs: seq<ContinuationFrame>): seq<Byte>
  {
    if cs == [] then [] else cs[0].data + Payloads(cs[1..])
  }

  lemma {:induction false} PiecesReassemble(data: seq<Byte>, pos: nat, step: nat, seqNum: nat)
    requires step > 0 && pos <= |data|
    ensures Payloads(Pieces(data, pos, step, seqNum)) == data[pos..]
    decreases |data| - pos
  {
    var p := Pieces(data, pos, step, seqNum);
    if pos < |data| && |data| - pos >= step {
      PiecesReassemble(data, pos + step, step, seqNum + 1);
      assert p[1..] == Pieces(data, pos + step, step, seqNum + 1);
      assert data[pos..] == data[pos..pos + step] + data[pos + step..];
    } else if pos < |data| {
      assert p[1..] == [];
    }
  }

  lemma {:induction false} PiecesShape(data: seq<Byte>, pos: nat, step: nat, seqNum: nat)
    requires step > 0 && pos <= |data|
    ensures forall i :: 0 <= i < |Pieces(data, pos, step, seqNum)| ==>
      Pieces(data, pos, step, seqNum)[i].seqNum == seqNum + i && 1 <= |Pieces(data, pos, step, seqNum)[i].data| <= step
    decreases |data| - pos
  {
    var p := Pieces(data, pos, step, seqNum);
    if pos < |data| && |data| - pos >= step {
      var q := Pieces(data, pos + step, step, seqNum + 1);
      PiecesShape(data, pos + step, step, seqNum + 1);
      assert p == [p[0]] + q;
      forall i | 1 <= i < |p|
        ensures p[i].seqNum == seqNum + i && 1 <= |p[i].data| <= step
      {
        assert p[i] == q[i - 1];
        assert q[i - 1].seqNum == seqNum + 1 + (i - 1) && 1 <= |q[i - 1].data| <= step;
      }
    }
  }

  /**
   * The number k of pieces is the ceiling of what is left divided by the
   * step: (k - 1) * step < left <= k * step, and no piece for nothing left.
   */
  lemma {:induction false} PiecesCount(data: seq<Byte>, pos: nat, step: nat, seqNum: nat)
    requires step > 0 && pos <= |data|
    ensures var k := |Pieces(data, pos, step, seqNum)|;
      (k == 0 <==> pos == |data|) && (pos < |data| ==> (k - 1) * step < |data| - pos <= k * step)
    decreases |data| - pos
  {
    var n := |data| - pos;
    if pos < |data| && n >= step {
      var q := Pieces(data, pos + step, step, seqNum + 1);
      PiecesCount(data, pos + step, step, seqNum + 1);
      var k := |q| + 1;
      assert (k - 1) * step == |q| * step && k * step == |q| * step + step;
      if pos + step < |data| {
        assert (|q| - 1) * step == |q| * step - step;
      }
    }
  }

  /** With steps of at least two bytes, there are at most half as many pieces as bytes, rounded up. */
  lemma {:induction false} PiecesFew(data: seq<Byte>, pos: nat, step: nat, seqNum: nat)
    requires step >= 2 && pos <= |data|
    ensures |Pieces(data, pos, step, seqNum)| <= (|data| - pos + 1) / 2
    decreases |data| - pos
  {
    if pos < |data| && |data| - pos >= step {
      PiecesFew(data, pos + step, step, seqNum + 1);
    }
  }

  /** A message that fits after the header goes in a single frame. */
  lemma SplitSingle(max: Int32, command: BLECommandType, data: seq<Byte>)
    requires |data| <= FirstMax(max)
    ensures SplitResult(max, command, data) == Some(Fragments(Frame(command, |data|, data), []))
  {
  }

  /**
   * For every packet size of at least 3 the split succeeds: the
   * initialization frame announces the whole length, its data followed by
   * the continuation payloads is the message, the continuations are
   * numbered 0, 1, 2, ..., and their number k is the ceiling of what is
   * left after the first frame divided by the continuation size.
   */
  lemma SplitReassembles(max: Int32, command: BLECommandType, data: seq<Byte>)
    requires 3 <= max
    ensures var r := SplitResult(max, command, data);
      r.Some? && r.value.first.command == command && r.value.first.len == |data|
      && r.value.first.data + Payloads(r.value.rest) == data
      && (forall i :: 0 <= i < |r.value.rest| ==> r.value.rest[i].seqNum == i)
      && (|data| > max - 3 ==> var k := |r.value.rest|;
            (k - 1) * (max - 1) < |data| - (max - 3) <= k * (max - 1))
      && (|data| <= max - 3 ==> r.value.rest == [])
  {
    var r := SplitResult(max, command, data);
    if |data| > max - 3 {
      PiecesReassemble(data, max - 3, max - 1, 0);
      PiecesShape(data, max - 3, max - 1, 0);
      PiecesCount(data, max - 3, max - 1, 0);
      assert data == data[..max - 3] + data[max - 3..];
    } else {
      assert Payloads([]) == [];
    }
  }

  /**
   * For packet sizes of at least 3, every serialized frame fits in a
   * packet: in the split case the first frame carries exactly max-3 bytes
   * and each continuation between 1 and max-1.
   */
  lemma SplitSizes(max: Int32, command: BLECommandType, data: seq<Byte>)
    requires 3 <= max
    ensures var r := SplitResult(max, command, data);
      r.Some? && |Frames.ToBytes(r.value.first)| <= max
      && (|data| > max - 3 ==> |r.value.first.data| == max - 3)
      && (forall i :: 0 <= i < |r.value.rest| ==>
            1 <= |r.value.rest[i].data| <= max - 1 && |ContinuationFrames.ToBytes(r.value.rest[i])| <= max)
  {
    if |data| > max - 3 {
      PiecesShape(data, max - 3, max - 1, 0);
    }
  }

  /** A packet size below 3 (and above the wrap-around of `max - 3`) makes `split` throw. */
  lemma SplitFails(max: Int32, command: BLECommandType, data: seq<Byte>)
    requires INT_MIN + 3 <= max < 3
    ensures SplitResult(max, command, data).None?
  {
  }
}

/** `FrameBuffer.kt`: reassembling a message from the fragments a client writes. */
module FrameBuffering {
  import opened JvmTypes
  import opened Wrappers
  import opened BleConstants
  import opened Frames
  import opened ContinuationFrames
  import opened FrameSplitting

  /** The six fields of a `FrameBuffer`. */
  datatype BufferState = BufferState(
    waitingContinuation: bool, done: bool, command: Option<BLECommandType>,
    data: seq<Byte>, seqNum: int, len: int)
  {
    /** A buffer that has taken an initialization frame knows its command. */
    predicate Valid()
    {
      (done || waitingContinuation) ==> command.Some?
    }
  }

  /** The state after construction and after `clear()`. */
  function Cleared(): (st: BufferState)
    ensures st.Valid()
  {
    BufferState(false, false, None, [], -1, 0)
  }

  /**
   * `putFragment(value)`, given how `value` decodes as an initialization
   * frame: the error it returns (None for null) and the new fields.
   */
  function PutFragmentWith(st: BufferState, value: seq<Byte>, initial: Parsed<Frame>): (r: (Option<BLEErrorType>, BufferState))
    ensures st.done ==> r.0 == Some(InvalidLen)
    ensures r.0.Some? ==> r.1 == st
    ensures st.Valid() ==> r.1.Valid()
    ensures r.1.done && !st.done ==> r.1.len <= |r.1.data|
  {
    if st.done then (Some(InvalidLen), st)
    else if st.waitingContinuation then
      match ContinuationFrames.FromBytes(value)
      case Failed(err) => (Some(err), st)
      case Parsed(cont) =>
        if st.seqNum < cont.seqNum then
          var data := st.data + cont.data;
          if st.len <= |data| then (None, st.(data := data, done := true))
          else (None, st.(data := data, seqNum := cont.seqNum))
        else (Some(InvalidLen), st)
    else
      match initial
      case Failed(err) => (Some(err), st)
      case Parsed(init) =>
        var st' := st.(command := Some(init.command), len := init.len, data := init.data);
        if init.len <= |init.data| then (None, st'.(done := true))
        else (None, st'.(waitingContinuation := true))
  }

  /** `putFragment` as written, on `Frame.fromByteArray` with its masked high length byte. */
  function PutFragmentResult(st: BufferState, value: seq<Byte>): (r: (Option<BLEErrorType>, BufferState))
    ensures r.0.None? && !st.done && !st.waitingContinuation ==> 0 <= r.1.len < 0x100 || 0xff00 <= r.1.len <= 0xffff
  {
    PutFragmentWith(st, value, Frames.FromBytes(value))
  }

  /** `putFragment` on the corrected length decoding. */
  function PutFragmentIntended(st: BufferState, value: seq<Byte>): (r: (Option<BLEErrorType>, BufferState))
    ensures r.0.None? && !st.done && !st.waitingContinuation ==>
      |value| >= 3 && r.1.len == (value[1] as int) * 0x100 + value[2] as int
  {
    PutFragmentWith(st, value, Frames.FromBytesIntended(value))
  }

  class FrameBuffer {
    var waitingContinuation: bool
    var done: bool
    var command: Option<BLECommandType>
    var data: seq<Byte>
    var seqNum: int
    var len: int

    function State(): BufferState
      reads this
    {
      BufferState(waitingContinuation, done, command, data, seqNum, len)
    }

    constructor ()
      ensures State() == Cleared()
    {
      waitingContinuation := false;
      done := false;
      command := None;
      data := [];
      seqNum := -1;
      len := 0;
    }

    method Clear()
      modifies this
      ensures State() == Cleared()
    {
      waitingContinuation := false;
      done := false;
      seqNum := -1;
      command := None;
      len := 0;
      data := [];
    }

    method PutFragment(value: seq<Byte>) returns (err: Option<BLEErrorType>)
      modifies this
      ensures (err, State()) == PutFragmentResult(old(State()), value)
    {
      if done {
        return Some(InvalidLen);
      }
      if waitingContinuation {
        var parsed := ContinuationFrames.FromBytes(value);
        if parsed.Failed? {
          return Some(parsed.error);
        }
        var contFrame := parsed.frame;
        if seqNum < contFrame.seqNum {
          data := data + contFrame.data;
          if len <= |data| {
            done := true;
          } else {
            seqNum := contFrame.seqNum;
          }
        } else {
          return Some(InvalidLen);
        }
      } else {
        var parsed := Frames.FromBytes(value);
        if parsed.Failed? {
          return Some(parsed.error);
        }
        var initFrame := parsed.frame;
        command := Some(initFrame.command);
        len := initFrame.len;
        data := initFrame.data;
        if len <= |data| {
          done := true;
        } else {
          waitingContinuation := true;
        }
      }
      return None;
    }

    function IsDone(): (r: bool)
      reads this
      ensures r ==> State().Valid() ==> command.Some?
    {
      done
    }

    /** `getCommand()`: `command!!`; None is the NullPointerException before any initialization frame. */
    function GetCommand(): (r: Option<BLECommandType>)
      reads this
      ensures done && State().Valid() ==> r.Some?
    {
      command
    }

    function GetData(): seq<Byte>
      reads this
    {
      data
    }
  }

  /** A refused fragment leaves every field as it was, and the fields stay consistent. */
  lemma ErrorKeepsState(st: BufferState, value: seq<Byte>)
    ensures PutFragmentResult(st, value).0.Some? ==> PutFragmentResult(st, value).1 == st
    ensures st.Valid() ==> PutFragmentResult(st, value).1.Valid()
  {
  }

  /** Once done, every further fragment is refused with `InvalidLen`. */
  lemma DoneIsFinal(st: BufferState, value: seq<Byte>)
    requires st.done
    ensures PutFragmentResult(st, value) == (Some(InvalidLen), st)
  {
  }

  /**
   * An initialization frame sets command, length and data; the buffer is
   * then done iff the data already covers the length, else it waits for
   * continuations.
   */
  lemma InitFrame(st: BufferState, value: seq<Byte>)
    requires !st.done && !st.waitingContinuation
    ensures var (err, st') := PutFragmentResult(st, value);
      match Frames.FromBytes(value)
      case Failed(e) => err == Some(e) && st' == st
      case Parsed(f) =>
        err.None? && st'.command == Some(f.command) && st'.len == f.len && st'.data == f.data
        && st'.seqNum == st.seqNum && (st'.done <==> f.len <= |f.data|) && (st'.waitingContinuation <==> !st'.done)
  {
  }

  /**
   * While waiting, a continuation is taken iff its seqNum exceeds the last
   * one taken (any larger seqNum, not only the next one); its payload is
   * appended, and the buffer is done iff the length is covered, otherwise
   * it remembers the new seqNum.
   */
  lemma Continuation(st: BufferState, value: seq<Byte>)
    requires !st.done && st.waitingContinuation
    ensures var (err, st') := PutFragmentResult(st, value);
      match ContinuationFrames.FromBytes(value)
      case Failed(e) => err == Some(e) && st' == st
      case Parsed(c) =>
        (err.None? <==> st.seqNum < c.seqNum)
        && (err.Some? ==> err == Some(InvalidLen) && st' == st)
        && (err.None? ==>
              st'.data == st.data + c.data && st'.command == st.command && st'.len == st.len
              && (st'.done <==> st.len <= |st'.data|)
              && (!st'.done ==> st'.seqNum == c.seqNum > st.seqNum))
  {
  }

  /** A continuation that skips sequence numbers is still taken. */
  lemma SkippedSeqAccepted()
    ensures var st := BufferState(true, false, Some(MSG), [1], 0, 10);
      PutFragmentResult(st, [5, 2]) == (None, st.(data := [1, 2], seqNum := 5))
  {
    var st := BufferState(true, false, Some(MSG), [1], 0, 10);
    assert ContinuationFrames.FromBytes([5, 2]) == Parsed(ContinuationFrame(5, [2]));
    assert [1] + [2] == [1, 2];
  }

  /** Feeding fragments in order; None when one of them is refused. */
  function Feed(st: BufferState, packets: seq<seq<Byte>>): Option<BufferState>
    decreases |packets|
  {
    if packets == [] then Some(st)
    else
      var (err, st') := PutFragmentResult(st, packets[0]);
      if err.Some? then None else Feed(st', packets[1..])
  }

  function ContinuationPackets(cs: seq<ContinuationFrame>): seq<seq<Byte>>
  {
    seq(|cs|, i requires 0 <= i < |cs| => ContinuationFrames.ToBytes(cs[i]))
  }

  /** The packets a split writes: the initialization frame, then each continuation. */
  function Packets(f: Fragments): seq<seq<Byte>>
  {
    [Frames.ToBytes(f.first)] + ContinuationPackets(f.rest)
  }

  lemma FeedCons(st: BufferState, packets: seq<seq<Byte>>)
    requires packets != []
    ensures Feed(st, packets) == if PutFragmentResult(st, packets[0]).0.Some? then None else Feed(PutFragmentResult(st, packets[0]).1, packets[1..])
  {
    hide PutFragmentResult;
  }

  lemma PacketsCons(c: ContinuationFrame, q: seq<ContinuationFrame>)
    ensures ContinuationPackets([c] + q) == [ContinuationFrames.ToBytes(c)] + ContinuationPackets(q)
  {
    hide ContinuationFrames.ToBytes;
    assert ([c] + q)[1..] == q;
  }

  /** A waiting buffer takes a continuation numbered above the last one and appends its payload. */
  lemma TakeContinuation(st: BufferState, c: ContinuationFrame)
    requires !st.done && st.waitingContinuation && st.seqNum < c.seqNum && 0 <= c.seqNum < 128 && c.data != []
    ensures var (err, st') := PutFragmentResult(st, ContinuationFrames.ToBytes(c));
      err.None? && st'.data == st.data + c.data && st'.command == st.command && st'.len == st.len
      && (st'.done <==> st.len <= |st'.data|) && (!st'.done ==> st'.waitingContinuation && st'.seqNum == c.seqNum)
  {
    ContinuationFrames.RoundTrip(c);
    Continuation(st, ContinuationFrames.ToBytes(c));
    hide *;
    assert st.waitingContinuation;
  }

  lemma PacketsNil()
    ensures ContinuationPackets([]) == []
  {
  }

  lemma FeedNil(st: BufferState)
    ensures Feed(st, []) == Some(st)
  {
  }

  /** The continuation packets from pos on bring a waiting buffer to done with the whole message. */
  lemma {:induction false} FeedPieces(data: seq<Byte>, pos: nat, step: nat, s: nat, st: BufferState)
    requires step > 0 && pos < |data|
    requires !st.done && st.waitingContinuation && st.len == |data| && st.data == data[..pos] && st.seqNum == s - 1
    requires s + |Pieces(data, pos, step, s)| <= 128
    ensures var r := Feed(st, ContinuationPackets(Pieces(data, pos, step, s)));
      r.Some? && r.value.done && r.value.command == st.command && r.value.data == data
    decreases |data| - pos
  {
    hide *;
    var p := Pieces(data, pos, step, s);
    var packets := ContinuationPackets(p);
    PacketsNil();
    if |data| - pos < step {
      var c := ContinuationFrame(s, data[pos..]);
      PiecesLast(data, pos, step, s);
      assert p == [c] + [];
      PacketsCons(c, []);
      FeedCons(st, packets);
      TakeContinuation(st, c);
      var st' := PutFragmentResult(st, ContinuationFrames.ToBytes(c)).1;
      assert packets[1..] == [];
      FeedNil(st');
      assert data[..pos] + data[pos..] == data;
    } else {
      var next := pos + step;
      var c := ContinuationFrame(s, data[pos..next]);
      var q := Pieces(data, next, step, s + 1);
      PiecesFull(data, pos, step, s);
      PacketsCons(c, q);
      FeedCons(st, packets);
      TakeContinuation(st, c);
      var st' := PutFragmentResult(st, ContinuationFrames.ToBytes(c)).1;
      assert packets[1..] == ContinuationPackets(q);
      assert data[..pos] + data[pos..next] == data[..next];
      if next < |data| {
        FeedPieces(data, next, step, s + 1, st');
      } else {
        PiecesEnd(data, next, step, s + 1);
        FeedNil(st');
        assert data[..next] == data;
      }
    }
  }

  /**
   * Split and reassembly are inverses for a message shorter than 256
   * bytes and a packet size of at least 3: feeding the split's packets
   * into a cleared buffer takes every packet and ends done with the
   * command and the message.
   */
  lemma SplitThenBuffer(max: Int32, command: BLECommandType, data: seq<Byte>)
    requires 3 <= max && |data| < 0x100
    ensures var r := SplitResult(max, command, data);
      r.Some? && var fed := Feed(Cleared(), Packets(r.value));
      fed.Some? && fed.value.done && fed.value.command == Some(command) && fed.value.data == data
  {
    var r := SplitResult(max, command, data).value;
    var packets := Packets(r);
    Frames.RoundTrip(r.first);
    InitFrame(Cleared(), packets[0]);
    FeedCons(Cleared(), packets);
    var (err, st) := PutFragmentResult(Cleared(), packets[0]);
    hide PutFragmentResult, PutFragmentIntended;
    assert packets[1..] == ContinuationPackets(r.rest);
    if |data| > max - 3 {
      PiecesFew(data, max - 3, max - 1, 0);
      FeedPieces(data, max - 3, max - 1, 0, st);
    } else {
      assert packets[1..] == [];
    }
  }

  /** The split of a 256-byte message over 20-byte packets: 17 bytes first, 19 per continuation. */
  lemma LongSplit(data: seq<Byte>)
    requires |data| == 0x100
    ensures var r := SplitResult(20, MSG, data);
      && r.Some? && r.value.first == Frame(MSG, 0x100, data[..17]) && |r.value.rest| > 0
      && Packets(r.value)[0] == Frames.ToBytes(r.value.first)
      && Packets(r.value)[1] == ContinuationFrames.ToBytes(r.value.rest[0])
  {
    hide Frames.ToBytes, ContinuationFrames.ToBytes;
    assert FirstMax(20) == 17 && RestMax(20) == 19;
    PiecesFull(data, 17, 19, 0);
  }

  /** As written, the initialization frame of a 256-byte message announces 0 bytes. */
  lemma LongFirstAsWritten(data: seq<Byte>)
    requires |data| == 17
    ensures var (err, st) := PutFragmentResult(Cleared(), Frames.ToBytes(Frame(MSG, 0x100, data)));
      err.None? && st.done && |st.data| == 17
  {
    Frames.RoundTrip(Frame(MSG, 0x100, data));
    CommandRoundTrip(MSG, MSG.ToByte());
    assert Frames.DecodedLen(0x100) == 0;
  }

  /** With the corrected decoding the same frame leaves the buffer waiting for 256 bytes. */
  lemma LongFirstIntended(data: seq<Byte>)
    requires |data| == 17
    ensures var (err, st) := PutFragmentIntended(Cleared(), Frames.ToBytes(Frame(MSG, 0x100, data)));
      err.None? && !st.done && st.waitingContinuation && st.len == 0x100
  {
    Frames.IntendedRoundTrip(Frame(MSG, 0x100, data));
    CommandRoundTrip(MSG, MSG.ToByte());
  }

  /**
   * With the corrected decoding an initialization frame of any length the
   * two-byte field can carry is taken with the length it announces.
   */
  lemma InitFrameIntended(st: BufferState, f: Frame)
    requires !st.done && !st.waitingContinuation && 0 <= f.len <= 0xffff
    ensures var (err, st') := PutFragmentIntended(st, Frames.ToBytes(f));
      err.None? && st'.command == Some(f.command) && st'.len == f.len && st'.data == f.data
      && (st'.done <==> f.len <= |f.data|) && (st'.waitingContinuation <==> !st'.done)
  {
    Frames.IntendedRoundTrip(f);
  }

  /**
   * A 256-byte message over 20-byte packets. As written, the
   * initialization frame announces length 0, so the buffer is done after
   * 17 bytes and refuses the first continuation. With the corrected
   * decoding the buffer waits for the rest of the message instead.
   */
  lemma LongMessageRefused(data: seq<Byte>)
    requires |data| == 0x100
    ensures var r := SplitResult(20, MSG, data);
      && r.Some? && |Packets(r.value)| >= 2
      && var (err, st) := PutFragmentResult(Cleared(), Packets(r.value)[0]);
      && err.None? && st.done && |st.data| == 17
      && PutFragmentResult(st, Packets(r.value)[1]).0 == Some(InvalidLen)
      && var (err', st') := PutFragmentIntended(Cleared(), Packets(r.value)[0]);
      err'.None? && !st'.done && st'.waitingContinuation && st'.len == 0x100
  {
    LongSplit(data);
    hide SplitResult, Packets, Frames.ToBytes, ContinuationFrames.ToBytes, PutFragmentResult, PutFragmentIntended;
    assert |data[..17]| == 17;
    LongFirstAsWritten(data[..17]);
    LongFirstIntended(data[..17]);
  }

}
