/** `BleConstants.kt`: the command, error and keep-alive codes of BLE framing (CTAP 2.0 section 8.3.4). */
module BleConstants {
  import opened Wrappers
  import opened JvmTypes

  datatype BLEErrorType = InvalidCmd | InvalidPar | InvalidLen | InvalidSeq | ReqTimeout | Other
  {
    /** `rawValue` / `toByte()`. */
    function ToByte(): (r: Byte)
      ensures 0 < r <= 0x7f
    {
      match this
      case InvalidCmd => 0x01
      case InvalidPar => 0x02
      case InvalidLen => 0x03
      case InvalidSeq => 0x04
      case ReqTimeout => 0x05
      case Other => 0x7f
    }
  }

  /** No two error types share a code. */
  lemma ErrorCodesDistinct(a: BLEErrorType, b: BLEErrorType)
    ensures a.ToByte() == b.ToByte() ==> a == b
  {
  }

  datatype BLECommandType = Ping | KeepAlive | MSG | Cancel | Error
  {
    function ToByte(): (r: Byte)
      ensures r >= 0x80
    {
      match this
      case Ping => 0x81
      case KeepAlive => 0x82
      case MSG => 0x83
      case Cancel => 0xbe
      case Error => 0xbf
    }
  }

  /** `BLECommandType.fromByte`: the byte is compared as a byte, so the codes above 0x7f match. */
  function CommandFromByte(b: Byte): Option<BLECommandType>
  {
    if b == 0x81 then Some(Ping)
    else if b == 0x82 then Some(KeepAlive)
    else if b == 0x83 then Some(MSG)
    else if b == 0xbe then Some(Cancel)
    else if b == 0xbf then Some(Error)
    else None
  }

  /** `fromByte` inverts `toByte`, and a byte it accepts is the code of the command it returns. */
  lemma CommandRoundTrip(c: BLECommandType, b: Byte)
    ensures CommandFromByte(c.ToByte()) == Some(c)
    ensures CommandFromByte(b).Some? ==> CommandFromByte(b).value.ToByte() == b
    ensures CommandFromByte(b).None? <==> forall d: BLECommandType :: d.ToByte() != b
  {
    if CommandFromByte(b).None? {
      forall d: BLECommandType
        ensures d.ToByte() != b
      {
      }
    } else {
      assert CommandFromByte(b).value.ToByte() == b;
    }
  }

  datatype BLEKeepAliveStatus = Processing | UPNeeded | RFU
  {
    function RawValue(): int
    {
      match this
      case Processing => 0x01
      case UPNeeded => 0x02
      case RFU => 0x00
    }

    function ToByte(): Byte
    {
      JvmTypes.ToByte(RawValue())
    }
  }

  /** `BLEKeepAliveStatus.fromByte`: it compares the sign-extended byte with 0, 1 and 2. */
  function KeepAliveFromByte(b: Byte): Option<BLEKeepAliveStatus>
  {
    var v := Signed(b);
    if v == 0x01 then Some(Processing)
    else if v == 0x02 then Some(UPNeeded)
    else if v == 0x00 then Some(RFU)
    else None
  }

  /** `fromByte` inverts `toByte` for the three statuses and accepts no other byte. */
  lemma KeepAliveRoundTrip(s: BLEKeepAliveStatus, b: Byte)
    ensures KeepAliveFromByte(s.ToByte()) == Some(s)
    ensures KeepAliveFromByte(b).Some? <==> b <= 2
    ensures KeepAliveFromByte(b).Some? ==> KeepAliveFromByte(b).value.ToByte() == b
  {
  }
}
