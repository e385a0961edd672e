/** `CTAPConstants.kt`: the CTAP 2.0 command bytes (section 5) and status codes (section 6.3). */
module CtapConstants {
  import opened Wrappers
  import opened JvmTypes

  datatype CTAPCommandType = MakeCredential | GetAssertion | GetInfo | ClientPIN | Reset | GetNextAssertion
  {
    function ToByte(): Byte
    {
      match this
      case MakeCredential => 0x01
      case GetAssertion => 0x02
      case GetInfo => 0x04
      case ClientPIN => 0x06
      case Reset => 0x07
      case GetNextAssertion => 0x08
    }
  }

  /** `CTAPCommandType.fromByte`. */
  function CommandFromByte(b: Byte): Option<CTAPCommandType>
  {
    match b
    case 0x01 => Some(MakeCredential)
    case 0x02 => Some(GetAssertion)
    case 0x04 => Some(GetInfo)
    case 0x06 => Some(ClientPIN)
    case 0x07 => Some(Reset)
    case 0x08 => Some(GetNextAssertion)
    case _ => None
  }

  /** `fromByte` inverts `toByte`, and a byte it accepts is the code of the command it returns. */
  lemma CommandRoundTrip(c: CTAPCommandType, b: Byte)
    ensures CommandFromByte(c.ToByte()) == Some(c)
    ensures CommandFromByte(b).Some? ==> CommandFromByte(b).value.ToByte() == b
    ensures CommandFromByte(b).None? <==> forall d: CTAPCommandType :: d.ToByte() != b
  {
    if CommandFromByte(b).None? {
      forall d: CTAPCommandType
        ensures d.ToByte() != b
      {
      }
    }
  }

  /** Bytes between and around the codes name no command. */
  lemma UnknownCommands()
    ensures CommandFromByte(0x00).None? && CommandFromByte(0x03).None? && CommandFromByte(0x05).None?
    ensures forall b: Byte :: b > 0x08 ==> CommandFromByte(b).None?
  {
  }

  datatype CTAPStatusCode =
    | Success | InvalidCommand | InvalidParameter | InvalidLength | InvalidSeq | Timeout | ChannelBusy
    | LockRequired | InvalidChannel | CBORUnexpectedType | InvalidCBOR | MissingParameter | LimitExceeded
    | UnsupportedExtension | CredentialExcluded | Processing | InvalidCredential | UserActionPending
    | OperationPending | NoOperations | UnsupportedAlgorithm | OperationDenied | KeyStoreFull | NotBusy
    | NoOperationPending | UnsupportedOption | InvalidOption | KeepAliveCancel | NoCredentials
    | UserActionTimeout | NotAllowed | PINInvalid | PINBlocked | PINAuthInvalid | PINAuthBlocked
    | PINNotSet | PINRequired | PINPolicyViolation | PINTokenExpired | RequestTooLarge | ActionTimeout
    | UPRequired | Other
  {
    function RawValue(): (r: int)
      ensures 0 <= r <= 0x7f
    {
      match this
      case Success => 0x00
      case InvalidCommand => 0x01
      case InvalidParameter => 0x02
      case InvalidLength => 0x03
      case InvalidSeq => 0x04
      case Timeout => 0x05
      case ChannelBusy => 0x06
      case LockRequired => 0x0a
      case InvalidChannel => 0x0b
      case CBORUnexpectedType => 0x11
      case InvalidCBOR => 0x12
      case MissingParameter => 0x14
      case LimitExceeded => 0x15
      case UnsupportedExtension => 0x16
      case CredentialExcluded => 0x19
      case Processing => 0x21
      case InvalidCredential => 0x22
      case UserActionPending => 0x23
      case OperationPending => 0x24
      case NoOperations => 0x25
      case UnsupportedAlgorithm => 0x26
      case OperationDenied => 0x27
      case KeyStoreFull => 0x28
      case NotBusy => 0x29
      case NoOperationPending => 0x2a
      case UnsupportedOption => 0x2b
      case InvalidOption => 0x2c
      case KeepAliveCancel => 0x2d
      case NoCredentials => 0x2e
      case UserActionTimeout => 0x2f
      case NotAllowed => 0x30
      case PINInvalid => 0x31
      case PINBlocked => 0x32
      case PINAuthInvalid => 0x33
      case PINAuthBlocked => 0x34
      case PINNotSet => 0x35
      case PINRequired => 0x36
      case PINPolicyViolation => 0x37
      case PINTokenExpired => 0x38
      case RequestTooLarge => 0x39
      case ActionTimeout => 0x3a
      case UPRequired => 0x3b
      case Other => 0x7f
    }

    /** `rawValue.toByte()`: every code fits below 0x80, so the byte is the raw value. */
    function ToByte(): (r: Byte)
      ensures r == RawValue()
    {
      JvmTypes.ToByte(RawValue())
    }
  }

  /** The status named by a byte, if any: a left inverse of `toByte`. */
  function StatusFromByte(b: Byte): Option<CTAPStatusCode>
  {
    match b
    case 0x00 => Some(Success)
    case 0x01 => Some(InvalidCommand)
    case 0x02 => Some(InvalidParameter)
    case 0x03 => Some(InvalidLength)
    case 0x04 => Some(InvalidSeq)
    case 0x05 => Some(Timeout)
    case 0x06 => Some(ChannelBusy)
    case 0x0a => Some(LockRequired)
    case 0x0b => Some(InvalidChannel)
    case 0x11 => Some(CBORUnexpectedType)
    case 0x12 => Some(InvalidCBOR)
    case 0x14 => Some(MissingParameter)
    case 0x15 => Some(LimitExceeded)
    case 0x16 => Some(UnsupportedExtension)
    case 0x19 => Some(CredentialExcluded)
    case 0x21 => Some(Processing)
    case 0x22 => Some(InvalidCredential)
    case 0x23 => Some(UserActionPending)
    case 0x24 => Some(OperationPending)
    case 0x25 => Some(NoOperations)
    case 0x26 => Some(UnsupportedAlgorithm)
    case 0x27 => Some(OperationDenied)
    case 0x28 => Some(KeyStoreFull)
    case 0x29 => Some(NotBusy)
    case 0x2a => Some(NoOperationPending)
    case 0x2b => Some(UnsupportedOption)
    case 0x2c => Some(InvalidOption)
    case 0x2d => Some(KeepAliveCancel)
    case 0x2e => Some(NoCredentials)
    case 0x2f => Some(UserActionTimeout)
    case 0x30 => Some(NotAllowed)
    case 0x31 => Some(PINInvalid)
    case 0x32 => Some(PINBlocked)
    case 0x33 => Some(PINAuthInvalid)
    case 0x34 => Some(PINAuthBlocked)
    case 0x35 => Some(PINNotSet)
    case 0x36 => Some(PINRequired)
    case 0x37 => Some(PINPolicyViolation)
    case 0x38 => Some(PINTokenExpired)
    case 0x39 => Some(RequestTooLarge)
    case 0x3a => Some(ActionTimeout)
    case 0x3b => Some(UPRequired)
    case 0x7f => Some(Other)
    case _ => None
  }

  /** Decoding the byte of a status gives the status back. */
  lemma StatusRoundTrip(s: CTAPStatusCode)
    ensures StatusFromByte(s.ToByte()) == Some(s)
  {
  }

  /** Hence the status codes are pairwise distinct and `toByte` is injective. */
  lemma StatusCodesDistinct(a: CTAPStatusCode, b: CTAPStatusCode)
    ensures a.ToByte() == b.ToByte() ==> a == b
  {
    StatusRoundTrip(a);
    StatusRoundTrip(b);
  }
}
