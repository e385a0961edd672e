# WebAuthnKit-Android core, modelled in Dafny

WebAuthnKit-Android is a Kotlin library with three parts: a WebAuthn client (`WebAuthnClient` and its create and get operations), a platform authenticator (internal make-credential and get-assertion sessions over a credential store and a key store), and a CTAP2 authenticator front end over Bluetooth LE. This project models the byte-level and sequencing core of the library, and proves properties of that model.

- **CBOR codec** (`util/CBORUtil.kt`). `CBORReader` walks a byte buffer with a mutable cursor. `CBORWriter` appends heads and payloads to a result stream. They cover a subset of the major types of RFC 8949 section 3: unsigned and negative integers, byte and text strings, arrays, maps with string or integer keys, and booleans and null.
  - The reader is specified by functions over a state made of the buffer and a cursor (`CBORReading`). The class `CBORReaders.CBORReader` keeps the cursor as a field, and its methods are proved to match those functions.
  - The writer is specified in the same way by `CBORWriting`, and the class `CBORWriters.CBORWriter` holds the result stream.
  - `CBORProperties` proves that the two are inverses. `CBORExamples` restates the unit tests' exact encodings as lemmas.
- **Byte utilities** (`util/ByteArrayUtil.kt`): `merge`, `equals`, hex conversion and the UUID bytes.
- **BLE framing** (`ctap/ble/frame/*`, `ctap/ble/BleConstants.kt`, `ctap/CTAPConstants.kt`). These implement section 8.3.4 (Framing) of the FIDO CTAP 2.0 specification:
  - `Frame` is an initialization frame carrying a command and a 16-bit length; `ContinuationFrame` carries a sequence number.
  - `FrameSplitter` is a loop that cuts a message into packets. `FrameBuffer` is a six-field state machine that reassembles them.
  - The model proves that splitting and then buffering gives the message back.
  - The command-code tables are proved to be injective lookups.
- **Authenticator data and attestation** (`authenticator/AuthenticatorData.kt`, `authenticator/Attestation.kt`). They build the layout of section 6.1 of W3C Web Authentication Level 1, with the attested credential data of its section 6.4.1. The COSE keys follow RFC 8152 section 13.1.1 (EC2) and RFC 8230 section 4 (RSA).
- **Credential sources and key support.** This covers the credential source's computed properties, the store as a map from id to source, and `KeySupportChooser`.
- **CTAP options and responses.** The validators `MakeCredentialOptions` and `GetAssertionOptions` check a parsed request map. The two response builders serialize a CBOR map.
- **Sessions.** `InternalMakeCredentialSession` and `InternalGetAssertionSession` are classes with `started` and `stopped` flags, and each runs a fixed script of precondition checks, user consent, key creation or signing and a sign-counter bump.
- **Client operations.** The client `CreateOperation` and `GetOperation` are classes. `WebAuthnClient` keeps registries of running operations, and its pure `adjustLifetimeTimer` and `pickRelyingPartyID` are functions.
- **BLE operations, manager and service.** The BLE `CreateOperation` and `GetOperation` are modelled, as are `BleFidoOperationManager`'s two registries and `BleFidoService`'s event handlers (the lock, the MTU, the session and close flags, and the frame buffer). Notifications go to an output log.

The model follows the code as written, including where the code departs from a standard or from its own evident intent. Where the intent is clear, the corrected behaviour is modelled beside it with its property proved (see "## Findings"). The classes and the session runs follow the code as written; the corrected definitions stand beside them and are related to them by lemmas. The following as-written behaviours of the code are modelled and stated as lemmas, without a correction:

- `readAny` answers booleans for the simple values, and it takes the null byte as true without consuming it (`CBORExamples.AnySimpleValue`, `CBORExamples.BoolArrayExample`).
- `readNumber` reads a one-byte argument as a signed byte, so 0x18 0x80 reads as -128 (`CBORExamples.SignedArgumentExample`).
- A text string whose length reads as negative throws (`CBORExamples.NegativeLengthExample`).
- `readNull` tests its byte with a mask, not for equality (`CBORExamples.NullMaskExample`).
- `Long.toInt()` truncation is written out wherever a length passes through it.
- `MakeCredentialOptions` tests `is Map` where `!is Map` is meant. An options map is refused with InvalidPar, anything else fails the cast, and user verification is never required (`CtapOptions.MakeUserVerificationOf`).
- `GetAssertionOptions` tests `uv !is Boolean` before casting it to Boolean. A Boolean `uv` is ignored, any other value fails the cast, and user verification is never required (`CtapOptions.GetUserVerificationOf`).
- The client `GetOperation` never sets `stopped`, never reports an end to its listener, and ignores `onOperationStopped`.
- A continuation that was resumed with an error stays held, and resuming it again throws (`ClientOperations.OperationDispatch`, `BleOperations.BuiltAnswerRules`).
- `InternalGetAssertionSession` looks up allow-listed credential ids by id alone, with no relying-party check, so a listed credential of another relying party is used (`GetAssertionSessions.GatherContents`, `GetAssertionSessions.GatherIgnoresRelyingParty`).

Java and Kotlin integers are modelled as unbounded integers with explicit bounds: `Int32`, `Int64`, `UInt` and bytes in the 0..255 view. `JvmTypes.Signed` gives Kotlin's signed view of a byte.

## Model

| member | source | states |
|---|---|---|
| CBORBits.HeaderOf | webauthnkit/src/main/kotlin/webauthnkit/core/util/CBORUtil.kt:23-24 | `b and headerPart` is the major-type part: a multiple of 32 with the byte within 32 above it |
| CBORBits.ValueOf | webauthnkit/src/main/kotlin/webauthnkit/core/util/CBORUtil.kt:26-27 | `b and valuePart` is below 32 and adds to the header part to give the byte back |
| JvmTypes.Signed | webauthnkit/src/main/kotlin/webauthnkit/core/util/CBORUtil.kt:390 | `Byte.toLong()` sign-extends: the value lies in -128..127, is negative exactly when the top bit is set, and truncates back to the same byte |
| JvmTypes.OrHeader | webauthnkit/src/main/kotlin/webauthnkit/core/util/CBORUtil.kt:416 | `bytes[0] or header` on an initial byte whose top three bits are clear adds the header |
| JvmTypes.UnsignedBigEndian | webauthnkit/src/main/kotlin/webauthnkit/core/util/CBORUtil.kt:606-612 | the `ByteBuffer.put*` bytes of a number that fits in k bytes denote that number |
| JvmTypes.SignedBigEndianOfSmall | webauthnkit/src/main/kotlin/webauthnkit/core/util/CBORUtil.kt:391-393 | a number below half the k-byte range reads back unchanged through `ByteBuffer.get*` |
| LinkedMaps.GetPut | webauthnkit/src/main/kotlin/webauthnkit/core/util/CBORUtil.kt:295 | after `results[key] = result`, key maps to result and every other key keeps its value |
| LinkedMaps.PutPresent | webauthnkit/src/main/kotlin/webauthnkit/core/util/CBORUtil.kt:324 | overwriting an existing key keeps the keys and their insertion order |
| LinkedMaps.PutFresh | webauthnkit/src/main/kotlin/webauthnkit/core/util/CBORUtil.kt:324 | a new key is appended at the end of the insertion order |
| CBORReading.NextByteAt | webauthnkit/src/main/kotlin/webauthnkit/core/util/CBORUtil.kt:80-87 | there is a next byte exactly when the cursor is inside the input, and it is the byte under the cursor |
| CBORReading.ReadByteAt | webauthnkit/src/main/kotlin/webauthnkit/core/util/CBORUtil.kt:93-106 | a byte is read exactly when the cursor is inside the input; it is the byte under the cursor and the cursor moves by one |
| CBORReading.ReadBytesAt | webauthnkit/src/main/kotlin/webauthnkit/core/util/CBORUtil.kt:108-122 | `size` bytes are read exactly when 0 <= size and they fit before the end; they are that slice, and a failed read leaves the state unchanged |
| CBORReading.ReadNumberAt | webauthnkit/src/main/kotlin/webauthnkit/core/util/CBORUtil.kt:358-406 | reading a number never moves backwards and consumes the initial byte whenever there is one |
| CBORReading.ReadFixedAt | webauthnkit/src/main/kotlin/webauthnkit/core/util/CBORUtil.kt:124-148 | a float or double read yields exactly its 4 or 8 payload bytes |
| CBORReading.ReadFloatAt | webauthnkit/src/main/kotlin/webauthnkit/core/util/CBORUtil.kt:124-135 | `readFloat()` only moves the cursor forward over the same input |
| CBORReading.ReadDoubleAt | webauthnkit/src/main/kotlin/webauthnkit/core/util/CBORUtil.kt:137-148 | `readDouble()` only moves the cursor forward over the same input |
| CBORReading.CountAt | webauthnkit/src/main/kotlin/webauthnkit/core/util/CBORUtil.kt:150-161 | the length/count opening consumes at least the initial byte when it succeeds and leaves the input bytes otherwise alone |
| CBORReading.ReadLengthPrefixedAt | webauthnkit/src/main/kotlin/webauthnkit/core/util/CBORUtil.kt:150-191 | a byte or text string read only moves the cursor forward over the same input |
| CBORReading.ReadByteStringAt | webauthnkit/src/main/kotlin/webauthnkit/core/util/CBORUtil.kt:150-167 | `readByteString()` only moves the cursor forward over the same input |
| CBORReading.ReadStringAt | webauthnkit/src/main/kotlin/webauthnkit/core/util/CBORUtil.kt:169-191 | `readString()` only moves the cursor forward over the same input, returning the text as its UTF-8 bytes |
| CBORReading.ReadBoolAt | webauthnkit/src/main/kotlin/webauthnkit/core/util/CBORUtil.kt:193-202 | `readBool()` only moves the cursor forward, by at most one byte |
| CBORReading.ReadNullAt | webauthnkit/src/main/kotlin/webauthnkit/core/util/CBORUtil.kt:204-207 | `readNull()` only moves the cursor forward, by at most one byte |
| CBORReading.ReadAnyAt | webauthnkit/src/main/kotlin/webauthnkit/core/util/CBORUtil.kt:209-270 | the `readAny()` dispatch only moves the cursor forward over the same input |
| CBORReading.ReadArrayAt | webauthnkit/src/main/kotlin/webauthnkit/core/util/CBORUtil.kt:330-356 | `readArray()` only moves the cursor forward over the same input |
| CBORReading.ReadStringKeyMapAt | webauthnkit/src/main/kotlin/webauthnkit/core/util/CBORUtil.kt:301-328 | `readStringKeyMap()` only moves the cursor forward over the same input |
| CBORReading.ReadIntKeyMapAt | webauthnkit/src/main/kotlin/webauthnkit/core/util/CBORUtil.kt:272-299 | `readIntKeyMap()` only moves the cursor forward over the same input |
| CBORReading.ItemsStep | webauthnkit/src/main/kotlin/webauthnkit/core/util/CBORUtil.kt:350-353 | one round of the array loop: a value is appended and the loop goes on; a missing value ends the read with null |
| CBORReading.EntriesStep | webauthnkit/src/main/kotlin/webauthnkit/core/util/CBORUtil.kt:321-325 | one round of the string-key map loop: the entry is put into the map and the loop goes on; a missing key or value ends the read with null |
| CBORReading.IntEntriesStep | webauthnkit/src/main/kotlin/webauthnkit/core/util/CBORUtil.kt:292-296 | one round of the int-key map loop: the entry is put into the map and the loop goes on |
| CBORReading.ContainerOpening | webauthnkit/src/main/kotlin/webauthnkit/core/util/CBORUtil.kt:274-289 | once the count is read, both map readers continue with their entry loops from that state |
| CBORReading.ArrayOpening | webauthnkit/src/main/kotlin/webauthnkit/core/util/CBORUtil.kt:332-347 | once the count is read, the array reader continues with its element loop from that state |
| CBORReaders.CBORReader.constructor | webauthnkit/src/main/kotlin/webauthnkit/core/util/CBORUtil.kt:63-66 | a new reader holds the given bytes with the cursor at 0 |
| CBORReaders.CBORReader.GetReadSize | webauthnkit/src/main/kotlin/webauthnkit/core/util/CBORUtil.kt:72-74 | the bytes read so far lie between 0 and the size |
| CBORReaders.CBORReader.GetRestSize | webauthnkit/src/main/kotlin/webauthnkit/core/util/CBORUtil.kt:76-78 | the bytes left lie between 0 and the size and add up with the bytes read to the size |
| CBORReaders.CBORReader.NextByte | webauthnkit/src/main/kotlin/webauthnkit/core/util/CBORUtil.kt:80-87 | the method answers what `NextByteAt` describes and changes nothing |
| CBORReaders.CBORReader.ReplaceNextByte | webauthnkit/src/main/kotlin/webauthnkit/core/util/CBORUtil.kt:89-91 | the byte under the cursor is overwritten, as `ReplaceNextByteAt` describes |
| CBORReaders.CBORReader.ReadByte | webauthnkit/src/main/kotlin/webauthnkit/core/util/CBORUtil.kt:93-106 | result and new state are those of `ReadByteAt` |
| CBORReaders.CBORReader.ReadBytes | webauthnkit/src/main/kotlin/webauthnkit/core/util/CBORUtil.kt:108-122 | result and new state are those of `ReadBytesAt` |
| CBORReaders.CBORReader.ReadNumber | webauthnkit/src/main/kotlin/webauthnkit/core/util/CBORUtil.kt:358-406 | result and new state are those of `ReadNumberAt` |
| CBORReaders.CBORReader.ReadFloat | webauthnkit/src/main/kotlin/webauthnkit/core/util/CBORUtil.kt:124-135 | result and new state are those of `ReadFloatAt` |
| CBORReaders.CBORReader.ReadDouble | webauthnkit/src/main/kotlin/webauthnkit/core/util/CBORUtil.kt:137-148 | result and new state are those of `ReadDoubleAt` |
| CBORReaders.CBORReader.ReadByteString | webauthnkit/src/main/kotlin/webauthnkit/core/util/CBORUtil.kt:150-167 | result and new state are those of `ReadByteStringAt` |
| CBORReaders.CBORReader.ReadString | webauthnkit/src/main/kotlin/webauthnkit/core/util/CBORUtil.kt:169-191 | result and new state are those of `ReadStringAt` |
| CBORReaders.CBORReader.ReadBool | webauthnkit/src/main/kotlin/webauthnkit/core/util/CBORUtil.kt:193-202 | result and new state are those of `ReadBoolAt` |
| CBORReaders.CBORReader.ReadNull | webauthnkit/src/main/kotlin/webauthnkit/core/util/CBORUtil.kt:204-207 | result and new state are those of `ReadNullAt` |
| CBORReaders.CBORReader.ReadAny | webauthnkit/src/main/kotlin/webauthnkit/core/util/CBORUtil.kt:209-270 | result and new state are those of `ReadAnyAt` |
| CBORReaders.CBORReader.ReadArray | webauthnkit/src/main/kotlin/webauthnkit/core/util/CBORUtil.kt:330-356 | result and new state are those of `ReadArrayAt` |
| CBORReaders.CBORReader.ReadItems | webauthnkit/src/main/kotlin/webauthnkit/core/util/CBORUtil.kt:349-353 | the element loop's result and new state are those of `ReadItemsAt` |
| CBORReaders.CBORReader.ReadStringKeyMap | webauthnkit/src/main/kotlin/webauthnkit/core/util/CBORUtil.kt:301-328 | result and new state are those of `ReadStringKeyMapAt` |
| CBORReaders.CBORReader.ReadEntries | webauthnkit/src/main/kotlin/webauthnkit/core/util/CBORUtil.kt:320-325 | the entry loop's result and new state are those of `ReadEntriesAt` |
| CBORReaders.CBORReader.ReadIntKeyMap | webauthnkit/src/main/kotlin/webauthnkit/core/util/CBORUtil.kt:272-299 | result and new state are those of `ReadIntKeyMapAt` |
| CBORReaders.CBORReader.ReadIntEntries | webauthnkit/src/main/kotlin/webauthnkit/core/util/CBORUtil.kt:291-296 | the entry loop's result and new state are those of `ReadIntEntriesAt` |
| CBORWriting.ComposePositive | webauthnkit/src/main/kotlin/webauthnkit/core/util/CBORUtil.kt:601-615 | a head is produced exactly for non-negative values (a negative one reaches the throwing `else`); its initial byte is below 28 and the argument has the length that byte announces |
| CBORWriting.ComposeNegative | webauthnkit/src/main/kotlin/webauthnkit/core/util/CBORUtil.kt:594-599 | the head carries major type 1 and an argument of the announced length |
| CBORWriting.ComposeNumber | webauthnkit/src/main/kotlin/webauthnkit/core/util/CBORUtil.kt:591-592 | every `Long` gets a complete head whose major type is 1 for negatives and 0 otherwise |
| CBORWriting.WithHeader | webauthnkit/src/main/kotlin/webauthnkit/core/util/CBORUtil.kt:545 | `header[0] or h` changes only the initial byte |
| CBORWriting.ScalarBytes | webauthnkit/src/main/kotlin/webauthnkit/core/util/CBORUtil.kt:419-437 | the shared `when` arms accept exactly numbers, text, byte strings, floats, doubles and booleans |
| CBORWriting.ItemEncodings | webauthnkit/src/main/kotlin/webauthnkit/core/util/CBORUtil.kt:418-442 | each round of the `putArray` loop writes the encoding of its element |
| CBORWriting.EntryEncodings | webauthnkit/src/main/kotlin/webauthnkit/core/util/CBORUtil.kt:450-483 | each round of the `putStringKeyMap` loop writes the key, then the value |
| CBORWriting.PairEncodings | webauthnkit/src/main/kotlin/webauthnkit/core/util/CBORUtil.kt:492-518 | each round of the `putIntKeyMap` loop writes the key as a number, then the value |
| CBORWriters.CBORWriter.constructor | webauthnkit/src/main/kotlin/webauthnkit/core/util/CBORUtil.kt:410-412 | a new writer holds no bytes |
| CBORWriters.CBORWriter.PutNumber | webauthnkit/src/main/kotlin/webauthnkit/core/util/CBORUtil.kt:537-540 | appends exactly the head of the number |
| CBORWriters.CBORWriter.PutString | webauthnkit/src/main/kotlin/webauthnkit/core/util/CBORUtil.kt:542-549 | appends the text head (major type 3 over the UTF-8 length), then the UTF-8 bytes |
| CBORWriters.CBORWriter.PutByteString | webauthnkit/src/main/kotlin/webauthnkit/core/util/CBORUtil.kt:551-557 | appends the byte-string head (major type 2 over the length), then the bytes |
| CBORWriters.CBORWriter.PutFloat | webauthnkit/src/main/kotlin/webauthnkit/core/util/CBORUtil.kt:559-566 | appends 0xfa and the four IEEE 754 bytes |
| CBORWriters.CBORWriter.PutDouble | webauthnkit/src/main/kotlin/webauthnkit/core/util/CBORUtil.kt:568-575 | appends 0xfb and the eight IEEE 754 bytes |
| CBORWriters.CBORWriter.PutNull | webauthnkit/src/main/kotlin/webauthnkit/core/util/CBORUtil.kt:577-580 | appends 0xf6 |
| CBORWriters.CBORWriter.PutBool | webauthnkit/src/main/kotlin/webauthnkit/core/util/CBORUtil.kt:582-589 | appends 0xf5 for true and 0xf4 for false |
| CBORWriters.CBORWriter.StartArray | webauthnkit/src/main/kotlin/webauthnkit/core/util/CBORUtil.kt:522-525 | appends 0x9f |
| CBORWriters.CBORWriter.StartMap | webauthnkit/src/main/kotlin/webauthnkit/core/util/CBORUtil.kt:527-530 | appends 0xbf |
| CBORWriters.CBORWriter.End | webauthnkit/src/main/kotlin/webauthnkit/core/util/CBORUtil.kt:532-535 | appends 0xff |
| CBORWriters.CBORWriter.Compute | webauthnkit/src/main/kotlin/webauthnkit/core/util/CBORUtil.kt:617-619 | returns everything written so far |
| CBORWriters.CBORWriter.PutCount | webauthnkit/src/main/kotlin/webauthnkit/core/util/CBORUtil.kt:415-417 | appends the container head of the count and reports whether `composePositive` would throw |
| CBORWriters.CBORWriter.PutScalar | webauthnkit/src/main/kotlin/webauthnkit/core/util/CBORUtil.kt:419-440 | appends the scalar's encoding, or stops with `AssertionError` for an unsupported value |
| CBORWriters.CBORWriter.PutArray | webauthnkit/src/main/kotlin/webauthnkit/core/util/CBORUtil.kt:414-444 | appends what `ArrayBytes` describes: the head, then every element in order, stopping at the first unsupported one |
| CBORWriters.CBORWriter.PutItems | webauthnkit/src/main/kotlin/webauthnkit/core/util/CBORUtil.kt:418-442 | the element loop appends the rounds' bytes in order and stops at the first fault |
| CBORWriters.CBORWriter.PutStringKeyMap | webauthnkit/src/main/kotlin/webauthnkit/core/util/CBORUtil.kt:446-485 | appends what `StrMapBytes` describes: the head, then every key and value in insertion order |
| CBORWriters.CBORWriter.PutEntries | webauthnkit/src/main/kotlin/webauthnkit/core/util/CBORUtil.kt:450-483 | the entry loop appends the rounds' bytes in order and stops at the first fault |
| CBORWriters.CBORWriter.PutMapValue | webauthnkit/src/main/kotlin/webauthnkit/core/util/CBORUtil.kt:453-482 | appends the value's encoding, recursing into nested maps and arrays |
| CBORWriters.CBORWriter.PutIntKeyMap | webauthnkit/src/main/kotlin/webauthnkit/core/util/CBORUtil.kt:488-520 | appends what `IntMapBytes` describes: the head, then every key as a number and its value |
| CBORWriters.CBORWriter.PutPairs | webauthnkit/src/main/kotlin/webauthnkit/core/util/CBORUtil.kt:492-518 | the pair loop appends the rounds' bytes in order and stops at the first fault |
| CBORContainers.ContainerHead | webauthnkit/src/main/kotlin/webauthnkit/core/util/CBORUtil.kt:283 | the head `putArray`/`putStringKeyMap`/`putIntKeyMap` write gives the count back through the reader's opening and leaves the cursor on the first element |
| CBORContainers.ItemsRead | webauthnkit/src/main/kotlin/webauthnkit/core/util/CBORUtil.kt:349-353 | the element loop of `readArray` reads back, in order, what the `forEach` of `putArray` wrote |
| CBORContainers.ArrayRead | webauthnkit/src/main/kotlin/webauthnkit/core/util/CBORUtil.kt:330-356 | `readArray` (and `readAny` on the same bytes) inverts `putArray` for readable elements, leaving exactly the bytes that follow |
| CBORContainers.MapValueRead | webauthnkit/src/main/kotlin/webauthnkit/core/util/CBORUtil.kt:471-478 | `readAny` inverts the `when` of `putStringKeyMap` for one value, nested maps and arrays included |
| CBORContainers.EntriesRead | webauthnkit/src/main/kotlin/webauthnkit/core/util/CBORUtil.kt:320-325 | the entry loop of `readStringKeyMap` reads back, in order, what the `forEach` of `putStringKeyMap` wrote |
| CBORContainers.StrMapRead | webauthnkit/src/main/kotlin/webauthnkit/core/util/CBORUtil.kt:301-328 | `readStringKeyMap` (and `readAny`) inverts `putStringKeyMap` for maps with distinct keys, in insertion order |
| CBORContainers.PairsRead | webauthnkit/src/main/kotlin/webauthnkit/core/util/CBORUtil.kt:291-296 | the entry loop of `readIntKeyMap` reads back, in order, what the `forEach` of `putIntKeyMap` wrote |
| CBORContainers.IntMapRead | webauthnkit/src/main/kotlin/webauthnkit/core/util/CBORUtil.kt:272-299 | `readIntKeyMap` inverts `putIntKeyMap` for maps with distinct keys and readable values |
| CBORContainers.ArrayRoundTrip | webauthnkit/src/main/kotlin/webauthnkit/core/util/CBORUtil.kt:414-444 | `CBORReader(CBORWriter().putArray(values).compute()).readArray()` gives `values` back |
| CBORContainers.StrMapRoundTrip | webauthnkit/src/main/kotlin/webauthnkit/core/util/CBORUtil.kt:446-485 | `CBORReader(CBORWriter().putStringKeyMap(m).compute()).readStringKeyMap()` gives `m` back in insertion order |
| CBORContainers.IntMapRoundTrip | webauthnkit/src/main/kotlin/webauthnkit/core/util/CBORUtil.kt:488-520 | `CBORReader(CBORWriter().putIntKeyMap(m).compute()).readIntKeyMap()` gives `m` back in insertion order |
| CBORContainers.RunStops | webauthnkit/src/main/kotlin/webauthnkit/core/util/CBORUtil.kt:438-440 | an element that throws ends the `forEach`: the whole call throws |
| CBORContainers.ArrayLayout | webauthnkit/src/main/kotlin/webauthnkit/core/util/CBORUtil.kt:414-444 | `putArray` writes the head for the size, then each element; it throws `AssertionError` exactly when an element is not a scalar it supports |
| CBORProperties.PositiveLayout | webauthnkit/src/main/kotlin/webauthnkit/core/util/CBORUtil.kt:601-615 | `composePositive` agrees with the reference head layout: value in the initial byte up to 23, then 1, 2, 4 or 8 argument bytes |
| CBORProperties.NumberLayout | webauthnkit/src/main/kotlin/webauthnkit/core/util/CBORUtil.kt:591-615 | `putNumber` writes major type 0 over the value, or major type 1 over -1 - value for a negative one, in the layout its magnitude selects |
| CBORProperties.NumberWidth | webauthnkit/src/main/kotlin/webauthnkit/core/util/CBORUtil.kt:602-613 | the width is 1 byte for 0..23, 2 up to 127, 3 up to 32767, 5 up to 2^31 - 1 and 9 beyond |
| CBORProperties.NegateMagnitude | webauthnkit/src/main/kotlin/webauthnkit/core/util/CBORUtil.kt:400-402 | the 64-bit `-(result + 1)` of `readNumber` is -1 - n for every magnitude a `Long` carries, `Long.MAX_VALUE` included |
| CBORProperties.HeadRead | webauthnkit/src/main/kotlin/webauthnkit/core/util/CBORUtil.kt:358-406 | `readNumber` on a head in the reference layout gives the argument back, negated for major type 1, and stands after the head |
| CBORProperties.SmallNumberRead | webauthnkit/src/main/kotlin/webauthnkit/core/util/CBORUtil.kt:379-385 | arguments 0..23 are read out of the initial byte itself |
| CBORProperties.ArgumentRead | webauthnkit/src/main/kotlin/webauthnkit/core/util/CBORUtil.kt:387-398 | 1, 2, 4 or 8 argument bytes are read as a signed big-endian number |
| CBORProperties.NumberReadAt | webauthnkit/src/main/kotlin/webauthnkit/core/util/CBORUtil.kt:537-540 | `readNumber` inverts `putNumber` for every `Long`, wherever the encoding lies, and consumes exactly its bytes |
| CBORProperties.NumberRoundTrip | webauthnkit/src/test/java/webauthnkit/core/CBORUnitTest.kt:20-26 | `CBORReader(CBORWriter().putNumber(v).compute()).readNumber() == v` for every 64-bit v |
| CBORProperties.CountHeaderLayout | webauthnkit/src/main/kotlin/webauthnkit/core/util/CBORUtil.kt:415-417 | the head of an array or map is `composePositive(count)` with the major type ORed into the initial byte |
| CBORProperties.LengthPrefixedLayout | webauthnkit/src/main/kotlin/webauthnkit/core/util/CBORUtil.kt:542-557 | `putString`/`putByteString` write the length head with the major type ORed in, then the bytes |
| CBORProperties.CountRead | webauthnkit/src/main/kotlin/webauthnkit/core/util/CBORUtil.kt:150-161 | the reader's opening gives the count back, leaves the initial byte holding its low 5 bits and stands after the head |
| CBORProperties.LengthPrefixedRead | webauthnkit/src/main/kotlin/webauthnkit/core/util/CBORUtil.kt:150-191 | `readString`/`readByteString` invert `putString`/`putByteString`, the empty string included; only the head's initial byte is overwritten |
| CBORProperties.ScalarRead | webauthnkit/src/main/kotlin/webauthnkit/core/util/CBORUtil.kt:209-253 | `readAny` inverts the `put*` call for each readable scalar |
| CBORProperties.NumberAnyRead | webauthnkit/src/main/kotlin/webauthnkit/core/util/CBORUtil.kt:216-224 | `readAny` sends the initial bytes of both integer major types to `readNumber` and gets the number back |
| CBORProperties.TextAnyRead | webauthnkit/src/main/kotlin/webauthnkit/core/util/CBORUtil.kt:247-249 | `readAny` reads a text string back through `readString` |
| CBORProperties.BytesAnyRead | webauthnkit/src/main/kotlin/webauthnkit/core/util/CBORUtil.kt:251-253 | `readAny` reads a byte string back through `readByteString` |
| CBORProperties.FixedAnyRead | webauthnkit/src/main/kotlin/webauthnkit/core/util/CBORUtil.kt:239-245 | `readAny` reads floats and doubles back as their IEEE 754 bytes |
| CBORExamples.SmallNumberExamples | webauthnkit/src/test/java/webauthnkit/core/CBORUnitTest.kt:71-86 | `putNumber` writes 0 as 00, 23 as 17, 24 as 18 18, -1 as 20 and -100 as 38 63 |
| CBORExamples.WideNumberExamples | webauthnkit/src/test/java/webauthnkit/core/CBORUnitTest.kt:79-86 | `putNumber` writes 1000 as 19 03 e8, -1000 as 39 03 e7 and 1000000 as 1a 00 0f 42 40 |
| CBORExamples.LongNumberExample | webauthnkit/src/test/java/webauthnkit/core/CBORUnitTest.kt:81 | `putNumber` writes 10^12 with eight argument bytes |
| CBORExamples.StringExamples | webauthnkit/src/test/java/webauthnkit/core/CBORUnitTest.kt:103-116 | `putString` writes "" as 60, "a" as 61 61 and "IETF" as 64 49 45 54 46; `putByteString` writes empty as 40 and 01 02 03 04 as 44 01 02 03 04 |
| CBORExamples.EmptyArrayExample | webauthnkit/src/test/java/webauthnkit/core/CBORUnitTest.kt:131-137 | `putArray` of no element writes 80 |
| CBORExamples.ArrayExample | webauthnkit/src/test/java/webauthnkit/core/CBORUnitTest.kt:139-146 | `putArray` of 1, 2, 3 writes 83 01 02 03 |
| CBORExamples.LongArrayExample | webauthnkit/src/test/java/webauthnkit/core/CBORUnitTest.kt:148-152 | `putArray` of 1 to 25 writes the head 98 19, one byte for each number up to 23, then 18 18 and 18 19 |
| CBORExamples.EmptyMapExample | webauthnkit/src/test/java/webauthnkit/core/CBORUnitTest.kt:161-163 | `putStringKeyMap` of the empty map writes a0 |
| CBORExamples.MapExample | webauthnkit/src/test/java/webauthnkit/core/CBORUnitTest.kt:166-172 | `putStringKeyMap` of {"a": 1, "b": [2, 3]} writes a2 61 61 01 61 62 82 02 03 |
| CBORExamples.AnySimpleValue | webauthnkit/src/main/kotlin/webauthnkit/core/util/CBORUtil.kt:226-237 | `readAny` answers a boolean for f4, f5 and the null marker f6 without consuming the byte; f6 reads as `true` |
| CBORExamples.BoolArrayExample | webauthnkit/src/main/kotlin/webauthnkit/core/util/CBORUtil.kt:350-353 | `[true, false]`, written as 82 f5 f4, reads back as `[true, true]` because `readAny` does not consume booleans |
| CBORExamples.SignedArgumentExample | webauthnkit/src/main/kotlin/webauthnkit/core/util/CBORUtil.kt:390 | a one-byte argument is read as a signed byte: 18 80 reads as -128 (RFC 8949 section 3 reads 128), while `putNumber` writes 128 with two argument bytes |
| CBORExamples.ReservedArgument | webauthnkit/src/main/kotlin/webauthnkit/core/util/CBORUtil.kt:366-377 | argument bits 28..31 make `readNumber` answer null after consuming the initial byte |
| CBORExamples.ShortArgument | webauthnkit/src/main/kotlin/webauthnkit/core/util/CBORUtil.kt:387 | an argument that runs past the end of the input makes `readNumber` answer null after consuming the initial byte |
| CBORExamples.NegativeLengthExample | webauthnkit/src/main/kotlin/webauthnkit/core/util/CBORUtil.kt:180-185 | a text length of 0xff is -1 and makes `Arrays.copyOfRange` throw instead of answering null |
| CBORExamples.WrongMajorType | webauthnkit/src/main/kotlin/webauthnkit/core/util/CBORUtil.kt:150-176 | at the end of the input or on another major type, the string readers answer null and leave the reader unchanged |
| CBORExamples.BoolAtEnd | webauthnkit/src/main/kotlin/webauthnkit/core/util/CBORUtil.kt:193-202 | `readBool` answers `false` at the end of the input and null, after consuming it, for any byte but f4 and f5 |
| CBORExamples.NullMaskExample | webauthnkit/src/main/kotlin/webauthnkit/core/util/CBORUtil.kt:204-207 | `readNull` tests the bits of f6, so ff and f7 count as null and f5 does not |
| ByteArrays.Merge | webauthnkit/src/main/kotlin/webauthnkit/core/util/ByteArrayUtil.kt:41-48 | a fresh array of the two lengths added, holding b1 followed by b2 |
| ByteArrays.Equals | webauthnkit/src/main/kotlin/webauthnkit/core/util/ByteArrayUtil.kt:50-61 | true exactly when both arrays have the same length and the same byte at every index, both directions |
| ByteArrays.HexByte | webauthnkit/src/main/kotlin/webauthnkit/core/util/ByteArrayUtil.kt:70 | `%02x` gives exactly two lower-case hexadecimal digits |
| ByteArrays.ToHex | webauthnkit/src/main/kotlin/webauthnkit/core/util/ByteArrayUtil.kt:67-73 | the loop builds `Hex(bytes)`, two digits per byte in order |
| ByteArrays.HexAt | webauthnkit/src/main/kotlin/webauthnkit/core/util/ByteArrayUtil.kt:67-73 | byte i becomes characters 2i and 2i+1, high digit first |
| ByteArrays.HexIsLowerCase | webauthnkit/src/main/kotlin/webauthnkit/core/util/ByteArrayUtil.kt:67-73 | every character `toHex` writes is a lower-case hexadecimal digit |
| ByteArrays.FromHex | webauthnkit/src/main/kotlin/webauthnkit/core/util/ByteArrayUtil.kt:63-65 | `fromHex` yields one byte per pair of characters, ignoring a trailing odd one, and fails where a pair is not a number |
| ByteArrays.ParseHexByte | webauthnkit/src/main/kotlin/webauthnkit/core/util/ByteArrayUtil.kt:64 | each pair of digits `toHex` writes parses back to its byte |
| ByteArrays.FromHexToHex | webauthnkit/src/main/kotlin/webauthnkit/core/util/ByteArrayUtil.kt:63-73 | `fromHex(toHex(b)) == b` for every byte array |
| ByteArrays.ZeroUUIDBytes | webauthnkit/src/main/kotlin/webauthnkit/core/util/ByteArrayUtil.kt:27-32 | sixteen zero bytes |
| ByteArrays.FromUUID | webauthnkit/src/main/kotlin/webauthnkit/core/util/ByteArrayUtil.kt:34-39 | sixteen bytes |
| ByteArrays.FromUUIDHalves | webauthnkit/src/main/kotlin/webauthnkit/core/util/ByteArrayUtil.kt:34-39 | the first eight bytes read back as the most significant bits and the last eight as the least significant ones |
| ByteArrays.ZeroUUIDIsNil | webauthnkit/src/main/kotlin/webauthnkit/core/util/ByteArrayUtil.kt:27-39 | `zeroUUIDBytes()` is `fromUUID` of the nil UUID |
| BleConstants.ErrorCodesDistinct | webauthnkit/src/main/kotlin/webauthnkit/core/ctap/ble/BleConstants.kt:3-14 | no two BLE error types share a code |
| BleConstants.CommandRoundTrip | webauthnkit/src/main/kotlin/webauthnkit/core/ctap/ble/BleConstants.kt:16-40 | `fromByte` inverts `toByte`; a byte it accepts is the code of the command it returns, and it rejects exactly the bytes no command has |
| BleConstants.KeepAliveRoundTrip | webauthnkit/src/main/kotlin/webauthnkit/core/ctap/ble/BleConstants.kt:43-63 | `fromByte` inverts `toByte` for the three statuses and accepts exactly the bytes 0, 1 and 2 |
| CtapConstants.CommandRoundTrip | webauthnkit/src/main/kotlin/webauthnkit/core/ctap/CTAPConstants.kt:3-29 | `fromByte` inverts `toByte`; a byte it accepts is the code of the command it returns, and it rejects exactly the bytes no command has |
| CtapConstants.UnknownCommands | webauthnkit/src/main/kotlin/webauthnkit/core/ctap/CTAPConstants.kt:13-23 | 0x00, 0x03, 0x05 and every byte above 0x08 name no command |
| CtapConstants.StatusRoundTrip | webauthnkit/src/main/kotlin/webauthnkit/core/ctap/CTAPConstants.kt:31-80 | decoding the byte of a status gives the status back |
| CtapConstants.StatusCodesDistinct | webauthnkit/src/main/kotlin/webauthnkit/core/ctap/CTAPConstants.kt:31-75 | the status codes are pairwise distinct, so `toByte` is injective |
| Frames.MaskedHigh | webauthnkit/src/main/kotlin/webauthnkit/core/ctap/ble/frame/Frame.kt:34 | `bytes[1].toInt() and 0xff00` is 0 or 0xff00: the sign-extended byte keeps bits 8..15 only when negative |
| Frames.ReadLen | webauthnkit/src/main/kotlin/webauthnkit/core/ctap/ble/frame/Frame.kt:34 | the decoded length is below 256 or in 0xff00..0xffff |
| Frames.FromBytes | webauthnkit/src/main/kotlin/webauthnkit/core/ctap/ble/frame/Frame.kt:19-38 | fewer than 3 bytes fail with `InvalidLen` (both directions), an unknown first byte with `InvalidCmd` (both directions), and a parsed frame carries that command and the bytes after the header |
| Frames.ToBytes | webauthnkit/src/main/kotlin/webauthnkit/core/ctap/ble/frame/Frame.kt:41-46 | three header bytes followed by the data |
| Frames.RoundTrip | webauthnkit/src/main/kotlin/webauthnkit/core/ctap/ble/frame/Frame.kt:19-46 | parsing a serialized frame keeps command and data; the length comes back exactly when it is below 256 or in 0xff00..0xffff |
| Frames.LengthDecodeExample | webauthnkit/src/main/kotlin/webauthnkit/core/ctap/ble/frame/Frame.kt:34 | a 256-byte length decodes as 0, and 300 as 44 |
| Frames.FromBytesIntended | webauthnkit/src/main/kotlin/webauthnkit/core/ctap/ble/frame/Frame.kt:34 | the corrected decoding reads the length as high byte times 256 plus low byte |
| Frames.IntendedRoundTrip | webauthnkit/src/main/kotlin/webauthnkit/core/ctap/ble/frame/Frame.kt:41-46 | with the corrected decoding every frame whose length fits the 16-bit field comes back unchanged |
| ContinuationFrames.FromBytes | webauthnkit/src/main/kotlin/webauthnkit/core/ctap/ble/frame/ContinuationFrame.kt:16-25 | fewer than 2 bytes fail with `InvalidLen` (both directions); otherwise the sequence number is byte 0 read as signed and the data is the rest |
| ContinuationFrames.ToBytes | webauthnkit/src/main/kotlin/webauthnkit/core/ctap/ble/frame/ContinuationFrame.kt:28-30 | one sequence byte followed by the data |
| ContinuationFrames.RoundTrip | webauthnkit/src/main/kotlin/webauthnkit/core/ctap/ble/frame/ContinuationFrame.kt:16-30 | a continuation comes back unchanged exactly when its sequence number fits a signed byte and it carries data |
| FrameSplitting.RestMaxNonZero | webauthnkit/src/main/kotlin/webauthnkit/core/ctap/ble/frame/FrameSplitter.kt:9-10 | the continuation step is never zero when the first step is usable |
| FrameSplitting.Split | webauthnkit/src/main/kotlin/webauthnkit/core/ctap/ble/frame/FrameSplitter.kt:12-58 | the loop builds exactly `SplitResult`, the first frame and the numbered continuations |
| FrameSplitting.SplitResult | webauthnkit/src/main/kotlin/webauthnkit/core/ctap/ble/frame/FrameSplitter.kt:12-58 | a packet size of at least 3 always splits; the first frame carries the command, announces the whole length and holds a prefix of the message, and a message that fits after the header goes out whole with no continuation |
| FrameSplitting.PiecesReassemble | webauthnkit/src/main/kotlin/webauthnkit/core/ctap/ble/frame/FrameSplitter.kt:30-49 | the continuation payloads concatenate to the data left after the first frame |
| FrameSplitting.PiecesCount | webauthnkit/src/main/kotlin/webauthnkit/core/ctap/ble/frame/FrameSplitter.kt:30-49 | the number of continuations is the ceiling of what is left divided by the step |
| FrameSplitting.SplitSingle | webauthnkit/src/main/kotlin/webauthnkit/core/ctap/ble/frame/FrameSplitter.kt:53-56 | a message that fits after the header goes out in a single frame with no continuation |
| FrameSplitting.SplitReassembles | webauthnkit/src/main/kotlin/webauthnkit/core/ctap/ble/frame/FrameSplitter.kt:12-58 | for packet sizes of at least 3 the split succeeds; the first frame announces the whole length, first data plus continuation payloads is the message, continuations are numbered 0, 1, 2, ... and their count is the ceiling of the rest over max - 1 |
| FrameSplitting.SplitSizes | webauthnkit/src/main/kotlin/webauthnkit/core/ctap/ble/frame/FrameSplitter.kt:9-10 | for packet sizes of at least 3 every serialized frame fits in a packet: the first frame carries max - 3 bytes when split, each continuation 1 to max - 1 |
| FrameSplitting.SplitFails | webauthnkit/src/main/kotlin/webauthnkit/core/ctap/ble/frame/FrameSplitter.kt:19-22 | a packet size below 3 makes `copyOfRange` throw |
| FrameBuffering.FrameBuffer.constructor | webauthnkit/src/main/kotlin/webauthnkit/core/ctap/ble/frame/FrameBuffer.kt:14-19 | a new buffer is in the cleared state: not waiting, not done, no command, no data, seq -1, len 0 |
| FrameBuffering.FrameBuffer.Clear | webauthnkit/src/main/kotlin/webauthnkit/core/ctap/ble/frame/FrameBuffer.kt:21-28 | `clear()` restores the cleared state |
| FrameBuffering.FrameBuffer.PutFragment | webauthnkit/src/main/kotlin/webauthnkit/core/ctap/ble/frame/FrameBuffer.kt:30-88 | error and new fields are those of `PutFragmentResult`: the fragment rule with the length as `Frame.fromByteArray` decodes it, high byte masked in place |
| FrameBuffering.FrameBuffer.IsDone | webauthnkit/src/main/kotlin/webauthnkit/core/ctap/ble/frame/FrameBuffer.kt:90-92 | a done buffer always has a command |
| FrameBuffering.FrameBuffer.GetCommand | webauthnkit/src/main/kotlin/webauthnkit/core/ctap/ble/frame/FrameBuffer.kt:94-96 | `command!!` succeeds on a done buffer |
| FrameBuffering.ErrorKeepsState | webauthnkit/src/main/kotlin/webauthnkit/core/ctap/ble/frame/FrameBuffer.kt:30-88 | a refused fragment leaves every field unchanged, and every fragment keeps the fields consistent |
| FrameBuffering.DoneIsFinal | webauthnkit/src/main/kotlin/webauthnkit/core/ctap/ble/frame/FrameBuffer.kt:33-36 | once done, every fragment is refused with `InvalidLen` |
| FrameBuffering.InitFrame | webauthnkit/src/main/kotlin/webauthnkit/core/ctap/ble/frame/FrameBuffer.kt:65-85 | an initialization frame, decoded by `Frame.fromByteArray` as written, sets command, length and data; a decoding error is returned with nothing changed; the buffer is then done exactly when the data covers the decoded length and waits for continuations otherwise |
| FrameBuffering.PutFragmentWith | webauthnkit/src/main/kotlin/webauthnkit/core/ctap/ble/frame/FrameBuffer.kt:30-88 | the rule of `putFragment`, whatever the initialization frame decodes to: a done buffer refuses every fragment with InvalidLen, a refused fragment changes nothing, the buffer stays consistent, and it becomes done only with at least the announced number of bytes |
| FrameBuffering.PutFragmentResult | webauthnkit/src/main/kotlin/webauthnkit/core/ctap/ble/frame/FrameBuffer.kt:65-85 | as written, the length an accepted initialization frame sets is below 256 or in 0xff00..0xffff |
| FrameBuffering.PutFragmentIntended | webauthnkit/src/main/kotlin/webauthnkit/core/ctap/ble/frame/FrameBuffer.kt:65-85 | with the corrected decoding, an accepted initialization frame sets the length to high byte times 256 plus low byte |
| FrameBuffering.InitFrameIntended | webauthnkit/src/main/kotlin/webauthnkit/core/ctap/ble/frame/FrameBuffer.kt:65-85 | with the corrected decoding, every frame whose length fits 16 bits sets command, length and data, and the buffer is done exactly when the data covers the length |
| FrameBuffering.LongFirstAsWritten | webauthnkit/src/main/kotlin/webauthnkit/core/ctap/ble/frame/FrameBuffer.kt:79 | as written, the initialization frame of a 256-byte message leaves the buffer done with its 17 bytes |
| FrameBuffering.LongFirstIntended | webauthnkit/src/main/kotlin/webauthnkit/core/ctap/ble/frame/FrameBuffer.kt:79 | with the corrected decoding the same frame leaves the buffer waiting for 256 bytes |
| FrameBuffering.Continuation | webauthnkit/src/main/kotlin/webauthnkit/core/ctap/ble/frame/FrameBuffer.kt:38-63 | a continuation is taken exactly when its seq is above the last one; its payload is appended and the buffer is done exactly when the length is covered |
| FrameBuffering.SkippedSeqAccepted | webauthnkit/src/main/kotlin/webauthnkit/core/ctap/ble/frame/FrameBuffer.kt:49 | a continuation that skips sequence numbers is still taken |
| FrameBuffering.SplitThenBuffer | webauthnkit/src/main/kotlin/webauthnkit/core/ctap/ble/frame/FrameBuffer.kt:30-88 | for messages of up to 255 bytes and packet sizes of at least 3, feeding the split's packets into a cleared buffer takes every packet and ends done with the command and the message |
| FrameBuffering.LongMessageRefused | webauthnkit/src/main/kotlin/webauthnkit/core/ctap/ble/frame/FrameBuffer.kt:79 | with the decoding as written, a 256-byte message over 20-byte packets is taken as done after 17 bytes and its first continuation is refused; with the corrected decoding the buffer waits for continuations with length 256 |
| AuthData.KeyMapEntries | webauthnkit/src/main/kotlin/webauthnkit/core/authenticator/AuthenticatorData.kt:66-119 | the EC2 key map is {1: 2, 3: alg, -1: crv, -2: x, -3: y} and the RSA map {1: 3, 3: alg, -1: n, -2: e}, in that insertion order |
| AuthData.LengthBytesBigEndian | webauthnkit/src/main/kotlin/webauthnkit/core/authenticator/AuthenticatorData.kt:140-143 | the credential id length is written as its 16-bit big-endian bytes, readable back when it fits |
| AuthData.AttestedBytes | webauthnkit/src/main/kotlin/webauthnkit/core/authenticator/AuthenticatorData.kt:134-149 | null exactly when the COSE key encodes to null; otherwise aaguid, 2-byte id length, id and key bytes |
| AuthData.AttestedLayout | webauthnkit/src/main/kotlin/webauthnkit/core/authenticator/AuthenticatorData.kt:134-149 | aaguid, credential id and key can each be cut back out of the attested credential data |
| AuthData.SetIf | webauthnkit/src/main/kotlin/webauthnkit/core/authenticator/AuthenticatorData.kt:187-198 | `if (c) result = result or mask` sets exactly the mask's bits when c holds |
| AuthData.MaskBits | webauthnkit/src/main/kotlin/webauthnkit/core/authenticator/AuthenticatorData.kt:162-165 | UP is bit 0, UV bit 2, AT bit 6, and the ED mask 0x84 sets bit 7 and also bit 2 |
| AuthData.FlagsToByte | webauthnkit/src/main/kotlin/webauthnkit/core/authenticator/AuthenticatorData.kt:183-201 | the flags byte as written has UP in bit 0, AT in bit 6, ED in bit 7, and bit 2 set when the user was verified OR there are extensions; no other bit |
| AuthData.ExtensionSetsUserVerified | webauthnkit/src/main/kotlin/webauthnkit/core/authenticator/AuthenticatorData.kt:165 | with extensions present the flags byte as written no longer tells whether the user was verified; the corrected byte does |
| AuthData.FlagsToByteIntended | webauthnkit/src/main/kotlin/webauthnkit/core/authenticator/AuthenticatorData.kt:183-201 | the corrected flags byte (ED = 0x80) carries each flag in its own bit and nothing else |
| AuthData.IntendedFlagsInjective | webauthnkit/src/main/kotlin/webauthnkit/core/authenticator/AuthenticatorData.kt:183-201 | the corrected flags byte determines all four flags |
| AuthData.CounterBytesIntended | webauthnkit/src/main/kotlin/webauthnkit/core/authenticator/AuthenticatorData.kt:227-230 | the corrected counter is 4 bytes reading back, big-endian, as the counter |
| AuthData.CounterBytes | webauthnkit/src/main/kotlin/webauthnkit/core/authenticator/AuthenticatorData.kt:227-230 | as written, the four counter bytes are four bytes whose first two are the top 16 bits of the count, and the last three are equal |
| AuthData.CounterBytesLoseLowBits | webauthnkit/src/main/kotlin/webauthnkit/core/authenticator/AuthenticatorData.kt:227-230 | the counter bytes as written agree with the big-endian counter only in the top two bytes; counters 0 and 1 give the same bytes |
| AuthData.ToBytes | webauthnkit/src/main/kotlin/webauthnkit/core/authenticator/AuthenticatorData.kt:218-250 | null exactly when attested data is present and its encoding is null |
| AuthData.ToBytesLayout | webauthnkit/src/main/kotlin/webauthnkit/core/authenticator/AuthenticatorData.kt:218-250 | rpIdHash, flags, the four counter bytes, then the attested data if any; extensions are not appended |
| AuthData.FlagBits | webauthnkit/src/main/kotlin/webauthnkit/core/authenticator/AuthenticatorData.kt:220-225 | UP bit iff the user was present, AT bit iff attested data is present, ED bit iff there are extensions, UV bit iff verified or extensions |
| AuthData.ToBytesIntended | webauthnkit/src/main/kotlin/webauthnkit/core/authenticator/AuthenticatorData.kt:218-250 | the corrected encoding fails in the same cases, its counter reads back as the sign count and its UV and ED bits are the two flags |
| Attestation.ToNone | webauthnkit/src/main/kotlin/webauthnkit/core/authenticator/Attestation.kt:19-25 | same authenticator data, format "none" and an empty statement |
| Attestation.IsSelfAttestation | webauthnkit/src/main/kotlin/webauthnkit/core/authenticator/Attestation.kt:27-45 | as written the answer is never true, and it throws only for a packed statement whose attested credential data is missing |
| Attestation.ToBytes | webauthnkit/src/main/kotlin/webauthnkit/core/authenticator/Attestation.kt:47-73 | the encoding fails wherever the authenticator data's encoding fails |
| Attestation.SelfAttestationNeverTrue | webauthnkit/src/main/kotlin/webauthnkit/core/authenticator/Attestation.kt:27-45 | `isSelfAttestation()` never answers true; it throws (`!!` on null) exactly when every earlier guard passes, and answers false on a "none" object |
| Attestation.IsSelfAttestationIntended | webauthnkit/src/main/kotlin/webauthnkit/core/authenticator/Attestation.kt:27-45 | the corrected check holds exactly for a "packed" statement with neither "x5c" nor "ecdaaKeyId" and attested data whose AAGUID is all zero |
| Attestation.AllZero | webauthnkit/src/main/kotlin/webauthnkit/core/authenticator/Attestation.kt:41 | the negated `any { it != 0 }` holds exactly when every byte is zero |
| Attestation.SelfAttestationMissed | webauthnkit/src/main/kotlin/webauthnkit/core/authenticator/Attestation.kt:38-40 | a packed self attestation with a zero AAGUID gets false from the check as written and true from the corrected one |
| Attestation.AttestationMapEntries | webauthnkit/src/main/kotlin/webauthnkit/core/authenticator/Attestation.kt:56-59 | the map holds authData, fmt and attStmt, in that order |
| Attestation.ToBytesShape | webauthnkit/src/main/kotlin/webauthnkit/core/authenticator/Attestation.kt:47-73 | the encoding fails where the authenticator data's does and is otherwise Jackson's encoding of the three-entry map of authData, fmt and attStmt, for the object as built |
| CredentialSources.HexInjective | webauthnkit/src/main/kotlin/webauthnkit/core/util/ByteArrayUtil.kt:67-73 | two byte arrays have the same hex text exactly when they are equal |
| CredentialSources.IdHexIdentifies | webauthnkit/src/main/kotlin/webauthnkit/core/authenticator/internal/CredentialSource.kt:48-49 | two sources share `idHex` exactly when their ids are equal |
| CredentialSources.KeyLabelShared | webauthnkit/src/main/kotlin/webauthnkit/core/authenticator/internal/CredentialSource.kt:51-52 | the key label depends on relying party and user handle alone, and for one relying party it tells user handles apart |
| CredentialSources.ToBase64 | webauthnkit/src/main/kotlin/webauthnkit/core/authenticator/internal/CredentialSource.kt:54-67 | null exactly when the CBOR form is null; otherwise the URL-safe Base64 of it |
| CredentialSources.SignCountOnlyMutable | webauthnkit/src/main/kotlin/webauthnkit/core/authenticator/internal/CredentialSource.kt:10-17 | setting `signCount` changes no other field and keeps `idHex` and `keyLabel` |
| CredentialStores.LoadAll | webauthnkit/src/main/kotlin/webauthnkit/core/authenticator/internal/CredentialStore.kt:27-30 | exactly the relying party's rows, in store order |
| CredentialStores.LoadAllFor | webauthnkit/src/main/kotlin/webauthnkit/core/authenticator/internal/CredentialStore.kt:32-37 | exactly those of the relying party's rows that belong to the user handle |
| CredentialStores.Filter | webauthnkit/src/main/kotlin/webauthnkit/core/authenticator/internal/CredentialStore.kt:34-36 | the filter keeps exactly the sources with that user handle |
| CredentialStores.DeleteKeys | webauthnkit/src/main/kotlin/webauthnkit/core/authenticator/internal/CredentialStore.kt:46-49 | exactly the rows whose key was not deleted are left |
| CredentialStores.DeleteAllForEffect | webauthnkit/src/main/kotlin/webauthnkit/core/authenticator/internal/CredentialStore.kt:44-50 | afterwards no row of that user at that relying party is left, every other row stays, and keys stay distinct |
| CredentialStores.SameKeySameRow | webauthnkit/src/main/kotlin/webauthnkit/core/authenticator/internal/CredentialStore.kt:115-135 | in a store with distinct keys a key names one row |
| CredentialStores.Lookup | webauthnkit/src/main/kotlin/webauthnkit/core/authenticator/internal/CredentialStore.kt:52-56 | finds a row with that id when there is one and null exactly when no row has it |
| CredentialStores.SaveEffect | webauthnkit/src/main/kotlin/webauthnkit/core/authenticator/internal/CredentialStore.kt:58-72 | a save succeeds exactly when the Base64 content is not null; a failed one changes nothing; a successful one makes the source the one row under its id and keeps every row with another id |
| KeySupports.FirstSupportedIsES256 | webauthnkit/src/main/kotlin/webauthnkit/core/authenticator/internal/key/KeySupportChooser.kt:27-40 | the search finds something exactly when es256 is requested, and then es256; rs256 and every other algorithm are skipped |
| KeySupports.ChosenProperties | webauthnkit/src/main/kotlin/webauthnkit/core/authenticator/internal/key/KeySupportChooser.kt:16-24 | `choose` answers exactly when es256 is requested, always with es256, and from the default back end exactly from Android 6.0 on |
| KeySupports.Choose | webauthnkit/src/main/kotlin/webauthnkit/core/authenticator/internal/key/KeySupportChooser.kt:16-55 | the loops return what `Chosen` describes |
| CtapOptions.Field | webauthnkit/src/main/kotlin/webauthnkit/core/ctap/options/MakeCredentialOptions.kt:50-60 | a field is found only in a text-keyed map that holds the key; an integer-keyed map answers no text key |
| CtapOptions.OptionalText | webauthnkit/src/main/kotlin/webauthnkit/core/ctap/options/MakeCredentialOptions.kt:76-78 | an optional field is taken exactly when it is present and a String, decoded from its UTF-8 bytes |
| CtapOptions.ParseParams | webauthnkit/src/main/kotlin/webauthnkit/core/ctap/options/MakeCredentialOptions.kt:25-30 | the params are accepted exactly when `readStringKeyMap` answers a map, and are that map; the call throws exactly when the reader throws |
| CtapOptions.ClientDataHashOf | webauthnkit/src/main/kotlin/webauthnkit/core/ctap/options/MakeCredentialOptions.kt:32-40 | `clientDataHash` is accepted exactly when present and a `ByteArray`, and is that value; otherwise InvalidPar |
| CtapOptions.RpOf | webauthnkit/src/main/kotlin/webauthnkit/core/ctap/options/MakeCredentialOptions.kt:42-78 | `rp` is accepted exactly when it is a map with a String `id` and a String `name` (with `icon` if a String); otherwise InvalidPar |
| CtapOptions.UserOf | webauthnkit/src/main/kotlin/webauthnkit/core/ctap/options/MakeCredentialOptions.kt:80-119 | `user` is accepted exactly when it is a map with a `ByteArray` `id` and a String `name` (with `displayName` and `icon` if Strings); otherwise InvalidPar |
| CtapOptions.AllCredParamsValid | webauthnkit/src/main/kotlin/webauthnkit/core/ctap/options/MakeCredentialOptions.kt:133-152 | the `forEach` passes exactly when every element is a map holding `type` and `alg` |
| CtapOptions.CredParamsOf | webauthnkit/src/main/kotlin/webauthnkit/core/ctap/options/MakeCredentialOptions.kt:122-152 | `pubKeyCredParams` is accepted exactly when it is a list of valid elements, and the list handed on is always empty; otherwise InvalidPar |
| CtapOptions.MakeUserVerificationOf | webauthnkit/src/main/kotlin/webauthnkit/core/ctap/options/MakeCredentialOptions.kt:164-181 | the inverted `is Map` test: a map under `options` is refused with InvalidPar, anything else fails the cast, and user verification is never set |
| CtapOptions.MakeCredentialOptionsOutcome | webauthnkit/src/main/kotlin/webauthnkit/core/ctap/options/MakeCredentialOptions.kt:23-193 | options exactly when the map is read, every field is valid and there is no `options` key; an escaping exception exactly when the reader throws or `options` is not a map; InvalidPar otherwise |
| CtapOptions.MakeCredentialOptionsFrom | webauthnkit/src/main/kotlin/webauthnkit/core/ctap/options/MakeCredentialOptions.kt:23-193 | accepted options never require user verification, always require a resident key and keep no credential parameters; a refusal is always InvalidPar |
| CtapOptions.AcceptedMakeCredentialOptions | webauthnkit/src/main/kotlin/webauthnkit/core/ctap/options/MakeCredentialOptions.kt:161-192 | accepted options never ask for user verification, always for a resident key, list no algorithm, and carry the hash, rp and user read from the map |
| CtapOptions.IntegerKeyedRpRefused | webauthnkit/src/main/kotlin/webauthnkit/core/ctap/options/MakeCredentialOptions.kt:46-55 | an `rp` map with integer keys passes `is Map` but holds no text key, so it is refused |
| CtapOptions.RpIdOf | webauthnkit/src/main/kotlin/webauthnkit/core/ctap/options/GetAssertionOptions.kt:38-46 | `rpId` is accepted exactly when present and a String; otherwise InvalidPar |
| CtapOptions.GetUserVerificationOf | webauthnkit/src/main/kotlin/webauthnkit/core/ctap/options/GetAssertionOptions.kt:51-68 | a non-map `options` is InvalidPar; in a map a Boolean `uv` is ignored and any other `uv` fails the cast; user verification is never set |
| CtapOptions.GetAssertionOptionsOutcome | webauthnkit/src/main/kotlin/webauthnkit/core/ctap/options/GetAssertionOptions.kt:20-79 | options exactly when the map is read, the hash is bytes, `rpId` is a String and `options` is absent or a map with an absent or Boolean `uv`; an escaping exception exactly when the reader throws or `uv` is not Boolean |
| CtapOptions.GetAssertionOptionsFrom | webauthnkit/src/main/kotlin/webauthnkit/core/ctap/options/GetAssertionOptions.kt:20-79 | accepted options always require user presence, never user verification, and allow no credential; a refusal is always InvalidPar |
| CtapOptions.AcceptedGetAssertionOptions | webauthnkit/src/main/kotlin/webauthnkit/core/ctap/options/GetAssertionOptions.kt:48-78 | accepted options always require user presence, never user verification, allow no credential, and carry the hash and rpId read from the map |
| CtapOptions.UserVerificationIgnored | webauthnkit/src/main/kotlin/webauthnkit/core/ctap/options/GetAssertionOptions.kt:62-66 | a request with `options: {uv: true}` is accepted without user verification |
| CtapResponses.Caught | webauthnkit/src/main/kotlin/webauthnkit/core/ctap/response/MakeCredentialResponseBuilder.kt:20-37 | the `try` gives bytes exactly when the writer does not throw; a `ClassCastException` is caught as Unknown, an `AssertionError` escapes |
| CtapResponses.SmallMapWrite | webauthnkit/src/main/kotlin/webauthnkit/core/util/CBORUtil.kt:446-485 | `putStringKeyMap` on a small map writes the head 0xa0 + count first and throws where the first throwing entry value does |
| CtapResponses.MakeCredentialResponseNeverBuilt | webauthnkit/src/main/kotlin/webauthnkit/core/ctap/response/MakeCredentialResponseBuilder.kt:17-39 | as written `build()` never gives bytes: it answers Unknown exactly when `toBytes()` is null or the statement fails a cast, and otherwise the `UByteArray` authData makes an `AssertionError` escape |
| CtapResponses.MakeCredentialResponse | webauthnkit/src/main/kotlin/webauthnkit/core/ctap/response/MakeCredentialResponseBuilder.kt:17-39 | as written the builder never returns bytes; when it fails inside its `try` the reason is Unknown |
| CtapResponses.MakeCredentialEntriesDistinct | webauthnkit/src/main/kotlin/webauthnkit/core/ctap/response/MakeCredentialResponseBuilder.kt:22-26 | the three keys attStmt, fmt and authData are distinct |
| CtapResponses.MakeCredentialResponseFixedReadsBack | webauthnkit/src/main/kotlin/webauthnkit/core/ctap/response/MakeCredentialResponseBuilder.kt:17-39 | the corrected builder gives the map's bytes, which start with 0xa3 and read back as attStmt, fmt and authData in that order |
| CtapResponses.MissingAuthDataUnknown | webauthnkit/src/main/kotlin/webauthnkit/core/ctap/response/MakeCredentialResponseBuilder.kt:26 | without authenticator data bytes both builders answer Unknown |
| CtapResponses.GetAssertionResponseNeverBuilt | webauthnkit/src/main/kotlin/webauthnkit/core/ctap/response/GetAssertionResponseBuilder.kt:19-60 | as written `build()` never gives bytes: Unknown exactly when the user handle, or the id that must be sent, is missing; otherwise an `AssertionError` escapes |
| CtapResponses.GetAssertionResponse | webauthnkit/src/main/kotlin/webauthnkit/core/ctap/response/GetAssertionResponseBuilder.kt:19-60 | as written the builder never returns bytes; when it fails inside its `try` the reason is Unknown |
| CtapResponses.AssertionEntriesShape | webauthnkit/src/main/kotlin/webauthnkit/core/ctap/response/GetAssertionResponseBuilder.kt:24-46 | the corrected map holds numberOfCredentials 1 and user {id: userHandle}, and holds `credential` exactly when the allow list does not have one entry |
| CtapResponses.MissingHandleUnknown | webauthnkit/src/main/kotlin/webauthnkit/core/ctap/response/GetAssertionResponseBuilder.kt:25-39 | without the user handle, or without the selected id when one must be sent, both builders answer Unknown |
| CtapResponses.GetAssertionResponseFixedReadsBack | webauthnkit/src/main/kotlin/webauthnkit/core/ctap/response/GetAssertionResponseBuilder.kt:19-60 | the corrected builder gives the map's bytes, which start with 0xa5 or 0xa4 and read back as the entries |
| Sessions.ConsentFailure | webauthnkit/src/main/kotlin/webauthnkit/core/authenticator/internal/session/InternalMakeCredentialSession.kt:92-104 | `CancelledException` gives Cancelled, `TimeoutException` Timeout, any other exception Unknown |
| Sessions.StepsPreserveConsistency | webauthnkit/src/main/kotlin/webauthnkit/core/authenticator/internal/session/InternalMakeCredentialSession.kt:201-246 | start, stop, cancel and completion keep the lifecycle consistent, and none clears `stopped` |
| Sessions.LifecycleRules | webauthnkit/src/main/kotlin/webauthnkit/core/authenticator/internal/session/InternalMakeCredentialSession.kt:201-241 | a second start does nothing, a stop before start does nothing, a stopped session ignores start, stop and cancel, and a cancel with the consent UI open does not stop the session |
| MakeCredentialSessions.Algorithms | webauthnkit/src/main/kotlin/webauthnkit/core/authenticator/internal/session/InternalMakeCredentialSession.kt:60 | the requested algorithms, one per parameter, in order |
| MakeCredentialSessions.AnyExcludedStored | webauthnkit/src/main/kotlin/webauthnkit/core/authenticator/internal/session/InternalMakeCredentialSession.kt:69-71 | true exactly when some excluded id is stored |
| MakeCredentialSessions.CheckOrder | webauthnkit/src/main/kotlin/webauthnkit/core/authenticator/internal/session/InternalMakeCredentialSession.kt:62-82 | the checks come in order: no key back end gives Unsupported, then an excluded stored credential Unknown, then forbidden user verification Constraint; each leaves the store alone |
| MakeCredentialSessions.MakeCredentialRun | webauthnkit/src/main/kotlin/webauthnkit/core/authenticator/internal/session/InternalMakeCredentialSession.kt:46-189 | the store changes only after consent is granted for a request with an rpId; a success had consent, picked ES256 from the supported algorithms, and holds a credential with sign count 0, the id from the generated UUID, the request's rpId and user handle, and as its display name the one the consent dialog returned |
| MakeCredentialSessions.MissingRpIdCrashes | webauthnkit/src/main/kotlin/webauthnkit/core/authenticator/internal/session/InternalMakeCredentialSession.kt:109 | a relying party without an id makes `rpEntity.id!!` throw once consent is given |
| MakeCredentialSessions.CreatedCredential | webauthnkit/src/main/kotlin/webauthnkit/core/authenticator/internal/session/InternalMakeCredentialSession.kt:107-186 | a created credential is a new es256 source with counter 0 under the id made from the UUID, and the only stored source of that user at that relying party; its authenticator data has UP = UP or UV, UV = UV, counter 0, the zero AAGUID, the new id, the SHA-256 of the rp id and no extensions |
| MakeCredentialSessions.KeyCreationFailureLosesOldCredentials | webauthnkit/src/main/kotlin/webauthnkit/core/authenticator/internal/session/InternalMakeCredentialSession.kt:123-138 | the old credentials are deleted before the key pair is created, so a failed key creation leaves the user with no credential at that relying party |
| MakeCredentialSessions.MakeCredentialSession.constructor | webauthnkit/src/main/kotlin/webauthnkit/core/authenticator/internal/session/InternalMakeCredentialSession.kt:24-36 | a new session is neither started nor stopped and holds the given setting and store |
| MakeCredentialSessions.MakeCredentialSession.Capabilities | webauthnkit/src/main/kotlin/webauthnkit/core/authenticator/internal/session/InternalMakeCredentialSession.kt:191-199 | the session can always perform user verification and can always store a resident key |
| MakeCredentialSessions.MakeCredentialSession.Start | webauthnkit/src/main/kotlin/webauthnkit/core/authenticator/internal/session/InternalMakeCredentialSession.kt:201-213 | the lifecycle takes the start step and the store is unchanged |
| MakeCredentialSessions.MakeCredentialSession.Stop | webauthnkit/src/main/kotlin/webauthnkit/core/authenticator/internal/session/InternalMakeCredentialSession.kt:229-241 | the lifecycle takes the stop step and the store is unchanged |
| MakeCredentialSessions.MakeCredentialSession.Cancel | webauthnkit/src/main/kotlin/webauthnkit/core/authenticator/internal/session/InternalMakeCredentialSession.kt:215-227 | the lifecycle takes the cancel step for the given UI state and the store is unchanged |
| MakeCredentialSessions.MakeCredentialSession.OnComplete | webauthnkit/src/main/kotlin/webauthnkit/core/authenticator/internal/session/InternalMakeCredentialSession.kt:243-246 | only `stopped` is set |
| MakeCredentialSessions.MakeCredentialSession.MakeCredential | webauthnkit/src/main/kotlin/webauthnkit/core/authenticator/internal/session/InternalMakeCredentialSession.kt:46-189 | the store ends as `MakeCredentialRun` leaves it; a failure stops the session with its reason, a success completes it and hands the attestation to the listener |
| GetAssertionSessions.LookupAll | webauthnkit/src/main/kotlin/webauthnkit/core/authenticator/internal/session/InternalGetAssertionSession.kt:214-216 | `mapNotNull` of the lookups gives stored sources whose ids are listed, at most one per descriptor |
| GetAssertionSessions.LookupAllComplete | webauthnkit/src/main/kotlin/webauthnkit/core/authenticator/internal/session/InternalGetAssertionSession.kt:214-216 | every listed id that is stored contributes its source |
| GetAssertionSessions.GatherContents | webauthnkit/src/main/kotlin/webauthnkit/core/authenticator/internal/session/InternalGetAssertionSession.kt:203-219 | with no allow list exactly the relying party's stored sources; otherwise exactly the stored sources of the listed ids |
| GetAssertionSessions.GatherIgnoresRelyingParty | webauthnkit/src/main/kotlin/webauthnkit/core/authenticator/internal/session/InternalGetAssertionSession.kt:214-216 | a listed id is gathered without checking its relying party, so another party's credential can be used |
| GetAssertionSessions.EarlyFailures | webauthnkit/src/main/kotlin/webauthnkit/core/authenticator/internal/session/InternalGetAssertionSession.kt:58-85 | no candidate gives NotAllowed and a failed selection its consent failure, both with the store unchanged |
| GetAssertionSessions.GetAssertionRun | webauthnkit/src/main/kotlin/webauthnkit/core/authenticator/internal/session/InternalGetAssertionSession.kt:47-150 | the store changes only after a credential is selected; a success carries the credential id exactly when the allow list does not have one entry, always the user handle, and signs the authenticator data followed by the hash |
| GetAssertionSessions.AssertionAuthDataEncodes | webauthnkit/src/main/kotlin/webauthnkit/core/authenticator/internal/session/InternalGetAssertionSession.kt:119-123 | authenticator data without attested data always encodes, so that failure branch cannot be taken |
| GetAssertionSessions.CounterBumpedAndSaved | webauthnkit/src/main/kotlin/webauthnkit/core/authenticator/internal/session/InternalGetAssertionSession.kt:88-98 | the selected source's counter is raised by the step (mod 2^32) and saved before anything is signed; a failed save gives Unknown and changes nothing; the bump stays when a later step fails |
| GetAssertionSessions.DiscoveredAssertion | webauthnkit/src/main/kotlin/webauthnkit/core/authenticator/internal/session/InternalGetAssertionSession.kt:100-148 | a discovered assertion bumps the counter by the step modulo 2^32, and signs the authenticator data as `toBytes()` writes it (counter bytes included) followed by the hash; carries the credential id exactly when the allow list does not have one entry, and always the user handle |
| GetAssertionSessions.GetAssertionSession.constructor | webauthnkit/src/main/kotlin/webauthnkit/core/authenticator/internal/session/InternalGetAssertionSession.kt:24-36 | a new session is neither started nor stopped and holds the given setting and store |
| GetAssertionSessions.GetAssertionSession.CanPerformUserVerification | webauthnkit/src/main/kotlin/webauthnkit/core/authenticator/internal/session/InternalGetAssertionSession.kt:152-155 | true exactly when the setting allows user verification |
| GetAssertionSessions.GetAssertionSession.Start | webauthnkit/src/main/kotlin/webauthnkit/core/authenticator/internal/session/InternalGetAssertionSession.kt:157-169 | the lifecycle takes the start step and the store is unchanged |
| GetAssertionSessions.GetAssertionSession.Stop | webauthnkit/src/main/kotlin/webauthnkit/core/authenticator/internal/session/InternalGetAssertionSession.kt:184-196 | the lifecycle takes the stop step and the store is unchanged |
| GetAssertionSessions.GetAssertionSession.Cancel | webauthnkit/src/main/kotlin/webauthnkit/core/authenticator/internal/session/InternalGetAssertionSession.kt:171-182 | the lifecycle takes the cancel step for the given UI state and the store is unchanged |
| GetAssertionSessions.GetAssertionSession.OnComplete | webauthnkit/src/main/kotlin/webauthnkit/core/authenticator/internal/session/InternalGetAssertionSession.kt:198-201 | only `stopped` is set |
| GetAssertionSessions.GetAssertionSession.GetAssertion | webauthnkit/src/main/kotlin/webauthnkit/core/authenticator/internal/session/InternalGetAssertionSession.kt:47-150 | the store ends as `GetAssertionRun` leaves it; a failure stops the session with its reason, a success completes it and hands the assertion to the listener |
| ClientOperations.JudgeUserVerification | webauthnkit/src/main/kotlin/webauthnkit/core/client/operation/CreateOperation.kt:298-310 | user verification is performed exactly when it is Required, or Preferred and the authenticator can do it |
| ClientOperations.TransportFilter | webauthnkit/src/main/kotlin/webauthnkit/core/client/operation/CreateOperation.kt:83-86 | a descriptor is kept exactly when its transports contain the session's transport; the result is no longer than the input |
| ClientOperations.TransportFilterAppend | webauthnkit/src/main/kotlin/webauthnkit/core/client/operation/CreateOperation.kt:83-86 | filtering keeps the original order: it distributes over concatenation |
| ClientOperations.TransportFilterKeepsMatching | webauthnkit/src/main/kotlin/webauthnkit/core/client/operation/CreateOperation.kt:83-86 | a list whose every descriptor carries the transport is kept unchanged |
| ClientOperations.CreateRefusal | webauthnkit/src/main/kotlin/webauthnkit/core/client/operation/CreateOperation.kt:53-77 | refusal happens exactly when an authenticator selection is given and its attachment differs, or a resident key is required but cannot be stored, or verification is required but impossible; the reason is always Unsupported |
| ClientOperations.CreateRequestContents | webauthnkit/src/main/kotlin/webauthnkit/core/client/operation/CreateOperation.kt:79-105 | the session is asked for exactly one of user presence and user verification, the latter under the rule above; only excluded credentials reachable over the session's transport are passed; the relying party carries the chosen rpId and the options' name; user, algorithms and hash are passed through |
| ClientOperations.ZeroedAaguid | webauthnkit/src/main/kotlin/webauthnkit/core/client/operation/CreateOperation.kt:138-141 | the bytes at positions 37 to 52 are zero and every other byte is kept |
| ClientOperations.ZeroAaguid | webauthnkit/src/main/kotlin/webauthnkit/core/client/operation/CreateOperation.kt:138-141 | the loop throws exactly when the array is shorter than 53 bytes; otherwise the array becomes the zeroed-AAGUID form of its old contents; on a throw, positions from 37 to the end are already zero |
| ClientOperations.OperationStartRules | webauthnkit/src/main/kotlin/webauthnkit/core/client/operation/CreateOperation.kt:187-214 | a stopped or already started operation is refused with BadOperation and reports its end; otherwise the caller is held, the timer armed and the session started; a second start after a successful one is always refused |
| ClientOperations.OperationCancelRules | webauthnkit/src/main/kotlin/webauthnkit/core/client/operation/CreateOperation.kt:216-265 | cancel before start does nothing; for the internal transport it cancels the session with Timeout or else Cancelled and leaves the caller waiting; for any other transport it stops the operation: session cancelled, end reported, and the caller rejected with the reason, or, when the held continuation was already resumed, that resume throws |
| ClientOperations.CreateAvailableRules | webauthnkit/src/main/kotlin/webauthnkit/core/client/operation/CreateOperation.kt:45-106 | when a guard fails, the operation stops with Unsupported (session cancelled, end reported, caller rejected, or the resume throws when the caller was already resumed); otherwise exactly the described makeCredential request is made and nothing else |
| ClientOperations.RefusedCreateResumesTwice | webauthnkit/src/main/kotlin/webauthnkit/core/client/operation/CreateOperation.kt:55-60 | as written: a refusal rejects a held caller with Unsupported and keeps the continuation; the stop that the cancelled session reports back through `onOperationStopped` cancels and reports the end again, and its resume throws |
| ClientOperations.StopIntendedOnce | webauthnkit/src/main/kotlin/webauthnkit/core/client/operation/CreateOperation.kt:239-270 | corrected: with the continuation released after the error, a stop rejects a held caller exactly once; a second stop with any reason changes nothing and a later answer only reports the end, so no resume throws |
| ClientOperations.CreatedCredentialRules | webauthnkit/src/main/kotlin/webauthnkit/core/client/operation/CreateOperation.kt:108-171 | without attested data or without bytes the caller is rejected with Unknown (a resume that throws when it was already resumed); otherwise the end is reported and the held caller is answered once with the attested credential id, its Base64URL form and the attestation object as built (as written the none conveyance never applies), and no caller is held afterwards; a caller already resumed with an error makes that answer throw, and stays held |
| ClientOperations.AttestationFor | webauthnkit/src/main/kotlin/webauthnkit/core/client/operation/CreateOperation.kt:111-153 | given the self-attestation answer: no attested data exactly when the object has none; the zeroing of positions 37..52 of the encoding can run out of range only for a self attestation under none conveyance; an encoded outcome carries the attested credential id |
| ClientOperations.CreatedAttestation | webauthnkit/src/main/kotlin/webauthnkit/core/client/operation/CreateOperation.kt:108-153 | as written: never out of range; no attested data exactly when there is none; not encoded exactly when the object fails to encode; otherwise the bytes are the object as built and the id is the attested credential id |
| ClientOperations.IntendedNoneConveyance | webauthnkit/src/main/kotlin/webauthnkit/core/client/operation/CreateOperation.kt:111-153 | with the corrected self-attestation test, a self attestation under none conveyance is answered with the encoded none form with positions 37..52 of the encoded attestation object zeroed, as the loop does; any other conveyance gets the object as built |
| ClientOperations.ZeroingMissesAaguid | webauthnkit/src/main/kotlin/webauthnkit/core/client/operation/CreateOperation.kt:138-141 | as written: when the encoding opens with the 12-byte prefix of the "authData" entry, positions 37..52 are authenticator data bytes 25..40; the flags byte is cleared and AAGUID bytes 4..15 are kept |
| ClientOperations.NoneFormZeroAaguid | webauthnkit/src/main/kotlin/webauthnkit/core/client/operation/CreateOperation.kt:124-141 | corrected: zeroing the AAGUID field before encoding changes exactly the AAGUID's bytes of the authenticator data, encodes whenever the original does, and the none form is the map over those bytes; a self attestation by the corrected test is unchanged by it |
| ClientOperations.ZeroAaguidBytes | webauthnkit/src/main/kotlin/webauthnkit/core/client/operation/CreateOperation.kt:124-141 | the authenticator data with a zeroed AAGUID encodes exactly when the original does, and differs from it only at the AAGUID's positions, which are zero |
| ClientOperations.AuthDataParts | webauthnkit/src/main/kotlin/webauthnkit/core/authenticator/AuthenticatorData.kt:218-250 | encoded authenticator data with attested data is rpIdHash, flags, counter, the AAGUID, then the rest of the attested data |
| ClientOperations.CreateNeverStops | webauthnkit/src/main/kotlin/webauthnkit/core/client/operation/CreateOperation.kt:41 | no step of the operation ever sets `stopped` |
| ClientOperations.CreateOperation.constructor | webauthnkit/src/main/kotlin/webauthnkit/core/client/operation/CreateOperation.kt:24-41 | the operation keeps its options, rpId, client data, hash, timeout, id and session, and starts not stopped and not started |
| ClientOperations.CreateOperation.Start | webauthnkit/src/main/kotlin/webauthnkit/core/client/operation/CreateOperation.kt:187-214 | the new state is the start rule applied to the old one |
| ClientOperations.CreateOperation.Cancel | webauthnkit/src/main/kotlin/webauthnkit/core/client/operation/CreateOperation.kt:216-237 | the new state is the cancel rule for the session's transport |
| ClientOperations.CreateOperation.Stop | webauthnkit/src/main/kotlin/webauthnkit/core/client/operation/CreateOperation.kt:239-243 | the new state is stopInternal followed by dispatchError |
| ClientOperations.CreateOperation.StopInternal | webauthnkit/src/main/kotlin/webauthnkit/core/client/operation/CreateOperation.kt:251-265 | nothing changes before start or once stopped; otherwise the timer is cleared, the session cancelled and the end reported |
| ClientOperations.CreateOperation.DispatchError | webauthnkit/src/main/kotlin/webauthnkit/core/client/operation/CreateOperation.kt:267-270 | a held caller not yet resumed is rejected with the reason and marked resumed, but still held; a second dispatch to it throws `Already resumed`; without a caller nothing changes |
| ClientOperations.CreateOperation.OnTimeout | webauthnkit/src/main/kotlin/webauthnkit/core/client/operation/CreateOperation.kt:272-296 | the timer is cleared and the operation cancelled with Timeout |
| ClientOperations.CreateOperation.OnAvailable | webauthnkit/src/main/kotlin/webauthnkit/core/client/operation/CreateOperation.kt:45-106 | the new state is the onAvailable rule for the session's capabilities |
| ClientOperations.CreateOperation.OnOperationStopped | webauthnkit/src/main/kotlin/webauthnkit/core/client/operation/CreateOperation.kt:173-176 | the operation stops with the session's reason, so after a refusal that already rejected the caller the second resume throws |
| ClientOperations.CreateOperation.OnUnavailable | webauthnkit/src/main/kotlin/webauthnkit/core/client/operation/CreateOperation.kt:178-181 | the operation stops with NotAllowed |
| ClientOperations.CreateOperation.EncodeAttestation | webauthnkit/src/main/kotlin/webauthnkit/core/client/operation/CreateOperation.kt:111-153 | given the self-attestation answer, the outcome of encoding, including the zeroing in a fresh array, equals the attestation outcome function |
| ClientOperations.CreateOperation.OnCredentialCreated | webauthnkit/src/main/kotlin/webauthnkit/core/client/operation/CreateOperation.kt:108-171 | the new state is the credential-created rule for the outcome as written (the object as built, never the none form) |
| ClientOperations.ChooseCredentialId | webauthnkit/src/main/kotlin/webauthnkit/core/client/operation/GetOperation.kt:103-113 | the corrected choice never dereferences null: the saved id when there is one, else the session's id, and Unknown only when neither exists |
| ClientOperations.ChooseCredentialIdAsWritten | webauthnkit/src/main/kotlin/webauthnkit/core/client/operation/GetOperation.kt:103-113 | as written: a null saved id is dereferenced exactly when there is none; a chosen id is the assertion's; Unknown exactly when an id was saved and the assertion carries none |
| ClientOperations.InvertedIdChoice | webauthnkit/src/main/kotlin/webauthnkit/core/client/operation/GetOperation.kt:84-113 | against a session that returns the id exactly when the allow list does not have one entry, the choice as written never produces an id (one entry gives Unknown, any other count a null dereference), while the corrected choice always does |
| ClientOperations.InternalSessionAssertionsLost | webauthnkit/src/main/kotlin/webauthnkit/core/client/operation/GetOperation.kt:99-133 | every assertion the internal session completes is lost by the choice as written and answered with an id by the corrected choice |
| ClientOperations.GetStartRules | webauthnkit/src/main/kotlin/webauthnkit/core/client/operation/GetOperation.kt:147-165 | only a stopped operation refuses start, and it reports no end; a second start starts the session again |
| ClientOperations.GetAvailableRules | webauthnkit/src/main/kotlin/webauthnkit/core/client/operation/GetOperation.kt:43-97 | Unsupported exactly when verification is required and impossible; NotAllowed exactly when, otherwise, the allow list is non-empty and no entry reaches the session's transport; otherwise one getAssertion request with presence iff not verifying, the empty list as given or the filtered one, and the saved id set exactly when one descriptor is forwarded |
| ClientOperations.GetIgnoresSessionStop | webauthnkit/src/main/kotlin/webauthnkit/core/client/operation/GetOperation.kt:135-137 | a session that stops does not answer the caller; only the timer rejects it, with Timeout (or its resume throws when the caller was already resumed) |
| ClientOperations.GetNeverStops | webauthnkit/src/main/kotlin/webauthnkit/core/client/operation/GetOperation.kt:38 | no step of the operation ever sets `stopped` |
| ClientOperations.GetOperation.constructor | webauthnkit/src/main/kotlin/webauthnkit/core/client/operation/GetOperation.kt:24-39 | the operation keeps its inputs and starts not stopped, not started and with no saved id |
| ClientOperations.GetOperation.Start | webauthnkit/src/main/kotlin/webauthnkit/core/client/operation/GetOperation.kt:147-165 | the new state is the Get start rule applied to the old one |
| ClientOperations.GetOperation.Cancel | webauthnkit/src/main/kotlin/webauthnkit/core/client/operation/GetOperation.kt:167-169 | nothing changes |
| ClientOperations.GetOperation.Stop | webauthnkit/src/main/kotlin/webauthnkit/core/client/operation/GetOperation.kt:171-203 | the session is cancelled (after start, unless stopped) and a held caller is rejected, or the resume throws when it was already resumed; no end is reported |
| ClientOperations.GetOperation.OnTimeout | webauthnkit/src/main/kotlin/webauthnkit/core/client/operation/GetOperation.kt:205-228 | the timer is cleared and the operation stops with Timeout |
| ClientOperations.GetOperation.OnAvailable | webauthnkit/src/main/kotlin/webauthnkit/core/client/operation/GetOperation.kt:43-97 | the new state is the Get onAvailable rule |
| ClientOperations.GetOperation.OnOperationStopped | webauthnkit/src/main/kotlin/webauthnkit/core/client/operation/GetOperation.kt:135-137 | nothing changes |
| ClientOperations.GetOperation.OnUnavailable | webauthnkit/src/main/kotlin/webauthnkit/core/client/operation/GetOperation.kt:139-142 | the operation stops with NotAllowed |
| ClientOperations.GetOperation.OnCredentialDiscovered | webauthnkit/src/main/kotlin/webauthnkit/core/client/operation/GetOperation.kt:99-133 | the callback escapes exactly when no id was saved; the new state is the discovered-credential rule with the id choice as written |
| WebAuthnClients.LifetimeTimerBounds | webauthnkit/src/main/kotlin/webauthnkit/core/client/WebAuthnClient.kt:125-134 | no timeout gives the default; with ordered bounds a requested timeout ends within them, is kept exactly when it already was, and a second adjustment changes nothing; with crossed bounds a timeout below the minimum gets the minimum |
| WebAuthnClients.DefaultLifetimes | webauthnkit/src/main/kotlin/webauthnkit/core/client/WebAuthnClient.kt:47-49 | with the initial settings every lifetime lies between 15 and 120 seconds, and is 60 when none is requested |
| WebAuthnClients.PickRelyingPartyId | webauthnkit/src/main/kotlin/webauthnkit/core/client/WebAuthnClient.kt:136-139 | the given relying party id, or the client's origin when none is given |
| WebAuthnClients.ClientDataSeparatesCeremonies | webauthnkit/src/main/kotlin/webauthnkit/core/client/WebAuthnClient.kt:141-158 | the client data of a create never equals that of a get (types webauthn.create and webauthn.get); both carry the origin and the Base64URL challenge, and the hash is the SHA-256 of the JSON handed out |
| WebAuthnClients.WebAuthnClient.constructor | webauthnkit/src/main/kotlin/webauthnkit/core/client/WebAuthnClient.kt:21-52 | the client keeps its origin and sessions, starts with timeouts 60, 15 and 120 and with both registries empty |
| WebAuthnClients.WebAuthnClient.Get | webauthnkit/src/main/kotlin/webauthnkit/core/client/WebAuthnClient.kt:54-84 | a fresh get operation is registered under its id, the create registry and the timeouts are untouched; the operation carries the options, the picked rpId, the adjusted lifetime and the get client data, and has been started |
| WebAuthnClients.WebAuthnClient.Create | webauthnkit/src/main/kotlin/webauthnkit/core/client/WebAuthnClient.kt:86-117 | a fresh create operation is registered under its id, the get registry and the timeouts are untouched; the operation carries the options, the picked rpId, the adjusted lifetime and the create client data, and has been started |
| WebAuthnClients.WebAuthnClient.Cancel | webauthnkit/src/main/kotlin/webauthnkit/core/client/WebAuthnClient.kt:119-123 | every registered create operation is cancelled with the default reason Timeout; every get operation is left as it was |
| WebAuthnClients.WebAuthnClient.OnFinish | webauthnkit/src/main/kotlin/webauthnkit/core/client/WebAuthnClient.kt:166-180 | only the given id leaves the registry of the given type; the other registry and the timeouts are untouched; each registered operation stays under its own id |
| WebAuthnClients.CreateThenFinish | webauthnkit/src/main/kotlin/webauthnkit/core/client/WebAuthnClient.kt:86-91 | a create with a new id followed by its end leaves both registries as they were |
| BleOperations.BleCreateAvailableRules | webauthnkit/src/main/kotlin/webauthnkit/core/ctap/ble/operation/CreateOperation.kt:46-82 | refusal with Unsupported happens exactly when a resident key is required but cannot be stored, or verification is required but impossible; otherwise the session gets the parsed options with presence exactly when not verifying and an empty exclude list |
| BleOperations.BuiltAnswerRules | webauthnkit/src/main/kotlin/webauthnkit/core/ctap/ble/operation/CreateOperation.kt:87-98 | a builder error stops the operation with that error (session cancelled, end reported, caller rejected); built bytes clear the timer, report the end and answer the held caller once with those bytes and release it, and a repeat answers nobody; a caller already resumed with an error makes the answer throw and stays held, so a repeat throws again; an error escaping the builder changes nothing |
| BleOperations.BleCreateAnswersWithResponse | webauthnkit/src/main/kotlin/webauthnkit/core/ctap/ble/operation/CreateOperation.kt:84-100 | with the corrected builder, a started operation whose credential has encodable authenticator data and a readable statement answers its caller (unless it was already resumed, when the resume throws) with a three-entry map (first byte 0xa3) that reads back as the attStmt, fmt and authData entries; as written it never answers with bytes and either does nothing or stops with Unknown |
| BleOperations.BleCreateCreated | webauthnkit/src/main/kotlin/webauthnkit/core/ctap/ble/operation/CreateOperation.kt:84-100 | as written the created credential either changes nothing or stops the operation with Unknown; the caller is never answered |
| BleOperations.BleGetDiscovered | webauthnkit/src/main/kotlin/webauthnkit/core/ctap/ble/operation/GetOperation.kt:71-94 | as written the discovered assertion either changes nothing or stops the operation with Unknown; the caller is never answered |
| BleOperations.BleGetAvailableRules | webauthnkit/src/main/kotlin/webauthnkit/core/ctap/ble/operation/GetOperation.kt:47-69 | Unsupported exactly when verification is required but impossible; otherwise rpId, hash, allow list, presence and verification are forwarded unchanged |
| BleOperations.BleGetAnswers | webauthnkit/src/main/kotlin/webauthnkit/core/ctap/ble/operation/GetOperation.kt:71-94 | with the corrected builder, for an assertion with a user handle, and a credential id unless the allow list has one entry, the caller (unless already resumed, when the resume throws) gets a map that reads back, holds numberOfCredentials 1 and the user handle, and holds the credential exactly when the allow list does not have one entry; as written the same assertion changes nothing |
| BleOperations.BleGetNeverAnswers | webauthnkit/src/main/kotlin/webauthnkit/core/ctap/ble/operation/GetOperation.kt:71-94 | as written, an assertion the builder accepts changes nothing (the builder escapes) and any other stops the operation with Unknown |
| BleOperations.BleGetDiscoveredBuilt | webauthnkit/src/main/kotlin/webauthnkit/core/ctap/ble/operation/GetOperation.kt:78-92 | built response bytes report the end and answer the held caller with exactly those bytes, or throw when it was already resumed |
| BleOperations.BleGetAnswersInternalSession | webauthnkit/src/main/kotlin/webauthnkit/core/ctap/ble/operation/GetOperation.kt:61-94 | with the corrected builder every assertion the internal session discovers for the forwarded request reaches the BLE client (unless the caller was already resumed) as a readable map that holds the credential exactly when the allow list does not have one entry; as written it changes nothing |
| BleOperations.RefusedBleResumesTwice | webauthnkit/src/main/kotlin/webauthnkit/core/ctap/ble/operation/GetOperation.kt:55-58 | as written, in both BLE operations: a refusal with Unsupported rejects a held caller, and the stop the cancelled session reports back through `onOperationStopped` resumes the caller again, which throws |
| BleOperations.BleNeverStops | webauthnkit/src/main/kotlin/webauthnkit/core/ctap/ble/operation/CreateOperation.kt:42 | no step of either BLE operation ever sets `stopped` |
| BleOperations.BleCreateOperation.constructor | webauthnkit/src/main/kotlin/webauthnkit/core/ctap/ble/operation/CreateOperation.kt:29-42 | the operation keeps its options, session, timeout and id, and starts not stopped and not started |
| BleOperations.BleCreateOperation.Start | webauthnkit/src/main/kotlin/webauthnkit/core/ctap/ble/operation/CreateOperation.kt:116-143 | the new state is the shared start rule: refused once stopped or started, otherwise caller held, timer armed, session started |
| BleOperations.BleCreateOperation.Cancel | webauthnkit/src/main/kotlin/webauthnkit/core/ctap/ble/operation/CreateOperation.kt:145-166 | the new state is the shared cancel rule for the session's transport |
| BleOperations.BleCreateOperation.Stop | webauthnkit/src/main/kotlin/webauthnkit/core/ctap/ble/operation/CreateOperation.kt:168-199 | the new state is stopInternal followed by dispatchError |
| BleOperations.BleCreateOperation.OnTimeout | webauthnkit/src/main/kotlin/webauthnkit/core/ctap/ble/operation/CreateOperation.kt:201-225 | the timer is cleared and the operation cancelled with Timeout |
| BleOperations.BleCreateOperation.OnAvailable | webauthnkit/src/main/kotlin/webauthnkit/core/ctap/ble/operation/CreateOperation.kt:46-82 | the new state is the BLE create onAvailable rule |
| BleOperations.BleCreateOperation.OnCredentialCreated | webauthnkit/src/main/kotlin/webauthnkit/core/ctap/ble/operation/CreateOperation.kt:84-100 | the callback escapes exactly when the builder as written escapes; the new state is the built-answer rule for that builder |
| BleOperations.BleCreateOperation.Answer | webauthnkit/src/main/kotlin/webauthnkit/core/ctap/ble/operation/CreateOperation.kt:90-98 | the new state is the built-answer rule: a failed build stops with its reason; built bytes clear the timer, report the end and answer a held caller, or throw when it was already resumed |
| BleOperations.BleCreateOperation.OnOperationStopped | webauthnkit/src/main/kotlin/webauthnkit/core/ctap/ble/operation/CreateOperation.kt:102-105 | the operation stops with the session's reason, so after a refusal that already rejected the caller the second resume throws |
| BleOperations.BleCreateOperation.OnUnavailable | webauthnkit/src/main/kotlin/webauthnkit/core/ctap/ble/operation/CreateOperation.kt:107-110 | the operation stops with NotAllowed |
| BleOperations.BleGetOperation.constructor | webauthnkit/src/main/kotlin/webauthnkit/core/ctap/ble/operation/GetOperation.kt:28-43 | the operation keeps its inputs, records the allow list's size, and starts not stopped and not started |
| BleOperations.BleGetOperation.Start | webauthnkit/src/main/kotlin/webauthnkit/core/ctap/ble/operation/GetOperation.kt:109-136 | the new state is the shared start rule |
| BleOperations.BleGetOperation.Cancel | webauthnkit/src/main/kotlin/webauthnkit/core/ctap/ble/operation/GetOperation.kt:138-159 | the new state is the shared cancel rule for the session's transport |
| BleOperations.BleGetOperation.Stop | webauthnkit/src/main/kotlin/webauthnkit/core/ctap/ble/operation/GetOperation.kt:161-192 | the new state is stopInternal followed by dispatchError |
| BleOperations.BleGetOperation.OnTimeout | webauthnkit/src/main/kotlin/webauthnkit/core/ctap/ble/operation/GetOperation.kt:194-218 | the timer is cleared and the operation cancelled with Timeout |
| BleOperations.BleGetOperation.OnAvailable | webauthnkit/src/main/kotlin/webauthnkit/core/ctap/ble/operation/GetOperation.kt:47-69 | the new state is the BLE get onAvailable rule |
| BleOperations.BleGetOperation.OnCredentialDiscovered | webauthnkit/src/main/kotlin/webauthnkit/core/ctap/ble/operation/GetOperation.kt:71-94 | the callback escapes exactly when the builder as written escapes; the new state is the built-answer rule for that builder with the recorded allow-list size |
| BleOperations.BleGetOperation.Answer | webauthnkit/src/main/kotlin/webauthnkit/core/ctap/ble/operation/GetOperation.kt:84-93 | the new state is the built-answer rule: a failed build stops with its reason; built bytes clear the timer, report the end and answer a held caller, or throw when it was already resumed |
| BleOperations.BleGetOperation.OnOperationStopped | webauthnkit/src/main/kotlin/webauthnkit/core/ctap/ble/operation/GetOperation.kt:96-99 | the operation stops with the session's reason, so after a refusal that already rejected the caller the second resume throws |
| BleOperations.BleGetOperation.OnUnavailable | webauthnkit/src/main/kotlin/webauthnkit/core/ctap/ble/operation/GetOperation.kt:101-104 | the operation stops with NotAllowed |
| BleOperations.BleFidoOperationManager.constructor | webauthnkit/src/main/kotlin/webauthnkit/core/ctap/ble/BleFidoOperationManager.kt:16-25 | the manager keeps its sessions and starts with both registries empty |
| BleOperations.BleFidoOperationManager.HasActiveOperation | webauthnkit/src/main/kotlin/webauthnkit/core/ctap/ble/BleFidoOperationManager.kt:27-29 | true exactly when some operation of either kind is registered |
| BleOperations.BleFidoOperationManager.Get | webauthnkit/src/main/kotlin/webauthnkit/core/ctap/ble/BleFidoOperationManager.kt:31-47 | a fresh get operation with the options, session and timeout is registered under its id and started; the create registry is untouched; an operation is then active |
| BleOperations.BleFidoOperationManager.Create | webauthnkit/src/main/kotlin/webauthnkit/core/ctap/ble/BleFidoOperationManager.kt:49-65 | a fresh create operation with the options, session and timeout is registered under its id and started; the get registry is untouched; an operation is then active |
| BleOperations.BleFidoOperationManager.Cancel | webauthnkit/src/main/kotlin/webauthnkit/core/ctap/ble/BleFidoOperationManager.kt:68-72 | every registered operation of either kind is cancelled with the default reason Timeout |
| BleOperations.BleFidoOperationManager.CancelGets | webauthnkit/src/main/kotlin/webauthnkit/core/ctap/ble/BleFidoOperationManager.kt:70 | every registered get operation is cancelled with Timeout |
| BleOperations.BleFidoOperationManager.CancelCreates | webauthnkit/src/main/kotlin/webauthnkit/core/ctap/ble/BleFidoOperationManager.kt:71 | every registered create operation is cancelled with Timeout |
| BleOperations.BleFidoOperationManager.OnFinish | webauthnkit/src/main/kotlin/webauthnkit/core/ctap/ble/BleFidoOperationManager.kt:74-88 | only the given id leaves the registry of the given type; the other registry is untouched |
| BleServices.ClampMtu | webauthnkit/src/main/kotlin/webauthnkit/core/ctap/ble/BleFidoService.kt:116-122 | the new packet size is at most 400 and at most the MTU, and is one of the two |
| BleServices.SliceArray | webauthnkit/src/main/kotlin/webauthnkit/core/ctap/ble/BleFidoService.kt:189 | an inclusive slice has last - first + 1 bytes, equal to that part of the array; it throws exactly when the range is non-empty and leaves the array |
| BleServices.WholeRangeSliceThrows | webauthnkit/src/main/kotlin/webauthnkit/core/ctap/ble/BleFidoService.kt:189 | the inclusive range from 0 to the array's size always throws |
| BleServices.MsgActionAsWritten | webauthnkit/src/main/kotlin/webauthnkit/core/ctap/ble/BleFidoService.kt:165-221 | as written no MakeCredential or GetAssertion request ever starts; the dispatch throws exactly for MakeCredential, GetAssertion and ClientPIN messages of at least two bytes |
| BleServices.MsgAction | webauthnkit/src/main/kotlin/webauthnkit/core/ctap/ble/BleFidoService.kt:165-221 | with the parameters taken after the command byte: an empty message is InvalidLen, an unknown command InvalidCmd; MakeCredential and GetAssertion start exactly when the message has at least two bytes, with the bytes after the command byte; GetInfo sends the info, Reset does nothing, ClientPIN and GetNextAssertion are InvalidCmd, and nothing throws |
| BleServices.CommandAction | webauthnkit/src/main/kotlin/webauthnkit/core/ctap/ble/BleFidoService.kt:144-163 | exactly Cancel cancels the operations; KeepAlive and Error close with InvalidCmd; Ping is ignored; MSG goes to the dispatch as written, so no request starts and it throws exactly for a MakeCredential, GetAssertion or ClientPIN message of at least two bytes |
| BleServices.CommandActionFixed | webauthnkit/src/main/kotlin/webauthnkit/core/ctap/ble/BleFidoService.kt:144-163 | the corrected handler agrees with the as-written one on every command but MSG, dispatches MSG with the corrected dispatch, and never throws; exactly Cancel cancels |
| BleServices.Admit | webauthnkit/src/main/kotlin/webauthnkit/core/ctap/ble/BleFidoService.kt:232-256 | a busy manager always denies with Other; an idle one passes a parse error on; a valid request is admitted, with the parsed options, exactly when no session is going on, and ignored otherwise |
| BleServices.AdmittedGetAllowsNothing | webauthnkit/src/main/kotlin/webauthnkit/core/ctap/ble/BleFidoService.kt:276-316 | an accepted GetAssertion request carries an empty allow list |
| BleServices.ErrorPayload | webauthnkit/src/main/kotlin/webauthnkit/core/ctap/ble/BleFidoService.kt:399-405 | the two error bytes are 0 and the code, so they read back as the code |
| BleServices.ActionStep | webauthnkit/src/main/kotlin/webauthnkit/core/ctap/ble/BleFidoService.kt:165-316 | a request starts only from its start action, with an idle manager and no session going on, when its parameters parse; the service is then in session and nothing escapes; an escaping action changes nothing |
| BleServices.ControlPointLengthReadsBack | webauthnkit/src/main/kotlin/webauthnkit/core/ctap/ble/BleFidoService.kt:502-514 | a packet size from 0 to 0xffff goes out as two bytes that read back as that size |
| BleServices.RevisionAcceptedRules | webauthnkit/src/main/kotlin/webauthnkit/core/ctap/ble/BleFidoService.kt:528 | the only value accepted is the single FIDO2 byte 0x20 |
| BleServices.InfoEncodes | webauthnkit/src/main/kotlin/webauthnkit/core/ctap/ble/BleFidoService.kt:318-343 | the GetInfo map encodes without fault as a three-entry map whose options are a four-entry map |
| BleServices.NotifyAppend | webauthnkit/src/main/kotlin/webauthnkit/core/ctap/ble/BleFidoService.kt:367-376 | notifying in two rounds is the same as notifying once with both packet lists |
| BleServices.LockIsSticky | webauthnkit/src/main/kotlin/webauthnkit/core/ctap/ble/BleFidoService.kt:92-103 | the first device to connect locks the service and keeps it; only its connection reaches the listener |
| BleServices.OtherDevicesIgnored | webauthnkit/src/main/kotlin/webauthnkit/core/ctap/ble/BleFidoService.kt:92-122 | while locked, connections, disconnections and MTU changes of any other device change nothing |
| BleServices.UnlockedIgnoresDisconnect | webauthnkit/src/main/kotlin/webauthnkit/core/ctap/ble/BleFidoService.kt:105-122 | before any connection, disconnections and MTU changes change nothing |
| BleServices.MtuRules | webauthnkit/src/main/kotlin/webauthnkit/core/ctap/ble/BleFidoService.kt:116-122 | an MTU change of the locked device sets the packet size to the smaller of the MTU and 400 and changes nothing else |
| BleServices.CloseIdempotent | webauthnkit/src/main/kotlin/webauthnkit/core/ctap/ble/BleFidoService.kt:426-446 | close marks the service closed, drops the peripheral and the listener, reports onClosed once when a listener is set, keeps every other field; a second close changes nothing |
| BleServices.NothingSentOnceClosed | webauthnkit/src/main/kotlin/webauthnkit/core/ctap/ble/BleFidoService.kt:367-376 | after close, notifications and responses send nothing |
| BleServices.DisconnectCloses | webauthnkit/src/main/kotlin/webauthnkit/core/ctap/ble/BleFidoService.kt:105-114 | the locked device disconnecting tells the listener and then closes the service |
| BleServices.RespondReassembles | webauthnkit/src/main/kotlin/webauthnkit/core/ctap/ble/BleFidoService.kt:347-365 | with packets of at least 3 bytes, a message under 256 bytes is sent as packets a cleared frame buffer reassembles into the same command and message |
| BleServices.ErrorCloseRules | webauthnkit/src/main/kotlin/webauthnkit/core/ctap/ble/BleFidoService.kt:399-424 | with packets of at least 3 bytes, Error frames carrying the code as two bytes are sent, reassemble to that code, and the service closes; with smaller packets the split throws and nothing changes |
| BleServices.RequestRules | webauthnkit/src/main/kotlin/webauthnkit/core/ctap/ble/BleFidoService.kt:232-316 | a request while an operation is active closes the service with Other; a parse error closes it with that error; a valid request with the manager idle marks the session and starts an operation with the parsed options, unless a session is going on, when nothing happens; a parse that throws escapes |
| BleServices.FinishRules | webauthnkit/src/main/kotlin/webauthnkit/core/ctap/ble/BleFidoService.kt:258-273 | with packets of at least 3 bytes, however the operation ends the session is over and nothing escapes: response bytes are sent, and a throw closes the service with Other |
| BleServices.BleFidoService.constructor | webauthnkit/src/main/kotlin/webauthnkit/core/ctap/ble/BleFidoService.kt:41-53 | the service starts unlocked, with packet size 20, no session, not closed, no peripheral, empty logs, an idle manager and a cleared frame buffer |
| BleServices.BleFidoService.IsLockedBy | webauthnkit/src/main/kotlin/webauthnkit/core/ctap/ble/BleFidoService.kt:125-127 | true exactly when the service is locked by that address |
| BleServices.BleFidoService.Start | webauthnkit/src/main/kotlin/webauthnkit/core/ctap/ble/BleFidoService.kt:129-138 | the result is whether the peripheral started, and the peripheral is kept exactly then; nothing else changes |
| BleServices.BleFidoService.Stop | webauthnkit/src/main/kotlin/webauthnkit/core/ctap/ble/BleFidoService.kt:140-142 | the new state is the closed state |
| BleServices.BleFidoService.OnAdvertiseFailure | webauthnkit/src/main/kotlin/webauthnkit/core/ctap/ble/BleFidoService.kt:87-90 | the new state is the closed state |
| BleServices.BleFidoService.OnConnected | webauthnkit/src/main/kotlin/webauthnkit/core/ctap/ble/BleFidoService.kt:92-103 | the new state is the connect rule: the first device locks the service |
| BleServices.BleFidoService.OnDisconnected | webauthnkit/src/main/kotlin/webauthnkit/core/ctap/ble/BleFidoService.kt:105-114 | the new state is the disconnect rule: the locked device leaving closes the service |
| BleServices.BleFidoService.OnMtuChanged | webauthnkit/src/main/kotlin/webauthnkit/core/ctap/ble/BleFidoService.kt:116-122 | the new state is the MTU rule, and the packet size stays at most 400 |
| BleServices.BleFidoService.Close | webauthnkit/src/main/kotlin/webauthnkit/core/ctap/ble/BleFidoService.kt:426-446 | the new state is the idempotent close of the old one |
| BleServices.BleFidoService.SendNotification | webauthnkit/src/main/kotlin/webauthnkit/core/ctap/ble/BleFidoService.kt:367-376 | the packet is appended to the notifications when a peripheral is set, and nothing changes otherwise |
| BleServices.BleFidoService.SendFragments | webauthnkit/src/main/kotlin/webauthnkit/core/ctap/ble/BleFidoService.kt:354-363 | the first frame and then every continuation frame, in order, are notified |
| BleServices.BleFidoService.HandleResponse | webauthnkit/src/main/kotlin/webauthnkit/core/ctap/ble/BleFidoService.kt:347-365 | the split frames are notified, or the split throws and nothing changes |
| BleServices.BleFidoService.CloseByBLEError | webauthnkit/src/main/kotlin/webauthnkit/core/ctap/ble/BleFidoService.kt:399-424 | the error frames are notified and the service closes, or the split throws and nothing changes |
| BleServices.BleFidoService.HandleMakeCredential | webauthnkit/src/main/kotlin/webauthnkit/core/ctap/ble/BleFidoService.kt:232-274 | the new state is the request rule for the parsed MakeCredential options; an operation starts only when the rule admits the request, and then it is registered under its id with those options and the 60000 timeout and has been started; the get registry is untouched |
| BleServices.BleFidoService.HandleGetAssertion | webauthnkit/src/main/kotlin/webauthnkit/core/ctap/ble/BleFidoService.kt:276-316 | the new state is the request rule for the parsed GetAssertion options; an admitted request registers and starts a get operation with those options; the create registry is untouched |
| BleServices.BleFidoService.HandleGetInfo | webauthnkit/src/main/kotlin/webauthnkit/core/ctap/ble/BleFidoService.kt:318-343 | the encoded GetInfo map is sent as MSG frames |
| BleServices.BleFidoService.HandleCancel | webauthnkit/src/main/kotlin/webauthnkit/core/ctap/ble/BleFidoService.kt:154-157 | every registered operation is cancelled with Timeout |
| BleServices.BleFidoService.HandleMsg | webauthnkit/src/main/kotlin/webauthnkit/core/ctap/ble/BleFidoService.kt:165-221 | the new state is the action step of the MSG dispatch as written: no request starts, and a MakeCredential, GetAssertion or ClientPIN message of at least two bytes throws |
| BleServices.BleFidoService.HandleCommand | webauthnkit/src/main/kotlin/webauthnkit/core/ctap/ble/BleFidoService.kt:144-163 | the new state is the command step as written; only Cancel touches the registered operations |
| BleServices.BleFidoService.OnRequestFinished | webauthnkit/src/main/kotlin/webauthnkit/core/ctap/ble/BleFidoService.kt:258-273 | the new state is the finish rule for the operation's result |
| BleServices.BleFidoService.ControlPointWrite | webauthnkit/src/main/kotlin/webauthnkit/core/ctap/ble/BleFidoService.kt:457-488 | a write from any device but the locked one fails and changes nothing; otherwise it succeeds, a refused fragment clears the buffer and closes with the error, an incomplete message waits in the buffer, and a complete one is handled by the command step as written and the buffer cleared unless handling it throws; fragments are decoded by `putFragment` as written |
| BleServices.BleFidoService.StatusRead | webauthnkit/src/main/kotlin/webauthnkit/core/ctap/ble/BleFidoService.kt:493-498 | a status read always fails |
| BleServices.BleFidoService.ControlPointLengthRead | webauthnkit/src/main/kotlin/webauthnkit/core/ctap/ble/BleFidoService.kt:502-514 | only the locked device gets a value, and a size from 0 to 0xffff reads back from its two bytes |
| BleServices.BleFidoService.RevisionWrite | webauthnkit/src/main/kotlin/webauthnkit/core/ctap/ble/BleFidoService.kt:519-534 | success exactly when the locked device writes the single FIDO2 byte 0x20 |
| BleServices.BleFidoService.RevisionRead | webauthnkit/src/main/kotlin/webauthnkit/core/ctap/ble/BleFidoService.kt:538-562 | the locked device reads the FIDO2 bit field; any other device gets a failure |

## Left out

- Jackson CBOR and JSON (COSE key bytes, attestation objects, stored credential sources, client data JSON), SHA-256, Base64 and UTF-8 conversion are foreign codecs. They are parameters of the model (oracle values or functions), and text strings are carried as their UTF-8 bytes.
- The Android KeyStore, JCA signing and X.509 are parameters: key creation and `sign` are outcomes given to the sessions.
- The user-consent UI and its dialogs are outcomes given to the sessions: a result, cancellation, timeout or another failure.
- UUIDs, the operation ids, random bytes and clocks are parameters.
- Floating point: `readFloat`/`readDouble` and `putFloat`/`putDouble` carry the 4 or 8 bytes unchanged. IEEE-754 values are not interpreted.
- Coroutines, `GlobalScope.launch`, `runOnUiThread` and the `Timer` timeouts are left out. Each handler is one sequential step, and a timeout is an event the caller delivers. The `lifetime * 1000` delay is not modelled. The BLE operations pass `REQUEST_TIMEOUT` (60000) where seconds are expected, and the model keeps that value.
- `WebAuthnClients.WebAuthnClient.OnFinish` and `BleOperations.BleFidoOperationManager.OnFinish` are events of their own. The operations' listener objects that call them in the code are not modelled.
- SQLite (`CredentialStore.kt`) is left out: the store is a value mapping ids to sources, with lookup by `rpId`. A stored source's `signCount` is replaced by value when it is bumped.
- `CredentialSources.Source`: `signCount` is a `UInt`. `CredentialSource.kt:11` declares it `Int`, and `Authenticator.kt:77` declares `counterStep: Int`, but `InternalMakeCredentialSession.kt:115` passes `0u`, `InternalAuthenticator.kt:20` makes `counterStep` a `UInt` and `InternalGetAssertionSession.kt:108` converts with `.toUInt()`, so those files cannot agree as they stand. Under the declared `Int`, a counter past 2^31 would be stored as a negative number in the "signCount" entry of `ToCbor` and `ToBase64`. The four counter bytes of the authenticator data would be the same.
- `ClientOperations.OperationDispatch`: the session's `onOperationStopped` runs inside `session.cancel`, nested in the operation's own `stop`. The model delivers it as a separate later event. The same effects are logged, but the nested call's cancellation, end and rejection are listed after the outer stop's instead of inside it. In the code the nested stop rejects the caller and the refusal's own stop then throws; the model logs the rejection for the refusal's stop and the throw for the later one.
- The JVM array bound: the round trips assume sizes up to `Int.MAX_VALUE`, and a longer array is modelled as a thrown exception where the code would fail.
- `HashMap` iteration order is not modelled. Maps are insertion-ordered (`LinkedMaps`), which is the order of the `mutableMapOf` maps the writer receives.
- Listener callbacks and BLE notifications are appended to event logs. They are not calls into other objects.
- The Android BLE plumbing is left out: `Peripheral`, its services, characteristics, read and write requests, advertising, and the services that are commented out.
- `BleServices.BleFidoService`: the `fragmentedResponseInterval` delay between notifications is not modelled.
- `BleServices.BleFidoService.OnMtuChanged`: no ATT minimum MTU is assumed. A packet size too small for the splitter makes the split throw, and that exception escapes as in the code.
- An exception escaping the control-point handler skips `frameBuffer.clear()`, as in the code. The model keeps that.
- The member functions of the enum datatypes (`ToByte`, `RawValue` and the like) are lookup helpers, with the injectivity lemmas in their rows.
- `ByteArrays.FromHex`: only ASCII hexadecimal digits are modelled. `String.toInt(16)` defers to `Integer.parseInt`, which also accepts other Unicode decimal digits and full-width Latin letters; the model reads those as not a number.
- `AuthData.ToBytesIntended`: the extension bytes are not appended, because `toBytes()` does not append them either.
- `BleServices.RespondReassembles`: stated for messages under 256 bytes only. Those fit the 128 continuation sequence numbers at any packet size of at least 3. Longer messages are not covered.
- The Go smoke test, the superseded snapshot files (`BLEFrames.kt`, `BLEConstants.kt`, `BLEFIDOService.kt`, `BLEFIDOOperationManager.kt`, `internal/KeySupport.kt`, `Types.kt`), the declaration-only files (`data/*`, `error/*`, listener and authenticator interfaces) beyond the datatypes they define, logging, and the `app/` activities are not part of this model.

## Findings

| source | as written | input that shows it | evidently intended | confidence | as-written member | corrected member |
|---|---|---|---|---|---|---|
| webauthnkit/src/main/kotlin/webauthnkit/core/ctap/ble/frame/Frame.kt:34 | the high length byte is sign-extended, masked with 0xff00 and never shifted, so it is reduced to 0 or 0xff00 according to its top bit | a frame declaring length 256 (bytes 0x01 0x00) decodes as 0; length 300 decodes as 44 | length = high byte * 256 + low byte | not executed | Frames.LengthDecodeExample | Frames.IntendedRoundTrip |
| webauthnkit/src/main/kotlin/webauthnkit/core/ctap/ble/frame/FrameBuffer.kt:79 | the buffer trusts the mis-decoded length | a 256-byte message split into 20-byte packets is taken as done after 17 bytes, and its first continuation is refused with InvalidLen | the buffer waits for continuations until 256 bytes have arrived | not executed | FrameBuffering.LongMessageRefused | FrameBuffering.InitFrameIntended |
| webauthnkit/src/main/kotlin/webauthnkit/core/authenticator/AuthenticatorData.kt:165 | the ED mask is 0x84, so it also sets the UV bit | up, uv = false, at, ed = true gives the same flags byte as uv = true | ED = 0x80 alone | not executed | AuthData.ExtensionSetsUserVerified | AuthData.IntendedFlagsInjective |
| webauthnkit/src/main/kotlin/webauthnkit/core/authenticator/AuthenticatorData.kt:227-230 | the four counter bytes are bits 24-31, then bits 16-23 three times | sign counts 0 and 1 both encode as 00 00 00 00 | the 32-bit counter in big-endian order | not executed | AuthData.CounterBytesLoseLowBits | AuthData.CounterBytesIntended |
| webauthnkit/src/main/kotlin/webauthnkit/core/ctap/response/MakeCredentialResponseBuilder.kt:26-28 | the `UByteArray` authData fails the writer's `is ByteArray` test, and the resulting `AssertionError` is not caught by `catch (e: Exception)` | any attestation object whose authData can be encoded | the authData is put into the map as a `ByteArray`, and the map's bytes are returned | not executed | CtapResponses.MakeCredentialResponseNeverBuilt | CtapResponses.MakeCredentialResponseFixedReadsBack |
| webauthnkit/src/main/kotlin/webauthnkit/core/ctap/response/GetAssertionResponseBuilder.kt:28-48 | the `UByteArray` authenticator data fails the writer's `is ByteArray` test, and the `AssertionError` escapes | any assertion with a user handle (and a credential id when the allow list does not have exactly one entry) | the byte strings are put into the map as `ByteArray`s, and the map's bytes are returned | not executed | CtapResponses.GetAssertionResponseNeverBuilt | CtapResponses.GetAssertionResponseFixedReadsBack |
| webauthnkit/src/main/kotlin/webauthnkit/core/authenticator/Attestation.kt:38-40 | `isSelfAttestation()` returns false when attested credential data is present. When it is absent, the next line dereferences it with `!!` and throws | a packed statement without x5c or ecdaaKeyId, whose attested data has a zero AAGUID, gets false | the test is `== null`: missing attested data means false, and a zero AAGUID means true | not executed | Attestation.SelfAttestationMissed | Attestation.IsSelfAttestationIntended |
| webauthnkit/src/main/kotlin/webauthnkit/core/client/operation/GetOperation.kt:103-113 | the credential id choice is inverted: a null saved id is kept, and a saved id is replaced by the assertion's | no saved id (an allow list of length other than one) gives a null dereference; one saved id whose assertion carries none gives Unknown | the saved id when there is one, otherwise the assertion's | not executed | ClientOperations.InvertedIdChoice | ClientOperations.ChooseCredentialId |
| webauthnkit/src/main/kotlin/webauthnkit/core/client/operation/CreateOperation.kt:138-141 | the loop zeroes positions 37..52 of the whole encoded attestation object, counting the offset as if from the start of the authenticator data | a none-form encoding whose authenticator data (24..255 bytes) follows a 12-byte prefix: the flags byte is cleared and AAGUID bytes 4..15 survive | the 16 AAGUID bytes inside the authenticator data are zero and nothing else changes | not executed | ClientOperations.ZeroingMissesAaguid | ClientOperations.NoneFormZeroAaguid |
| webauthnkit/src/main/kotlin/webauthnkit/core/client/operation/CreateOperation.kt:267-270 | `dispatchError` resumes the continuation from `suspendCoroutine` without setting it to null. After a refusal, the refusal's `stop` and the nested `stop` that the session's `onOperationStopped` triggers both resume it, and the second resume throws `IllegalStateException("Already resumed")` out of the coroutine that called `onAvailable` (the same in the BLE operations, `ctap/ble/operation/CreateOperation.kt:196-199` and `ctap/ble/operation/GetOperation.kt:189-192`) | a started client create operation whose authenticator selection asks for an attachment the session does not have | the caller is rejected once and the continuation released, so the second stop does nothing | not executed | ClientOperations.RefusedCreateResumesTwice | ClientOperations.StopIntendedOnce |
| webauthnkit/src/main/kotlin/webauthnkit/core/ctap/ble/BleFidoService.kt:189 | `value.sliceArray(0..value.size)` is an inclusive range one past the end, so it always throws | any MakeCredential message (the same at lines 197 and 209 for GetAssertion and ClientPIN) | the parameters after the command byte, `value[1..]` | not executed | BleServices.MsgActionAsWritten | BleServices.MsgAction |
