# HART-IP, MODBUS TCP/IP ADU and PROFINET PN-DCP layers

This project models three protocol layers of PcapPlusPlus in Dafny:

- `HartIp`: the 8-byte HART-IP message header.
- `ModbusTcpLayer`: the 14-byte MODBUS TCP/IP ADU header. This is the MBAP header plus function code, reference number, bit count, byte count and one data byte.
- `PnDcpLayer`: the 12-byte PROFINET DCP header.

Each layer is a packed C struct laid over the layer's bytes. The model has one module per layer. Each module holds:

- the struct's members as a `Field` enumeration, with a byte span per member, proved to tile the header;
- the getters, as functions over the header bytes. A 16-bit or 32-bit member is decoded with `htobe16`, `be16toh` or `htobe32`. `ByteOrder` proves that this gives the big-endian value of the member's bytes on either host byte order;
- `isDataValid`, and the port test where the layer has one;
- `toString`, rendered as the head text plus one "label: value" pair per member, in decimal;
- a class with the layer's byte array, its protocol tag and the span of its successor layer. It has the decoding constructor, the building constructor, the Modbus setters (in-place stores into the array), `computeCalculateFields` and `parseNextLayer`.

Three shared modules support them:

- `ByteOrder`: fixed-width integers, network-order encoding, host-order stores and loads, and the byte-order macros. The machine's byte order is an explicit `Endian` value.
- `Decimal`: `std::to_string` of an unsigned value, and the label/value chain that an output string stream builds.
- `Layers`: the protocol tag, byte spans, in-place stores, and the payload span that `parseNextLayer` hands on.

What is proved:

- Each corrected constructor and setter (what the classes use) writes every argument so that its getter reads it back, and a write to one member keeps every byte outside it. As written, the raw 16-bit stores read back every value only on a big-endian host (on a little-endian one, only values whose two bytes are equal), and HART-IP `msgId` and PN-DCP `xid` never read back (see "## Findings").
- A MODBUS or PN-DCP summary determines the header bytes it shows, and it equals another header's summary exactly when the two agree on those bytes. A HART-IP summary determines the version, status and sequence number. It determines the message type and message identifier only up to their table texts: every code other than 0x00, 0x01, 0x02 and 0x0f shares one fallback text, so two headers that differ only in such codes have the same summary.
- The MODBUS and HART-IP `isDataValid` reject exactly the absent or short buffers, and ignore the content. The corrected PN-DCP `isDataValid` accepts exactly the buffers that hold a header whose frame identifier is 0xfefd, 0xfefe or 0xfeff. As written, it reads past the end of two inputs (see "## Findings").
- The captured test messages decode to the values the tests expect and render to the summaries the tests expect.

Where the source does not do what it evidently means to, the model keeps both halves. The code as written is a function, with a lemma that exhibits the difference. The corrected behaviour is what the classes use (see "## Findings").

The header lengths are the sizes of the packed structs: 8 bytes for `hartiphdr`, 14 for `modbustcphdr` and 12 for `pndcphdr`. `getHeaderLen`, `isDataValid` and the constructors all use these sizes. The doc comment of the HART-IP constructor gives the HART token-passing PDU message identifier as 3. `toString` names it for code 0x0f, and the model follows `toString`.

## Model

| member | source | states |
|---|---|---|
| ByteOrder.EncodeBE16 | Packet++/src/ModbusTcpLayer.cpp:20 | the two network-order bytes of a 16-bit value, which big-endian decoding reads back as that value |
| ByteOrder.EncodeBE32 | Packet++/src/PnDcpLayer.cpp:32 | the four network-order bytes of a 32-bit value, which big-endian decoding reads back as that value |
| ByteOrder.EncodeBE16OfBE16 | Packet++/src/ModbusTcpLayer.cpp:51 | decoding two bytes big-endian and encoding the value again gives back exactly those bytes |
| ByteOrder.EncodeBE32OfBE32 | Packet++/src/PnDcpLayer.cpp:32 | decoding four bytes big-endian and encoding the value again gives back exactly those bytes |
| ByteOrder.Swap16 | Packet++/src/HartIp.cpp:20-21 | the value whose wire bytes are those of the input in the other order |
| ByteOrder.Swap16Involutive | Packet++/src/HartIp.cpp:29 | a byte swap applied twice is the identity, so be16toh undoes htobe16 |
| ByteOrder.Swap16FixedPoints | Packet++/src/ModbusTcpLayer.cpp:70-74 | a byte swap leaves a value unchanged if and only if its two bytes are equal |
| ByteOrder.Swap32 | Packet++/src/PnDcpLayer.cpp:32 | the value whose wire bytes are those of the input reversed |
| ByteOrder.HostBytes16 | Packet++/src/HartIp.cpp:20-21 | a raw 16-bit store leaves bytes whose big-endian value is the stored value on a big-endian host and its byte swap on a little-endian one |
| ByteOrder.HostBytes32 | Packet++/header/PnDcpLayer.h:29 | a raw 32-bit store leaves bytes whose big-endian value is the stored value on a big-endian host and its byte reversal on a little-endian one |
| ByteOrder.LoadHost16 | Packet++/src/ModbusTcpLayer.cpp:51 | a raw 16-bit load yields the value whose store on that host lays down exactly the bytes loaded |
| ByteOrder.LoadHost32 | Packet++/src/PnDcpLayer.cpp:32 | a raw 32-bit load yields the value whose store on that host lays down exactly the bytes loaded |
| ByteOrder.HostToBE16 | Packet++/src/ModbusTcpLayer.cpp:20 | htobe16 of a value, stored raw, lays down the value's network-order bytes on either host |
| ByteOrder.HostToBE32 | Packet++/src/PnDcpLayer.cpp:32 | htobe32 of a value, stored raw, lays down the value's network-order bytes on either host |
| ByteOrder.FieldRead16AnyHost | Packet++/src/ModbusTcpLayer.cpp:49-64 | htobe16 of a raw 16-bit load is the big-endian value of the member's two bytes, on either host |
| ByteOrder.FieldRead32AnyHost | Packet++/src/PnDcpLayer.cpp:32 | htobe32 of a raw 32-bit load is the big-endian value of the member's four bytes, on either host |
| Decimal.NatToDecimal | Packet++/src/ModbusTcpLayer.cpp:37-44 | std::to_string of an unsigned value is a non-empty digit string with no leading zero unless the value is 0 |
| Decimal.DecimalRoundTrip | Packet++/src/ModbusTcpLayer.cpp:37-44 | reading the rendered digits back gives the number |
| Decimal.DecimalCanonical | Packet++/src/ModbusTcpLayer.cpp:37-44 | every digit string without a leading zero is the rendering of the number it denotes, so rendering is a bijection onto such strings |
| Decimal.NatToDecimalInjective | Packet++/src/ModbusTcpLayer.cpp:37-44 | different numbers render to different digit strings |
| Decimal.PeelDecimal | Packet++/src/ModbusTcpLayer.cpp:37-44 | a label that does not end in a digit, followed by a rendered number, splits back into that label and that number |
| Decimal.PeelBeforeSeparator | Packet++/src/HartIp.cpp:53-57 | text free of a separator character, followed by text that starts with it, splits back at the first separator |
| Decimal.RenderSnoc | Packet++/src/PnDcpLayer.cpp:41-44 | streaming one more label and value appends that label and the value's digits |
| Decimal.RenderInjective | Packet++/src/ModbusTcpLayer.cpp:36-44 | with the same labels, equal label/value chains have equal heads and equal values |
| Layers.TilesBounds | Packet++/header/ModbusTcpLayer.h:13-36 | every member of a packed layout lies inside the header |
| Layers.TilesDisjoint | Packet++/header/ModbusTcpLayer.h:13-36 | members of a packed layout do not overlap |
| Layers.TilesCover | Packet++/header/ModbusTcpLayer.h:13-36 | every header byte belongs to some member of a packed layout |
| Layers.PayloadAfter | Packet++/src/ModbusTcpLayer.cpp:93-98 | there is no successor when the data is no longer than the header; otherwise the successor is every byte after the header |
| Layers.Splice | Packet++/src/ModbusTcpLayer.cpp:72 | a store into a member of the overlaid struct puts the new bytes at the member's offset and keeps every other byte |
| Layers.Store | Packet++/src/ModbusTcpLayer.cpp:72 | writes the bytes into the array in place, with the effect of Splice on its old contents |
| ModbusTcp.LayoutTilesHeader | Packet++/header/ModbusTcpLayer.h:13-36 | the nine members of modbustcphdr, in order, cover its 14 bytes without gap or overlap |
| ModbusTcp.GetTransactionIdentifier | Packet++/src/ModbusTcpLayer.cpp:49-52 | the value whose network-order bytes are header bytes 0-1 |
| ModbusTcp.GetProtocolIdentifier | Packet++/src/ModbusTcpLayer.cpp:54 | always 0 on either host; the buffer is not read |
| ModbusTcp.GetLength | Packet++/src/ModbusTcpLayer.cpp:56 | the value whose network-order bytes are header bytes 4-5 |
| ModbusTcp.GetReferenceNumber | Packet++/src/ModbusTcpLayer.cpp:62 | the value whose network-order bytes are header bytes 8-9 |
| ModbusTcp.GetBitCount | Packet++/src/ModbusTcpLayer.cpp:64 | the value whose network-order bytes are header bytes 10-11 |
| ModbusTcp.SpansDisjoint | Packet++/header/ModbusTcpLayer.h:13-36 | two distinct members occupy disjoint byte ranges |
| ModbusTcp.FieldValueReadsItsSpan | Packet++/src/ModbusTcpLayer.cpp:49-68 | each getter depends only on its own member's bytes |
| ModbusTcp.SpliceKeepsOtherFields | Packet++/src/ModbusTcpLayer.cpp:70-89 | rewriting one member's bytes changes no other getter's value |
| ModbusTcp.WithHostField16 | Packet++/src/ModbusTcpLayer.cpp:70-87 | a 16-bit setter as written reads back as the value on a big-endian host and as its byte swap on a little-endian one, and keeps every byte outside the member, so every other member reads as before |
| ModbusTcp.WithField16 | Packet++/src/ModbusTcpLayer.cpp:20-26 | a 16-bit member stored through htobe16 reads back as exactly the value; every byte outside the member is kept, so every other member reads as before |
| ModbusTcp.WithField16IsHostStoreOfBE | Packet++/src/ModbusTcpLayer.cpp:20-26 | the corrected setter is the raw store of htobe16 of the value, on either host |
| ModbusTcp.WithField8 | Packet++/src/ModbusTcpLayer.cpp:75-89 | a byte member reads back as exactly the value; every byte outside the member is kept, so every other member reads as before |
| ModbusTcp.SetterSwapsOnLittleEndian | Packet++/src/ModbusTcpLayer.cpp:70-73 | on a little-endian host, setting the transaction identifier to 0x1234 as written reads back 0x3412 |
| ModbusTcp.SetterRoundTrip | Packet++/src/ModbusTcpLayer.cpp:70-87 | a 16-bit setter as written round-trips if and only if the host is big-endian or the value's two bytes are equal |
| ModbusTcp.BuiltHeader | Packet++/src/ModbusTcpLayer.cpp:11-30 | the constructor's header is 14 bytes with protocol identifier bytes 0, and every getter returns its constructor argument |
| ModbusTcp.ModbusTcpPortSymmetric | Packet++/header/ModbusTcpLayer.h:180 | the port test holds if and only if 502 is one of the two ports, whatever their order |
| ModbusTcp.IsDataValidOnlyChecksSize | Packet++/header/ModbusTcpLayer.h:188-191 | fewer than 14 bytes are never valid, and the content of the bytes never matters |
| ModbusTcp.ToStringIsRender | Packet++/src/ModbusTcpLayer.cpp:32-47 | the summary is the layer name followed by one label and decimal value per member except the protocol identifier, in declaration order |
| ModbusTcp.SummaryValuesDetermineHeader | Packet++/src/ModbusTcpLayer.cpp:36-44 | the shown values fix every header byte except the protocol identifier's |
| ModbusTcp.ToStringInjective | Packet++/src/ModbusTcpLayer.cpp:32-47 | equal summaries come from headers equal outside bytes 2-3 |
| ModbusTcp.ToStringIgnoresProtocolIdentifier | Packet++/src/ModbusTcpLayer.cpp:36-44 | headers equal outside bytes 2-3 have the same summary |
| ModbusTcp.ToStringDeterminesHeader | Packet++/src/ModbusTcpLayer.cpp:32-47 | two headers have the same summary if and only if they agree on every byte except the protocol identifier's |
| ModbusTcp.CapturedAdu | Tests/Packet++Test/Tests/ModbusTcpTests.cpp:20-31 | the captured ADU decodes to 0x57de, 0, 8, 0xff, 0x0f, 5, 1, 1, 0 and renders to the expected summary, whatever its protocol identifier bytes hold |
| ModbusTcp.ModbusTcpLayer.FromRawData | Packet++/header/ModbusTcpLayer.h:52-56 | the decoding constructor views the given bytes, is tagged MODBUSTCP and has no successor |
| ModbusTcp.ModbusTcpLayer.constructor | Packet++/src/ModbusTcpLayer.cpp:11-30 | the building constructor allocates a fresh array holding BuiltHeader of its arguments, tagged MODBUSTCP |
| ModbusTcp.ModbusTcpLayer.SetTransactionIdentifier | Packet++/src/ModbusTcpLayer.cpp:70-73 | the array becomes WithField16 of its old contents at the transaction identifier |
| ModbusTcp.ModbusTcpLayer.SetLength | Packet++/src/ModbusTcpLayer.cpp:74 | the array becomes WithField16 of its old contents at the length |
| ModbusTcp.ModbusTcpLayer.SetUnitIdentifier | Packet++/src/ModbusTcpLayer.cpp:75-78 | the array becomes WithField8 of its old contents at the unit identifier |
| ModbusTcp.ModbusTcpLayer.SetFunctionCode | Packet++/src/ModbusTcpLayer.cpp:79-82 | the array becomes WithField8 of its old contents at the function code |
| ModbusTcp.ModbusTcpLayer.SetReferenceNumber | Packet++/src/ModbusTcpLayer.cpp:83-86 | the array becomes WithField16 of its old contents at the reference number |
| ModbusTcp.ModbusTcpLayer.SetBitCount | Packet++/src/ModbusTcpLayer.cpp:87 | the array becomes WithField16 of its old contents at the bit count |
| ModbusTcp.ModbusTcpLayer.SetByteCount | Packet++/src/ModbusTcpLayer.cpp:88 | the array becomes WithField8 of its old contents at the byte count |
| ModbusTcp.ModbusTcpLayer.SetData | Packet++/src/ModbusTcpLayer.cpp:89 | the array becomes WithField8 of its old contents at the data byte |
| ModbusTcp.ModbusTcpLayer.ComputeCalculateFields | Packet++/header/ModbusTcpLayer.h:195 | leaves the header bytes unchanged |
| ModbusTcp.ModbusTcpLayer.ParseNextLayer | Packet++/src/ModbusTcpLayer.cpp:91-101 | the successor becomes the bytes after the header when there are any; otherwise it is left as it was |
| HartIp.LayoutTilesHeader | Packet++/header/HartIp.h:19-35 | the six members of hartiphdr, in order, cover its 8 bytes without gap or overlap |
| HartIp.GetSeqNum | Packet++/src/HartIp.cpp:29 | the value whose network-order bytes are header bytes 4-5 |
| HartIp.GetByteCount | Packet++/src/HartIp.cpp:30 | the value whose network-order bytes are header bytes 6-7 |
| HartIp.IsDataValidOnlyChecksSize | Packet++/header/HartIp.h:129 | fewer than 8 bytes are never valid, and the content of the bytes never matters |
| HartIp.MsgTypeText | Packet++/src/HartIp.cpp:39-55 | the text is the fallback "unknown message type" exactly for codes other than 0, 1, 2 and 0x0f, and no text holds a comma |
| HartIp.MsgIdText | Packet++/src/HartIp.cpp:59-75 | the text is the fallback "unknown message id" exactly for codes other than 0, 1, 2 and 0x0f, and no text holds a comma |
| HartIp.MsgTypeTextDistinct | Packet++/src/HartIp.cpp:39-55 | two message types get the same text if and only if they are equal or both unknown |
| HartIp.MsgIdTextDistinct | Packet++/src/HartIp.cpp:59-75 | two message identifiers get the same text if and only if they are equal or both unknown |
| HartIp.ToStringShape | Packet++/src/HartIp.cpp:36-79 | the summary is the name, the version in decimal, the two table texts, then status and sequence number as decimal label/value pairs |
| HartIp.TablePartInjective | Packet++/src/HartIp.cpp:37-57 | the part between version and status determines both table texts |
| HartIp.ToStringInjective | Packet++/src/HartIp.cpp:32-82 | equal summaries show the same version, status, sequence number and table texts |
| HartIp.ToStringDeterminesShownFields | Packet++/src/HartIp.cpp:32-82 | two headers have the same summary if and only if they agree on version, status and sequence number and their type and identifier codes have the same texts |
| HartIp.ToStringIgnoresByteCount | Packet++/src/HartIp.cpp:76-79 | rewriting the byte count leaves the summary unchanged |
| HartIp.CapturedMessage | Tests/Packet++Test/Tests/HartIpTests.cpp:21-30 | the captured header decodes to version 1, type 0, id 0, status 0, sequence number 2, byte count 13, and renders to the expected summary |
| HartIp.AsWrittenHeader | Packet++/src/HartIp.cpp:11-23 | the constructor as written: version, type and status as given, message identifier 0, and sequence number and byte count reading back swapped on a little-endian host |
| HartIp.BuiltHeader | Packet++/header/HartIp.h:57-66 | the header the constructor is documented to build: 8 bytes, and every getter returns its argument |
| HartIp.AsWrittenMatchesBuilt | Packet++/src/HartIp.cpp:17-21 | the constructor as written builds the intended header if and only if the message identifier is 0 and either the host is big-endian or both 16-bit arguments have equal bytes |
| HartIp.AsWrittenConstructorLosesFields | Packet++/src/HartIp.cpp:17-21 | on a little-endian host the constructor as written turns message identifier 1 into 0 and sequence number 2 into 512 |
| HartIp.HartIpLayer.FromRawData | Packet++/header/HartIp.h:51-55 | the decoding constructor views the given bytes, is tagged HARTIP and has no successor |
| HartIp.HartIpLayer.constructor | Packet++/src/HartIp.cpp:11-23 | the building constructor allocates a fresh array holding BuiltHeader of its arguments, tagged HARTIP |
| HartIp.HartIpLayer.ComputeCalculateFields | Packet++/header/HartIp.h:108 | leaves the header bytes unchanged |
| HartIp.HartIpLayer.ParseNextLayer | Packet++/header/HartIp.h:113 | changes nothing, so a HART-IP layer never gets a successor |
| PnDcp.LayoutTilesHeader | Packet++/header/PnDcpLayer.h:19-35 | the six members of pndcphdr, in order, cover its 12 bytes without gap or overlap |
| PnDcp.GetFrameId | Packet++/src/PnDcpLayer.cpp:26 | the value whose network-order bytes are header bytes 0-1 |
| PnDcp.GetXid | Packet++/src/PnDcpLayer.cpp:32 | the value whose network-order bytes are header bytes 4-7 |
| PnDcp.GetResponseDelay | Packet++/src/PnDcpLayer.cpp:34 | the value whose network-order bytes are header bytes 8-9 |
| PnDcp.GetDcpDataLength | Packet++/src/PnDcpLayer.cpp:36 | the value whose network-order bytes are header bytes 10-11 |
| PnDcp.IsDataValidAsWritten | Packet++/header/PnDcpLayer.h:122-126 | isDataValid as written reads past the end of the buffer if and only if the buffer is empty, or is one byte holding 0xfe; on every other input it agrees with IsDataValid |
| PnDcp.AsWrittenReadsPastEnd | Packet++/header/PnDcpLayer.h:124-125 | the empty buffer and the one-byte buffer [0xfe] are read past their end |
| PnDcp.WrongSignatureRejected | Packet++/header/PnDcpLayer.h:124 | a buffer of two or more bytes that does not start with FE FD, FE FE or FE FF is rejected, as written and corrected |
| PnDcp.ShortBufferRejected | Packet++/header/PnDcpLayer.h:125 | a buffer shorter than 12 bytes is rejected whatever it holds |
| PnDcp.IsDataValidExactly | Packet++/header/PnDcpLayer.h:120-126 | a buffer is valid if and only if it holds a header whose frame identifier is 0xfefd, 0xfefe or 0xfeff |
| PnDcp.ToStringIsRender | Packet++/src/PnDcpLayer.cpp:38-47 | the summary is "PN-DCP Layer, " followed by one label and decimal value per member, in declaration order |
| PnDcp.SummaryValuesDetermineHeader | Packet++/src/PnDcpLayer.cpp:41-44 | the shown values fix every header byte |
| PnDcp.ToStringInjective | Packet++/src/PnDcpLayer.cpp:38-47 | equal summaries come from byte-for-byte equal headers |
| PnDcp.ToStringReadsHeaderOnly | Packet++/src/PnDcpLayer.cpp:38-47 | the summary depends on the 12 header bytes only |
| PnDcp.ToStringDeterminesHeader | Packet++/src/PnDcpLayer.cpp:38-47 | two headers have the same summary if and only if they are byte-for-byte equal |
| PnDcp.CapturedFrame | Tests/Packet++Test/Tests/PnDcpTests.cpp:17-26 | the captured frame passes classification and decodes to 65278, 5, 0, 16777217, 1, 4 |
| PnDcp.CapturedFrameSummary | Tests/Packet++Test/Tests/PnDcpTests.cpp:27-28 | the captured frame renders to the expected summary |
| PnDcp.AsWrittenHeader | Packet++/src/PnDcpLayer.cpp:11-24 | the constructor as written: frame identifier and service bytes as given, transaction identifier 0, and response delay and DCP data length reading back swapped on a little-endian host |
| PnDcp.BuiltHeader | Packet++/header/PnDcpLayer.h:57-67 | the header the constructor is documented to build: 12 bytes, and every getter returns its argument |
| PnDcp.AsWrittenMatchesBuilt | Packet++/src/PnDcpLayer.cpp:18-22 | the constructor as written builds the intended header if and only if the transaction identifier is 0 and either the host is big-endian or both raw-stored 16-bit arguments have equal bytes |
| PnDcp.AsWrittenConstructorLosesFields | Packet++/src/PnDcpLayer.cpp:11-24 | on a little-endian host the test frame built as written reads transaction identifier 0, response delay 256 and DCP data length 1024 |
| PnDcp.PnDcpLayer.FromRawData | Packet++/header/PnDcpLayer.h:51-55 | the decoding constructor views the given bytes, is tagged PNDCP and has no successor |
| PnDcp.PnDcpLayer.constructor | Packet++/src/PnDcpLayer.cpp:11-24 | the building constructor allocates a fresh array holding BuiltHeader of its arguments, tagged PNDCP |
| PnDcp.PnDcpLayer.ComputeCalculateFields | Packet++/header/PnDcpLayer.h:109 | leaves the header bytes unchanged |
| PnDcp.PnDcpLayer.ParseNextLayer | Packet++/src/PnDcpLayer.cpp:49-59 | the successor becomes the bytes after the header when there are any; otherwise it is left as it was |

## Left out

- The `Layer` base class, `Packet`, the links to the previous layer and the packet, and ownership of the allocated buffer are not modelled. A layer is its byte array, its protocol tag and the span of its successor.
- `PayloadLayer` is not modelled. The successor that `parseNextLayer` creates is recorded as the span of bytes it covers.
- `getOsiModelLayer` returns a constant and is left out. So is `getHeaderLen`, which is `sizeof` of the struct and appears here as each module's `HeaderLen`.
- `getModbusTcpHeader`, `getHartIpHeader` and `getPnDcpHeader` reinterpret the layer's bytes as the struct. The getters and stores act directly on the bytes at each member's offset instead.
- The stream in `toString` is not modelled as an object. Its output is the concatenated string.
- The header files' doc comments and the Python diagram scripts are not part of this model.
- ModbusTcp.GetUnitIdentifier, ModbusTcp.GetFunctionCode, ModbusTcp.GetByteCount, ModbusTcp.GetData: byte getters (Packet++/src/ModbusTcpLayer.cpp:58-68) with no contract of their own. Each returns the byte at its offset, and what it returns is stated by BuiltHeader, WithField8 and the summary lemmas.
- HartIp.GetVersion, HartIp.GetMsgType, HartIp.GetMsgId, HartIp.GetStatus: byte getters (Packet++/src/HartIp.cpp:25-28) with no contract of their own. Each returns the byte at its offset, and what it returns is stated by BuiltHeader, AsWrittenHeader and the summary lemmas.
- PnDcp.GetServiceId, PnDcp.GetServiceType: byte getters (Packet++/src/PnDcpLayer.cpp:28-30) with no contract of their own. Each returns the byte at its offset, and what it returns is stated by BuiltHeader, AsWrittenHeader and the summary lemmas.
- ModbusTcp.ToString: models `toString` (Packet++/src/ModbusTcpLayer.cpp:32-47) and has no contract of its own. Its contract is carried by ToStringIsRender, ToStringDeterminesHeader and CapturedAdu.
- HartIp.ToString: models `toString` (Packet++/src/HartIp.cpp:32-82) and has no contract of its own. Its contract is carried by ToStringShape, ToStringDeterminesShownFields, ToStringIgnoresByteCount and CapturedMessage.
- PnDcp.ToString: models `toString` (Packet++/src/PnDcpLayer.cpp:38-47) and has no contract of its own. Its contract is carried by ToStringIsRender, ToStringDeterminesHeader and CapturedFrameSummary.
- ModbusTcp.IsDataValid: models `isDataValid` (Packet++/header/ModbusTcpLayer.h:188-191) and has no contract of its own. Its contract is carried by IsDataValidOnlyChecksSize.
- HartIp.IsDataValid: models `isDataValid` (Packet++/header/HartIp.h:129) and has no contract of its own. Its contract is carried by IsDataValidOnlyChecksSize.
- PnDcp.IsDataValid: the corrected `isDataValid` (Packet++/header/PnDcpLayer.h:122-126), with the size compared first. Its contract is carried by IsDataValidExactly, WrongSignatureRejected, ShortBufferRejected and IsDataValidAsWritten.
- ModbusTcp.IsModbusTcpPort: models `isModbusTcpPort` (Packet++/header/ModbusTcpLayer.h:180) and has no contract of its own. Its contract is carried by ModbusTcpPortSymmetric.
- ByteOrder.BE16: the big-endian 16-bit decoding every 16-bit getter is defined by. Its contract is carried by EncodeBE16, EncodeBE16OfBE16 and FieldRead16AnyHost.
- ByteOrder.BE32: the big-endian 32-bit decoding `getXid` is defined by. Its contract is carried by EncodeBE32, EncodeBE32OfBE32 and FieldRead32AnyHost.
- Decimal.Render: the label/value chain the output string stream builds. Its contract is carried by RenderSnoc and RenderInjective.
- HartIp.IsHartIpPort: has no lemma; it compares one port with 5094 (Packet++/header/HartIp.h:121).
- PnDcp.IsDataValidAsWritten: null data is `None`, and a buffer is a sequence of exactly `dataSize` bytes. A caller passing a `dataSize` larger than its buffer is not modelled.
- ModbusTcp.ModbusTcpLayer.SetTransactionIdentifier: stores htobe16 of its argument, where Packet++/src/ModbusTcpLayer.cpp:72 stores the raw host value. The as-written store is ModbusTcp.WithHostField16 (see "## Findings").
- ModbusTcp.ModbusTcpLayer.SetLength: stores htobe16 of its argument, where Packet++/src/ModbusTcpLayer.cpp:74 stores the raw host value. The as-written store is ModbusTcp.WithHostField16 (see "## Findings").
- ModbusTcp.ModbusTcpLayer.SetReferenceNumber: stores htobe16 of its argument, where Packet++/src/ModbusTcpLayer.cpp:85 stores the raw host value. The as-written store is ModbusTcp.WithHostField16 (see "## Findings").
- ModbusTcp.ModbusTcpLayer.SetBitCount: stores htobe16 of its argument, where Packet++/src/ModbusTcpLayer.cpp:87 stores the raw host value. The as-written store is ModbusTcp.WithHostField16 (see "## Findings").
- HartIp.HartIpLayer.constructor: stores `msgId`, which Packet++/src/HartIp.cpp:17-21 never stores. It also stores `seqNum` and `byteCount` through htobe16, where the source stores the raw host values. The as-written header is HartIp.AsWrittenHeader (see "## Findings").
- PnDcp.PnDcpLayer.constructor: stores `xid` through htobe32, which Packet++/src/PnDcpLayer.cpp:17-22 never stores. It also stores `responseDelay` and `dcpDataLength` through htobe16, where the source stores the raw host values. The as-written header is PnDcp.AsWrittenHeader (see "## Findings").
- The corrected constructors and setters take no host byte order: htobe16 and htobe32 make their stores the same on either host (ByteOrder.HostToBE16, ByteOrder.HostToBE32).
- ModbusTcp.ModbusTcpLayer.ComputeCalculateFields: states only that the header bytes are unchanged; the source body (Packet++/header/ModbusTcpLayer.h:195) is empty.
- HartIp.HartIpLayer.ComputeCalculateFields: states only that the header bytes are unchanged; the source body (Packet++/header/HartIp.h:108) is empty.
- PnDcp.PnDcpLayer.ComputeCalculateFields: states only that the header bytes are unchanged; the source body (Packet++/header/PnDcpLayer.h:109) is empty.

## Findings

| source | as written | input that shows it | evidently intended | confidence | as-written member | corrected member |
|---|---|---|---|---|---|---|
| Packet++/src/HartIp.cpp:11-23 | the building constructor never stores `msgId`, so it stays 0 from the memset | version 1, msgType 0, msgId 1: `getMsgId()` returns 0 | the message identifier argument is stored in its member | not executed | HartIp.AsWrittenConstructorLosesFields | HartIp.HartIpLayer.constructor |
| Packet++/src/HartIp.cpp:20-21 | `seqNum` and `byteCount` are stored in host order, while the getters apply be16toh | seqNum 2 on a little-endian host: `getSeqNum()` returns 512 | both stored through htobe16, as the MODBUS constructor does (Packet++/src/ModbusTcpLayer.cpp:20-26), and as the PN-DCP constructor does for `frameId` (Packet++/src/PnDcpLayer.cpp:18) | not executed | HartIp.AsWrittenMatchesBuilt | HartIp.BuiltHeader |
| Packet++/src/PnDcpLayer.cpp:11-24 | the building constructor never stores `xid`, so it stays 0 from the memset | xid 16777217: `getXid()` returns 0 | the transaction identifier is stored through htobe32 | not executed | PnDcp.AsWrittenConstructorLosesFields | PnDcp.PnDcpLayer.constructor |
| Packet++/src/PnDcpLayer.cpp:21-22 | `responseDelay` and `dcpDataLength` are stored in host order, while the getters apply htobe16 | responseDelay 1, dcpDataLength 4 on a little-endian host: the getters return 256 and 1024 | both stored through htobe16, as `frameId` is | not executed | PnDcp.AsWrittenMatchesBuilt | PnDcp.BuiltHeader |
| Packet++/src/ModbusTcpLayer.cpp:70-87 | the 16-bit setters store the raw host value, while the getters apply htobe16 | `setTransactionIdentifier(0x1234)` on a little-endian host: `getTransactionIdentifier()` returns 0x3412 | the setters store htobe16 of their argument, as the constructor does | not executed | ModbusTcp.SetterSwapsOnLittleEndian | ModbusTcp.WithField16 |
| Packet++/header/PnDcpLayer.h:124-125 | `data[0]` and `data[1]` are read before `dataSize` is compared with the header size | non-null data with `dataSize` 0, or `dataSize` 1 holding 0xfe: a read past the end of the buffer | the size is checked before any byte is read | not executed | PnDcp.AsWrittenReadsPastEnd | PnDcp.IsDataValidExactly |
