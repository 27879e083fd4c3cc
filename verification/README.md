# A verified model of the rpi4BT Bluetooth stack

This project models the four connected parts of a Bluetooth Classic host stack and proves what they keep
over every input and every run. The project file is `dfyconfig.toml`:
`dafny verify --warn-contradictory-assumptions --verification-time-limit 0 --boogie /randomSeed:1 dfyconfig.toml`.

- **SDP** (`Sdp*.dfy`). The recursive parser of data elements over a stream held in several frames, with
  its moving cursor and its static flag, and the client that collects a response piece by piece. A pure
  reading (`SdpElements`) says what a parse means; the class `SdpParser.Parser` moves a cursor through the
  frames as the program does and is proved to read exactly that. Text output is replaced by the tree of
  elements read.
- **RFCOMM** (`Rfcomm*.dfy`, `Fcs.dfy`). Frames, their checksum, and the session: five channel slots, each
  a set of state bits, driven by received frames. `RfcommSession` is one step as a function of the state,
  `RfcommTable.RfSession` performs it on the table in place; safety, order and progress are theorems
  about runs of steps and are read off the trace of what was got and sent. `RfcommProgress` and
  `RfcommIncoming` say exactly when a channel opens in sessions of either origin.
- **Transport, HCI and L2CAP** (`Transport*.dfy`, `Hci*.dfy`, `BringUp.dfy`, `L2cap*.dfy`, `EndToEnd.dfy`,
  `ClientWrite.dfy`, `WriteArrives.dfy`). Byte-at-a-time deframing, credits and queues, firmware download and
  bring-up, the connection table and its messages, and client data all the way from one stack's buffer
  through its queue, its wire and the peer's deframer to the other's client.
- **Formats** (`SdpFormats.dfy`, `RfcommSends.dfy`, `RfcommBytes.dfy`, `L2capAnswers.dfy`, `HciFormats.dfy`,
  `WireFormats.dfy`). A round trip holds of any format that reader and writer share; these modules say in
  byte values what each header, frame, event and message is, and what each call sends, without the
  functions that reader and writer are made of.
- **Queues** (`Queues.dfy`, `Rings.dfy`, `QueueDevices.dfy`). The linked list on the heap and the two rings
  in their arrays, against first-in first-out queues.

Each object the program changes in place is a class whose methods are tied to the pure step they perform;
the theorems are about runs of those steps. A failed assertion of the program ends the run in the model:
`Abort` in the parser, `failed` elsewhere.

What the model assumes: the frames of a response are not empty and hold at most 65535 bytes together (the
byte counter has 16 bits); `get_u16` and `get_u32` read left to right; a handler runs to its end before
the next one starts; in bring-up no client sends before the host is set up, and a successful READ_BD_ADDR
completion carries an address; an SDP request's connection handle is below 0x2000 (the standard gives
handles twelve bits), and a server's continuation token fits the request packet with a piece below 0xFF00
bytes (the standard limits tokens to 16 bytes).

Where code and comments or documents disagree the model follows the code:

- an incoming RFCOMM channel is not OPEN once both MSC exchanges are done, as the comment at
  `rfcomm.c:62-80` has it: it also waits for the peer's SABM and for answers to our own PN and RPN, and
  without an answer to PN our MSC command never goes out (`RfcommIncoming.IncomingOpensExactly`,
  `RfcommIncoming.DocumentedIncomingStaysClosed`, `RfcommFindings.UnansweredNeverOpens`);
- a channel opened on a live session sends nothing until some frame reaches the loop, so against a peer that
  only answers it stays closed (`RfcommProgress.LaterChannelProgress`);
- a data frame whose payload starts with 0x01 is taken for a long frame and the client is called back with
  128 bytes too many (`RfcommFrames.DataMisread`, `EndToEnd.ChunkHeard`, `EndToEnd.BufferArrivesIff`), and of
  the 512 bytes offered as MTU only up to 255 are read correctly (`RfcommFrames.PeerDataUnderstood`);
- PN shifts out one bit of the DLCI where an address has five, so channels from 32 on share addresses
  (`RfcommFindings.SabmAlias`, `RfcommFindings.PnAbove31SendsLinkSabm`);
- a client is told again that its L2CAP connection is open by every further config request, config response
  or connection response for it (`L2capMessages.TellsAgain`, `L2capMessages.ToldOnceIff`);
- a completed-packets event is read as all handles and then all counts, where the standard (Volume 4, Part E,
  section 7.7.19 of the Bluetooth Core Specification) has them in turn, so `HciCredits.DataCredits` speaks of
  the packets the controller reported for events of one entry (`Hci.CreditsReported`);
- the firmware offset is never set back, so a second reset goes on in the middle of the image or fails
  (`BringUp.SecondReset`).

## Model

| member | source | states |
|---|---|---|
| SdpElements.ReadElem | sdp_parser.c:510-545 | every element read consumes at least its header byte and never passes the end of the stream, so the mutual recursion of parseDE and parseDEs terminates on arbitrary bytes |
| SdpElements.ReadElems | sdp_parser.c:499-508 | a sequence's loop never goes back and stays within the stream, whatever its length says |
| SdpTheorems.ReadElemLeadsTo | sdp_parser.c:376-480 | on arbitrary bytes in arbitrary frames, the bytes parsed are exactly the span of the element read, and flag and channel afterwards are a left fold over its leaves: a uuid-16/32 arms or disarms, a uint8 consumes, every other leaf changes nothing |
| SdpTheorems.ReadElemsLeadTo | sdp_parser.c:499-508 | the same for the elements of a sequence, whose loop ends at or past its length |
| SdpTheorems.HeaderRoundTrip | sdp_parser.c:343-374 | every legal header, with any size index, is read back from its encoding and consumes exactly it; `SdpFormats` says in bytes what each size index means |
| SdpTheorems.ElemRoundTrip | sdp_parser.c:510-545 | parseDE on the encoding of any element tree (every type and legal size, any nesting), standing anywhere in a frame and followed by anything, rebuilds the tree |
| SdpTheorems.ElemsRoundTrip | sdp_parser.c:499-508 | the same for a list of elements read up to its length |
| SdpTheorems.EncodedSpan | sdp_parser.c:510-545 | an element rebuilt by parseDE has consumed exactly its encoding; nil only its header |
| SdpTheorems.FrameIndependence | sdp_parser.c:78-139 | for bytes cut into frames anywhere, parseDE reads the same element, byte count, flag and channel as from one frame if and only if no string, URL, uuid-128 or skipped payload straddles a cut |
| SdpTheorems.FrameIndependenceAll | sdp_parser.c:499-545 | the same if-and-only-if for a whole sequence |
| SdpRecords.ServiceAsElem | sdp_parser.c:547-631 | where the stream holds a record list, parseServiceRecords reads exactly what parseDE reads there, for any frames |
| SdpRecords.ServiceRoundTrip | sdp_parser.c:583-631 | parseServiceRecords on a legal record list in frames no payload straddles returns every record and attribute, consumes the list, and leaves the channel that the fold over the leaves gives from the flag left by the previous request |
| SdpFormats.FixedHeader | sdp_parser.c:343-374 | a header byte 8t + i with i from 0 to 4 is one byte and stands for 1, 2, 4, 8 or 16 bytes of payload |
| SdpFormats.ByteHeader | sdp_parser.c:343-374 | behind 8t + 5 the length is the next byte, and the header two bytes |
| SdpFormats.WordHeader | sdp_parser.c:343-374 | behind 8t + 6 it is the next two, most significant first |
| SdpFormats.LongHeader | sdp_parser.c:343-374 | behind 8t + 7 it is the next four; from 2^31 on it aborts |
| SdpFormats.CutHeader | sdp_parser.c:343-374 | a header that the stream ends in aborts |
| SdpFormats.ByType | sdp_parser.c:510-545 | codes 6 and 7 are sequences of elements, 0 is nothing, 1, 2 and 5 are integers, 3 a UUID, 4 and 8 text, and any other is stepped over |
| SdpFormats.Uint8 | sdp_parser.c:378-392 | 08 v is the number v, and the channel if the flag is set, which clears it |
| SdpFormats.EightBytes | sdp_parser.c:125-131 | eight bytes are two numbers of four bytes, the high one first |
| SdpFormats.SixteenBytes | sdp_parser.c:133-139 | sixteen bytes likewise |
| SdpFormats.OtherInts | sdp_parser.c:392-434 | integers of the other lengths are read most significant byte first and leave flag and channel alone |
| SdpFormats.OddLengths | sdp_parser.c:378-480 | integers and UUIDs of lengths the standard does not have are stepped over; a uuid-128 is read as it stands |
| SdpFormats.Uuid16 | sdp_parser.c:436-480 | 19 hi lo sets the flag exactly when hi lo is 00 03 |
| SdpFormats.Uuid32 | sdp_parser.c:436-480 | 1A and four bytes likewise |
| SdpFormats.ShortText | sdp_parser.c:482-493 | 25 n or 45 n and n bytes that do not cross a frame are these bytes |
| SdpFormats.RfcommSequence | sdp_parser.c:499-545 | 35 03 19 00 03 is RFCOMM's uuid-16 in a sequence: five bytes, and the flag is set |
| SdpFormats.OneAttribute | sdp_parser.c:554-574 | an attribute is 09, two bytes of ID and a value |
| SdpFormats.NoAttribute | sdp_parser.c:554-574 | any other header where an ID should be ends the record |
| SdpFormats.RecordIsSequence | sdp_parser.c:547-581 | a record is a sequence, read up to its length |
| SdpFormats.NoRecord | sdp_parser.c:547-581 | anything else is an empty record, marked as such |
| SdpFormats.NoList | sdp_parser.c:583-631 | anything but a sequence holds no records |
| SdpFrames.Conserved | sdp_parser.c:78-99 | bytes before frame k, bytes in frame k and bytes in later frames add up to the whole |
| SdpFrames.Locate | sdp_parser.c:101-107 | the byte under the cursor is the byte of the concatenated stream at the number of bytes parsed, and the room left is the frame's |
| SdpParser.Parser.constructor | sdp_parser.c:583-594 | the cursor at frame 0, no channel, the static flag as it was left |
| SdpParser.Parser.Conservation | sdp_parser.c:78-99 | in every state the bytes parsed, the bytes left in this frame and the bytes in later frames add up to the stream |
| SdpParser.Parser.IncParse | sdp_parser.c:78-99 | the cursor moves by the amount, into the next frame when this one is used up; an amount over the rest of the frame is refused and leaves everything as it was |
| SdpParser.Parser.GetU8 | sdp_parser.c:101-107 | the byte of the stream at the cursor, or the failed assertion at its end |
| SdpParser.Parser.GetU16 | sdp_parser.c:109-113 | two bytes of the stream, most significant first, across any frame boundary |
| SdpParser.Parser.GetU32 | sdp_parser.c:115-123 | four bytes likewise |
| SdpParser.Parser.GetU64 | sdp_parser.c:125-131 | eight bytes likewise |
| SdpParser.Parser.GetU128 | sdp_parser.c:133-139 | sixteen bytes likewise |
| SdpParser.Parser.ParseDEHeader | sdp_parser.c:343-374 | type, size and length as ReadHeader, whose meaning in bytes is `SdpFormats.FixedHeader` to `CutHeader`, has them; a length of 2^31 or more aborts |
| SdpParser.Parser.PrintInt | sdp_parser.c:378-434 | consumes the integer and takes a uint8 as the channel when the flag is set |
| SdpParser.Parser.PrintUUID | sdp_parser.c:436-480 | consumes the UUID and sets the flag exactly when a short UUID is RFCOMM's |
| SdpParser.Parser.ReadPayload | sdp_parser.c:482-493 | the bytes of a string, or the refusal of one that runs over its frame |
| SdpParser.Parser.ParseDE | sdp_parser.c:510-545 | the recursive parser with its moving cursor reads what ReadElem defines: same element, same position, flag and channel |
| SdpParser.Parser.ParseDEs | sdp_parser.c:499-508 | its loop reads what ReadElems defines |
| SdpParser.Parser.ParseAttrList | sdp_parser.c:547-581 | one record, or its attributes up to the first that has no ID |
| SdpParser.Parser.ParseAttributes | sdp_parser.c:554-574 | the loop of parseAttrList reads what ReadAttributes defines |
| SdpParser.Parser.ParseServiceRecords | sdp_parser.c:583-631 | the whole parse reads what ReadTop defines from where the parser stands and marks the request complete |
| SdpParser.Parser.ParseRecords | sdp_parser.c:611-619 | its loop stops after the first bad record |
| SdpClient.RequestRoundTrip | sdp.c:453-510 | a server decodes from a request the transaction, service, range and continuation it was built from, with a correct length field |
| SdpClient.ResponseRoundTrip | sdp.c:276-312 | the response branch reads back transaction, piece and token |
| SdpClient.ServedWhatWasAsked | sdp.c:453-510 | a server that insists on the token it gave last answers every request the client sends |
| SdpClient.Round | sdp.c:276-343 | one exchange stores the piece in its frame and, if a token came and a frame is free, asks with that token; after the last it is finished |
| SdpClient.ContinuationLossless | sdp.c:276-343 | against any server that splits its list into non-empty pieces with tokens, the client asks once a piece and ends with frames that are the pieces, in order, if and only if there are at most fifteen |
| WireFormats.RequestBytes | sdp.c:453-510 | the bytes of a request: PDU 06, transaction, length, the service as a uuid-16 in a sequence, the largest count, the attribute range, the token |
| WireFormats.ResponseRead | sdp.c:276-312 | the bytes of a response 07 are read as transaction, piece and token |
| WireFormats.FifteenPieces | sdp.c:276-343 | the exchange ends complete, with one request a piece and the pieces as its frames, if and only if there are at most 15 |
| SdpRequester.DiscoveryRequest | sdp.c:453-510 | written through the moving pointer into the packet buffer, with the length patched in: exactly RequestPacket |
| SdpRequester.SdpContext.Draw | sdp.c:536-545 | the next transaction number, drawn modulo 2^16 |
| SdpRequester.SdpRequest.constructor | sdp.c:517-556 | a request with one frame waiting |
| SdpRequester.SdpRequest.LcapData | sdp.c:276-343 | the response branch performs OnPdu on the request and its context |
| SdpRequester.DiscoveryParses | sdp.c:276-343 | continuation and parsing together: for every split into at most fifteen pieces of 65535 bytes in all that cuts through no string, URL or uuid-128, the frames received hold the pieces, and read as the records and the channel of the unsplit list |
| SdpRequester.ParseDiscovered | sdp_parser.c:583-631 | the parser object, run on the frames such a discovery ends with, returns those records and that channel |
| Fcs.TableCorrect | rfcomm.c:235-254 | every table entry is eight steps of the reflected CRC-8 with polynomial 0xE0 |
| Fcs.FCS | rfcomm.c:256-262 | the table loop computes the bit-by-bit checksum of every message |
| Fcs.GoodResidue | rfcomm.c:256-262 | a message followed by one byte leaves the residue 0xCF if and only if that byte is its FCS |
| Fcs.StepInjective | rfcomm.c:235-254 | the table is a permutation |
| Fcs.OneByteDetected | rfcomm.c:256-262 | changing exactly one byte always changes the FCS |
| Fcs.OddErrorsDetected | rfcomm.c:256-262 | so does changing an odd number of bits |
| RfcommFrames.ControlFramesRoundTrip | rfcomm.c:393-442 | a peer reads back SABM, UA, PN, MSC and RPN, commands and responses, exactly as sent, for channels 1 to 31 |
| RfcommFrames.DataRoundTrip | rfcomm.c:572-593 | client data of 1 to 127 bytes is read back unchanged if and only if it does not start with 0x01, the long-frame test |
| RfcommFrames.DataMisread | rfcomm.c:572-593 | client data that starts with 0x01 is handed on as 128 bytes more than were sent: the rest of the payload, the check byte, and what follows in memory |
| RfcommFrames.PeerDataUnderstood | rfcomm.c:572-593 | a conforming peer's data frame up to the offered MTU of 512 is understood if and only if it is short and does not start with 1, or has 128 to 255 bytes |
| RfcommSafety.FindExact | rfcomm.c:332-346 | with distinct numbers, findChannel returns the slot of a channel |
| RfcommSafety.ProcessInv | rfcomm.c:670-860 | one processChannel keeps the table, and every state bit justified by the history |
| RfcommSafety.HandleInv | rfcomm.c:515-659 | so does any received frame |
| RfcommSafety.StepInv | rfcomm.c:515-659 | so does any call into a session: frames, link up, opening, closing, sending |
| RfcommOrder.TableTheorem | rfcomm.c:332-390 | in every reachable state slot 0 is DLC0, live channels have distinct numbers, and findChannel returns the one slot with a number or none |
| RfcommOrder.HandshakeSafety | rfcomm.c:670-860 | in every run, a nonzero channel that is OPEN has, since its slot was filled, PN sent and answered, SABM (or an incoming session), UA, MSC sent, answered, received and replied to by a response that went out, RPN sent and answered, and DLC0 has SABM and UA |
| RfcommOrder.EverySendWasDue | rfcomm.c:670-887 | every PN, SABM, MSC or RPN command and every data frame in a trace is preceded by all it depends on, replies counting only once they went out; it goes out at most once a lifetime, and none before DLC0 is up |
| RfcommOrder.CommandsInOrder | rfcomm.c:670-887 | the commands of one channel lifetime are a prefix of PN, SABM, MSC, RPN, or of PN, MSC, RPN |
| RfcommOrder.ControlChannelSabm | rfcomm.c:679-701 | DLC0's SABM goes out at most once a session, never on an incoming one |
| RfcommSends.FramesAreRight | rfcomm.c:670-1078 | every frame of every run is our command or data for the channel it is sent for, naming its DLCI and carrying its priority and MTU by then (7 and 0x200 until a PN command for it changes them), signals 0x8C or the port settings 07 00 00 00 00 7F 3F; or it answers the frame received just before it, with that frame's DLCI and parameters; its outer bit is a command's for SABM, UA and data, and for control messages exactly in a session that we started |
| RfcommSends.CommandsAreAnswered | rfcomm.c:549-1078 | in every run, each SABM and each PN, MSC or RPN command that was taken is answered by the very next act |
| RfcommSends.FramesNameTheirChannel | rfcomm.c:670-860 | in every run, a frame sent for a channel below 32 is about that channel, and SABM, UA and data have its address, control messages that of DLC0 |
| RfcommSends.SabmAnsweredAlone | rfcomm.c:549-561 | SABM for a channel that is there brings UA, both bits, and nothing else |
| RfcommSends.ClientDataAlone | rfcomm.c:568-597 | client data goes to the callback: nothing is sent and no bit changes |
| RfcommSends.DataIsSent | rfcomm.c:1089-1108 | what the client asks to send goes out, once, on an OPEN channel other than DLC0, and nowhere else |
| RfcommBytes.FrameOnWire | rfcomm.c:393-442 | the bytes of every frame that is sent: address with 3 for a command or 1 for a response, type, length, contents, and a check byte with which the register over the first two bytes of UIH frames, three of others, ends at 0xCF |
| RfcommBytes.OwnFramesOnWire | rfcomm.c:670-860 | in every run, the bytes of our SABM, PN, MSC, RPN and data frames for channel n below 32, written out, with the parameters that channel has by then, and with such a check |
| RfcommBytes.TypeRead | rfcomm.c:515-567 | 2F and 3F are SABM, 63 and 73 UA, for the channel in the upper five bits; types other than these and UIH are not handled |
| RfcommBytes.DataRead | rfcomm.c:568-593 | a UIH frame on a channel: a length and so much data, or 128 more from a byte later when the byte behind the length is 1 |
| RfcommBytes.ControlRead | rfcomm.c:598-637 | what is read from the bytes of a PN, MSC or RPN message, command or response, and that other messages are not handled |
| RfcommBytes.AboutWhom | rfcomm.c:890-1078 | the channel a control message is about: the DLCI without its lowest bit for PN, without three for MSC and RPN |
| RfcommProgress.OpenExactly | rfcomm.c:515-659 | from any live outgoing session with a channel that has just been added, against a peer that answers only what was asked, with any other traffic in between: the channel is OPEN if and only if a turn of the loop has come with the link up and the peer's five frames have arrived, its MSC command anywhere |
| RfcommProgress.HandshakeProgress | rfcomm.c:515-659 | for the first channel of a session that turn is DLC0's UA: OPEN if and only if the six frames of the handshake have arrived |
| RfcommProgress.LaterChannelProgress | rfcomm.c:1167-1195 | for a channel opened on a session whose link is up: PN is out if and only if a frame has reached the loop since, before that no command of the channel is, and OPEN if and only if besides the five frames have arrived |
| RfcommProgress.CommandsFollow | rfcomm.c:670-860 | in such a run each of our commands is out exactly when its trigger has arrived |
| RfcommFindings.DocumentedOutgoingOpens | rfcomm.c:46-60 | the outgoing schedule of the source's comment opens the channel with its last frame and not before, wherever the peer's MSC command comes |
| RfcommIncoming.IncomingOpensExactly | rfcomm.c:515-659 | in a session the peer starts, with any other traffic in between, channel n is OPEN if and only if SABM for DLC0, SABM for n, the peer's MSC command and the answers to our PN, MSC and RPN have all arrived, in any order |
| RfcommIncoming.IncomingAsks | rfcomm.c:670-860 | every frame that reaches the loop of such a session brings each of our commands that has become due |
| RfcommIncoming.DocumentedIncomingStaysClosed | rfcomm.c:62-80 | whatever the comment has the peer send, in any number and order, the channel never opens: not even our MSC command goes out |
| RfcommIncoming.WorkingScheduleOpens | rfcomm.c:62-80 | SABM for DLC0 and for n, a PN command, and answers to our PN, MSC and RPN with the peer's MSC command do open it |
| RfcommIncoming.NotBeforeRpn | rfcomm.c:827-858 | no run without an answer to our RPN does |
| RfcommFindings.UnansweredNeverOpens | rfcomm.c:62-80 | against that comment, an incoming channel never opens without answers to our own PN and RPN commands |
| RfcommFindings.OpenWasAnswered | rfcomm.c:670-860 | an OPEN channel received a PN and an RPN answer for its number |
| RfcommFindings.SabmAlias | rfcomm.c:411-415 | our SABM for channel n is byte for byte DLC0's if and only if n is a multiple of 32 |
| RfcommFindings.AddressesDistinct | rfcomm.c:965-981 | while no PN and no client names a channel above 31, no two live channels share an address on the wire and no SABM but DLC0's own reads as DLC0's |
| RfcommFindings.PnAbove31SendsLinkSabm | rfcomm.c:965-981 | a PN command and a PN answer for channel 32 make a live session send a second frame that reads as DLC0's SABM |
| RfcommTable.RfSession.constructor | rfcomm.c:304-320 | an empty session |
| RfcommTable.RfSession.FindChannel | rfcomm.c:332-346 | the first slot with the number, or none |
| RfcommTable.RfSession.AddChannel | rfcomm.c:349-382 | the first free slot, with INCOMING inherited from slot 0; a full table changes nothing |
| RfcommTable.RfSession.SendPacket | rfcomm.c:393-442 | the frame, whose bytes `RfcommBytes.FrameOnWire` writes out with their check, behind the HCI and L2CAP header with handle, remote CID and both lengths, is appended to what is handed down |
| RfcommTable.RfSession.ProcessChannel | rfcomm.c:670-860 | performs Process: at most one command and one bit, and the command names this channel with its parameters (`RfcommSends.FramesAreRight`) |
| RfcommTable.RfSession.ControlModemStatus | rfcomm.c:890-963 | performs the MSC branch |
| RfcommTable.RfSession.ControlParamNegotiation | rfcomm.c:965-1022 | performs the PN branch, adding a channel that is new |
| RfcommTable.RfSession.ControlRemotePortNegotiation | rfcomm.c:1024-1078 | performs the RPN branch |
| RfcommTable.RfSession.RfEventHandler | rfcomm.c:515-659 | from a frame's bytes, performs Handle on the table in place |
| RfcommTable.RfSession.ProcessChannels | rfcomm.c:650-659 | the loop over all slots |
| RfcommTable.RfSession.OpenRFChannel | rfcomm.c:1135-1195 | adds a channel that is not in the table |
| RfcommTable.RfSession.CloseRFChannel | rfcomm.c:1112-1131 | frees the slot |
| RfcommTable.RfSession.SendClientData | rfcomm.c:1089-1108 | sends nothing on DLC0 or on a channel that is not OPEN |
| RfcommTable.RfSession.LinkConnected | rfcomm.c:470-494 | processes DLC0 when the link comes up |
| Transport.StreamDelivered | transport.c:21-81 | for every sequence of event and ACL packets with noise between them, fed byte by byte, each packet is called back once, whole and in order, into the right queue, and deframer and reassembly end where they began |
| Transport.EventDelivered | transport.c:21-81 | one event packet, with or without parameters |
| Transport.AclDelivered | hci.c:351-398 | one ACL packet of at most 65531 bytes of data |
| Transport.NoiseIgnored | transport.c:25-34 | bytes that start no packet change nothing |
| WireFormats.EventOnLine | transport.c:21-81 | 04, an event code, a length n and n bytes queue exactly that event and leave the deframer idle |
| WireFormats.AclOnLine | hci.c:351-398 | 02, a handle, a length n up to 65531, low byte first, and n bytes queue exactly that packet |
| Transport.ChunksDoNotMatter | transport_serial.c:83-121 | how reads cut the byte stream makes no difference |
| TransportDevice.HciReceiver.ReceiveTransport | hci.c:351-398 | performs Deliver on the static reassembly state and the queues |
| TransportDevice.Uart.Receive | transport.c:21-81 | performs Feed on the receive buffer in place |
| TransportDevice.Uart.ReceiveAll | transport_serial.c:83-121 | one read's bytes, in order |
| L2capPackets.SignalRoundTrip | l2cap.c:449-851 | every connection, configuration and disconnection command is read back with handle and identifier from the bytes sent |
| L2capPackets.ClientRoundTrip | l2cap.c:425-449 | client data is read back with handle and CID, for every body a packet holds |
| WireFormats.SignalOnWire | l2cap.c:449-851 | the bytes of each of the six signalling commands, with handle, identifier and all lengths, on CID 1 |
| WireFormats.SignalRead | l2cap.c:449-851 | which command each code from 02 to 07 is, and where its fields are; other codes are not handled |
| WireFormats.ClientRead | l2cap.c:425-449 | a packet on another CID is client data of its L2CAP length |
| L2capSafety.CheckKeeps | l2cap.c:334-409 | checkLcapConnectionState restores the invariant: request sent as soon as due, client told exactly when all four steps are done |
| L2capSafety.StepKeeps | l2cap.c:411-895 | every call into the layer keeps: distinct nonzero CIDs, configuration bits equal to the history, our one config request, the client's knowledge |
| L2capRuns.ToldExactlyWhenOpen | l2cap.c:334-409 | in every run, the client of a live connection has been told if and only if the remote CID, the peer's config request and its config response have come, in any order |
| L2capRuns.CidDrawnOnce | l2cap.c:222-252 | a local CID is drawn for one connection of a device only |
| L2capRuns.FindLocalExact | l2cap.c:199-220 | in every run, findLocalCid returns a slot if and only if it is the connection with that device and CID |
| L2capRuns.RunKeeps | l2cap.c:411-895 | the invariant in every run in which no device has drawn more than 0xFF90 CIDs |
| L2capRuns.CidsRunOut | l2cap.c:222-252 | the next connection gets CID 0, and a slot that still counts as free, if and only if all 0xFF90 were drawn |
| L2capHistory.StepAdds | l2cap.c:411-895 | what any call adds to the history: acts that came are the command of this call for this device, the messages added to what was sent are those of the acts, and a client is told that its connection is open at most once, exactly when the call has an open connection checked |
| L2capMessages.SentIsHistory | l2cap.c:334-895 | in every run, what was sent is exactly the messages of the history, in order |
| L2capMessages.GotFromCalls | l2cap.c:411-851 | in every run, what the history says came for a connection came in a received packet of its device |
| L2capMessages.MessagesAreRight | l2cap.c:334-917 | every message of every run: requests have the PSM and the CIDs of their connection and go to its device; responses have the identifier and handle of a packet received in the same call, a connection response the CID drawn and the peer's with result 0, a config response the remote CID, a disconnection response the two CIDs of the request |
| L2capAnswers.RequestAccepted | l2cap.c:464-531 | a connection request from a known device, for a connection that is not there, with a slot free: exactly one message goes out, with dcid 0x70 plus the CIDs drawn so far, scid the peer's, result 0, the identifier of the request and its handle; and the slot is filled so |
| L2capAnswers.RequestIgnored | l2cap.c:464-531 | with another device, a connection that is there or a full table, nothing is sent and nothing changes |
| L2capAnswers.ConnectResponseTaken | l2cap.c:532-617 | a connection response with result 0 or 1 sets the remote CID, and sends our config request exactly when it is due |
| L2capAnswers.OtherRemoteFails | l2cap.c:532-617 | one with another remote CID than the known one fails the assertion |
| L2capAnswers.ConfigRequestAnswered | l2cap.c:618-687 | a config request is answered once, with result 0 to the remote CID, and our own follows exactly when it is due |
| L2capAnswers.ConfigResponseTaken | l2cap.c:688-711 | a config response is not answered |
| L2capAnswers.DisconnectionAnswered | l2cap.c:800-832 | a disconnection request is answered with its own two CIDs and its slot is free |
| L2capAnswers.DisconnectionDone | l2cap.c:833-851 | a disconnection response frees the slot and nothing is sent |
| L2capAnswers.RefusedAndForbidden | l2cap.c:532-711 | refusals do nothing; flags and bad results of a configuration fail an assertion |
| L2capAnswers.NobodyThere | l2cap.c:199-220 | commands and data for a CID that no connection of the handle's device has do nothing |
| L2capAnswers.NoHandle | hci_events.c:323-334 | a handle whose lower twelve bits are 0 fails an assertion, but for refused connection responses |
| L2capAnswers.DataGoesToClient | l2cap.c:425-447 | client data is handed to the client of its connection as it came |
| L2capAnswers.StartAsks | l2cap.c:857-896 | a connection started on a link asks at once, with its PSM and the CID drawn |
| L2capAnswers.CloseAsks | l2cap.c:898-917 | closing asks for the disconnection of the remote and the local CID |
| L2capAnswers.EveryClientIsTold | l2cap.c:312-332 | when a link is lost every client of its connections is told once, in the order of the slots, and these are gone; on an error they are told that and stay |
| L2capAnswers.EveryPendingIsAsked | l2cap.c:132-161 | when a link comes up every connection waiting for it is asked for once, in order, with identifiers counted up |
| L2capMessages.OneConfigRequest | l2cap.c:340-374 | in every run, at most one config request is sent for a connection in its lifetime, to its remote CID |
| L2capMessages.OpenWasConfigured | l2cap.c:376-409 | in every run, before a client is told CONNECTED, its device has sent a config request and a config response for the connection, our config response has gone out to the remote CID as known then and our config request to a nonzero one, and both CIDs are nonzero |
| L2capMessages.TellsAgain | l2cap.c:580-709 | a client that has been told is told again by a call if and only if the call brings, for that connection, a config request or response that passes the assertions, or a connection response with result 0 or 1 and the known remote CID |
| L2capMessages.TimesToldExactly | l2cap.c:376-409 | in every run, a client is told once, and once more for each such call |
| L2capMessages.ToldOnceIff | l2cap.c:376-409 | a client is told exactly once if and only if no such call follows |
| L2capTable.L2capLayer.constructor | l2cap.c:950-970 | an empty table |
| L2capTable.L2capLayer.FindDeviceByHandle | hci_events.c:323-334 | the first device whose handle has these twelve bits |
| L2capTable.L2capLayer.FindLocalCid | l2cap.c:199-220 | the loop finds what FindLocal defines |
| L2capTable.L2capLayer.FindRemoteCid | l2cap.c:184-197 | the loop finds what FindRemoteFrom defines |
| L2capTable.L2capLayer.AddConnection | l2cap.c:222-252 | the first free slot, with a fresh CID; a full table changes nothing |
| L2capTable.L2capLayer.DeleteConnection | l2cap.c:254-293 | the slot is cleared |
| L2capTable.L2capLayer.CheckLcapConnectionState | l2cap.c:334-409 | performs Check in place |
| L2capTable.L2capLayer.HandleHciData | l2cap.c:411-851 | from a packet's bytes, performs the step of L2cap in place; what that step sends is `L2capAnswers`, message by message |
| L2capTable.L2capLayer.StartPending | l2cap.c:132-161 | the pending connections of a device are asked for |
| L2capTable.L2capLayer.DispatchEvents | l2cap.c:312-332 | every client of a device is told; a disconnection clears its slots |
| L2capTable.L2capLayer.StartLcapConnection | l2cap.c:857-896 | a new connection, asked for at once or marked as waiting for the link |
| L2capTable.L2capLayer.CloseLcapConnection | l2cap.c:898-917 | sends the disconnection request and changes no slot |
| EndToEnd.ChunksReassemble | client.c:94-117 | the chunks of a buffer concatenate to it |
| WireFormats.ChunkSizes | client.c:94-117 | every chunk has 127 bytes but the last, which has 1 to 127 |
| WireFormats.ChunkFrame | rfcomm.c:393-442 | the frame of a chunk, byte by byte, with a check a peer accepts |
| WireFormats.ChunkBytes | rfcomm.c:1089-1108 | and its packet |
| EndToEnd.ChunkHeard | rfcomm.c:549-593 | one chunk's frame calls the client of its channel back exactly once, with the chunk, or, when it starts with 0x01, with 128 bytes more, of which the first are the rest of the chunk and the check byte; and the session goes on |
| EndToEnd.ChunksAreDelivered | client.c:94-117 | chunks framed, put in packets and on the wire, read by the peer in any pieces, call its client back once each, in order, with the deframer idle again |
| EndToEnd.BufferArrivesIff | client.c:94-117 | whatever lies in memory behind the frames, the bytes of those calls run together to the buffer if and only if none of its chunks starts with 0x01 |
| WriteArrives.QueuedIsSent | hci.c:248-257 | packets queued on an idle host are, once its data queue is empty again and nothing was refused, on the wire in order behind the data prefix, whatever commands and events came in between |
| WriteArrives.WrittenIsDelivered | client.c:94-117 | what bt_client_write queues, once sent and read by the peer in any pieces, calls the peer's client back once for each chunk, in order, and leaves the deframer idle |
| ClientWrite.BtClientWrite | client.c:94-117 | the loop puts the packets of the buffer's chunks, header and frame, on the host's data queue, each once and in order, and changes nothing else of the host |
| L2capSend.LcapSendData | l2cap.c:104-114 | with both length fields filled in, the buffer is one whole ACL packet with the handle, CID and body it held |
| HciCredits.DataCredits | hci_events.c:1131-1154 | in every run, data credits plus packets handed over equal one plus the packets completed, modulo the 16-bit counter, and exactly while fewer than 65535 were completed |
| HciCredits.CommandCredits | hci.c:236-246 | in every run, commands sent since the last status or complete event stay within the credit it granted |
| HciCredits.QueuesInOrder | hci.c:236-257 | what left each queue is a prefix of what entered it, and the wire carries what left, in order, without what the transport refused |
| HciCredits.SentUnlessRefused | hci.c:236-257 | unless the transport refuses one, all that left the queues was handed over |
| HciCredits.DataOnWire | hci.c:42-66 | the data packets on the wire are those sent from the data queue, each behind the data prefix |
| Hci.CreditsReported | hci_events.c:1131-1154 | an event that lists handle and count in turn, as the standard does, is credited with its own counts when it has one entry; with two, if and only if the second handle equals the first count |
| HciFormats.CompleteRead | hci_events.c:606-625 | the bytes of a command complete event are read as credit, opcode (low byte first), status and length |
| HciFormats.StatusRead | hci_events.c:606-625 | those of a command status event as the credit |
| HciFormats.CompletedRead | hci_events.c:1131-1154 | those of a completed-packets event, all handles and then all counts, as these counts |
| HciFormats.OtherEvents | hci_events.c:579-660 | other codes do nothing here; cut short, these three fail |
| HciFormats.Credits | hci_events.c:606-620 | what each event and each packet handed over does to the two credits |
| HciFormats.DataCreditsOfEvents | hci_events.c:1131-1154 | in every run, data credits and data packets sent, counted off the trace, add up to one and the counts of the events received, modulo 2^16 and exactly below 65535 |
| HciFormats.CommandCreditsOfEvents | hci.c:236-246 | in every run, command credits and the commands sent since the last event that granted some add up to that grant |
| HciFormats.CommandLoopEmpties | hci.c:236-246 | unless the transport refuses, the loop goes on until its queue is empty or its credit used up |
| HciFormats.DataLoopEmpties | hci.c:248-257 | so does the other |
| HciCredits.RunKeeps | hci.c:210-261 | the books agree with credits and queues after any calls and events |
| BringUp.CompletionFollows | hci_events.c:579-660 | the completion of command k of the script queues command k + 1, sets the flags due then and moves the offset by one record |
| HciFormats.ScriptBytes | hci_events.c:357-577 | every command from reset to set up, byte by byte |
| HciFormats.RecordBytes | hci_events.c:523-560 | what a record of the image is in bytes |
| HciFormats.PrefixBytes | hci.c:42-66 | on the wire commands stand behind 01 and data packets behind 02 |
| HciFormats.CompletionInBytes | hci_events.c:579-660 | the completion event of the command that is outstanding, as bytes with its opcode, queues exactly the next command of the script and takes the host to the next phase |
| BringUp.FollowsTheScript | hci_events.c:523-577 | in every run, for every image of WRITE_RAM records and one LAUNCH_RAM record: no assertion fails, at most one command is outstanding, the commands queued are the script so far, those on the wire are the script up to at most one beyond what completed, and the records queued concatenate to the image up to the offset |
| BringUp.SetUpExactly | hci_events.c:357-518 | the vendor flag is set exactly after the records and two commands more completed, the base flag exactly seven later, and the whole image is out by then |
| BringUp.SetUpReached | hci_events.c:579-660 | a controller that completes each command takes the host through the whole script, three moves a command |
| BringUp.NeverIdle | hci_events.c:579-660 | in every run without an error or a refused send, exactly one command is outstanding until the script is done, and none after |
| BringUp.ErrorHalts | hci_events.c:610-620 | after a completion with an error nothing more is ever sent |
| BringUp.SecondReset | hci_events.c:523-560 | after any run, the completions of another reset and of the driver download it asks for fail the assertion on the firmware offset if and only if the whole image has been queued; before that the download goes on with the next record instead of the first |
| BringUp.SecondResetFails | hci_events.c:628-637 | so once the host is set up, a second reset always fails |
| BringUp.RecordLeftIff | hci_events.c:523-560 | a completion passes the assertions on the offset if and only if a whole record is left |
| HciDevice.HciContext.constructor | hci.c:527-556 | one credit each, nothing set up |
| HciDevice.HciContext.HciSendCommand | hci.c:95-109 | fills in the length byte and appends to the command queue |
| HciDevice.HciContext.HciSendData | hci.c:111-120 | appends to the data queue |
| HciDevice.HciContext.SendCommands | hci.c:236-246 | the loop performs DrainCommands |
| HciDevice.HciContext.SendPackets | hci.c:248-257 | the loop performs DrainData |
| HciDevice.HciContext.FetchRecord | hci_events.c:538-551 | copies exactly the next whole record, or fails |
| HciDevice.HciContext.VendorCommandComplete | hci_events.c:523-577 | performs Vendor in place |
| HciDevice.HciContext.BaseCommandComplete | hci_events.c:357-518 | performs Base in place |
| HciDevice.HciContext.AddCounts | hci_events.c:1131-1154 | the loop adds up all counts of the event, modulo 2^16 |
| HciDevice.HciContext.ProcessEvent | hci_events.c:579-660 | from an event's bytes, which `HciFormats` writes out, performs Process |
| QueueDevices.RunQueue | btQueue.c:48-80 | under every sequence of operations with new buffers, the linked list keeps mutually inverse, acyclic links, holds and hands out exactly what an unbounded first-in first-out queue does, and loses and reorders nothing |
| QueueDevices.BtQueue.EnqueueBuffer | btQueue.c:48-60 | the buffer goes to the end; the list keeps mutually inverse, acyclic links if and only if the buffer came with none, as a created one does |
| QueueDevices.BtQueue.Dequeue | btQueue.c:65-80 | the first buffer leaves, the rest stay linked; null when empty |
| Rings.TxRingIsFifo | transport_serial.c:158-208 | under every interleaving of sends and takes the TX ring is a queue of capacity 16 for packets of at most 260 bytes: what it accepted is what it delivered and then holds, with tail = head + count modulo 16 |
| Rings.HidRingIsFifo | client.c:193-248 | under every sequence of writes and reads the HID ring is a queue of capacity 40: what it accepted is what was read and then waits |
| Rings.FullFlagDecides | client.c:200-208 | when head meets tail, the flag alone tells 40 reports from none |
| Rings.TxQueuesIff | transport_serial.c:185-212 | a packet is queued exactly when it has at most 260 bytes and fewer than 16 wait |
| Rings.HidQueuesIff | client.c:210-229 | a report of 12 bytes is queued exactly when fewer than 40 wait |
| QueueDevices.TxQueue.SerialSend | transport_serial.c:185-212 | appends the packet, or refuses one that is too long or finds the ring full |
| QueueDevices.TxQueue.TakeItem | transport_serial.c:158-173 | takes the oldest packet |
| QueueDevices.CircularBuffer.Write | client.c:210-229 | appends the report unless 40 wait |
| QueueDevices.CircularBuffer.Read | client.c:232-248 | takes the oldest report |

## Left out

- The bytes of memory past a buffer: what the program prints for a string that runs over its frame (`Refused`
  by the parser), and the tail of a data frame that claims more bytes than it has (`Overrun` with the claimed
  length and the known bytes; `EndToEnd.BufferArrivesIff` holds for every tail).
- Buffers shorter than the fields a handler reads are ignored (or `BadEvent`); an MSC message with a
  length other than 2 or 3 and a short RPN message are `Control`.
- RfcommOrder.TableTheorem: does not say that live channels point back to their session; there is one session, and
  a slot that is `Channel` belongs to it.
- The table of RFCOMM sessions and the choice of a session by connection: lookups by pointer that add nothing.
- RfcommTable.RfSession.OpenRFChannel: starts from a session; the branch that starts a connection and a session is
  `NewOutgoing`, and an L2CAP connection is started by `L2capTable.L2capLayer.StartLcapConnection`.
- RfcommTable.RfSession.LinkConnected: for a session that is there; the one an incoming connection creates is `NewIncoming`.
- A frame for a new channel when all five slots are taken is dropped; the program goes on with a null pointer.
- RfcommTable.RfSession.ControlModemStatus: does not keep the remote signals the program stores; nothing reads them.
- DISC and DM: the program neither sends nor handles them.
- SdpRequester.SdpRequest.constructor: leaves out the table of requests, findRequest and the start of the connection.
- SdpRequester.SdpRequest.LcapData: running out of frames (`NoRoom`) and a token too long for the packet (`TooLong`) end the
  exchange; the program writes past its arrays there.
- SDP server side: answering a peer's requests.
- Transport.StreamDelivered: does not cover ACL packets with more than 65531 bytes of data, whose length the program cuts
  to 16 bits; the step itself models the cut.
- L2capRuns.RunKeeps: stops when a device has given out 0xFF90 CIDs; `CidsRunOut` says what comes then.
- L2capTable.L2capLayer.HandleHciData: leaves out information requests, command rejects and the option bytes of received config
  requests, which are answered with constants or only logged.
- Which PSM has a client is fixed from the start; clients answer events by later calls.
- WriteArrives.WrittenIsDelivered: one connection and one channel; both ends use the same handle and CID, which in a
  real pair of controllers are translated. Packets cut by a controller into several ACL packets are not
  put together by the program either.
- ClientWrite.BtClientWrite: one channel; the program repeats it for each open channel.
- HciDevice.HciContext.HciSendData: takes a packet whose length field is right; hci_send_data's own write of it is part of
  `L2capSend.LcapSendData`.
- HciCredits.QueuesInOrder: ends at the hand-over to the transport; with its ring full, `serial_send` refuses
  a packet and the program reports success all the same.
- In bring-up: events of other kinds and commands of clients before set-up; the 250 ms pause after launching.
- Pairing, inquiry, encryption and device names: mostly one reply an event.
- HID, resource manager, message passing, console and applications; logging and name tables.
- Threads: only the TX ring is shared, and its operations are taken in the order they get the lock.
- Failing memory allocation.
