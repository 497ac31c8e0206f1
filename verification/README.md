# Protocol models of the NETGEAR switch library

The library drives NETGEAR switches over SNMP, NSDP and the FASTPATH command line. This
project models the parts of it that are protocols: the byte codecs, the stream decoders, and
the machines that ask, act, wait and check. Each is modelled in the form the source has it
(loops over buffers as loops, objects that change as classes, expressions as functions), and each
is proved to keep what the repository's code, comments and tests promise of it, on all the
inputs they promise it for.

`dafny verify dfyconfig.toml` checks everything.

| part | files | main results |
|---|---|---|
| SNMP subtree walk | `OidText`, `SubtreeWalk` | exact against an agent that conforms, safe and terminating against any |
| Telnet filter | `TelnetStream`, `TelnetGrammar`, `TelnetFilter` | the decoding does not depend on how bytes arrive or on read sizes; writing and reading are inverse |
| Shell protocol, both ends | `ShellText`, `ShellSession` | client and listener never lose step, however the text is cut up |
| Shell commands that ask back | `ShellDialogue` | every answer is called for; a switch that waits for its answers gets all of them |
| Configuration modes | `ModeStack`, `WriterModes`, `WriterShell` | the mode stack ends as it began, whatever the switch refuses, for every operation of the writer; over the shell, as long as no line of the caller's text is a mode command |
| Configuration commands | `CliCommands` | the writer's command lists, read by the switch's own patterns, do what was asked for and nothing else |
| NSDP packets | `NsdpCodec`, `NsdpVectors` | round trip if and only if encodable; re-encoding is canonical; the bytes by their places, and the published vectors |
| NSDP devices | `NsdpDevice`, `NsdpReport`, `NsdpVlan` | whatever a device says of itself is read as it was said; the order of TLVs with different tags does not matter; VLAN bitmaps round trip if and only if the ports fit |
| NSDP writes | `NsdpAuth`, `NsdpSwitch`, `NsdpProtocol`, `NsdpClient`, `NsdpReader`, `NsdpWriter` | every write matches the live salt; each VLAN operation is exact, whatever the network loses |
| PoE re-arm | `PoeRearm`, `PoeRuns` | order of the SETs, a timeout exactly when every poll fell short, bounded polling |
| Bitmaps | `Bits`, `PortBitmap`, `VlanMembership` | decoding and encoding are inverse; one bit changes and no other |
| Tables, names, speeds | `TableSlicer`, `PortNaming` | what is printed is read back |

`Prelude`, `Decimal` and `Whitespace` hold what the others share: Go's integer widths,
`strconv`'s decimal numbers and `strings.TrimSpace`.

## How the outside is modelled

Peers are part of the model, not assumptions about it: the NSDP switch is the repository's own
virtual switch (`virtual/nsdpface.go`, `virtual/state.go`), the shell server is its listener
(`virtual/cli_socket.go`). An SNMP agent is any sequence of responses; one that conforms answers
as section 4.2.3 of RFC 3416 says. A network loses requests and replies as it likes, and may
deliver a stray datagram; a byte channel cuts its text anywhere. A clock, a PoE port and a link
are functions of what was done so far. Transport failures are values that an operation receives.

Bytes are integers below 256, Go strings are sequences of bytes or of ASCII characters,
and Go's `int` is 64 bits wide. Each regular expression is a predicate written for it;
those of prompts, dialogues, rulers and port names also have their textbook meaning, and the two are
proved equal. What two sides of a protocol share, a codec or a password token, is also stated in the
protocol's own numbers, so that neither side only agrees with the other.

## Where the code differs from what is said about it

* Telnet `Read` is documented to drain what is buffered "without blocking again". When the buffer
  ends in the middle of a command it does block; `TelnetConn.Read` says exactly when, and
  `WaitsWithDataAtHand` gives an input. A read that fails in the middle of a command makes the
  decoder forget it, so that its rest is taken for data (`BreakInsideCorrupts`); a failed read is
  harmless if and only if it falls between commands (`HarmlessIff`).
* `Walk` compares the spelling of names, so it finds nothing below a base that is not spelt as
  the agent spells it, `1.03` say (`PaddedBaseFindsNothing`). Exactness holds for any base, with
  that condition in it.
* `portsToBitmap` and `EncodePortBitmap` drop the port numbers from -6 to 0 without a word, and panic
  below that: Go's division truncates towards zero. Decoding restores what was encoded exactly
  without them (`DecodeEncoded`).
* A VLAN_MEMBERS TLV for a port past the bitmap's width shifts the tagged bitmap out of place
  (`PortPastWidthShiftsTagged`).
* `DeleteVlan` truncates the id when it writes and not when it verifies, so that deleting 65537
  destroys VLAN 1 and reports success (`DeletesVlanOne`; `DeleteIsExact` says exactly when).
* `CreateVlan` sends two commands, and the switch takes a name of one word only: with any other name the
  VLAN is made and the name refused (`CreateBody`). The membership commands are accepted without effect on
  a port that is not in general mode (`AcceptedWithoutEffect`), which the read-back finds.
* The command writers put VLAN names, descriptions, hostnames and collector addresses into commands
  as they are (`formatOne`, `fastpath/spec.go:226-228`; `fastpath/writer.go:314-330`), `Run` sends a
  command as it is (`fastpath/session.go:292-304`), and the listener serves each of its lines as a
  command of its own (`virtual/cli_socket.go:80-124`). A text with a line break can therefore leave
  the mode it was entered in: creating VLAN 10 with a name of four lines ends in configuration
  (`NameOfFourLines`). A command leaves every mode stack alone if and only if none of the lines that are
  served of it is a mode command (`SparesIff`); a text of one line is always safe
  (`OneLineIsHarmless`). `WriterShell.Write` is balanced under that condition,
  `WriterModes.WriteInProcess`, on a face that is handed whole commands, under none.

## Model

| member | source | states |
|---|---|---|
| SubtreeWalk.Walk | snmp/gosnmp.go:204-265 | against any agent: rows inside the subtree in strictly increasing order, requests that strictly increase, termination, and the response it stops at; against a conforming agent: one row that shows it for each entry below base, in MIB order and no other, or the error for an undecodable type among them |
| SubtreeWalk.TakeTurn | snmp/gosnmp.go:222-263 | one round of the loop: transport error, error-status, empty page, stop or move on |
| SubtreeWalk.TakePage | snmp/gosnmp.go:235-258 | the inner loop: which rows a page adds, where the position is after it, what ends or fails it |
| SubtreeWalk.ScanIsSafe | snmp/gosnmp.go:235-263 | whatever a page holds, rows stay in order and in the subtree, and a page that does not end the walk moves it strictly forward to its own last name |
| SubtreeWalk.TurnIsSafe | snmp/gosnmp.go:221-264 | the same for a whole round, with a measure on OIDs that strictly grows: the walk terminates |
| SubtreeWalk.ScanConforms | snmp/gosnmp.go:235-263 | a page of a conforming agent keeps the walk in step with the MIB, ends it with nothing missing, or meets an undecodable type |
| SubtreeWalk.TurnConforms | snmp/gosnmp.go:221-264 | the same for a whole round |
| SubtreeWalk.RoundExact | snmp/gosnmp.go:221-265 | ... and so each way a round can end the walk is the right result |
| SubtreeWalk.NoneAfter | snmp/gosnmp.go:241-244 | once an entry is past the subtree, no later entry is in it: stopping loses nothing |
| SubtreeWalk.EntryDepicted | snmp/gosnmp.go:448-523 | every type but an unsupported one has a row, and it shows the entry: octets as their characters if all are printable and raw otherwise, numbers under their type's name, texts without leading dots |
| SubtreeWalk.RowsList | snmp/gosnmp.go:235-258 | the rows a walk collects show the entries below base, each once and in order |
| SubtreeWalk.PlaceIncreases | snmp/gosnmp.go:249-251 | strictly increasing OIDs of bounded size strictly increase a bounded number |
| OidText.SubtreeContiguous | snmp/gosnmp.go:241-251 | a subtree is contiguous in lexicographic order |
| OidText.PrefixTest | snmp/gosnmp.go:211-244 | the textual prefix test is the numeric subtree test if and only if base is spelt canonically |
| OidText.PaddedIsNotCanonical | snmp/gosnmp.go:211-213 | 1.03 denotes 1.3 and is not spelt canonically |
| SubtreeWalk.PaddedBaseFindsNothing | snmp/gosnmp.go:204-265 | a walk of it, run against an agent that conforms and holds an entry below 1.3, returns nothing |
| OidText.WalkOidInts | snmp/gosnmp.go:273-288 | the numbers of a dotted OID, or a refusal |
| OidText.RenderParses | snmp/gosnmp.go:267-288 | an agent's spelling, with or without a leading dot, is read back |
| OidText.LessTotal | snmp/gosnmp.go:249-251 | the comparison is a strict total order |
| OidText.LessWhereTheyPart | snmp/gosnmp.go:249-251 | two OIDs are ordered by the first number in which they differ |
| TelnetFilter.Drain | fastpath/telnet.go:143-188 | for any stream, arrivals, read sizes and failed reads: exactly the stream's data, and exactly its refusals in order |
| TelnetFilter.TelnetConn.Read | fastpath/telnet.go:143-188 | nothing lost or reordered; data or an error, never neither; and exactly when the socket is read again with data at hand |
| TelnetFilter.TelnetConn.ReadInto | fastpath/telnet.go:148-186 | one turn of the loop: at most one byte more, and whether to look on |
| TelnetFilter.WaitsWithDataAtHand | fastpath/telnet.go:135-142 | an input on which Read blocks with data at hand |
| TelnetFilter.TelnetConn.ReadDatum | fastpath/telnet.go:149-175 | one data byte or one command consumed, the rest of the stream owed |
| TelnetFilter.TelnetConn.HandleIAC | fastpath/telnet.go:195-216 | a literal exactly for IAC IAC; every other sequence consumed whole |
| TelnetFilter.TelnetConn.Negotiate | fastpath/telnet.go:203-208 | the option octet consumed, the refusal sent |
| TelnetFilter.TelnetConn.Refuse | fastpath/telnet.go:224-236 | WONT for DO, DONT for WILL, nothing otherwise |
| TelnetFilter.TelnetConn.SkipSubnegotiation | fastpath/telnet.go:241-260 | a block discarded up to IAC SE |
| TelnetFilter.TelnetConn.ReadByte | fastpath/telnet.go:131-133 | bufio's ReadByte: a socket read only when the buffer is empty |
| TelnetFilter.TelnetConn.Write | fastpath/telnet.go:264-283 | the bytes sent are the escaped data, on both paths; the count reported is the caller's, or of a failed write the socket's own if nothing was escaped, and else none |
| TelnetFilter.ReadUntil | fastpath/telnet.go:339-354 | stops at the first read by which the text has been seen, and loses nothing |
| TelnetGrammar.WriteThenRead | fastpath/telnet.go:143-283 | what Write sends decodes to what was written, with no reply |
| TelnetGrammar.ReadTokens | fastpath/telnet.go:143-260 | every stream of well-formed RFC 854 and RFC 855 units, in the octets of those RFCs, is read as its grammar says |
| TelnetGrammar.HarmlessIff | fastpath/telnet.go:143-260 | a failed read changes nothing, whatever follows, if and only if the stream before it ends between sequences |
| TelnetGrammar.BreaksBetweenIff | fastpath/telnet.go:143-260 | so the failed reads of a stream are all between sequences if and only if each is harmless where it stands |
| TelnetGrammar.BreaksBetweenAreHarmless | fastpath/telnet.go:151-168 | and then all of them together change nothing |
| TelnetGrammar.BreakInsideCorrupts | fastpath/telnet.go:195-208 | one inside a sequence turns a negotiation into data and leaves it unanswered |
| TelnetStream.DataConcat | fastpath/telnet.go:143-260 | decoding a stream is decoding its parts in turn |
| ShellSession.RunAll | fastpath/session.go:292-304 | any sequence of commands: each Run returns its own output, and nothing is left in the pipe |
| ShellSession.Driver.Run | fastpath/session.go:292-304 | its own output, newline-normalised and trimmed, for any chunking within maxReads; an error past it |
| ShellSession.Driver.Setup | fastpath/session.go:260-288 | the banner, enable, the password if and only if the answer ends in asking for it, paging off: idle afterwards, in the state these lead to |
| ShellSession.QuietSetup | fastpath/session.go:260-288 | quiet texts are read to their ends, and no password is asked for |
| ShellSession.AskingSetup | fastpath/session.go:260-288 | a switch that asks for the password is given it, and the setup goes on |
| ShellSession.StopsMeaning | fastpath/session.go:226-250 | reading stops at a match of the prompt's expression, or of the password's where that is expected |
| ShellSession.Driver.ReadUntil | fastpath/session.go:226-250 | what it returns ends in a prompt and is all that was sent up to there |
| ShellSession.Driver.Exchange | fastpath/session.go:215-250 | a line out and its whole response back |
| ShellSession.Pipe.Listen | virtual/cli_socket.go:80-124 | every complete line is echoed, run, answered and followed by a prompt, in order |
| ShellSession.Pipe.Close | virtual/cli_socket.go:80-124 | at the end a last line without a line break is served too |
| ShellSession.CliPromptIsPrompt | virtual/cli_socket.go:52-67 | every mode's prompt is one the client recognises |
| ShellSession.CliPromptText | virtual/cli_socket.go:52-67 | the model's key, the mode's word, and the mark |
| ShellText.PromptMeaning | fastpath/session.go:68 | the prompt test is the regular expression's language |
| ShellText.PasswordMeaning | fastpath/session.go:72 | the password test is the regular expression's language |
| ShellText.TrimBreaksMeaning | fastpath/session.go:444-455 | line breaks are cut off at both ends, all of them and nothing else |
| ShellText.CleanOutput | fastpath/session.go:444-455 | cleaning, on lines |
| ShellText.CleanResponse | fastpath/session.go:444-455 | cleaning a response of the listener gives back the output |
| ShellText.UnmarkedIsQuiet | fastpath/session.go:68 | text without a prompt character before its end cannot be taken for a prompt |
| ShellDialogue.Converse | fastpath/session.go:319-367 | any switch: every answer is called for, the transcript is all that was said, success needs a prompt or a report; one that waits for its answers gets them all and is heard to the end |
| ShellDialogue.RunScpCopy | fastpath/session.go:312-367 | host key, password and confirmation each answered once per question, never after a failure was reported |
| ShellDialogue.HostKeyMeaning | fastpath/session.go:92 | the host key test is the regular expression's language |
| ShellDialogue.PasswordQuestionMeaning | fastpath/session.go:93 | ... and so for the password |
| ShellDialogue.ConfirmMeaning | fastpath/session.go:94 | ... the confirmation |
| ShellDialogue.SuccessMeaning | fastpath/session.go:95 | ... the report of success |
| ShellDialogue.FailureMeaning | fastpath/session.go:96 | ... and that of failure |
| ShellDialogue.RunWriteMemory | fastpath/session.go:379-425 | success is a prompt and nothing else; a confirmation sent ahead is not sent again |
| ModeStack.InMode | fastpath/session.go:494-513 | the commands issued are a prefix of enter and body, then one exit per accepted enter; the error is the first refusal |
| ModeStack.BalancedInMode | fastpath/session.go:494-513 | the device's mode stack ends as it began |
| ModeStack.Balanced | virtual/cliface.go:511-668 | ... for any history, refusals and device that refuses aloud |
| ModeStack.RunChecked | fastpath/session.go:466-475 | any text back is a refusal |
| ModeStack.Issue | fastpath/session.go:501-511 | commands go out until the first that is not accepted |
| ModeStack.Unwind | fastpath/session.go:496-500 | as many exits as levels entered, whatever they answer |
| ModeStack.WriterCommands | virtual/cliface.go:514-651 | the writer's own enter and exit commands are what the device takes them for |
| ModeStack.ClassifyMeaning | virtual/cliface.go:68-73 | which texts are mode commands, and which |
| ModeStack.NestingsReached | virtual/cliface.go:511-651 | whatever is sent, modes are nested in five ways only |
| ModeStack.VerdictMeaning | fastpath/session.go:466-475 | accepted means nothing but white space came back; what else came back is reported with the command |
| WriterModes.WriteInProcess | fastpath/writer.go:314-463 | every operation of the writer, on a virtual command line that is handed whole commands, leaves the mode stack as it was and returns the first refusal |
| WriterModes.BodyPlain | fastpath/spec.go:257-462 | no body command, taken whole, is a mode command, whatever names and texts are put in it |
| WriterModes.EntryEnters | fastpath/writer.go:432-437 | every entry command enters a mode |
| WriterModes.CliRefusesAloud | virtual/cliface.go:511-752 | the virtual command line never refuses a mode command in silence |
| CliCommands.MembershipBody | virtual/cliface.go:417-456 | the membership commands, as the switch reads them, give the port the mode asked for; no other port's mode and no other VLAN changes |
| CliCommands.AcceptedWithoutEffect | virtual/cliface.go:424-427 | on a port that is not general all of them are accepted and nothing happens |
| CliCommands.PvidBody | virtual/cliface.go:457-467 | the port's PVID and no other; a VLAN that is not there is refused |
| CliCommands.CreateBody | virtual/cliface.go:325-346 | the VLAN is there, its members kept if it was; it has the name asked for if that is one word, white space at its end aside, and otherwise the name is refused after the VLAN was made |
| CliCommands.DeleteBody | virtual/cliface.go:347-366 | the VLAN is gone and its PVIDs are 1; VLAN 1 and an absent one are refused |
| CliCommands.SpeedBody | virtual/cliface.go:478-489 | every rate and duplex is accepted, and the mode stored is read back as what was asked for |
| CliCommands.AutoBody | virtual/cliface.go:474-477 | ... and so for auto-negotiation |
| CliCommands.DescribeBody | virtual/cliface.go:490-502 | the text is stored whole, an empty one clears the label, and one with a quote in it is refused |
| CliCommands.FlowBody | virtual/cliface.go:468-473 | flow control is on or off as asked |
| CliCommands.EnabledBody | virtual/cliface.go:397-416 | the port is up or down as asked, and not the reverse |
| CliCommands.HostnameBody | virtual/cliface.go:561-570 | which names are taken, and as what; as they are exactly if they have no blank or quote at their ends |
| CliCommands.SyslogBody | virtual/cliface.go:571-579 | remote logging is on or off as asked |
| CliCommands.PoeBody | virtual/cliface.go:390-396 | power is on or off as asked, on a model that has it |
| CliCommands.CollectorBody | virtual/cliface.go:580-614 | one collector more, with the address, port and severity asked for, at an index above every other |
| CliCommands.RemoveBody | virtual/cliface.go:618-641 | the first collector of the index goes and the others keep theirs; refused if there is none |
| CliCommands.SeverityReads | model/types.go:417-508 | every severity's word is read back as it |
| WriterShell.Write | fastpath/writer.go:314-463 | every operation, over the shell and whatever is heard of its body: the mode stack ends as it began if no line served of the body is a mode command, and so if the caller's text is one line; where every answer is clear, the first refusal is the error and the session is idle |
| WriterShell.SparesIff | virtual/cli_socket.go:80-124 | sent to the listener, a command leaves every mode stack alone if and only if no line served of it is a mode command that is accepted somewhere |
| WriterShell.NeutralIff | virtual/cliface.go:511-668 | any list of commands leaves every mode stack alone if and only if none of them is such a command |
| WriterShell.OneLineIsHarmless | fastpath/spec.go:226-462 | a text of one line puts no mode command among the lines served, for every operation |
| WriterShell.NameOfFourLines | fastpath/writer.go:314-330 | creating VLAN 10 with a name of four lines: the bytes, as served, end in configuration and not at the top |
| WriterShell.InMode | fastpath/session.go:494-513 | what the listener has run, in lines, whatever is heard of the body; and where every answer is clear, just what inMode promises |
| WriterShell.BalancedInMode | fastpath/session.go:494-513 | the same as an effect on the mode stack |
| WriterShell.Issue | fastpath/session.go:501-511 | the listener has run the lines of the commands issued; the client stops at the first that is not accepted |
| WriterShell.RunChecked | fastpath/session.go:466-475 | a clear command is judged by what the face answered |
| WriterShell.Serves | virtual/cli_socket.go:80-124 | the listener runs the complete lines of its input, in order |
| WriterShell.SeenBlank | fastpath/session.go:444-475 | cleaning turns no answer into silence, and no silence into an answer |
| WriterShell.ModeCommandClear | virtual/cliface.go:511-668 | a mode command is read to its end in every state, for names without prompt characters |
| NsdpCodec.RoundTripIff | nsdp/protocol.go:296-380 | a packet survives encoding and decoding if and only if it is encodable |
| NsdpCodec.PacketRoundTrip | nsdp/protocol.go:296-380 | ... with any number of TLVs |
| NsdpCodec.ReencodingIsCanonical | nsdp/protocol.go:335-380 | re-encoding a decoded packet restores the bytes consumed, with the reserved bytes zeroed |
| NsdpCodec.DecodedIsEncodable | nsdp/protocol.go:335-380 | every decoded packet can be encoded |
| NsdpCodec.TlvRoundTrip | nsdp/protocol.go:212-239 | a TLV in front of anything is read back, if its length fits 16 bits |
| NsdpCodec.EncodePacket | nsdp/protocol.go:296-328 | header bytes in place, then the TLVs and the end marker |
| NsdpCodec.DecodePacket | nsdp/protocol.go:335-380 | the offset loop, its errors and its end |
| NsdpVectors.PacketLayout | nsdp/protocol.go:296-328 | encoding fails exactly for a MAC longer than six bytes; otherwise every field is at its place, in big-endian numbers, a short MAC followed by zeros |
| NsdpVectors.TlvLayout | nsdp/protocol.go:212-221 | a TLV's tag, length and value by their places |
| NsdpVectors.GoldenRead | nsdp/protocol_test.go:402-428 | the bytes of the repository's read vector |
| NsdpVectors.GoldenWrite | nsdp/protocol_test.go:430-475 | the bytes of its write vector, password and all |
| NsdpDevice.OrderIndependent | nsdp/parse.go:282-463 | permuting TLVs, equal tags kept in order, keeps success or failure and the device |
| NsdpReport.ReportReadsBack | nsdp/parse.go:282-463 | any device, reported in TLVs of the protocol's numbers and in any order of tags, is read as it was said: every field, every row of every table, the MAC from its own TLV or the header |
| NsdpReport.RefusedMeaning | nsdp/parse.go:310-425 | a TLV is refused exactly when the parser of its tag refuses its value, an empty VLAN engine aside |
| NsdpReport.TextMeaning | nsdp/parse.go:144-156 | ASCII as it is, one replacement character for any other byte, no NUL at the end |
| NsdpReport.MacMeaning | nsdp/parse.go:37-43 | six bytes, as the one text that spells them |
| NsdpReport.IPv4Meaning | nsdp/parse.go:26-31 | four bytes, as the dotted numbers they are |
| NsdpReport.Get64Meaning | nsdp/parse.go:81-91 | counters are big-endian |
| NsdpDevice.WidthMeaning | nsdp/parse.go:206-207 | a bit for every port, and no octet to spare |
| NsdpDevice.SwapNeighbours | nsdp/parse.go:282-463 | any two neighbours with different tags may change places |
| NsdpDevice.ParseDevice | nsdp/parse.go:282-463 | the two passes give what is specified tag by tag: the last value of a scalar, every value of a table, one malformed value refuses all |
| NsdpDevice.FindPortCount | nsdp/parse.go:282-288 | the last port count wins, wherever it stands |
| NsdpVlan.VlanMembersRoundTripIff | nsdp/write.go:121-131 | the builder and the parser are inverse if and only if every port is within the width |
| NsdpVlan.PortPastWidthShiftsTagged | nsdp/write.go:121-131 | one port past the width: another port is reported tagged |
| NsdpVlan.ParsedWithin | nsdp/parse.go:206-220 | parsing never reports a port past the width |
| NsdpAuth.EncodePasswordV1 | nsdp/auth.go:37-53 | ASCII only, XORed with the repeating key |
| NsdpAuth.XorKeyTwice | nsdp/auth.go:37-53 | the encoding is its own inverse |
| NsdpAuth.EncpassIsV2 | nsdp/auth.go:76-89 | what the shifting 64-bit accumulator computes, on values of any length |
| NsdpVectors.KnownToken | nsdp/auth_v2_test.go:15-26 | the token of the published vector |
| NsdpVectors.KeyText | nsdp/auth.go:37-53 | the key of version 1 spells the documented text |
| NsdpAuth.SaltReaches | nsdp/auth.go:104-134 | changing one byte of the salt by x changes just the token bytes it enters, each by x |
| NsdpAuth.MacReaches | nsdp/auth.go:104-134 | ... and so for the MAC |
| NsdpAuth.PasswordReaches | nsdp/auth.go:104-134 | ... and for the password's first twenty bytes, the bytes past which do not matter |
| NsdpAuth.PaddingIsZero | nsdp/auth.go:104-134 | a password is the same as itself with zeros after it |
| NsdpAuth.ZeroToken | nsdp/auth.go:104-134 | nothing comes of nothing |
| NsdpSwitch.ServeSane | virtual/nsdpface.go:217-386 | whatever arrives, the switch stays well-formed and keeps identity, password and scheme |
| NsdpSwitch.ReplyEncodable | virtual/nsdpface.go:217-386 | every reply can be put on the wire |
| NsdpSwitch.LockoutLadder | virtual/nsdpface.go:302-386 | in any run of reads and of writes without the right token: nothing changes, three errors, three lockouts, then silence; and the right token is accepted, and what it leads applied, if and only if fewer than six writes failed |
| NsdpProtocol.ServedOperations | virtual/nsdpface.go:217-235 | operation 1 is answered by 2 and 3 by 4, to who asked and under its sequence number; anything else is dropped |
| NsdpProtocol.SaltsDiffer | virtual/nsdpface.go:71-80 | two challenges are the same only if the counter was |
| NsdpProtocol.SelectorRead | virtual/nsdpface.go:236-285 | the scheme selector's bytes |
| NsdpProtocol.PlainRead | virtual/nsdpface.go:236-285 | asked for what it is and holds, the switch says that and does not change |
| NsdpProtocol.UnreadableRefused | virtual/nsdpface.go:269-284 | a sole tag that cannot be read is refused by name, with error 3 |
| NsdpProtocol.CredentialsByNumber | virtual/nsdpface.go:302-386 | what the switch holds each credential's tag to |
| NsdpProtocol.WriteReplyBare | virtual/nsdpface.go:302-386 | the answer to a write carries nothing, and blames a tag only where a version 2 credential is refused |
| NsdpProtocol.PvidWritten | virtual/state.go:2113-2117 | tag 0x3000: one port's PVID |
| NsdpProtocol.VlanWritten | virtual/state.go:2118-2137 | tag 0x2800: one VLAN; members not tagged are untagged |
| NsdpProtocol.VlanDestroyed | virtual/state.go:2183-2205 | tag 0x2C00: the VLAN is gone, and its ports' PVIDs are 1 |
| NsdpProtocol.OthersPassedOver | virtual/state.go:2111-2218 | any other tag the model knows nothing of, and any value too short, changes nothing |
| NsdpClient.Session | nsdp/client.go:376-494 | any run of reads and writes by one client, however it begins: after the first answered detection there is none, and at most one where nothing is lost; each write to a version 2 switch leads with the token for the salt it holds then |
| NsdpClient.Client.Write | nsdp/client.go:395-411 | applied whole or not at all, success means applied, never refused with the right password; the scheme is known afterwards if it was, or if the write succeeded, or if nothing is lost |
| NsdpClient.Client.Read | nsdp/client.go:376-388 | one exchange; the operation is checked, the result code is not |
| NsdpClient.Client.ResolveScheme | nsdp/client.go:429-458 | at most one question, none once it has an answer, and the answer is the switch's |
| NsdpClient.Client.BuildAuthWrite | nsdp/client.go:465-494 | the credential first, for a salt fresh from the switch, then the TLVs asked for |
| NsdpClient.Client.Submit | nsdp/client.go:400-411 | the operation is checked before the result |
| NsdpClient.Client.Exchange | nsdp/client.go:338-370 | one request out; its reply, or none |
| NsdpClient.Client.NextSeq | nsdp/client.go:300-305 | 1 first, and wrapping at 16 bits |
| NsdpClient.WriteOutcome | virtual/nsdpface.go:302-386 | an authenticated request is applied whole and acknowledged, or not at all |
| NsdpClient.HeadArrives | nsdp/protocol.go:296-380 | the first TLV arrives as sent, whatever follows it |
| NsdpReader.GetVlans | nsdp/reader.go:295-302 | the switch's VLAN table, and nothing changed |
| NsdpReader.TableAnswer | virtual/state.go:1914-2071 | ... because the reply assembles into exactly that table |
| NsdpReader.TableFits | nsdp/client.go:39-42 | ... and the exact size of that reply, which the client's 4096 bytes hold or do not |
| NsdpReader.GetPvids | nsdp/reader.go:305-319 | the switch's PVIDs, and nothing changed |
| NsdpReader.PvidAnswer | virtual/state.go:1914-2071 | ... for the reply |
| NsdpReader.FindMeaning | nsdp/writer.go:141-153 | looking an id up finds the switch's VLAN, or none |
| NsdpReader.ReadDevice | nsdp/reader.go:100-147 | one read, the model tag first unless it is asked for anyway, assembled; a reply without a model is refused |
| NsdpWriter.Writer.SetVlanMembership | nsdp/writer.go:352-382 | the configuration is what it was or exactly what was asked for; on a network that loses nothing it succeeds if and only if the bitmaps can carry the change, and so for every port of the model; and even strays that pass for replies change nothing but this VLAN |
| NsdpWriter.Writer.ChangeMembership | nsdp/writer.go:359-382 | the same for what it does once the guard has let it pass |
| NsdpWriter.HasBitFits | nsdp/write.go:121-131 | the ports with a bit are those within the width, and all of the model's ports are |
| NsdpWriter.MembersAlone | nsdp/write.go:121-131 | whatever ports are in it, the TLV of a VLAN changes no other |
| NsdpWriter.MembershipChange | nsdp/writer.go:287-310 | what was asked for: this port's mode and no other, this VLAN and no other |
| NsdpWriter.MembersAfter | nsdp/writer.go:287-322 | the two port sets after the change, sorted |
| NsdpWriter.VerifiedMeaning | nsdp/writer.go:327-341 | the read-back check passes exactly when the switch has the mode |
| NsdpWriter.Writer.SetPvid | nsdp/writer.go:198-246 | nothing written for an absent VLAN; otherwise the port's PVID and nothing else, and when it succeeds |
| NsdpWriter.Writer.CreateVlan | nsdp/writer.go:650-682 | an id already there is left alone; otherwise an empty VLAN and nothing else |
| NsdpWriter.Writer.DeleteVlan | nsdp/writer.go:690-715 | the id written is the low 16 bits, the id verified is the whole |
| NsdpWriter.DeleteIsExact | nsdp/writer.go:690-715 | it deletes what was asked if and only if the id fits, or its low bits name nothing |
| NsdpWriter.DeletesVlanOne | nsdp/writer.go:690-715 | deleting 65537 removes VLAN 1 and succeeds |
| NsdpWriter.MembersApply | virtual/state.go:2111-2218 | what the switch stores for two port sets |
| PoeRearm.PoeRearm | snmp/writer_cycle.go:91-165 | every run, event by event, and its result |
| PoeRuns.SetOrder | snmp/writer_cycle.go:91-165 | the SETs are none, off, or off and then on |
| PoeRuns.OnFollowsOff | snmp/writer_cycle.go:111-144 | on is set right after a poll that read the state as disabled or searching, and the link as not up |
| PoeRuns.SuccessMeansRecovered | snmp/writer_cycle.go:144-156 | success: the last read is delivering, or searching where a fault was to be cleared or nothing was delivered before |
| PoeRuns.OffTimeout | snmp/writer_cycle.go:111-135 | read off the trace: the first phase times out if and only if every poll of it found PoE on or the link up and its last event is the first clock reading at or past the deadline; where no call failed, if and only if every poll did; only off was set then |
| PoeRuns.OnTimeout | snmp/writer_cycle.go:145-164 | the same for the second phase and recovery from the state read first |
| PoeRuns.SleepBounds | snmp/writer_cycle.go:111-164 | if only sleeping moves the clock, each phase sleeps at most limit over interval times, rounded up, however it ends, and exactly that often if it times out |
| PoeRearm.PollUntil | snmp/writer_cycle.go:112-135 | the predicate before the clock, the clock before the sleep, and what is left of the turn in which a call fails |
| PoeRearm.Guarded | snmp/writer_cycle.go:179-207 | a protected port without force: nothing happens at all |
| PortBitmap.PortsMeaning | snmp/parse.go:424-434 | decoding gives exactly the ports whose bits are set, ascending |
| PortBitmap.DecodeBitmap | nsdp/parse.go:171-181 | the two loops, octets and bits from the high end |
| PortBitmap.EncodeBitmap | snmp/write.go:17-36 | the buffer that grows |
| PortBitmap.BitmapMeaning | snmp/write.go:17-36 | exactly the ports' bits, numbers below 1 dropped |
| PortBitmap.BitmapLength | snmp/write.go:17-36 | the width, or as much more as the greatest port needs |
| PortBitmap.EncodeDecoded | snmp/write.go:17-36 | encoding what was decoded restores the bytes |
| PortBitmap.DecodeEncoded | snmp/parse.go:424-434 | decoding what was encoded restores the ports if and only if they are ascending and start at 1 or more |
| VlanMembership.SetPortBit | snmp/write.go:44-70 | one bit changes and no other; the length, growing only to set |
| VlanMembership.MembershipBitmaps | snmp/write.go:86-92 | the mode asked for, every other port's as it was |
| VlanMembership.SetWidth | snmp/writer_vlan.go:189-190 | at the model's width both bitmaps have exactly that length |
| TableSlicer.PrintedTableReadsBack | fastpath/parse.go:131-239 | columns and cells, printed as a ruler and rows inside other text, are read back |
| TableSlicer.TableReadsBack | fastpath/parse.go:204-239 | the same for any ruler, after any marker line |
| TableSlicer.PrintSlice | fastpath/parse.go:167-191 | printing and slicing a row are inverse, trailing blanks cut off or not |
| TableSlicer.SpansTile | fastpath/parse.go:131-176 | the raw cells tile any row, long or short, from the first column on |
| TableSlicer.RulerSpans | fastpath/parse.go:131-154 | a span starts at each run of dashes and ends where the next starts |
| TableSlicer.RulerStarts | fastpath/parse.go:131-154 | the spans of a printed ruler are its columns |
| TableSlicer.FindAfterAndRuler | fastpath/parse.go:204-215 | the first ruler from the first line with the marker |
| TableSlicer.IterTableRows | fastpath/parse.go:224-239 | the rows up to a blank line, a ruler or the end |
| TableSlicer.RulerMeaning | fastpath/parse.go:58 | the ruler test is the regular expression's language |
| TableSlicer.EndsBodyMeaning | fastpath/parse.go:224-239 | the rows end at a line of white space or a match of that expression, and at no other |
| TableSlicer.OrdinaryLine | fastpath/parse.go:224-239 | a line with a character other than a dash, a blank and a tab is never their end |
| PortNaming.IfaceReadsBack | fastpath/spec.go:242-247 | the port is read back from its name, both dialects, both sides of the uplink split |
| PortNaming.PhysPortMeaning | fastpath/parse.go:319-340 | a text is read as a port exactly if it names one, in any dialect, whose number an int holds |
| PortNaming.IfaceInjective | fastpath/spec.go:242-247 | no two ports share a name |
| PortNaming.ModeReadsBack | fastpath/parse.go:393-463 | a forced mode is read back from its printed rate and duplex |
| Decimal.AtoiMeaning | fastpath/parse.go:319-330 | what strconv.Atoi accepts, and its value |
| PortNaming.WrapMeaning | fastpath/parse.go:393-410 | Go's 64-bit product |
| PortNaming.LowerMeaning | fastpath/parse.go:420-440 | capital letters become small ones |

## Left out

- Sockets, dialling, deadlines, contexts, SSH, serial lines and gosnmp's marshalling: peers and explicit failures stand for them.
- Datagrams are not cut at 4096 bytes: a network that loses nothing is also one whose replies fit, which for the VLAN table is `TableFits`. Sequence numbers are not matched, as the source does not match them.
- NsdpWriter.Writer.SetVlanMembership: success and the exact change are for a network without stray datagrams, which the client cannot tell from the switch's, and for replies that fit the client's buffer; with them, what is left is that nothing else changes. The same holds of SetPvid, CreateVlan and DeleteVlan.
- Concurrency: one caller at a time. The salt results are for sequential use, as the source does not hold its lock across the reads of a write.
- NsdpClient.Session: that no write is refused with the right password holds for fewer than 2^32 salt reads, after which the counter is zero again.
- TelnetFilter.ReadUntil: the login around it, and the closed flag of the transport, are not modelled; end of file is a failure like another.
- ShellSession.Driver.Setup: its result is for texts that are a place to stop at their end only, as quiet ones are.
- ShellSession.Driver.Run: its result is for commands of one line that are not blank and output that nothing in the response makes look like a prompt before its end; otherwise only the transport's contract holds.
- WriterShell.Write: that the entry commands are clear is a premise, which `ModeCommandClear` meets for names and model keys without prompt characters; that the balance fails for every text with a mode command among its lines is stated for the command (`SparesIff`), as a later line can undo it from one particular mode.
- ShellDialogue.Converse: that all answers are given and all is heard is for a switch that asks one question at a time and waits; of two questions in one read the source answers one.
- ShellDialogue.RunScpCopy: Unicode case folding in its patterns is that of ASCII.
- The virtual switch's NSDP state is the part its VLANs, PVIDs, hostname, identity and authentication need; its addresses, serial number and port status are not there.
- `ModeStack` takes any command-line device that dispatches by mode as `virtual/cliface.go` does. `CliCommands` adds the commands the writer sends, on the part of the state they change: link state, the status lag after a PoE change, and commands that only others send are not there, and it runs a body in its mode, not over the shell.
- `ParseVlans`, `ParseLldp`, `ParseMacs` and the other SNMP table parsers, `headerColumns` and the parsers over `iterTableRows`: lookups over the tables modelled here, which would add easy members.
- `SetHostname`, `SetMgmtIP` and the description writers: the same write and read-back as `SetPvid`.
- The checks before and after the command lists of `fastpath/writer.go`, and `SetMgmtIP`, whose address commands differ by model.
- Error wording, and which error wraps which.
- Unicode, general regular expressions, the web UI, the facade, the registry, configuration.
- The strength of the password schemes.
