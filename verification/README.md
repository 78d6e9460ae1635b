# A verified model of the IPK25 chat client

The client talks to a chat server over UDP or TCP. This project models the parts of
it that decide what goes over the wire and when, and proves what they do for every
input and every run:

- **the UDP automaton** with its queue of unconfirmed messages, its guards with side
  effects, and the main loop (`UdpFsm`, `UdpClient`, and the proofs in `UdpFsmTable`,
  `UdpFsmQueue`, `UdpFsmBudget`, `UdpFsmSafety`, `UdpFsmDrain`, `UdpFsmWire`,
  `UdpFsmTurns`, `UdpFsmWitness`, `UdpFsmRenewed`);
- **the UDP encoder**, an interpreter of a small template language that rewrites a
  buffer in place (`UdpTemplate`, `UdpTemplateBytes`, `UdpEncoder`), **the UDP
  decoder**, a scanner whose guards save fields (`UdpDecoder`), and the two together
  (`UdpRoundTrip`, `UdpPackets`);
- **the TCP encoder and decoder** (`TcpEncoder`, `TcpReferences`, `TcpPlaceholders`,
  `TcpDecoder`, `TcpLines`);
- two loops of the vendored argument parser: the **forwarded-argument splitter**
  (`ForwardedArguments`) and the **word wrapper** (`Writer`, `WriterLayout`,
  `WriterText`).

`Bytes`, `Messages` and `Sequences` hold what they share.

## How it is built

Code that changes state is imperative: `UdpClient`, `UdpEncoder`, `UdpDecoder` and
`Writer` are classes with the original's fields, and the loops are loops. Each method
is proved to compute a function on values (`View()` maps an object to the value), and
the properties are proved about those functions.

The specification of the automaton (`UdpFsm`) keeps the original's shape: nineteen
guards that read a snapshot of the two message slots and change the client, edges that
are tried in the wired order, and one `Handle` per turn of the main loop. Guards that
answer `false` may already have cleared the slots, exactly as in the original.
`UdpFsmTable.WiringIsTable` reduces a whole search over edges and guards to one
look-up in a decision table; the invariants are proved from that table.

`UdpPackets`, `UdpTemplateBytes`, `TcpLines`, `TcpPlaceholders` and `WriterText` state
what goes in and out in bytes and characters: type bytes, ranges of characters, limits and
spellings are written out there and proved to be those of the model. `UdpFsmTurns` does
the same for single turns of the main loop, in terms of the entries of the queue.

What comes from outside is a sequence of events: a turn of the loop with a clock
reading, an optional user line (already parsed) and an optional datagram, or a request
to quit. `Client.sent` is a history variable: every datagram, with the message it was
encoded from, the ID it got and why it was sent. `Client.issued` counts the message IDs
ever drawn; the original's 16-bit counter is that number modulo 65536. `htons` and
`ntohs` swap two bytes, as on a little-endian host. `isprint`, `isalnum` and `iswspace`
are those of the C locale.

## What turned out differently than hoped

- A REPLY is matched against the queued AUTH without swapping its reference back. A
  server that quotes the ID bytes as it received them is understood exactly when the
  two bytes are equal (`AuthReplyAccepted`). The same holds for the CONFIRM of a JOIN
  in the state `Join` (`JoinConfirmRecognised`). In `Open` the ID is swapped back and
  acknowledgement works (`Acknowledged`). A run of four ordinary events shows it: after
  one refused `/auth` the client does not hear that the second one succeeded
  (`SecondAttemptUnheard`).
- A CONFIRM that no guard consumes stays in the input slot and stops the timers in
  `Auth` and `Join` for good (`StuckForever`). Draining works if and only if that has
  not happened and no BYE is about to end the client with an AUTH in the queue
  (`DrainsExactly`, `RunDrainsExactly`), and it happens as soon as the server confirms
  an AUTH before it answers it (`StuckIsReached`).
- A REPLY to a JOIN counts exactly when the JOIN has expired, and positive and negative
  ones alike (`JoinReplyAccepted`). One that comes after the timeout has been noticed is
  compared, unswapped, with the number of IDs given out, and can end the client
  (`JoinReplyInOpen`); for the first `/join` of a run it always does (`LateReplyEnds`).
- A command is sent in every state, but not always queued, and a command that is not
  queued is never resent when it is lost: a message typed in the same iteration in which
  a timer fires, a `/join` while anything is unconfirmed, an `/auth` while another one is
  or while a CONFIRM lies in the slot (`UserMessageQueued`).
- Resends are faithful for MSG only. AUTH and JOIN are encoded anew from the current
  configuration: an AUTH repeats its bytes if and only if the user name and the secret
  are unchanged, a JOIN if and only if the channel is (`AuthFollowsLogin`,
  `JoinFollowsChannel`). `/auth` or `/join` typed while an earlier one is queued changes
  the configuration and is not queued itself, so its login or channel goes out under the
  ID of the earlier one (`OtherLoginResent`, `OtherChannelResent`).
- An ERR or a BYE of the server that comes in the same turn as a typed command does not
  end the client (`FarewellMissed`), and a `/join` typed on an empty queue loses every
  datagram of its turn (`JoinTypedFirst`).
- After `exit()` the client ends with the next quiet turn exactly when no timer fires
  first; otherwise the BYE is forgotten (`GoodbyeHonoured`). A datagram in that turn
  makes it forgotten too (`GoodbyeInterrupted`). While the BYE waits, an ERR, a BYE or a
  malformed datagram from the server does not end the client (`ErrorEndsClient`).
- `/join #room` and `/auth user@host …` pass the client's own checks, but the decoder's
  guards reject such names, so JOIN and AUTH round trips hold only for the names that
  they accept (`JoinRoundTrip`, `AuthRoundTrip`, `HashRoomLost`, `UserAtHostLost`). A
  name with a zero byte inside is read as two (`EncodedRead`).
- The TCP encoder replaces until nothing is left to replace. That equals replacing
  once, if and only if the result of replacing once holds no placeholder
  (`SubstitutionExact`). Values without `{` are enough for the shipped formats
  (`BraceFreeLine`) but not for all formats (`BraceFreeIsNotEnough`), and a display name
  that is its own placeholder makes the loop run forever (`NeverEnds`). In general the
  loop ends if and only if no chain of references meets a key again (`EndsIffAcyclic`).
- The classes of the TCP shapes accept a bar for every letter, so a line can match two
  shapes, and the order of a hash map decides what it means. It does for exactly the
  lines whose keyword is written in bars and in which one of the names that would be
  read is within the limit (`OrderMatters`); two families of such lines are
  `BarsAreAmbiguous` and `NameBarsAreAmbiguous`.
- Over TCP, empty fields, over-long names and fields with a carriage return do not come
  back, although the encoder writes them; `TextRoundTrip`, `JoinRoundTrip`,
  `ByeRoundTrip` and `AuthRoundTrip` of `TcpDecoder` are exact about it.
- A REPLY can be encoded on neither transport: over UDP it yields nothing
  (`TemplateGivesWire`), over TCP a line that no shape matches (`ReplyLost`).
- The number of bytes sent is a `uint16_t`, so a datagram over 65535 bytes is cut to its
  length modulo 65536. JOIN and AUTH round trips depend on that (`JoinRoundTrip`,
  `AuthRoundTrip`).
- The word wrapper counts a space it does not write after a column skip, and can then
  break a line that would have fitted (`SkipCanWasteALine`). It takes more lines than
  needed exactly when the first word would end at the width and the words after it gain
  nothing from the new line (`FewestLinesSkipped`).

Where comments and code disagree, the code is modelled: the comment above `encodeBinary`
says every error yields an empty result, but a name used with the wrong width raises an
exception that is not caught (`BadVariant`); `\` followed by another character is
documented nowhere and yields 92 zero bytes, for `bytes('\\')` constructs a vector of
that length; and the comment on the wiring lists the guards of `Auth` in another order
than the code tries them in.

## Model

| member | source | states |
|---|---|---|
| UdpFsmTable.WiringIsTable | src/fsm/UDP_fsm.cpp:439-456 | for every state, snapshot and client, trying the edges and their guards in the wired order, with the side effects of failed guards, is one look-up in a decision table that says the target, the queue operation, what is sent and whether the slots were cleared |
| UdpFsmQueue.SlotsAfterAdvance | src/fsm/UDP_fsm.cpp:541-556 | after the automaton part of an iteration the output slot is empty and the input slot is empty or a CONFIRM, although some failing guards clear the slots and others do not |
| UdpFsmQueue.SlotsAlwaysRead | src/fsm/UDP_fsm.cpp:486-556 | between iterations of any run the slots are empty, hold a CONFIRM, or hold the BYE of `exit` |
| UdpFsmQueue.QueueShape | src/fsm/UDP_fsm.cpp:439-456 | in every run: no entries in `Start`; at most one, an AUTH, in `Auth`; MSG entries and at most one JOIN, at the front, in `Open`; the same with the JOIN present in `Join` |
| UdpFsmQueue.AdvanceKeepsShape | src/fsm/UDP_fsm.cpp:140-165 | every step keeps the queue shape, and a step from `Auth` to `Open` leaves the queue empty |
| UdpFsmQueue.ErasePositions | src/fsm/UDP_fsm.cpp:293-307 | `erase_if` keeps the remaining entries in their order |
| UdpFsmQueue.EraseIdRemovesOne | src/fsm/UDP_fsm.cpp:260-262 | with sorted IDs, erasing by ID removes exactly the entry with that ID |
| UdpFsmBudget.SortedIds | src/fsm/UDP_fsm.cpp:496-497 | in every run, until ID 65535 is assigned, the queue is strictly increasing in message ID and all IDs are below the encoder's counter |
| UdpFsmBudget.BudgetConservation | src/fsm/UDP_fsm.cpp:224-251 | in every run, until ID 65535 is assigned: resends so far plus budget left equal the configured number for each queued AUTH and MSG, and for a JOIN that number in `Join` and one less in `Open`; so no AUTH or MSG is resent more often than configured, and no JOIN more often than one less |
| UdpFsmBudget.JoinLeavesBalanced | src/fsm/UDP_fsm.cpp:366-384 | the JOIN timeout moves the JOIN's account from its share in `Join` to its share in `Open` |
| UdpFsmSafety.OpenMeansAuthenticated | src/fsm/UDP_fsm.cpp:140-165 | a run that ends in `Open` or `Join` has, at some event, queued the user's AUTH under an ID, and at a later one received a positive REPLY whose reference is that ID while the AUTH was still queued in `Auth` |
| UdpFsmSafety.AuthAppears | src/fsm/UDP_fsm.cpp:25-34 | an AUTH enters the queue only by a push of the user's AUTH |
| UdpFsmSafety.EndIsFinal | src/fsm/UDP_fsm.cpp:441-456 | no event and no guard leads out of `End` |
| UdpFsmSafety.ResendsHaveOrigin | src/fsm/UDP_fsm.cpp:70-98 | in every run, every resend of a message whose ID is not 65535, an AUTH, a JOIN or a MSG, draws no ID and is of a message that the user's line sent before under that ID, encoded anew |
| UdpFsmSafety.ResendsAreFaithful | src/fsm/UDP_fsm.cpp:224-245 | a resend of a MSG carries the very bytes of that first transmission, whatever renames came between |
| UdpFsmSafety.JoinFollowsChannel | src/fsm/UDP_fsm.cpp:320-345 | with the same channel a JOIN is encoded to the same bytes whatever else is configured; for datagrams whose size fits in 16 bits, with another channel never |
| UdpFsmSafety.AuthFollowsLogin | src/encoders/UDP_encoder.cpp:133-138 | with the same user name and secret an AUTH is encoded to the same bytes; for datagrams whose size fits in 16 bits and user names without a zero byte, only then |
| UdpFsmDrain.IdleStep | src/fsm/UDP_fsm.cpp:366-384 | without input, every transition strictly decreases one measure over budgets and the state, and if the queue is non-empty and all of it has expired some transition is taken |
| UdpFsmDrain.Drains | src/fsm/UDP_fsm.cpp:293-307 | as many expired idle iterations as the measure empty the queue and leave the client outside `Join` |
| UdpFsmDrain.SpacedIsExpiring | src/fsm/UDP_fsm.hpp:46-49 | iterations further apart than the timeout find every entry expired, resent ones included |
| UdpFsmDrain.EveryRunDrains | src/fsm/UDP_fsm.cpp:439-456 | every run that leaves the slots empty, continued without input at such times, reaches an empty queue outside `Join` |
| UdpFsmDrain.StuckForever | src/fsm/UDP_fsm.cpp:349-363 | a CONFIRM that no guard of `Auth` or `Join` consumes stops the timers: idle iterations change nothing |
| UdpFsmDrain.DrainsExactly | src/fsm/UDP_fsm.cpp:349-363 | for every client between iterations, enough expired idle iterations empty the queue if and only if no such CONFIRM is in the slot, or, with a BYE waiting, the client is not in `Auth` with an AUTH queued |
| UdpFsmDrain.RunDrainsExactly | src/fsm/UDP_fsm.cpp:439-456 | the same for the end of every run and idle iterations further apart than the timeout |
| UdpFsmWire.DecodedHeader | src/decoders/UDP_decoder.cpp:38-42 | the decoded ID is the big-endian word of the two bytes after the type byte, for every datagram that is not malformed |
| UdpFsmWire.WireIdBytes | src/encoders/UDP_encoder.cpp:139 | an AUTH, JOIN or MSG is sent with the low byte of its ID before the high one |
| UdpFsmWire.ConfirmEcho | src/fsm/UDP_fsm.cpp:189-209 | in `Open` and `Join`, without a user line and whether or not a BYE is waiting, every well-formed MSG or PING is answered by exactly one datagram, a zero byte and the two ID bytes as received; state and queue stay |
| UdpFsmWire.Acknowledged | src/fsm/UDP_fsm.cpp:254-267 | in `Open`, without a user line, a CONFIRM datagram that quotes the ID bytes of a queued MSG removes exactly that MSG, keeps the rest in order and sends nothing |
| UdpFsmWire.AuthReplyAccepted | src/fsm/UDP_fsm.cpp:140-165 | in `Auth`, a positive REPLY that quotes the ID bytes of the queued AUTH opens the client if and only if the two bytes are equal; otherwise it changes nothing but the slots |
| UdpFsmWire.JoinConfirmRecognised | src/fsm/UDP_fsm.cpp:349-363 | in `Join`, a CONFIRM that quotes the ID bytes of the JOIN changes neither state nor queue; it leaves the slots if and only if the swapped ID is queued, which for a JOIN alone means that its two bytes are equal, or a BYE is waiting |
| UdpFsmWire.AuthReplyRefused | src/fsm/UDP_fsm.cpp:101-122 | in `Auth`, a negative REPLY is confirmed and the client stays; the queued AUTH goes if and only if the reference is its ID |
| UdpFsmWire.JoinReplyAccepted | src/fsm/UDP_fsm.cpp:387-413 | in `Join`, a REPLY of any kind is confirmed, takes the JOIN off the queue and opens the client if the JOIN has expired, and is dropped otherwise |
| UdpFsmWire.UnexpectedReply | src/fsm/UDP_fsm.cpp:415-433 | in `Open`, a REPLY whose decoded reference is at or above the counter is answered by an ERR and ends the client; any other is dropped |
| UdpFsmWire.JoinReplyInOpen | src/fsm/UDP_fsm.cpp:415-433 | in `Open`, a REPLY that quotes the ID bytes of a queued JOIN as it was sent ends the client if and only if the swapped ID was not given out yet |
| UdpFsmWire.ErrorEndsClient | src/fsm/UDP_fsm.cpp:36-56 | from every state, without a user line, an ERR, a BYE or a malformed datagram is answered by exactly one CONFIRM of its decoded ID and ends the client, if no BYE of the client is waiting; if one is, nothing happens but that the slots are cleared |
| UdpFsmWire.UserMessageQueued | src/fsm/UDP_fsm.cpp:212-221 | in every state but `End`, without a datagram, a typed AUTH, JOIN or MSG is always sent, with the next ID, also over a waiting BYE; with its full budget it is queued if and only if: an AUTH is typed in `Start` or `Auth` with an empty queue and no CONFIRM in the slot, a JOIN in `Open` with an empty queue, or a MSG in `Open` in an iteration in which no timer fires or a CONFIRM keeps the timers from running; otherwise nothing is added to the queue |
| UdpFsmWire.GoodbyeHonoured | src/fsm/UDP_fsm.cpp:565-577 | the turn after `exit()`, without input, reaches `End` if and only if no resend, sweep or JOIN timeout comes first; the slots are empty either way |
| UdpFsmWire.GoodbyeInterrupted | src/fsm/UDP_fsm.cpp:565-577 | the turn after `exit()` with any datagram forgets the BYE, and ends the client if and only if the datagram is a MSG in `Auth`, or a REPLY with an unknown reference in `Open` |
| UdpFsmTurns.OpenRejoins | src/fsm/UDP_fsm.cpp:320-345 | in `Open` without input, the first JOIN with budget left is sent again, exactly that and once, and the client goes to `Join` with the queue as it was |
| UdpFsmTurns.OpenSweeps | src/fsm/UDP_fsm.cpp:293-307 | without such a JOIN, all entries without budget are dropped at once and nothing else happens |
| UdpFsmTurns.OpenResends | src/fsm/UDP_fsm.cpp:224-251 | without those, the first MSG sent longer ago than the timeout is sent again under its ID, exactly that and once, loses one unit of budget and gets the time of the turn; all other entries stay |
| UdpFsmTurns.OpenWaits | src/fsm/UDP_fsm.hpp:46-49 | and if no MSG was sent longer ago than the timeout, the turn changes nothing |
| UdpFsmTurns.AuthSweeps | src/fsm/UDP_fsm.cpp:121-138 | in `Auth` without input, an AUTH without budget is dropped and nothing else happens |
| UdpFsmTurns.AuthResends | src/fsm/UDP_fsm.cpp:70-98 | in `Auth`, the first AUTH sent longer ago than the timeout is sent again in the same way |
| UdpFsmTurns.AuthWaits | src/fsm/UDP_fsm.hpp:46-49 | before that, the turn changes nothing |
| UdpFsmTurns.JoinTimesOut | src/fsm/UDP_fsm.cpp:366-384 | in `Join` without input, a JOIN sent longer ago than the timeout loses one unit of budget and gets the time of the turn, the client is back in `Open`, and nothing is sent |
| UdpFsmTurns.JoinWaits | src/fsm/UDP_fsm.cpp:366-384 | before that, the turn changes nothing, whatever the state of the MSGs |
| UdpFsmTurns.StartWaits | src/fsm/UDP_fsm.cpp:541-544 | in `Start`, a turn without input changes nothing |
| UdpFsmTurns.AuthReplyRead | src/fsm/UDP_fsm.cpp:140-165 | in `Auth`, a positive REPLY whose reference is the ID of the AUTH is confirmed, takes it off the queue and opens the client; any other is dropped |
| UdpFsmTurns.ConfirmInOpen | src/fsm/UDP_fsm.cpp:254-267 | in `Open`, a CONFIRM takes exactly the entries with its ID, read with the bytes swapped, off the queue; nothing else happens |
| UdpFsmTurns.ConfirmElsewhere | src/fsm/UDP_fsm.cpp:349-363 | in the other states a CONFIRM changes nothing but the slots: it stays in the input slot unless, in `Join`, an entry has its ID, or a BYE waits |
| UdpFsmTurns.Unwanted | src/fsm/UDP_fsm.cpp:541-556 | the datagrams that a state has no edge for are dropped, and nothing else happens |
| UdpFsmTurns.GoodbyeSent | src/fsm/UDP_fsm.cpp:565-577 | `exit()` sends exactly one datagram: the bytes FF, the low and the high byte of the next ID, the display name and 0; it draws one ID and keeps state and queue |
| UdpFsmTurns.UnexpectedAnswered | src/fsm/UDP_fsm.cpp:415-433 | a REPLY in `Open` with an unknown reference is answered by exactly one ERR with the display name and the text written out in the code, and ends the client |
| UdpFsmTurns.EarlyMessageEnds | src/fsm/UDP_fsm.cpp:168-183 | a MSG in `Auth` is answered by exactly one empty ERR with the display name, and ends the client |
| UdpFsmTurns.ConfirmationDraws | src/encoders/UDP_encoder.cpp:139 | a confirmation draws a new ID if and only if the confirmed ID is 65535 |
| UdpFsmTurns.JoinTypedFirst | src/fsm/UDP_fsm.cpp:308-318 | a JOIN typed in `Open` with an empty queue is sent and queued, and any datagram of the same turn is lost without an answer |
| UdpFsmTurns.MessageTypedFirst | src/fsm/UDP_fsm.cpp:212-221 | a MSG typed in `Open` is sent and queued, and a datagram of the same turn that is no MSG or PING is lost without an answer |
| UdpFsmTurns.DatagramGoesFirst | src/fsm/UDP_fsm.cpp:439-456 | any other command in a turn with a REPLY, a MSG or a PING is only sent, and the rest of the turn is that of the datagram alone |
| UdpFsmTurns.FarewellMissed | src/fsm/UDP_fsm.cpp:36-56 | with such a command in the same turn an ERR, a BYE or a malformed datagram is dropped without an answer, and the client does not end |
| UdpFsmTurns.ConfirmWithCommand | src/fsm/UDP_fsm.cpp:254-267 | with such a command a CONFIRM takes the entries with its swapped ID off the queue in `Open`, and is dropped elsewhere |
| UdpFsmTurns.RejectedLine | src/fsm/UDP_fsm.cpp:486-512 | a line that is refused has no effect but the configuration it may have changed: the turn is one without a line |
| UdpFsmTurns.LocalCommand | src/fsm/UDP_fsm.cpp:486-512 | nor has a local command, except that it overwrites a BYE that waits |
| UdpFsmWitness.StuckIsReached | src/fsm/UDP_fsm.cpp:140-165 | every run of an AUTH command and a CONFIRM datagram with any ID leaves the CONFIRM in the slot and the AUTH in the queue, and idle iterations at any times never change that |
| UdpFsmWitness.SecondAttemptUnheard | src/fsm/UDP_fsm.cpp:140-165 | after `/auth`, a negative REPLY and `/auth` again, the AUTH is queued with ID 1, and a positive REPLY that quotes the bytes 1 and 0, in which that ID is sent (`WireIdBytes`), leaves the client as it was |
| UdpFsmRenewed.OtherLoginResent | src/fsm/UDP_fsm.cpp:70-98 | after `/auth`, `/auth` with another login before an answer, and silence, the first AUTH is resent under its ID with the second user name and secret; its bytes are those first sent if and only if the logins are the same |
| UdpFsmRenewed.OtherChannelResent | src/fsm/UDP_fsm.cpp:320-345 | after `/join`, `/join` with another channel before an answer, and silence, the first JOIN is resent under its ID with the second channel; its bytes are those first sent if and only if the channels are the same |
| UdpFsmRenewed.LateReplyEnds | src/fsm/UDP_fsm.cpp:415-433 | in every run of `/auth`, its positive REPLY, `/join` and a timeout, a REPLY to the JOIN, positive or negative, ends the client |
| UdpClient.UdpClient.constructor | src/fsm/UDP_fsm.cpp:21-457 | a new client is in `Start` with an empty queue, empty slots and a fresh encoder and decoder |
| UdpClient.UdpClient.Clear | src/fsm/UDP_fsm.cpp:584-588 | both slots become empty, nothing else changes |
| UdpClient.UdpClient.EncodeAndSend | src/fsm/UDP_fsm.cpp:496-502 | one use of the encoder: its ID, its bytes and the counter are those of the specification, appended to the history |
| UdpClient.UdpClient.Sweep | src/fsm/UDP_fsm.cpp:121-138 | `erase_if` and the count it returns, with the slots cleared even on failure |
| UdpClient.UdpClient.ResendExpired | src/fsm/UDP_fsm.cpp:224-251 | the first expired entry of a kind is decremented in place and sent again; without one, only the slots are cleared |
| UdpClient.UdpClient.EvaluateUser | src/fsm/UDP_fsm.cpp:25-34 | the guards on the user's message have the result and the effect of the specification |
| UdpClient.UdpClient.EvaluateTimer | src/fsm/UDP_fsm.cpp:366-384 | the same for the sweeps, resends and the JOIN timeout |
| UdpClient.UdpClient.EvaluateReply | src/fsm/UDP_fsm.cpp:140-165 | the same for the REPLY guards that take one entry off the queue |
| UdpClient.UdpClient.EvaluateReference | src/fsm/UDP_fsm.cpp:349-363 | the same for the negative REPLY and the two CONFIRM guards |
| UdpClient.UdpClient.EvaluateComplaint | src/fsm/UDP_fsm.cpp:415-433 | the same for the guards that send an ERR |
| UdpClient.UdpClient.EvaluateAnswer | src/fsm/UDP_fsm.cpp:36-56 | the same for the guards that only confirm |
| UdpClient.UdpClient.AcceptEdge | src/fsm/edge.hpp:124-130 | the short-circuit loop over the guards of an edge, side effects included |
| UdpClient.SucceedsEarly | src/fsm/edge.hpp:126-128 | once a guard has answered true, the remaining ones change neither answer nor client |
| UdpClient.UdpClient.NextState | src/fsm/node.hpp:136-146 | the loop over the edges finds the first that accepts, on a snapshot of the slots |
| UdpClient.UdpClient.ReadLine | src/fsm/UDP_fsm.cpp:487-516 | the user's message is encoded and sent before the automaton runs, and gets the ID `getID() - 1` |
| UdpClient.UdpClient.ReadDatagram | src/fsm/UDP_fsm.cpp:518-533 | the input slot gets the decoded message, a malformed one as ERR |
| UdpClient.UdpClient.RunAutomaton | src/fsm/UDP_fsm.cpp:541-556 | one run of the automaton and the clearing of what it left unread |
| UdpClient.UdpClient.Exit | src/fsm/UDP_fsm.cpp:565-577 | a BYE is sent and left in the output slot |
| UdpClient.UdpClient.HandleEvent | src/fsm/UDP_fsm.cpp:478-562 | one turn of the main loop, or the request to quit, has the effect of the specification |
| UdpClient.UdpClient.Run | src/fsm/UDP_fsm.cpp:465-563 | from a new client, the main loop over any events ends in the state that the specification assigns to that run |
| UdpTemplate.TokeniseExact | src/encoders/UDP_encoder.cpp:58-106 | for every byte string and token sequence: the automaton yields the tokens if and only if the string is a template whose text they are |
| UdpTemplate.ScanToken | src/encoders/UDP_encoder.cpp:184-193 | started on the text of a token, the automaton stops exactly at its end, in that token's state |
| UdpTemplate.ScanSound | src/encoders/UDP_encoder.cpp:184-193 | what it takes as a token is that token's text, wherever it stops with a translation |
| UdpTemplate.RenderIsTokenwise | src/encoders/UDP_encoder.cpp:182-208 | for every template and value map: scanning on after each replacement equals tokenising once, mapping the tokens and concatenating; any other text fails |
| UdpTemplate.ScanFrom | src/encoders/UDP_encoder.cpp:184-193 | the inner loop follows the automaton from `it` to where no edge accepts |
| UdpTemplate.Expand | src/encoders/UDP_encoder.cpp:182-208 | for every template and value map, the loop that erases and inserts in the buffer ends, and its buffer or failure is the tokenwise result; inserted text is never rescanned |
| UdpTemplateBytes.TemplatesRead | src/encoders/UDP_encoder.cpp:20-106 | a text is read as a sequence of tokens if and only if it spells them out: braces with `%b:`, `%h:`, `%i:` or `%s:` and an identifier, `\x` and one or two hexadecimal digits, `\` and another byte, or a plain byte; character ranges as numbers |
| UdpTemplateBytes.LiteralsMean | src/encoders/UDP_encoder.cpp:142-156 | a plain byte stands for itself, a code for the value of its digits, an escape for 92 zero bytes |
| UdpTemplateBytes.NamesMean | src/encoders/UDP_encoder.cpp:157-175 | a name stands for one, two or four bytes of its number, or for its string; a name without value fails, and so does one with a value of the other kind |
| UdpEncoder.TemplateTokens | src/encoders/UDP_encoder.hpp:75-83 | every shipped template lies in the template language, with the listed tokens |
| UdpEncoder.TemplateGivesWire | src/encoders/UDP_encoder.hpp:57-83 | interpreting the shipped template of a type gives the documented wire layout for every message and configuration; REPLY fails |
| UdpEncoder.UdpEncoder.Draw | src/encoders/UDP_encoder.cpp:139 | the counter steps by one on 16 bits |
| UdpEncoder.UdpEncoder.EncodeBinary | src/encoders/UDP_encoder.cpp:127-213 | the bytes and size are the wire layout with its length cut to 16 bits, nothing on failure; the counter moves if and only if the message has no ID of its own |
| UdpEncoder.Fill | src/encoders/UDP_encoder.cpp:176-213 | looking up and expanding the template yields the wire layout, or no bytes |
| UdpPackets.TemplatesShipped | src/encoders/UDP_encoder.hpp:75-83 | the shipped templates, written out |
| UdpPackets.DatagramsSent | src/formats/message.hpp:14-24 | for every message, configuration and ID, the datagram is the type byte 00, 02, 03, 04, FE, FF or FD, the low and the high byte of the ID and the fields with a zero byte after each (for CONFIRM the reference, high byte first), up to its length modulo 65536 |
| UdpDecoder.DecoderLanguage | src/decoders/UDP_decoder.cpp:332-355 | for every datagram and message: the message is decoded, and is not the internal error, if and only if a prefix of the datagram is a packet of the declarative grammar within the length limits that means this message |
| UdpPackets.DatagramsRead | src/decoders/UDP_decoder.cpp:32-196 | for every datagram and message: the message is decoded, and is not the internal error, if and only if the datagram starts with its packet in bytes: type byte, ID, for a REPLY result and reference, and fields of bytes 20 to 7E, or of letters, digits, `-`, `.` and `_` where the guards ask for those, with lengths up to 20 and 60000 |
| UdpPackets.OthersMalformed | src/decoders/UDP_decoder.cpp:413-417 | a datagram that starts with no packet becomes the internal error with the text written out in the code and the ID 65535 |
| UdpPackets.OverlongMalformed | src/decoders/UDP_decoder.cpp:371-412 | a packet with a field over 20 or 60000 bytes becomes that error too, but keeps its ID, and its author if that is not the long one |
| UdpPackets.TextDatagram | src/decoders/UDP_decoder.cpp:68-85 | a MSG or ERR datagram with any two fields is read with these fields if and only if both consist of bytes 20 to 7E and have 1 to 20 and 1 to 60000 of them |
| UdpPackets.ChannelDatagram | src/decoders/UDP_decoder.cpp:160-177 | a JOIN datagram gives its display name if and only if the channel consists of letters, digits, `-`, `.` and `_` and the name of 1 to 20 bytes 20 to 7E |
| UdpPackets.LoginDatagram | src/decoders/UDP_decoder.cpp:87-131 | an AUTH datagram gives its secret if and only if user name and secret consist of such bytes after a first one from 20 to 7E, the display name of bytes 20 to 7E, and the secret is not over 60000 bytes |
| UdpDecoder.Accepts | src/decoders/UDP_decoder.cpp:209-310 | a datagram that starts with a packet of the grammar leads the scanner to the packet's terminal state with its fields saved, whatever follows |
| UdpDecoder.Recognises | src/decoders/UDP_decoder.cpp:209-310 | whatever reaches a terminal state starts with a packet of the grammar |
| UdpDecoder.DecodesPacket | src/decoders/UDP_decoder.cpp:371-419 | a datagram that starts with a packet decodes to that packet's outcome, over-long fields included, whatever follows and whatever the controls held |
| UdpDecoder.DecodesOther | src/decoders/UDP_decoder.cpp:413-417 | a datagram that starts with no packet is malformed |
| UdpDecoder.HistoryIndependence | src/decoders/UDP_decoder.cpp:410 | whatever an earlier datagram left in the controls, a datagram decodes as with a new decoder |
| UdpDecoder.UdpDecoder.Receive | src/decoders/UDP_decoder.cpp:332-355 | the loop over the bytes returns, on any history, what a new decoder returns |
| UdpDecoder.UdpDecoder.Conclude | src/decoders/UDP_decoder.cpp:371-419 | the message for the halting state; the controls are reset after a success only |
| UdpRoundTrip.TextRoundTrip | src/encoders/UDP_encoder.hpp:77-81 | for every MSG and ERR: decoding the encoding gives type, author, text and swapped ID if and only if author and text are non-empty, printable and within the limits |
| UdpRoundTrip.ByeRoundTrip | src/encoders/UDP_encoder.hpp:82 | the same for BYE and its author |
| UdpRoundTrip.BareRoundTrip | src/encoders/UDP_encoder.hpp:76-83 | PING always comes back with its swapped ID, CONFIRM with its reference as the decoded ID, unswapped |
| UdpRoundTrip.EncodedRead | src/encoders/UDP_encoder.cpp:199-213 | for every message and configuration, cut datagrams and zero bytes in fields included: the decoder reads the layout piece by piece, up to each zero byte, and yields exactly the packet of the first pieces if its guards accept them, they are within the limits and end within the 16-bit size; otherwise the datagram is malformed |
| UdpRoundTrip.JoinRoundTrip | src/encoders/UDP_encoder.hpp:80 | for every JOIN: the display name comes back if and only if what is read of the datagram is accepted and its second piece is that name |
| UdpRoundTrip.AuthRoundTrip | src/encoders/UDP_encoder.hpp:79 | for every AUTH: the secret comes back as text if and only if what is read of the datagram is accepted and its third piece is the secret |
| UdpRoundTrip.JoinRoundTripZeroFree | src/decoders/UDP_decoder.cpp:160-177 | for a channel without a zero byte that means: the decoder's guards accept channel and name, the name is within the limit and the datagram's size fits in 16 bits |
| UdpRoundTrip.AuthRoundTripZeroFree | src/decoders/UDP_decoder.cpp:114-131 | for names without a zero byte that means: the decoder's guards accept all three fields, the secret is within the text limit and the size fits in 16 bits |
| UdpRoundTrip.HashRoomLost | src/decoders/UDP_decoder.cpp:160-177 | the channel `#room` makes a JOIN that does not come back |
| UdpRoundTrip.UserAtHostLost | src/decoders/UDP_decoder.cpp:114-131 | the user name `user@host` makes an AUTH that does not come back |
| TcpEncoder.SubstitutionExact | src/encoders/TCP_encoder.cpp:42-53 | for every format and value map: the loop ends with the one-pass substitution if and only if that substitution holds no placeholder |
| TcpEncoder.BraceFreeHalts | src/encoders/TCP_encoder.cpp:42-53 | if no value holds `{`, the loop ends for every format, within as many turns as the format has braces |
| TcpEncoder.BraceFreeIsNotEnough | src/encoders/TCP_encoder.cpp:43-52 | for formats of the form `{{k}}` brace-free values give another result than one pass |
| TcpEncoder.BraceFreeLine | src/encoders/TCP_encoder.hpp:12-18 | for the shipped formats and values without `{`, the loop ends with the line that the format describes |
| TcpEncoder.LineExact | src/encoders/TCP_encoder.hpp:12-18 | for every shipped format, the loop ends with the described line if and only if no field that goes into it holds a placeholder |
| TcpPlaceholders.PlaceholdersAre | src/encoders/TCP_encoder.cpp:42-43 | a text holds a placeholder if and only if somewhere a non-empty run of digits, letters and `_` stands in braces |
| TcpPlaceholders.TurnReplaces | src/encoders/TCP_encoder.cpp:44-53 | a turn of the loop replaces the first one by its value, or by `[UNKNOWN]`, and leaves everything else |
| TcpPlaceholders.LinesSent | src/encoders/TCP_encoder.hpp:12-18 | the line written out for each type comes out of the loop if and only if no field of it holds a name in braces |
| TcpEncoder.NeverEnds | src/encoders/TCP_encoder.cpp:42-53 | with the display name `{DisplayName}` the loop of a BYE does not end in any number of turns |
| TcpReferences.EndsIffAcyclic | src/encoders/TCP_encoder.cpp:42-53 | for every format and value map whose braces all belong to placeholders, values referring to values included: the loop ends if and only if no chain of references from the format meets a key again |
| TcpReferences.EncodingEnds | src/encoders/TCP_encoder.cpp:36-54 | the same for `encode` and every shipped format |
| TcpEncoder.ReplyStart | src/encoders/TCP_encoder.hpp:14 | whatever the loop returns for a REPLY starts with `REPLY [UNKNOWN]` |
| TcpEncoder.Substitute | src/encoders/TCP_encoder.cpp:42-53 | wherever the loop ends, the method returns its result, free of placeholders |
| TcpEncoder.Encode | src/encoders/TCP_encoder.cpp:21-62 | nothing for a type without format, the described line when no field holds a placeholder, and otherwise what the loop returns |
| TcpDecoder.DecodeLine | src/decoders/TCP_decoder.cpp:94-103 | the search loop takes the first shape that matches, in the map's order |
| TcpLines.TextLines | src/decoders/TCP_decoder.hpp:13-17 | `MSG FROM ` or `ERR FROM `, an author, ` IS ` and a text, each keyword letter as a capital, a small letter or (not the first) a bar: read with these fields if and only if they have 1 to 20 and 1 to 60000 bytes, none of them CR or LF, and after a space the text holds no ` IS ` in any spelling with something after it |
| TcpLines.JoinLines | src/decoders/TCP_decoder.hpp:16 | the same for `JOIN `, a channel, ` AS ` and a display name, of which the name is read |
| TcpLines.ByeLines | src/decoders/TCP_decoder.hpp:18 | the same for `BYE FROM ` and an author |
| TcpLines.AuthLines | src/decoders/TCP_decoder.hpp:15 | the same for `AUTH `, a user name, ` AS `, a display name, ` USING ` and a secret, of which the user name is read as the author |
| TcpLines.ReplyLines | src/decoders/TCP_decoder.hpp:14 | the same for `REPLY `, `OK` or `NOK`, ` IS ` and a text; the result is positive for `OK` without bars |
| TcpLines.TextTooLong | src/decoders/TCP_decoder.cpp:93-107 | a MSG or ERR line with a field over 20 or 60000 bytes makes the decoder throw, with the author already set if only the text is too long |
| TcpLines.JoinTooLong | src/decoders/TCP_decoder.cpp:79-92 | the same for the display name of a JOIN, with nothing set |
| TcpLines.ByeTooLong | src/decoders/TCP_decoder.cpp:108-121 | the same for the author of a BYE |
| TcpLines.AuthTooLong | src/decoders/TCP_decoder.cpp:65-78 | the same for the user name of an AUTH |
| TcpLines.ReplyTooLong | src/decoders/TCP_decoder.cpp:48-62 | the same for the text of a REPLY, with type and result already set |
| TcpLines.OnlyLines | src/decoders/TCP_decoder.hpp:13-18 | data are read as the line before their first CR LF if neither that line nor what follows it holds a CR or LF, and else not at all |
| TcpLines.NoKeyword | src/decoders/TCP_decoder.cpp:94-103 | a line that starts with none of the six keywords in any spelling is not read |
| TcpDecoder.OrderIndependent | src/decoders/TCP_decoder.cpp:94-103 | for all other data, the order of the hash map does not matter |
| TcpDecoder.OrderMatters | src/decoders/TCP_decoder.hpp:12-18 | two orders of the hash map decode the data differently if and only if the data are a line that starts with three bars and ` FROM `, in any of its spellings, and has an author within the limit before its last ` IS `; or with four bars and a space, goes on like an AUTH, and has a user name or a last name within the limit |
| TcpDecoder.BarsAreAmbiguous | src/decoders/TCP_decoder.hpp:13-17 | for every author within the limit and every text without a later separator, the line with the keyword in three bars is such data |
| TcpDecoder.NameBarsAreAmbiguous | src/decoders/TCP_decoder.hpp:15-16 | for every user name within the limit, display name and secret, the line with the keyword in four bars is such data too |
| TcpDecoder.GroupsAreGreedy | src/decoders/TCP_decoder.hpp:13-17 | two groups are matched if and only if they are non-empty, a separator joins them to the text, and no separator with something after it starts later |
| TcpDecoder.ReplyRead | src/decoders/TCP_decoder.cpp:48-64 | a REPLY line in any spelling gives its text, and the right result for every accepted status, if and only if the text is non-empty, within the limit and without line breaks |
| TcpDecoder.SplitExact | src/decoders/TCP_decoder.hpp:13-17 | the greedy split gives back the two groups that were joined if and only if no later separator follows, overlapping ones included |
| TcpDecoder.TextLineRead | src/decoders/TCP_decoder.hpp:13-17 | for every MSG and ERR: both fields of the described line come back if and only if they are non-empty, within the limits and without line breaks, and a space and the text hold no further ` IS ` with something after it, whatever the author holds |
| TcpDecoder.TextRead | src/decoders/TCP_decoder.hpp:13-17 | the same for every spelling of the keyword and the separator |
| TcpDecoder.TextRoundTrip | src/encoders/TCP_encoder.cpp:36-54 | the same for whatever the encoder's loop returns, when neither field holds a placeholder |
| TcpDecoder.JoinRoundTrip | src/decoders/TCP_decoder.hpp:16 | whatever the encoder's loop returns for a JOIN without placeholders in its fields gives back the display name if and only if channel and name are non-empty and without line breaks, the name is within the limit, and a space and the name hold no further ` AS ` with something after it |
| TcpDecoder.ByeRoundTrip | src/decoders/TCP_decoder.hpp:18 | whatever the encoder's loop returns for a BYE without placeholders in its author gives the author back if and only if it is non-empty, within the limit and without line breaks |
| TcpDecoder.AuthRoundTrip | src/decoders/TCP_decoder.hpp:15 | whatever the encoder's loop returns for an AUTH without placeholders in its fields gives back the user name, as the author, if and only if it is non-empty and within the limit, no field holds a line break, the rest splits at a ` USING `, and no later ` AS ` is followed by something that does |
| TcpDecoder.ReplyLost | src/decoders/TCP_decoder.hpp:14 | whatever the encoder's loop returns for a REPLY, with any text, decodes to an empty message |
| ForwardedArguments.ParseForwardedArguments | lib/argumentum/inc/parser_impl.h:246-284 | the loop splits at single commas, reads double ones as one, takes a leading comma literally and drops empty arguments |
| ForwardedArguments.SplitUndoesJoin | lib/argumentum/inc/parser_impl.h:246-284 | for every list: splitting undoes "double every comma, join with commas" if and only if no argument is empty or starts with a comma, or there is one argument and it is all commas |
| ForwardedArguments.CommaRun | lib/argumentum/inc/parser_impl.h:266-281 | of a run of n commas inside a list n/2 are read, and if n is odd the last one ends the argument, unless there is none to end |
| ForwardedArguments.LeadingRun | lib/argumentum/inc/parser_impl.h:259-264 | of a run that the list starts with, the first comma is read as it is |
| ForwardedArguments.PlainRun | lib/argumentum/inc/parser_impl.h:280-283 | text without commas is read as it is |
| ForwardedArguments.NoEmptyArguments | lib/argumentum/inc/parser_impl.h:251-254 | no empty argument is ever added |
| Writer.SplitIntoWords | lib/argumentum/inc/writer_impl.h:62-82 | the nested loops find the maximal runs of non-space characters |
| Writer.SplitIntoParagraphs | lib/argumentum/inc/writer_impl.h:84-107 | the loop over the matches yields the paragraphs and an empty block for each delimiter |
| WriterLayout.ParagraphWords | lib/argumentum/inc/writer_impl.h:84-107 | for every text, the words of its blocks are the words of the text, in order |
| WriterLayout.BlocksAreWhole | lib/argumentum/inc/writer_impl.h:84-107 | for every text, no block holds a paragraph delimiter |
| WriterText.WordsAreRuns | lib/argumentum/inc/writer_impl.h:62-82 | the words of every text are its runs of other characters than 9 to 13 and 32, read from left to right |
| WriterText.DelimitersAre | lib/argumentum/inc/writer_impl.h:86 | a text holds a paragraph delimiter if and only if two line breaks in it have only spaces and tabs between them |
| WriterText.BlankLineBreaks | lib/argumentum/inc/writer_impl.h:20-31 | where such a blank line follows, `write` writes the words before it as a paragraph, ends the line, leaves one empty line and writes the rest |
| WriterText.WritesText | lib/argumentum/inc/writer_impl.h:20-31 | `write` goes from the start of the text to its end, and a break ends the line and adds one line feed, unless the page is at the start of a paragraph |
| WriterText.LeadingBlankLine | lib/argumentum/inc/writer_impl.h:95-96 | a blank line before all text is a break too |
| WriterText.WhereBreaks | lib/argumentum/inc/writer_impl.h:53-60 | a break leaves an empty line after a line start, a skip or a paragraph, and none on a new page or after another break |
| WriterText.LastParagraph | lib/argumentum/inc/writer_impl.h:103-104 | a rest without a blank line is one paragraph |
| WriterText.IndentWritten | lib/argumentum/inc/writer_impl.h:13-18 | at the start of a line a word follows as many spaces as were asked for, at most the width |
| Writer.Writer.constructor | lib/argumentum/inc/writer_impl.h:8-11 | a new writer has written nothing and stands at the start of a paragraph |
| Writer.Writer.SetIndent | lib/argumentum/inc/writer_impl.h:13-18 | the indentation is set, cut to the width |
| Writer.Writer.StartLine | lib/argumentum/inc/writer_impl.h:33-40 | a line break unless at a line start |
| Writer.Writer.SkipToColumnOrNewLine | lib/argumentum/inc/writer_impl.h:42-51 | spaces up to the column, or a line break where it is passed or outside the width |
| Writer.Writer.StartParagraph | lib/argumentum/inc/writer_impl.h:53-60 | an empty line unless at the start of a paragraph |
| Writer.Writer.WriteParagraph | lib/argumentum/inc/writer_impl.h:109-130 | the loop writes the words of the text one by one as specified |
| Writer.Writer.Write | lib/argumentum/inc/writer_impl.h:20-31 | the text is split into paragraphs, and the loop writes paragraphs and paragraph breaks as specified |
| WriterLayout.EveryLineFits | lib/argumentum/inc/writer_impl.h:109-130 | after any calls of the writer, every line is within the width or is indentation within the width and one word |
| WriterLayout.WordsSurvive | lib/argumentum/inc/writer_impl.h:109-130 | after any calls, the words of the output are the words of the texts that were written, in order, none split and none run together |
| WriterLayout.PositionIsColumn | lib/argumentum/inc/writer_impl.h:33-51 | after any calls, `position` is the length of the line being written |
| WriterLayout.WordLine | lib/argumentum/inc/writer_impl.h:113-128 | a word goes to a new line after the indentation if it would pass the width, and else to the end of the current line after the indentation or one space |
| WriterLayout.SkipReachesColumn | lib/argumentum/inc/writer_impl.h:42-51 | a skip fills the current line with spaces up to the column, or starts a new line and leaves the others as they were |
| WriterLayout.ParagraphBreak | lib/argumentum/inc/writer_impl.h:53-60 | a paragraph break ends the line and leaves one empty line, however often it is asked for |
| WriterLayout.FewestLines | lib/argumentum/inc/writer_impl.h:109-130 | a paragraph that starts a line or follows a word takes no more lines than any other choice of line breaks that keeps words within the width, whatever the indentation |
| WriterLayout.FewestLinesSkipped | lib/argumentum/inc/writer_impl.h:113-119 | a paragraph that follows a column skip takes the fewest lines, over all choices of line breaks whose first word needs no space, if and only if its first word does not waste one: it would end exactly at the width, and the words after it need as many breaks from the width as from the start of a new line |
| WriterLayout.SkipCanWasteALine | lib/argumentum/inc/writer_impl.h:113-115 | after a column skip, a word that would end exactly at the width goes to a new line |

## Left out

- Sockets, `poll`, sleeps, host look-up, port changes and printing: replaced by events and a history of what is sent. Exceptions thrown by `send` or `receive` are not modelled.
- Parsing of user commands: a line arrives as nothing, an exception (with the configuration it may have changed) or a message built by the setters.
- The clock is read once per iteration; the original reads it at every comparison. Times are not required to grow, the properties hold for any.
- The signal handler runs between iterations, not within one.
- `Message` and `StackElement` are modelled as values: the original copies them at every hand-over, so no aliasing is lost. The queue is a field of type `seq`. Erase counts are unbounded where the original counts on 16 bits; a queue would need 65536 entries to show the difference.
- UdpFsmBudget.SortedIds: stops at ID 65535, which means "assign one"; after it the counter wraps and IDs repeat.
- UdpFsmBudget.BudgetConservation: stops at ID 65535 too, because resends are counted by ID.
- UdpFsmSafety.ResendsHaveOrigin: leaves out entries with ID 65535, whose resends draw a new ID.
- UdpFsmSafety.JoinFollowsChannel: does not say when two datagrams that are cut to 16 bits of length agree by chance.
- UdpFsmSafety.AuthFollowsLogin: the same for an AUTH; and for user names with a zero byte inside, two logins can be encoded alike.
- TcpReferences.EndsIffAcyclic: leaves out texts with braces that belong to no placeholder, where a replacement can complete a new one, as in `{{k}}`.
- `std::regex` as an engine: the placeholder pattern, the six line shapes and the paragraph delimiter are matched by hand-written functions.
- Reading a C string past the end of a datagram: `CString` stops at the end of the data.
- `{%i:…}` is modelled for a little-endian host with 32-bit `int`.
- The TCP automaton, which has no queue, budgets or timers.
- The rest of argumentum: option configuration, value conversion, help layout.
