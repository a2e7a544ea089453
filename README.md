# RaptorEngine transport and list widgets, modelled in Dafny

This project models four parts of the RaptorEngine game engine and proves properties of them.

- **The stream framer (`PacketBuffer`).** It turns TCP bytes, arriving in arbitrary chunks, into a FIFO queue of complete packets. It keeps at most one unfinished packet, plus the exact number of bytes that packet still needs.
- **The per-client connection (`ConnectedClient`).** This covers:
  - the `Connected`/`Synchronized` flags and `Disconnect`;
  - the inbound and outbound queues and how they are drained;
  - `ProcessPacket` dispatch over PING, PONG, PADDING, LOGIN and DISCONNECT;
  - the login handshake;
  - ping-id allocation over the ids 0..255;
  - the latency history, capped at 120 samples;
  - one turn of each worker thread: receiving one chunk, and flushing the outbound queue.
- **The list box (`ListBox`, `ListBoxButton`).** Finding, removing, clearing and selecting items, and scrolling with clamped integer arithmetic.
- **The drop-down (`DropDown`, `DropDownListBox`).** Stepping the value with the mouse wheel, looking up the label, opening and closing the popup, and placing the popup on screen.

Files:

- `Wrappers.dfy`: `Option`.
- `Packets.dfy`: bytes, packets and the header contract.
- `PacketBuffer.dfy`: the framer as functions (`Frame`, `Feed`) with their lemmas, and the `PacketBuffer` class proved against them.
- `ClientProtocol.dfy`: the connection logic as functions on a `Conn` value that holds the client's fields, with its lemmas.
- `ConnectedClient.dfy`: the `ConnectedClient` class. Each method is proved to leave exactly the state that the matching `ClientProtocol` function computes from the old state.
- `ListBox.dfy` and `DropDown.dfy`: the widgets. Each is a set of specification functions and lemmas, plus classes that update their fields in place.

Collaborators are abstract:

- The `Packet` class's encoding is a `Codec` of functions. The framer only knows `PACKET_HEADER_SIZE` and a header decoder (`HeaderFormat`).
- The global server is a `Server` value holding its answers. The packets offered to the server's own dispatch are logged in `offered`, and every other call on the server is logged in `calls`.
- The socket's send is a function from a packet to the number of bytes written; packets written in full are logged in `wire`.
- The clock is an integer millisecond `now`.
- Thread creation results, the bytes one read returned, and the screen height are parameters.

The framer follows the code. A header split across reads should be completed by later bytes before its size is read. The code instead takes the size from the partial header once and never re-reads it (`Net/PacketBuffer.cpp:55`, `:66-67`). So the `PacketBuffer` class and the receive step model the code as written:

- chunking-invariance is proved only for partitions that never cut a header;
- a counterexample shows what happens when a cut falls inside one;
- a corrected framer, which frames the unfinished bytes afresh with each chunk, is modelled beside it and proved chunking-invariant for every partition (see "## Findings").

## Model

| member | source | states |
|---|---|---|
| Packets.HeaderFormat.FirstPacketSize | Net/PacketBuffer.cpp:55 | the declared size is at least one header, and depends only on the first `headerSize` bytes when they are there |
| PacketBuffers.Frame | Net/PacketBuffer.cpp:53-71 | the framing loop leaves an unfinished tail exactly when bytes are owed; the tail is non-empty and shorter than its declared size; tail plus owed bytes is that size |
| PacketBuffers.FrameConserves | Net/PacketBuffer.cpp:53-71 | the framed packets followed by the tail are exactly the input bytes |
| PacketBuffers.FramedPacketsSized | Net/PacketBuffer.cpp:55-62 | every materialised packet holds its whole header and exactly the length that header declares |
| PacketBuffers.Feed | Net/PacketBuffer.cpp:28-72 | AddData keeps "unfinished exactly when bytes are owed" and only appends to the completed queue; a chunk shorter than the need is appended to the unfinished packet, completes nothing and lowers the need by its length; a chunk at least as long completes the unfinished packet with exactly the bytes it owed and puts it next in the queue |
| PacketBuffers.FeedConserves | Net/PacketBuffer.cpp:28-72 | no byte is lost, duplicated or reordered: completed bytes then unfinished bytes grow by exactly the chunk |
| PacketBuffers.FeedSized | Net/PacketBuffer.cpp:33-71 | while the unfinished packet's header is whole, completing or framing yields only packets of their declared lengths, and a new unfinished packet owes exactly the rest of its length |
| PacketBuffers.FeedAll | Net/PacketBuffer.cpp:28-72 | feeding chunks one call after another keeps the framer consistent |
| PacketBuffers.FrameSkip | Net/PacketBuffer.cpp:53-71 | framing `x + y` is framing `x` and then framing x's leftover followed by `y` |
| PacketBuffers.FeedAfterFrame | Net/PacketBuffer.cpp:33-71 | feeding `b` after `a` equals feeding `a + b` when the cut leaves no partial header |
| PacketBuffers.ChunkingInvariance | Net/PacketBuffer.cpp:33-71 | any partition whose boundaries never split a header frames the stream exactly as a single AddData call |
| PacketBuffers.TwoByteFormat | Net/PacketBuffer.cpp:55 | a concrete well-formed header format, used for the counterexample |
| PacketBuffers.SplitHeaderCounterexample | Net/PacketBuffer.cpp:55-67 | as written, the seven-byte packet cut after its first byte comes out as two wrong packets instead of one |
| PacketBuffers.FeedReparsing | Net/PacketBuffer.cpp:28-72 | the re-framing feed keeps the framer consistent and only appends to the completed queue |
| PacketBuffers.FeedReparsingConserves | Net/PacketBuffer.cpp:28-72 | the re-framing feed loses, duplicates and reorders no byte |
| PacketBuffers.ChunkingInvarianceReparsing | Net/PacketBuffer.cpp:28-72 | with re-framing, every partition of a stream frames it exactly as one call does |
| PacketBuffers.PacketBuffer.constructor | Net/PacketBuffer.cpp:9-13 | a new framer has no completed packet, no unfinished packet and owes nothing |
| PacketBuffers.PacketBuffer.AddData | Net/PacketBuffer.cpp:28-72 | the imperative feed leaves exactly the state `Feed` computes, and keeps the framer consistent |
| PacketBuffers.PacketBuffer.FrameRest | Net/PacketBuffer.cpp:53-71 | the pointer-advancing loop appends exactly `Frame`'s packets and leaves its tail and owed count |
| PacketBuffers.PacketBuffer.Pop | Net/PacketBuffer.cpp:75-83 | an empty queue yields none and stays empty; otherwise the oldest packet is returned and removed (FIFO) |
| ClientProtocol.Initial | Net/ConnectedClient.cpp:16-51 | connected exactly when the inbound worker started; the outbound worker is used exactly when asked for and it started; queues, ping map and samples start empty |
| ClientProtocol.Disconnect | Net/ConnectedClient.cpp:97-112 | afterwards neither connected nor synchronized; the inbound queue and the dispatch log are untouched |
| ClientProtocol.DisconnectOnce | Net/ConnectedClient.cpp:97-112 | Disconnect is idempotent, and DroppedClient is reported exactly once when the connection was up and never otherwise |
| ClientProtocol.DisconnectKeepsData | Net/ConnectedClient.cpp:97-112 | Disconnect changes only the flags and adds DroppedClient to the call log exactly when it was connected |
| ClientProtocol.SendNow | Net/ConnectedClient.cpp:291-305 | success exactly when connected and the write is full; success adds the size to BytesSent and puts the packet on the wire; a short write on a live connection disconnects |
| ClientProtocol.SendToOutBuffer | Net/ConnectedClient.cpp:308-324 | the packet goes to the back of the outbound queue only when connected, and nothing else changes |
| ClientProtocol.Send | Net/ConnectedClient.cpp:279-288 | sending never touches the inbound queue, the dispatch log or the player id; at most a drop is reported |
| ClientProtocol.SendDelivers | Net/ConnectedClient.cpp:279-324 | with an outbound worker the packet is queued; without one, a full write puts it on the wire; when disconnected nothing happens |
| ClientProtocol.DisconnectNice | Net/ConnectedClient.cpp:79-94 | a connected client is first sent a DISCONNECT carrying the message, or "" without one: queued with an outbound worker, written directly otherwise (a short write sends nothing); a disconnected client only gets `Disconnect`; either way the client ends disconnected and unsynchronized, DroppedClient is reported exactly once when it was connected, and the inbound queue and player id are kept |
| ClientProtocol.Admit | Net/ConnectedClient.cpp:253-262 | the id is cleared, the credentials are validated, and a valid login takes the id AddPlayer gives; nothing else changes |
| ClientProtocol.Welcome | Net/ConnectedClient.cpp:264-273 | the player is named and AcceptedClient is reported last, with at most a drop report between them (a short write of the acceptance); the id, the inbound queue and the dispatch log are kept |
| ClientProtocol.Login | Net/ConnectedClient.cpp:251-276 | a login never touches the inbound queue or the dispatch log |
| ClientProtocol.LoginAcceptance | Net/ConnectedClient.cpp:251-276 | AcceptedClient is reported exactly when the login is valid and AddPlayer gave a non-zero id; AddPlayer is called exactly when the login is valid; a refused client is disconnected with id 0 and nothing sent |
| ClientProtocol.LoginSendsAcceptance | Net/ConnectedClient.cpp:264-273 | an accepted login on a live connection queues, or writes, the acceptance carrying the new id |
| ClientProtocol.Trim | Net/ConnectedClient.cpp:207-209 | the eviction loop keeps the newest min(n, 120) samples, in order |
| ClientProtocol.PongRecorded | Net/ConnectedClient.cpp:199-211 | a known PONG id is erased and its round trip becomes the newest sample; the history grows by one, or stays at 120 when full, so only the oldest sample beyond 120 is evicted and the others keep their order; an unknown id changes nothing |
| ClientProtocol.TrimAppend | Net/ConnectedClient.cpp:207-209 | appending a sample and evicting keeps the newest old samples, in order, then the new one, min(n + 1, 120) in all |
| ClientProtocol.RecordPong | Net/ConnectedClient.cpp:199-211 | the PONG branch changes only the ping map and the samples; a known id leaves the map and at most 120 samples remain |
| ClientProtocol.FirstFree | Net/ConnectedClient.cpp:338-346 | the first id from `i` on that is not in use, or none when all are in use |
| ClientProtocol.FirstStale | Net/ConnectedClient.cpp:350-364 | the first id from `i` on whose ping is older than three seconds, or none |
| ClientProtocol.PingSlotChoice | Net/ConnectedClient.cpp:333-365 | SendPing picks the lowest free id; when all 256 are taken it picks the lowest stale id; it picks none exactly when every id is taken and none is stale; an id younger than three seconds is never reused |
| ClientProtocol.SendPingEffect | Net/ConnectedClient.cpp:367-374 | with no slot nothing changes; otherwise the slot is stamped with now, the samples are kept, and the PING is queued when there is an outbound worker or written when there is none and the write is full |
| ClientProtocol.Ids | Net/ConnectedClient.cpp:338 | the ids below `n` form a set of size `n` |
| ClientProtocol.PingMapBounded | Net/ConnectedClient.cpp:333-375 | the ping map never holds more than 256 entries |
| ClientProtocol.DispatchAnswer | Net/ConnectedClient.cpp:183-248 | a packet the server handles changes only the dispatch log and answers true; the answer is false exactly for an unknown type the server declined, which changes nothing else |
| ClientProtocol.PingAnswered | Net/ConnectedClient.cpp:191-197 | a PING is answered with a PONG carrying the same id, queued or written as Send does |
| ClientProtocol.LoginMismatch | Net/ConnectedClient.cpp:219-235 | a LOGIN for another game disconnects with nothing sent; one for another version sends the version-mismatch DISCONNECT, queued or written directly; neither validates a login, and the only server call either makes is a drop report |
| ClientProtocol.DispatchKeepsInBuffer | Net/ConnectedClient.cpp:183-248 | dispatch never touches the inbound queue, and offers the packet to the server exactly once |
| ClientProtocol.DrainAllInOrder | Net/ConnectedClient.cpp:139-158 | ProcessIn empties the inbound queue and offers its packets to the server in arrival order |
| ClientProtocol.ProcessTopFront | Net/ConnectedClient.cpp:161-180 | ProcessTop removes and offers only the front packet; disconnected, or with an empty queue, it does nothing |
| ClientProtocol.Cleanup | Net/ConnectedClient.cpp:115-136 | the socket is closed and both queues are empty; nothing else changes |
| ClientProtocol.Receive | Net/ConnectedClient.cpp:405-439 | one turn of the receive worker leaves the worker's framer consistent; a dropped client reads nothing and the worker stops, with client and framer unchanged, since the loop is over; an empty read (0 or an error) disconnects and stops the worker; a chunk keeps the worker listening and appends the framer's newly completed packets, in order, to the back of the inbound queue |
| PacketBuffers.WholeStreamFramed | Net/PacketBuffer.cpp:53-71 | the stream of the counterexample, fed in one call, frames as one seven-byte packet |
| PacketBuffers.ChunkedStreamFramed | Net/PacketBuffer.cpp:33-67 | the same stream cut after its first byte frames as `[0, 5]` and `[1, 2, 3, 4]` |
| ClientProtocol.ReceiveConserves | Net/ConnectedClient.cpp:409-428 | while connected, a received chunk is accounted for byte by byte across the inbound queue and the framer; a processed chunk leaves no completed packet in the framer and grows BytesReceived by its length; otherwise no byte moves |
| ClientProtocol.Accepted | Net/ConnectedClient.cpp:466-472 | counts the packets from the front that the socket takes in full, stopping at the first short write |
| ClientProtocol.FlushPrefix | Net/ConnectedClient.cpp:454-473 | a flush on a live connection writes the packets in order up to the first short write, after which nothing is sent; the client stays connected exactly when every write was full |
| ClientProtocol.FlushClosed | Net/ConnectedClient.cpp:291-294 | a disconnected client sends nothing |
| ClientProtocol.Flush | Net/ConnectedClient.cpp:466-472 | sending the swapped-out packets one by one leaves both queues and the dispatch log alone and puts at most those packets on the wire |
| ClientProtocol.FlushOut | Net/ConnectedClient.cpp:452-473 | a turn on a live connection leaves the outbound queue empty; on a dropped client the loop is over and nothing changes |
| ClientProtocol.PingSlot | Net/ConnectedClient.cpp:335-365 | the id chosen for a ping is free or stale |
| ClientProtocol.SendPing | Net/ConnectedClient.cpp:333-375 | sending a ping leaves the inbound queue, the dispatch log, the samples and the player id alone |
| ClientProtocol.ProcessPacket | Net/ConnectedClient.cpp:183-248 | processing a packet leaves the inbound queue alone and offers the packet to the server exactly once |
| ClientProtocol.Dispatch | Net/ConnectedClient.cpp:191-247 | the built-in handling answers false exactly for an unknown type; an unknown type or PADDING changes nothing; the inbound queue and dispatch log are untouched |
| ClientProtocol.DrainAll | Net/ConnectedClient.cpp:148-154 | the drain loop leaves the inbound queue empty |
| ClientProtocol.ProcessIn | Net/ConnectedClient.cpp:139-158 | on a live connection the inbound queue ends empty; on a dropped one nothing changes |
| ClientProtocol.ProcessTop | Net/ConnectedClient.cpp:161-180 | on a live connection with packets queued exactly the front one is removed |
| ConnectedClients.ConnectedClient.constructor | Net/ConnectedClient.cpp:16-51 | the new client's fields are exactly `Initial`'s |
| ConnectedClients.ConnectedClient.Disconnect | Net/ConnectedClient.cpp:97-112 | the new state is `Disconnect` of the old |
| ConnectedClients.ConnectedClient.DisconnectNice | Net/ConnectedClient.cpp:79-94 | the new state is `DisconnectNice` of the old |
| ConnectedClients.ConnectedClient.Cleanup | Net/ConnectedClient.cpp:115-136 | the popping loops leave `Cleanup` of the old state |
| ConnectedClients.ConnectedClient.ProcessIn | Net/ConnectedClient.cpp:139-158 | the drain loop leaves `ProcessIn` of the old state |
| ConnectedClients.ConnectedClient.ProcessTop | Net/ConnectedClient.cpp:161-180 | the new state is `ProcessTop` of the old |
| ConnectedClients.ConnectedClient.ProcessPacket | Net/ConnectedClient.cpp:183-248 | the new state and the answer are `ProcessPacket`'s |
| ConnectedClients.ConnectedClient.Dispatch | Net/ConnectedClient.cpp:191-247 | the type branches leave `Dispatch`'s state and answer |
| ConnectedClients.ConnectedClient.Pong | Net/ConnectedClient.cpp:199-211 | the new state is `RecordPong` of the old |
| ConnectedClients.ConnectedClient.RecordPong | Net/ConnectedClient.cpp:199-211 | a known id is erased and the samples become the trimmed old samples plus its round trip; an unknown id changes nothing |
| ConnectedClients.ConnectedClient.Evict | Net/ConnectedClient.cpp:208-209 | the pop-front loop leaves exactly `Trim` of the samples |
| ConnectedClients.ConnectedClient.Login | Net/ConnectedClient.cpp:251-276 | the new state is `Login` of the old |
| ConnectedClients.ConnectedClient.Admit | Net/ConnectedClient.cpp:253-262 | the new state is `Admit` of the old |
| ConnectedClients.ConnectedClient.Welcome | Net/ConnectedClient.cpp:264-273 | the new state is `Welcome` of the old |
| ConnectedClients.ConnectedClient.Send | Net/ConnectedClient.cpp:279-288 | the new state and the answer are `Send`'s |
| ConnectedClients.ConnectedClient.SendNow | Net/ConnectedClient.cpp:291-305 | the new state and the answer are `SendNow`'s |
| ConnectedClients.ConnectedClient.SendToOutBuffer | Net/ConnectedClient.cpp:308-324 | the new state is `SendToOutBuffer` of the old |
| ConnectedClients.ConnectedClient.SendPing | Net/ConnectedClient.cpp:333-375 | the new state is `SendPing` of the old |
| ConnectedClients.ConnectedClient.FindPingSlot | Net/ConnectedClient.cpp:335-365 | the two search loops find exactly `PingSlot`'s id; erasing a stale entry and then stamping it gives the same map as stamping it |
| ConnectedClients.ConnectedClient.LatestPing | Net/ConnectedClient.cpp:378-381 | the newest sample, or 0 when there is none |
| ConnectedClients.ConnectedClient.ReceiveStep | Net/ConnectedClient.cpp:405-439 | the client, the framer and the keep-listening answer are exactly `Receive`'s |
| ConnectedClients.ConnectedClient.DrainFramer | Net/ConnectedClient.cpp:418-428 | the Pop loop moves every completed packet, oldest first, to the back of the inbound queue, and leaves the rest of the framer unchanged |
| ConnectedClients.ConnectedClient.FlushStep | Net/ConnectedClient.cpp:454-473 | the swap-and-send turn leaves `FlushOut` of the old state |
| ListBoxes.IndexFrom | UI/ListBox.cpp:88-105 | the first index at or after `from` holding the value, or -1 when there is none |
| ListBoxes.IndexOf | UI/ListBox.cpp:88-105 | FindItem's answer is the first index holding the value, and -1 exactly when no item holds it |
| ListBoxes.Without | UI/ListBox.cpp:108-112 | removing by value: a missing value removes nothing; a present one leaves exactly one item fewer |
| ListBoxes.WithoutConserves | UI/ListBox.cpp:108-130 | removing by value takes out exactly one item, the first match, when the value is present, and none otherwise; no other item is lost or gained, the items before the match stay in place and those after it move down one, in order |
| ListBoxes.WithoutAfterAdd | UI/ListBox.cpp:82-112 | removing the value of an item just added, when no other item held it, restores the list |
| ListBoxes.FirstSharing | UI/ListBox.cpp:313-322 | Select(int) selects the first item sharing the index's value: never a later one, and the one at the index when values are distinct |
| ListBoxes.MaxScrollFor | UI/ListBox.cpp:148-156 | the largest scroll is max(0, count × line − height) |
| ListBoxes.ScrolledUp | UI/ListBox.cpp:159-165 | one line up, clamped at 0: max(0, scroll − line) |
| ListBoxes.ScrolledDown | UI/ListBox.cpp:168-175 | one line down, clamped at the largest scroll: min(scroll + line, max) |
| ListBoxes.ScrollSteps | UI/ListBox.cpp:159-175 | both steps keep a scroll in [0, MaxScroll] there, and a step that hits no end is undone by the other |
| ListBoxes.TruncDiv | UI/ListBox.cpp:266 | C's `/` on int, truncating toward zero, for a positive divisor |
| ListBoxes.ClickRow | UI/ListBox.cpp:264-268 | a point at or below the content's top selects the line holding it; a point less than a line above the top reads as row 0 |
| ListBoxes.ListBox.constructor | UI/ListBox.cpp:42-74 | the box starts with the given items, no selection and no scroll |
| ListBoxes.ListBox.LineScroll | UI/ListBox.cpp:140-145 | the font's line skip, or 10 without a font |
| ListBoxes.ListBox.MaxScroll | UI/ListBox.cpp:140-156 | max(0, item count × LineScroll − Rect.h), where LineScroll is the font's line skip or 10 |
| ListBoxes.ListBox.AddItem | UI/ListBox.cpp:82-85 | the item is appended |
| ListBoxes.ListBox.FindItem | UI/ListBox.cpp:88-105 | the search loop returns the first index holding the value, or -1 exactly when none does |
| ListBoxes.ListBox.RemoveItem | UI/ListBox.cpp:108-112 | exactly the first item holding the value is removed and the rest keep their order; a missing value removes nothing |
| ListBoxes.ListBox.RemoveItemAt | UI/ListBox.cpp:115-130 | a negative index removes nothing; any other erases exactly that item |
| ListBoxes.ListBox.Clear | UI/ListBox.cpp:133-137 | no items and no selection remain |
| ListBoxes.ListBox.ScrollUp | UI/ListBox.cpp:159-165 | the scroll becomes `ScrolledUp` of the old |
| ListBoxes.ListBox.ScrollDown | UI/ListBox.cpp:168-175 | the scroll becomes `ScrolledDown` of the old, against MaxScroll |
| ListBoxes.ListBox.MouseUp | UI/ListBox.cpp:256-283 | the wheel scrolls without selecting; another button selects row (y + Scroll) / LineScroll, truncated, exactly when that row holds an item, and runs Changed exactly then; the event is always handled |
| ListBoxes.ListBox.SelectedValue | UI/ListBox.cpp:291-296 | "" when nothing is selected, else the selected item's value |
| ListBoxes.ListBox.SelectedText | UI/DropDown.cpp:183 | "" when nothing is selected, else the selected item's text |
| ListBoxes.ListBox.Select | UI/ListBox.cpp:299-310 | the first item holding the value becomes the selection and Changed runs, so the selected value is the one asked for; without a match nothing changes |
| ListBoxes.ListBox.SelectAt | UI/ListBox.cpp:313-322 | a negative index clears the selection and runs Changed; an index past the end does nothing; any other selects the first item sharing its value |
| ListBoxes.ListBoxButton.constructor | UI/ListBox.cpp:338-344 | the button keeps its list box and action |
| ListBoxes.ListBoxButton.Clicked | UI/ListBox.cpp:372-379 | action 1 scrolls its box up and action 2 scrolls it down, any other action leaves the scroll; only the box's scroll may change |
| DropDowns.PreviousItem | UI/DropDown.cpp:65-91 | wheel-up gives the item before the first item from index 1 on holding the value, or the first item; the result is always one of the items |
| DropDowns.NextItem | UI/DropDown.cpp:93-120 | wheel-down gives the item after the first item before the last holding the value, or the last item; the result is always one of the items |
| DropDowns.DistinctIndex | UI/DropDown.cpp:73-82 | among distinct values, the search for item k's value finds k |
| DropDowns.WheelSteps | UI/DropDown.cpp:63-120 | with distinct values the wheel moves one item each way, a step down is undone by a step up and vice versa, and the ends stay put |
| DropDowns.LabelFor | UI/DropDown.cpp:29-39 | Update's label is the text of the first item holding the value, or the label as it was |
| DropDowns.WheelLabelAgrees | UI/DropDown.cpp:29-120 | after a wheel step among distinct values, value and label come from the same item, so Update keeps the label |
| DropDowns.PopupRect | UI/DropDown.cpp:152-172 | the popup keeps x and width, is no taller than the screen or its rows, and never starts above the container's top |
| DropDowns.PopupPlacement | UI/DropDown.cpp:152-172 | the popup keeps x and width; Rect.h is min(rows × LineScroll, screen height); Rect.y is never above the container's top and, unless held there, ends on screen; when the shifted position fits, the current item's row is over the drop-down |
| DropDowns.DropDown.constructor | UI/DropDown.cpp:10-15 | no items, an empty label and no popup |
| DropDowns.DropDown.AddItem | UI/DropDown.cpp:23-26 | the item is appended |
| DropDowns.DropDown.Update | UI/DropDown.cpp:29-39 | the loop leaves the label at `LabelFor` |
| DropDowns.DropDown.Clicked | UI/DropDown.cpp:63-127 | with items, the wheel sets value and label to the previous or next item and runs Changed; with none it changes nothing; another button opens a fresh popup placed by `PopupRect` only when none is open |
| DropDowns.DropDown.PreviousOf | UI/DropDown.cpp:69-88 | the wheel-up loop finds exactly `PreviousItem` |
| DropDowns.DropDown.NextOf | UI/DropDown.cpp:97-116 | the wheel-down loop finds exactly `NextItem` |
| DropDowns.DropDown.Close | UI/DropDown.cpp:130-134 | the open popup is removed and forgotten |
| DropDowns.DropDownListBox.constructor | UI/DropDown.cpp:145-173 | the popup lists the drop-down's items, unselected, in its font, at `PopupRect` of the index FindItem gives for the current value |
| DropDowns.DropDownListBox.Place | UI/DropDown.cpp:152-172 | the step-by-step Rect adjustments give exactly `PopupRect` |
| DropDowns.DropDownListBox.Changed | UI/DropDown.cpp:181-188 | the selection's text and value are copied to the drop-down, its Changed runs, and the popup closes itself |
| DropDowns.DropDownListBox.MouseUp | UI/ListBox.cpp:256-283 | the wheel scrolls the popup one line; a click on a row selects it, copies its value and text to the drop-down, runs Changed and closes the popup; the wheel and a click that hits no row leave the selection, the drop-down's value, label, change count and popup, and the popup's removed flag as they were |
| DropDowns.DropDownListBox.KeyDown | UI/DropDown.cpp:191-197 | Escape is claimed and nothing else is |
| DropDowns.DropDownListBox.KeyUp | UI/DropDown.cpp:200-209 | Escape closes the drop-down's popup and is claimed; other keys leave the recorded popup and its removed flag as they were |

## Findings

| source | as written | input that shows it | evidently intended | confidence | as-written member | corrected member |
|---|---|---|---|---|---|---|
| Net/PacketBuffer.cpp:55-67 | With fewer than `PACKET_HEADER_SIZE` bytes left, the size is read from the partial header (and past it). The unfinished packet then owes `packet_size - size_unprocessed`, and that size is never read again after the header completes. | A two-byte header whose second byte is the payload length. The seven-byte packet `[0, 5, 1, 2, 3, 4, 5]` arrives as `[0]` then `[5, 1, 2, 3, 4, 5]`. It comes out as `[0, 5]` and `[1, 2, 3, 4]`, not as one packet. | The unfinished bytes, header included, are framed afresh with each chunk, so a size is only taken from a complete header. Every chunking then frames a stream as one call does. | not executed | PacketBuffers.SplitHeaderCounterexample | PacketBuffers.ChunkingInvarianceReparsing |

The class `PacketBuffers.PacketBuffer` and the receive step model the code as written, so the effect of this finding stays visible in the connection model. The corrected framer is `PacketBuffers.FeedReparsing`, with `PacketBuffers.FeedReparsingConserves` and `PacketBuffers.ChunkingInvarianceReparsing` proved about it.

## Left out

**Threads and timing**
- Threads and locks: `SDL_CreateThread`/`SDL_KillThread`, `InLock`/`OutLock` and `SDL_Delay` are not modelled. Thread creation results are constructor parameters, and each worker loop body is one sequential step, taken only while `Connected` holds as the loops' guards require. With no other thread, the receive worker's re-check of `Connected` after a read (`Net/ConnectedClient.cpp:412-413`) cannot fail and merges with the guard.
- The destructor: its two-second wait for the workers, and the thread kill, are left out. Its call to `Cleanup` is modelled as `Cleanup`.
- Clock: times are integer milliseconds passed as `now`. `ProcessIn` uses one `now` for every packet it drains, while the source reads the wall clock once per PONG.
- `ClientProtocol.PongRecorded`: round trips are integers, not the source's `double` milliseconds.

**Collaborators**
- Socket I/O: `SDLNet_TCP_Recv` becomes the chunk parameter of `ReceiveStep`, where empty stands for 0 or an error. `SDLNet_TCP_Close` becomes the `socketOpen` flag. `SDLNet_TCP_Send` becomes the fixed function `written`, so the same packet always gets the same write result.
- The bound `PACKET_BUFFER_SIZE` on the length of one read is not modelled.
- The `Packet` class's encoding (type tags, `Add*`/`Next*` field layout, the header's byte order) is abstract: it is the `Codec` functions and the `HeaderFormat` decoder.
- Packet copying in `SendToOutBuffer`, and `Rewind`/`Offset` in `ProcessPacket`, leave no trace on values.
- Server side effects: the server's own `ProcessPacket`, `ConsolePrint`, and the `Player` object it creates or deletes are not modelled. Its answers are parameters, and the calls made on it are logged.
- `SendOthers` is a pass-through to the server's network layer and is not modelled.
- `IP`, `Port`, `NetRate`, `PingRate` and `Precision` are stored but never used by the modelled logic.

**Not in the core**
- `AveragePing` and `MedianPing` use `double` averages from `Num::Avg`/`Num::Med`, which are not part of this model.
- `ListBox::Draw`, `UpdateRects`, `MouseEnter`, `MouseLeave` and `MouseDown` are drawing or no-op event hooks. So is `ListBoxButton::UpdateRect`, which sizes the buttons for drawing.
- Colours, alpha, text alignment and animations are left out for the same reason.
- The layer tree: `AddElement` and `Remove` are not modelled. A popup's `Remove` is its `removed` flag.
- The two scroll buttons that the `ListBox` constructor adds as elements are not created by the model. `ListBoxButton` takes its box as a parameter.
- `DropDown::HandleEvent` depends on `Layer::HandleEvent` and mouse tracking, which are not part of this model.
- The VR early return in the `DropDownListBox` constructor (`UI/DropDown.cpp:162-163`): only the non-VR placement is modelled.
- The `Changed` hooks of `ListBox` and `DropDown` are empty virtual methods. They are modelled as a `changed` answer and a `changes` counter, and the popup's override is called by `DropDownListBox.MouseUp`.

**Malformed headers**
- `PacketBuffers.Frame` / `PacketBuffers.Feed` (and everything built on them) require `Packets.HeaderFormat.WellFormed`: a header is at least one byte and declares at least a header's length. The source does not check this. A declared size of 0 with a whole header left makes the loop at `Net/PacketBuffer.cpp:53-63` push empty packets forever, since `size_unprocessed` never drops. A declared size between 1 and the header size materialises packets shorter than a header. A partial header whose declared size is below the bytes already held wraps the `size_t` subtraction at line 67. None of these is modelled.

**Integer widths**
- Integers are unbounded. `BytesSent`, `BytesReceived`, the 16-bit player id in the acceptance packet, and the `size_t`/`int` products in `MaxScroll` and the popup placement never wrap in the model.

**Deliberate preconditions**
- `ListBoxes.ListBox.RemoveItem` / `ListBoxes.ListBox.RemoveItemAt`: `Selected` is an index. Removing an item leaves it pointing at the same slot, which then holds the next item. The source's pointer would dangle or point into moved storage there; the model does not capture that, nor a reallocation by `AddItem`.
- `ListBoxes.ListBox.SelectedValue`: requires the selected slot to be in range, where the source would read through a dangling pointer.
- `ListBoxes.ListBox.MouseUp`: requires a non-zero line height, where the source would divide by zero.
- `DropDowns.DropDown.Close`: requires an open popup, where the source dereferences a null `MyListBox`.
- `DropDowns.DropDownListBox.KeyUp`: requires, for Escape, that the drop-down still records its popup; it always does while the popup is shown, and the source would call `Close` on a null pointer otherwise.
- `ListBoxes.ListBox.RemoveItemAt`: requires an index below the item count; `vector::erase` past the end is undefined behaviour, which the source's `out_of_range` handler does not catch.
- `ListBoxes.ListBox.SelectedText`: `ListBox::SelectedText` is declared in ListBox.h, which is not part of this model. It is modelled after `SelectedValue`.
