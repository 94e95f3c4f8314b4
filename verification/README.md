# WMQTT client: reliable delivery, verified

This project models the reliable-delivery engine of the WMQTT (MQTT version 3) C client library and its Perl
file store, and proves what the library is for: an accepted message is not lost, a QoS 2 message is passed on
once, and a crash, a lost connection or a failing store does not change that beyond what is stated here. The
protocol is the QoS 1 and QoS 2 flow of section 4.1 of the MQTT V3.1 Protocol Specification (sections 4.3.2
and 4.3.3 of OASIS MQTT 3.1.1).

`dafny verify dfyconfig.toml` checks the whole project.

## How the model is built

| files | what they model |
|---|---|
| `Links`, `HashTable` | doubly linked queues with tail pointers, and the 16-bucket chained hash table, as heap classes |
| `Outbound`, `OutboundEngine`, `QueueFacts` | the sending half of a connection handle: what each operation computes, on values, and the linked structures that compute it |
| `AtMostOnce`, `Conservation`, `Recovery`, `Pending`, `Duplicates`, `Progress` | the sender over whole runs: safety, conservation, reload, status, retries, and what can still be delivered |
| `Inbound`, `InboundEngine`, `InboundFacts`, `InboundRecovery` | the receiving half in the same way |
| `ReceiverProtocol`, `ReceiverData`, `ReceiverSafety`, `ReceiverStall` | the receiver over whole runs with a sending broker: safety, and what can still be released |
| `SentStore`, `FileStore` | the store as its clients see it, and the file store step by step with crashes |
| `Bytes`, `LengthCodec`, `WireId`, `Framing`, `Builders` | wire bytes, the remaining-length field, message ids where the other side reads them, stream reassembly, message builders |
| `Reconnect`, `ReceiveWait`, `Semaphores` | the reconnect timer, the receive-wait loop, the receive semaphore |

Two layers run through it. Functions on values (`Outbound.Conn`, `Inbound.InConn`) say what an operation does
to queue, index, store, socket and counters; methods on linked nodes prove that they compute these functions
(`Abs() == f(old(Abs()))`), and the protocol theorems are about the functions. What the outside world answers
(a store call, a socket write, the bytes a `recv` returns, the clock) is a parameter, so every theorem holds for
every answer. Entries carry stamps (`origin`, `uid`) that the C structures lack: they only say which API request
or which message of the broker an entry belongs to, so that "the same message" can be stated.

The sender theorems use two environments. In `AtMostOnce` the broker replies anything at any time, ids take all
65535 values and the store may be missing. In `Conservation` the broker follows the flow over a first-in
first-out link that loses its contents when the socket goes, a store is attached, and new ids fit a signed
short. A crash inside a call leaves what a failing write, a refused or half-finished store call leaves, and a
restart follows. Both ends take message ids, and the broker the kind of an acknowledgement, from the bytes on the
wire. Replies or packets that the other side handles after a connection is lost count as handled just
before the loss.

## Findings

- The sent store is written under the message id sign-extended from a `short` (src/mspscada.c:880,
  src/mspscada.c:924-928) and deleted under the `u_short` (src/mspscada.c:734). `Recovery.AckSoundIff`: queue and
  store stay the same exactly for ids up to 32767; above, an acknowledged message stays in the store. The comment
  that no key exceeds 16 bits (src/msputils.c:517-518) does not hold then; the model follows the code.
- The reconnect test is `connRetries + 1 <= retryCount`, where its comment has `<` (src/msputils.c:222-223); the
  model follows the code.
- `FileStores.AddShowsIff`: a message added under a key that still has an undeleted release is not what a reload
  finds.
- `InboundFacts.OfferedIsFoundIff`: the publication deleted on an acknowledgement is the one offered exactly if a
  store is attached or the head of the queue is ready. Without a store all receive ids are 0 and the head goes
  (src/msputils.c:765).
- `LengthCodec.DecoderOverreads`: the decoder looks at one byte more than it is told of (src/mspscada.c:823) and
  decodes into an `int` that overflows for fields of five bytes and more. The callers' bound check makes up for
  the over-read exactly if the decoded length is not negative and adding the field's size does not overflow
  (`AcceptedInsideIff`); a length is negative exactly if bit 3 of a fifth byte is set (`NegativeIff`), never in
  the four bytes the protocol allows (`ShortFieldInside`). A PUBACK with the bytes 40 FF FF FF FF 7F passes the
  check with length -1 and its id is read outside the buffer (`AcceptedOutside`, `Framing.WrappedReport`); a
  PUBLISH like that is refused (`InboundFacts.NegativeLengthRefused`).
- `ReceiverSafety.SecondDeliveryIff`: the answer of the store to the deletion of a delivered publication is ignored
  (src/msputils.c:774). A delivered QoS 2 message is ready again after a restart exactly if every deletion of it
  failed, and is then delivered twice.
- `InboundRecovery.IndexKeptIff`: a PUBLISH that the store refuses takes the index entry of its wire id away whatever its
  QoS (src/mspscada.c:622-625), so a waiting QoS 2 message with that id is not found any more: its PUBREL is answered
  with PUBCOMP and it stays unreleased (`LostRelease`). With a broker that reuses an id only after its flow has ended
  this does not happen (`ReceiverSafety.NotHeld`).
- `ReceiverStalls.ReleasableIff`: a copy of a waiting QoS 2 message is dropped without an answer
  (src/mspscada.c:1096-1103), so a lost PUBREC is never sent again. A waiting message can still be released exactly if
  the broker has read its PUBREC or the PUBREC is on its way.
- `Progress.DeliverableIff`: the PUBREL is queued beside the PUBLISH it replaces (src/mspscada.c:912-913). A queued
  QoS 2 PUBLISH can be passed on, without further messages, exactly if a PUBREL fits beside the unreleased messages,
  also with a store that refuses nothing if no queued message is shorter than a PUBREL, which is four bytes long;
  one large message that is accepted and never passed on is enough (`Progress.AcceptedNeverDelivered`).
- `Reconnects.AcceptedBreaksEarly`: after an accepted connection the library gives up one retry interval earlier
  than the (retryCount + 1) * retryInterval that t/03timeout.t measures from the first connect.
  `BoundAfterAcceptIff`: when an accepted connection is lost, that bound, measured from any earlier time, holds
  exactly if the pass that finds the loss comes at least one interval after that time.
- `ReceiveWait.WaitEndsIff`: with a keep-alive time of 0 a receive with a timeout and no publication never returns.
  `ReceiveWait.HandedIff`: otherwise the timeout is used up as far as NO_PUBS is reported; every packet that is no
  publication starts the wait of its round anew (src/msputils.c:171-189).
- `Semaphores.FailedLockIff`: a receiver whose mutex lock fails after its wait has cleared the flag loses a wake-up
  (src/mspclnt.c:316-321), unless no publication is ready, the flag has been set again or is about to be, or another
  receiver is between its wait and its answer. A receiver whose decline has been signalled but not answered
  (src/msputils.c:353-361) is no such receiver. `StepKeepsWakeupIff`: no other step loses one.
- updReceivedMessage can report failure although the flag is set, if only the final close failed
  (lib/WebSphere/MQTT/Persist/File.pm:234); `FileStores.FileStore.UpdReceivedMessage` says exactly when, and the
  receiver theorems allow for it.

## Model

| member | source | states |
|---|---|---|
| `Links.PlacesDiffer` | src/msphash.c:253-288 | a list whose links agree in both directions and end never visits a node twice |
| `Links.LinkedQueue.Append` | src/msphash.c:235-244 | the node becomes the last one, the order of the others stays, both end pointers are right |
| `Links.LinkedQueue.Unlink` | src/msphash.c:257-273 | exactly this node leaves, wherever it stands, and both end pointers are right |
| `Links.Detach` | src/msphash.c:170-182 | taking a node out by its own links leaves a well-linked list |
| `Links.LinkFirst` | src/msphash.c:89-101 | a node put in front of a chain leaves a well-linked chain |
| `HashTables.CalcHashCode` | src/msphash.c:191-208 | the signed-byte hash of the key's two bytes; the bucket index always lies in [0, nKeys) |
| `HashTables.HashCodeIs` | src/msphash.c:191-208 | that hash in numbers: 131 times the low byte plus the high one, both signed, its absolute value modulo nKeys |
| `HashTables.MapOfKeys` | src/msphash.c:113-118 | a chain finds a key exactly if some slot has it |
| `HashTables.MapOfAt` | src/msphash.c:166-187 | with one slot a key, the slot found is the one with the key, and removing it removes exactly that key |
| `HashTables.MapOfPrepend` | src/msphash.c:86-101 | a slot with a new key in front of the chain is what adding the key to the map is |
| `HashTables.SplitsAdd` | src/msphash.c:79-97 | putting a key into the bucket its hash gives keeps buckets and map in agreement |
| `HashTables.SplitsDelete` | src/msphash.c:160-188 | removing a key from the bucket its hash gives keeps buckets and map in agreement |
| `HashTables.Chain.Find` | src/msphash.c:143-157 | the walk along a bucket finds the entry of the key, or none exactly if the map has no such key |
| `HashTables.HashTable.constructor` | src/msphash.c:34-49 | a new table stands for the empty map |
| `HashTables.HashTable.Read` | src/msphash.c:107-121 | reading is the map lookup |
| `HashTables.HashTable.Delete` | src/msphash.c:160-188 | deleting removes the key from the map and nothing else; at most one node a key, acyclic chains, in the right bucket |
| `HashTables.HashTable.Add` | src/msphash.c:71-104 | adding is the map update, replacing an older entry with the key |
| `OutboundEngine.IndexIds` | src/msphash.c:211-251 | when the index holds each queued node under its id, ids are distinct and a lookup hits exactly the queued ids |
| `OutboundEngine.IndexReplace` | src/mspscada.c:945-952 | queueing a message and dropping the older entry with its id leaves queue and index in agreement |
| `OutboundEngine.OutputQ.QueueAgrees` | src/mspscada.c:910-955 | after every operation: distinct ids, the index maps exactly the queued ids to their entries, count is length, byte total is the sum |
| `OutboundEngine.OutputQ.AddIPM` | src/msphash.c:211-251 | the entry goes to the tail, counters follow |
| `OutboundEngine.OutputQ.DeleteIPM` | src/msphash.c:253-288 | the entry goes, the order of the others stays, counters follow |
| `OutboundEngine.OutputQ.Remove` | src/mspscada.c:722-726 | the acknowledged id leaves queue and index, nothing else does |
| `OutboundEngine.OutputQ.GetStatus` | src/msputils.c:568-589 | the index lookup gives the status the queue gives |
| `OutboundEngine.Handle.Enqueue` | src/mspscada.c:910-955 | append, persist, then roll back or replace computes the queueing of the specification, on every path |
| `OutboundEngine.Handle.SendScadaMessage` | src/mspscada.c:879-988 | computes Outbound.Send for new and reloaded messages |
| `OutboundEngine.Handle.Request` | src/msputils.c:362-397 | on a broken connection nothing changes; otherwise the next id moves on, whether or not the message could be built, queued, stored or written |
| `OutboundEngine.Handle.ReceivePubrec` | src/mspscada.c:636-652 | a PUBREC queues, persists and sends the PUBREL of its id in place of the PUBLISH; when it is sent the bytes are 62 02 and the id, high byte first |
| `OutboundEngine.Handle.ReceiveAck` | src/mspscada.c:697-737 | an acknowledgement takes its id off queue and index and asks the store to delete it |
| `OutboundEngine.Handle.RetryPass` | src/msputils.c:242-260 | the pass over the linked list sends or marks each entry once, in queue order |
| `OutboundEngine.Handle.Reset` | src/msputils.c:808-841 | everything in memory goes, the store stays |
| `OutboundEngine.Handle.Connect` | src/msputils.c:505-527 | computes the reload of the listed messages in listing order |
| `Outbound.StatusOf` | src/msputils.c:572-584 | DELIVERED exactly for a valid handle with no queued entry, an error exactly for a handle out of range, otherwise the status of the entry with that id |
| `QueueFacts.WithoutDrops` | src/mspscada.c:945-951 | replacing by id removes all and only the entries with that id and keeps ids distinct |
| `QueueFacts.WithoutAt` | src/msphash.c:253-288 | with distinct ids removing by id is taking out one place |
| `QueueFacts.TotalRemove` | src/msphash.c:275-276 | the byte total falls by exactly the entry's share |
| `QueueFacts.KeysAgreeIff` | src/mspscada.c:924-928 | the store keys of add and delete agree exactly for ids up to 32767, and above no add ever used the delete key |
| `AtMostOnce.RequestIsStep` | src/msputils.c:362-397 | every request of the application is a step of the runs below or changes nothing; one that could not be built leaves what one refused for its length leaves |
| `AtMostOnce.WriteKeeps` | src/mspscada.c:963-977 | a write, failed or not, keeps the wire safe if the message is not spent, or if it is a release whose id no queued or reloadable message has |
| `AtMostOnce.SendKeeps` | src/mspscada.c:906-977 | queueing, persisting, replacing and writing in this order keep: a message whose release was written is neither queued nor reloadable |
| `AtMostOnce.RetryKeeps` | src/msputils.c:242-260 | a retry pass keeps it |
| `AtMostOnce.ReloadKeeps` | src/msputils.c:505-527 | a reload keeps it, in any listing order |
| `AtMostOnce.SendOutcome` | src/mspscada.c:879-988 | return code 0 exactly if the message went out whole; 1 only without a socket or with it dropped for a failed write; an error only if nothing changed |
| `AtMostOnce.SilentUntilReconnected` | src/mspscada.c:963-977 | once the socket is gone nothing goes out before a new connection, over every run |
| `AtMostOnce.AtMostOnce` | src/mspscada.c:906-977 | over every run with any replies, failures, reconnects and restarts: no copy of a message is written after its release, every message with QoS 1 or 2 and every release on the wire holds its id in its bytes, and a broker that follows the QoS 2 flow on those bytes passes each message on at most once |
| `WireIds.PubrelBytes` | src/mspscada.c:1232-1258 | a PUBREL is 62 02 and the id, high byte first, and its id is read back where the broker reads it |
| `WireIds.IdReadBack` | src/mspscada.c:637-642 | what the handlers read from a four-byte acknowledgement or release is the id written into it |
| `Duplicates.ResentWithDup` | src/mspscada.c:956-959 | over every run, restarts included, of the copies of a message all but the first one written carry DUP |
| `Duplicates.DupIsOneBit` | src/mspscada.c:956-959 | setting DUP changes bit 3 of the first byte and nothing else |
| `Duplicates.PassTouchesOnce` | src/msputils.c:242-260 | a retry pass changes each entry once and only as its status says |
| `Duplicates.PassResends` | src/msputils.c:244-254 | while the socket takes everything a pass sends exactly the messages that waited since the pass before, with DUP, in queue order |
| `Duplicates.TwoPassesResendAll` | src/msputils.c:242-260 | a message still queued after two passes has been sent again |
| `Recovery.SendSound` | src/mspscada.c:919-953 | a send keeps queue and store the same messages under the same ids, and the byte total within the cap |
| `Recovery.AckSoundIff` | src/mspscada.c:728-735 | an acknowledgement keeps queue and store the same exactly for ids up to 32767 |
| `Recovery.AckLeaks` | src/mspscada.c:728-735 | for a larger id the acknowledged message stays in the store whatever the deletion does |
| `Recovery.RetrySound` | src/msputils.c:242-260 | retrying changes at most DUP, so queue and store stay the same |
| `Recovery.LoadedFits` | src/msputils.c:515-525 | stored messages, each once, take no more room than the queue they mirror |
| `Recovery.ReloadAppends` | src/msputils.c:505-527 | no reloaded message is refused: each is appended in listing order |
| `Recovery.ReloadRecovers` | src/msputils.c:505-527 | in whatever order the store lists its messages, the reload rebuilds the same id to bytes map up to DUP |
| `Conservation.PubrecStep` | src/mspscada.c:636-652 | no message is lost; the PUBREL takes the place of the PUBLISH in queue and store if it fits and the store takes it, otherwise nothing changes |
| `Conservation.RestartStep` | src/msputils.c:505-527 | a restart loses no message, leaves the store as it is and numbers on above all of its keys |
| `Conservation.NothingLostNothingTwice` | src/mspscada.c:906-977 | with a conforming broker, both ends taking ids from the bytes, every accepted message is in the store or the broker has it for good, and no QoS 2 message is passed on twice |
| `Conservation.DeliveredMeansDelivered` | src/msputils.c:572-584 | when the store deletes what it is told to, an accepted message whose status is DELIVERED has reached the broker for good, across crashes and reconnects |
| `Progress.DeliverableIff` | src/mspscada.c:906-953 | in every reachable state with a store that deletes what it is told to: some continuation without new messages has a queued QoS 2 PUBLISH passed on, exactly if a PUBREL fits beside the unreleased messages; while no queued message is shorter than a PUBREL, some continuation in which the store refuses nothing does, exactly then too |
| `Progress.OthersComeThrough` | src/msputils.c:242-260 | every other queued message can reach the broker for good, with a store that refuses nothing |
| `Progress.AcceptedNeverDelivered` | src/mspscada.c:912-913 | a message accepted into the last bytes of the queue is never passed on, through retries, reconnects and restarts |
| `Pending.AfterClosed` | src/mspdmn.h:207-208 | closed form of the id successor |
| `Pending.ReloadNextId` | src/msputils.c:515-520 | after a reload the ids go on behind the largest key in the store, or start with 1 |
| `Pending.SameIdIff` | src/mspdmn.h:207-208 | two allocations share an id exactly if a multiple of 65535 lies between them |
| `Pending.DisplacesIff` | src/mspscada.c:945-951 | a new id is in use exactly if a queued entry is a multiple of 65535 allocations old; with fewer since the oldest one nothing is displaced |
| `Pending.PendingUntilAcknowledged` | src/msputils.c:568-589 | an id stays queued, and not DELIVERED, over any run without an acknowledgement for it |
| `Pending.PendingAcrossRestarts` | src/msputils.c:505-527 | and across crashes and restarts, when the store deletes what it is told to |
| `Pending.CapHolds` | src/mspscada.c:912-913 | in every reachable state the queue's byte total is at most 32768 |
| `Inbound.PlaceOf` | src/mspscada.c:659-662 | the first entry with the uid, none before it |
| `Inbound.FirstReady` | src/msputils.c:690-694 | the first entry that may go to the application, none before it |
| `Inbound.FirstRcv` | src/msputils.c:763-767 | the first entry with the receive id, none before it |
| `InboundFacts.ParseFlag` | src/mspscada.c:997-1088 | the spare byte decides only the flag, and memory behind a framed buffer decides nothing |
| `InboundFacts.ParseDup` | src/mspscada.c:1018-1024 | setting DUP in the bytes sets DUP in the decoded publication and changes nothing else |
| `InboundFacts.ReadIsFramed` | src/msptcp.c:258-268 | what the framing hands over for a PUBLISH is one message and the spare byte |
| `InboundFacts.PublishKeeps` | src/mspscada.c:597-635 | a received PUBLISH, with rollback when the store refuses, keeps arrival order, distinct receive ids and an index of waiting entries only |
| `InboundFacts.PubrelKeeps` | src/mspscada.c:653-696 | a received PUBREL keeps the same |
| `InboundFacts.AcceptKeepsIff` | src/msputils.c:759-787 | deleting a publication keeps the same exactly if the index does not lead to it |
| `InboundFacts.ReleasedUnhashed` | src/mspscada.c:678-687 | the index leads to no released publication |
| `InboundFacts.NegativeLengthRefused` | src/mspscada.c:1009-1066 | a PUBLISH whose length wrapped to a negative number is refused, although the bound check of the length field accepts it |
| `InboundFacts.OfferIsFirstReady` | src/msputils.c:690-750 | a publication is offered exactly if one is ready, it is the first one, and PUBS_AVAILABLE exactly if another is ready |
| `InboundFacts.OfferedIsFoundIff` | src/msputils.c:763-767 | the entry found by the offered receive id is the offered one exactly if a store is attached or the queue's head is ready |
| `InboundFacts.AcceptDeletesOffered` | src/msputils.c:759-787 | with a store, whatever arrives in between, an accept deletes exactly the publication offered, for QoS 0 too |
| `InboundFacts.AckAfterAdd` | src/mspscada.c:611-633 | PUBACK and PUBREC go out only after the store took the message |
| `InboundFacts.AckAfterUpdate` | src/mspscada.c:659-694 | PUBCOMP goes out only if nothing waited under the id or its release is in store and memory |
| `InboundFacts.PublishAnswered` | src/mspscada.c:1138-1183 | a PUBLISH that decodes, has QoS 1 or 2, is no copy of a waiting one and is taken by the store gets exactly one acknowledgement, PUBACK for QoS 1 and PUBREC for QoS 2, with the id in its bytes, if the socket takes it; no other PUBLISH gets one; a failed write drops the socket |
| `InboundFacts.PubrelAnswered` | src/mspscada.c:653-696 | a PUBREL gets exactly one PUBCOMP with its id, unless a publication waits under the id and the store refuses its release |
| `InboundFacts.DecodedAs` | src/mspscada.c:1009-1078 | what each part of a decoded publication is, byte by byte |
| `InboundFacts.RcvAfterClosed` | src/mspdmn.h:212-213 | closed form of the receive id successor |
| `InboundEngine.InputQ.AddRPM` | src/msphash.c:291-319 | the publication goes to the tail; rtpEntries counts the released entries, the byte total is the sum |
| `InboundEngine.InputQ.DeleteRPM` | src/msphash.c:321-356 | the publication goes, order and index stay, counters follow |
| `InboundEngine.InputQ.SetReady` | src/mspscada.c:671-678 | the waiting entry is marked released and counted |
| `InboundEngine.InputQ.Find` | src/mspscada.c:659-659 | the index lookup gives the waiting entry of a wire id, or none exactly if none waits |
| `InboundEngine.InputQ.MakeOffer` | src/msputils.c:690-750 | the list walk and rtpEntries give the offer the queue gives |
| `InboundEngine.InHandle.ReceivePublish` | src/mspscada.c:597-635 | computes Inbound.OnPublish, on every path |
| `InboundEngine.InHandle.ReceivePubrel` | src/mspscada.c:653-696 | computes Inbound.OnPubrel, on every path |
| `InboundEngine.InHandle.DeletePublication` | src/msputils.c:759-787 | computes Inbound.Accept |
| `InboundEngine.InHandle.Connect` | src/msputils.c:528-551 | computes the reload of the listed received messages |
| `InboundRecovery.IndexKeptIff` | src/mspscada.c:597-625 | after a PUBLISH every waiting publication is still found by its wire id, exactly unless the PUBLISH carries the id of one and waits as well or is refused by the store |
| `InboundRecovery.LostRelease` | src/mspscada.c:622-625 | a publication that lost its index entry to a refused PUBLISH stays unreleased while its PUBREL is answered with PUBCOMP |
| `InboundRecovery.SoundReloadable` | src/mspscada.c:1095-1104 | when queue and store mirror each other no two waiting stored messages share a wire id, so none is taken for a duplicate |
| `InboundRecovery.StoredFlag` | src/mspscada.c:601-605 | in every stored message the flag byte is 0 or 1 |
| `InboundRecovery.ReloadRestores` | src/msputils.c:528-551 | in whatever order the store lists them, no received message is refused and the reload rebuilds the same receive id to (options, topic, payload) map for QoS above 0, released as the store says |
| `InboundRecovery.ReloadNextRcvId` | src/msputils.c:530-536 | after a reload the receive ids go on behind the largest key in the store, or start anew |
| `ReceiverProtocol.StoredLink` | src/mspscada.c:1095-1116 | storing a message keeps: nothing on the link can make the client store it again |
| `ReceiverProtocol.MarkedLink` | src/mspscada.c:1148-1159 | once the broker has read the PUBREC nothing older with that id is on the link |
| `ReceiverProtocol.CompleteFrees` | src/mspscada.c:689-694 | once the broker has read the PUBCOMP nothing on the link or waiting depends on the message |
| `ReceiverData.TakeEffect` | src/mspscada.c:607-633 | taking a PUBLISH adds exactly its message to what is held, or nothing if the store refuses |
| `ReceiverData.PubrelEffect` | src/mspscada.c:653-696 | a PUBREL releases exactly the message waiting under its id, as far as the store went |
| `ReceiverData.AcceptEffect` | src/msputils.c:759-787 | a delivery takes out exactly the delivered message, from the store only if the deletion succeeds, and changes nothing for the others |
| `ReceiverData.ReloadEffect` | src/msputils.c:528-551 | after a reload exactly the messages the store calls released are released |
| `ReceiverSafety.AckReadBack` | src/mspscada.c:1143-1175 | the four bytes of an acknowledgement, 40, 50 or 70 first, are read back as that kind and id; the broker of the runs reads them |
| `ReceiverSafety.NotHeld` | src/mspscada.c:1095-1108 | a copy that is not dropped as a duplicate belongs to a message the client does not have, and nothing waits under its id |
| `ReceiverSafety.ExactlyOnceInbound` | src/mspscada.c:597-696 | over every run with duplicates, failures of every store call, lost connections and restarts: each QoS 2 message is queued at most once; one that was delivered is queued or delivered again only after a failed deletion and a restart; every acknowledged message is stored or delivered, every completed one is delivered or ready |
| `ReceiverSafety.ReleasedStays` | src/mspscada.c:653-696 | a QoS 2 message that is ready or delivered stays so over every run and never waits for its release again |
| `ReceiverSafety.SecondDeliveryIff` | src/msputils.c:770-775 | after a restart a delivered QoS 2 message is ready again exactly if every deletion of it failed |
| `ReceiverStalls.ReleasableIff` | src/mspscada.c:1096-1103 | in every reachable state a waiting message can still be released or delivered exactly if the broker has read its PUBREC or the PUBREC is on its way |
| `ReceiverStalls.StalledForever` | src/mspscada.c:1096-1103 | without that, no run of a conforming broker, with reconnects and restarts, releases it |
| `ReceiverStalls.LossStalls` | src/mspscada.c:624-633 | losing the connection before the broker has read the PUBREC is how a message gets there |
| `SentStores.ListsReplace` | lib/WebSphere/MQTT/Persist/File.pm:163-167 | replacing the data of a listed key lists the map with that key updated |
| `FileStores.DecimalIsKey` | lib/WebSphere/MQTT/Persist/File.pm:140-141 | every number has a file name of digits, and no two share one |
| `FileStores.NamesDiffer` | lib/WebSphere/MQTT/Persist/File.pm:140-179 | names of messages, releases and temporary files never meet, and no temporary file is taken for a message |
| `FileStores.RenamedTmp` | lib/WebSphere/MQTT/Persist/File.pm:184-184 | renaming the finished temporary file is what adding the message to the store is |
| `FileStores.AddShowsIff` | lib/WebSphere/MQTT/Persist/File.pm:193-196 | an added message is what a reload finds exactly if its key has no other release left over |
| `FileStores.UpdateShows` | lib/WebSphere/MQTT/Persist/File.pm:198-203 | the release shows as soon as it is written, whether or not the message it replaces could be removed |
| `FileStores.DeleteShows` | lib/WebSphere/MQTT/Persist/File.pm:205-211 | between the two removals a reload finds the old view or the new one, never the older message again |
| `FileStores.OtherOrderResurrects` | lib/WebSphere/MQTT/Persist/File.pm:205-211 | removing the release first would bring the message back |
| `FileStores.Folder.AddMessage` | lib/WebSphere/MQTT/Persist/File.pm:177-191 | success exactly if every step succeeds; after every step the directory stands for the old store or the new one; a failure changes nothing |
| `FileStores.FileStore.AddSentMessage` | lib/WebSphere/MQTT/Persist/File.pm:193-196 | adds the message or refuses; every crash point is the store before or the store with the message |
| `FileStores.FileStore.UpdSentMessage` | lib/WebSphere/MQTT/Persist/File.pm:198-203 | writes the release, then removes the message; every crash point is the store before, the one with the release beside the message, or the one with the release alone |
| `FileStores.FileStore.DelSentMessage` | lib/WebSphere/MQTT/Persist/File.pm:205-211 | how far the deletion got is what the store's clients see; every crash point is the store before, the one without the message, or the one without both |
| `FileStores.FileStore.AddReceivedMessage` | lib/WebSphere/MQTT/Persist/File.pm:213-216 | adds the message or refuses; at every crash point the old or the new view |
| `FileStores.FileStore.UpdReceivedMessage` | lib/WebSphere/MQTT/Persist/File.pm:220-239 | success exactly if the file exists, is not empty and every call succeeds, and then the lowest bit of its last byte is set and no other bit changed; a failure can leave it set only if the final close failed |
| `FileStores.ReleasedIff` | lib/WebSphere/MQTT/Persist/File.pm:230-230 | ORing the last byte with 1 is setting that bit and nothing else |
| `FileStores.FilesKeep` | lib/WebSphere/MQTT/Persist/File.pm:213-245 | adding, deleting and, for a flag of 0 or 1, flagging does to the received files what the engine takes it to do |
| `FileStores.SentFilesKeep` | lib/WebSphere/MQTT/Persist/File.pm:193-211 | however a call ends, it does to the sent files what the engine takes it to do |
| `FileStores.FileStore.DelReceivedMessage` | lib/WebSphere/MQTT/Persist/File.pm:241-245 | success exactly if the message was there and is gone |
| `FileStores.LoadNew` | lib/WebSphere/MQTT/Persist/File.pm:168-169 | a key seen for the first time is appended and its place remembered |
| `FileStores.LoadRelease` | lib/WebSphere/MQTT/Persist/File.pm:163-167 | a release read after its message takes the message's place |
| `FileStores.LoadIgnored` | lib/WebSphere/MQTT/Persist/File.pm:140-143 | a message whose release was read, and a file that is no message, change nothing |
| `FileStores.FileStore.GetAllSentMessages` | lib/WebSphere/MQTT/Persist/File.pm:134-172 | whatever the listing order, the result is one message a key, the release where there is one, of the files that can be read |
| `FileStores.FileStore.GetAllReceivedMessages` | lib/WebSphere/MQTT/Persist/File.pm:91-119 | whatever the listing order, the result is each message file that can be read, once |
| `Bytes.HeaderRoundTrip` | src/mspscada.h:64-87 | type, DUP, QoS and RETAIN bits and the first byte determine each other |
| `Bytes.FirstBytes` | src/mspscada.h:66-80 | the first bytes of the messages built and answered: 30, 40, 50, 62, 70, 82, A2 |
| `Bytes.FlagBits` | src/mspscada.h:82-89 | DUP is bit 3, QoS 2 and 1 are bits 2 and 1, RETAIN is bit 0 |
| `Bytes.BytesRoundTrip` | src/mspscada.h:64-87 | splitting a message into bit fields and body loses nothing, in either direction, and its size is the number of its bytes |
| `LengthCodec.EncodeFHeaderLength` | src/mspscada.c:786-802 | the loop writes the encoding |
| `LengthCodec.DecodeFHeaderLength` | src/mspscada.c:810-833 | the loop finds the field that starts at the pointer, looking at one byte more than it is told of, with its length wrapped to 32 bits, or reports that there is none |
| `LengthCodec.DecodeInvertsEncode` | src/mspscada.c:786-833 | decoding an encoding gives the length and its size back, whatever follows |
| `LengthCodec.PrefixFree` | src/mspscada.c:786-802 | no encoding starts another one |
| `LengthCodec.Minimal` | src/mspscada.c:786-833 | every field that decodes to a length is at least as long as its encoding, and equally long only if it is the encoding |
| `LengthCodec.HeaderLengthAgrees` | src/mspscada.h:39-51 | the size macro is one more than the encoded size up to 268435455, and -1 exactly where four bytes are not enough |
| `LengthCodec.AcceptedInsideIff` | src/mspscada.c:637-638 | what the handlers accept lies inside the buffer exactly if the decoded length is not negative and the sum does not overflow, and then the byte behind it does not matter |
| `LengthCodec.NegativeIff` | src/mspscada.c:818-829 | the decoded length is negative exactly if the field has a fifth byte with bit 3 set |
| `LengthCodec.ShortFieldInside` | src/mspscada.c:637-638 | fields of at most four bytes that are accepted lie inside the buffer |
| `LengthCodec.AcceptedOutside` | src/mspscada.c:717-719 | a five-byte field that is accepted and lies outside |
| `LengthCodec.DecoderOverreads` | src/mspscada.c:823-823 | a field cut short is decoded with the byte behind the buffer, and the callers' check refuses it |
| `Framing.FrameFound` | src/msptcp.c:204-261 | a whole message at the head of a stream is found as that message |
| `Framing.FrameExact` | src/msptcp.c:204-299 | nothing behind the message matters and no proper prefix of it is taken for it |
| `Framing.Receiver.ReadHeader` | src/msptcp.c:210-247 | whatever the reads return, the loop stops at the last byte of the length field, however long it is, if it fits the buffer |
| `Framing.Receiver.ReadMsg` | src/msptcp.c:194-305 | for every way of cutting the stream: exactly the bytes the length announces are taken, byte for byte, the rest is untouched, the reported count is the one the length gives, wrapped as in C, and one more exactly for first bytes from 30 to 3F; failure exactly if the stream ends first |
| `Framing.ShortOutcome` | src/msptcp.c:204-299 | for fields of at most four bytes that is exactly the first message and its size |
| `Framing.WrappedReport` | src/msptcp.c:250-299 | a five-byte field for which six bytes are taken and five reported |
| `Framing.TCPWrite` | src/msptcp.c:157-185 | success if all of the message was handed over, in order, across partial sends; otherwise a proper part of it |
| `Framing.ReceiveStream` | src/msptcp.c:194-305 | messages written one after the other come out one by one, in order and unchanged |
| `Builders.CharTrim` | src/mspsh.c:214-221 | the length without the spaces at the end |
| `Builders.TrimMeans` | src/mspsh.c:214-221 | only spaces are cut, and all of them |
| `Builders.SizeTopics` | src/mspscada.c:260-278 | the sizing pass accepts exactly the well-formed blocks and computes the remaining length of what will be written |
| `Builders.WriteTopics` | src/mspscada.c:325-353 | the writing pass stays inside the message block and fills it exactly |
| `Builders.BuildTopics` | src/mspscada.c:238-359 | SUBSCRIBE and UNSUBSCRIBE are built exactly if the block is well formed and the message fits the cap, and are the wire form of the trimmed topics; DATA_TOO_BIG exactly if four length bytes are not enough |
| `Builders.TopicsRoundTrip` | src/mspscada.c:325-353 | decoding the payload gives the topics and QoS back, in order |
| `Builders.BuiltTopicsDecode` | src/mspscada.c:385-468 | a built message is one frame with the right header, message id and topics; the cap keeps names within their 16-bit length |
| `Builders.BlockRead` | src/mspscada.c:259-278 | a caller's block is read as the topics it asks for, in order: the trimmed name, QoS 2 for options with 10, otherwise 1 for options with 08 |
| `Builders.WishesRoundTrip` | src/mspscada.c:238-359 | from the caller's block to the broker: first byte 82 or A2, the id where the broker reads it, and exactly the topics and QoS asked for |
| `Builders.TopicsCarry` | src/mspscada.c:312-317 | the id stands where the broker reads it |
| `Builders.PublishCarries` | src/mspscada.c:554-560 | the same for a PUBLISH with QoS 1 or 2 |
| `Builders.BuildPublish` | src/mspscada.c:476-573 | PUBLISH is built exactly if it fits the cap, and is the wire form of the trimmed topic and the data; bit 2 of its first byte is set exactly for options with 10, bit 1 exactly for 08 without 10, bit 0 exactly for 02 |
| `Builders.PublishRoundTrip` | src/mspscada.c:997-1088 | from the options: a built PUBLISH with the spare byte decodes to its trimmed topic, payload, id, RETAIN for 02 and QoS 2 for 10, otherwise 1 for 08, exactly if it fits the inbound limit, and is refused otherwise |
| `Builders.StreamRoundTrip` | src/msptcp.c:250-300 | reading a stream that begins with a PUBLISH of any QoS, DUP and RETAIN takes exactly that message and reports one byte more; what then stands in the buffer is framed and decodes to the publication |
| `Reconnects.StaysBounded` | src/msputils.c:215-236 | no sequence of passes, losses, refusals and accepted CONNACKs lets the reconnects since the last accepted one exceed retryCount or the retry counter |
| `Reconnects.OnTimeStep` | src/mspscada.c:746-776 | every pass, loss and accepted CONNACK keeps: the next attempt is planned no earlier than one interval for each attempt made, and the connection is broken only after retryCount of them |
| `Reconnects.ReconnectBound` | src/msputils.c:223-227 | at most retryCount reconnects between accepted CONNACKs |
| `Reconnects.CleanStartNeverReconnects` | src/mspscada.c:142-149 | under clean start the library never reconnects |
| `Reconnects.RefusalStops` | src/mspscada.c:757-761 | after a refused CONNACK, whatever came before and follows: no reconnect, no CONNACK any more, and every pass that finds its time come declares the connection broken |
| `Reconnects.SocketIff` | src/mspscada.c:1285-1311 | over every run there is a socket exactly while an attempt that sent its CONNECT has not been lost or refused, and the library is connected only over one |
| `Reconnects.BrokenNotBefore` | src/msputils.c:229-235 | without refusal, clean start or accepted CONNACK, CONNECTION_BROKEN not before (retryCount + 1) * retryInterval after the first connect |
| `Reconnects.BrokenAfterAccept` | src/msputils.c:209-235 | with accepted CONNACKs not before retryCount * retryInterval after the first pass that finds the connection gone |
| `Reconnects.BreaksOnTime` | t/03timeout.t:28-30 | with no broker the bound is reached exactly |
| `Reconnects.AcceptedBreaksEarly` | src/mspscada.c:749-756 | a connection accepted and lost at once breaks an interval earlier, for every retryCount |
| `Reconnects.BoundAfterAcceptIff` | src/msputils.c:209-235 | once an accepted connection is lost, the full bound from a start holds over all continuations without a refusal or another accepted CONNACK exactly if the first pass that finds the loss comes an interval after that start |
| `Reconnects.AcceptedThenLostIff` | src/mspscada.c:746-756 | the same for every connection attempt that is accepted and then lost, whatever came before it |
| `ReceiveWait.ServeReceive` | src/msputils.c:158-190 | the wait is handed to the socket again after every packet, zeroed as soon as a publication is ready; the one reported with NO_PUBS is never the zeroed one |
| `ReceiveWait.ReceivePub` | src/mspclnt.c:329-350 | the loop ends; without a publication the waits reported with NO_PUBS are positive and add up to exactly the timeout, and the waits handed to the socket are these, each once more for every packet of its round |
| `ReceiveWait.HandedIff` | src/msputils.c:171-189 | the waits handed to the socket are never less than those reported, and the same exactly if no packet came |
| `ReceiveWait.RoundsClosed` | src/msputils.c:413-413 | the number of rounds is the timeout over half the keep-alive time, rounded up |
| `ReceiveWait.WaitEndsIff` | src/msputils.c:413-413 | a positive timeout is ever used up exactly if the keep-alive time is positive |
| `Semaphores.SignalWakes` | src/mspipc.c:355-361 | after a signal the flag is set and a blocked waiter, if any, is picked |
| `Semaphores.FailedLockIff` | src/mspclnt.c:316-321 | a failed lock keeps the wake-up exactly if nothing is ready, the flag is set again or about to be, or another receiver is between its wait and its answer |
| `Semaphores.StepKeepsWakeupIff` | src/mspipc.c:298-323 | the steps that keep a ready publication from going unnoticed are exactly all others, timeouts and spurious wake-ups included, and those failed locks |
| `Semaphores.WakeupNeverLost` | src/mspipc.c:298-361 | in every interleaving with any number of receivers and with failed locks that lose nothing: a ready publication that no receiver deals with has the flag set and a waiter woken, or the send thread is between the reply to an accept and the signal that does it |
| `Semaphores.CountsAgree` | src/msputils.c:310-317 | over every run rtpEntries is the number of publications counted and not accepted yet |
| `Semaphores.FailedLockLoses` | src/mspclnt.c:316-321 | the first other failed lock, in any run, leaves a ready publication that nobody deals with and no flag |
| `Semaphores.LosingRun` | src/mspclnt.c:316-321 | a run in which that happens |

## Left out

- Connect message layout, will message, client id: would add no protocol state; the CONNECT sent on a connect or reconnect is not queued and appears only as an outcome in `Reconnects`.
- Clean start and the reset at disconnect: both empty the store and memory; the sender and receiver runs are those without clean start.
- Connecting while already connected: that branch writes no reply (src/msputils.c:319-321).
- CONNACK refusal reasons: the code tests byte 3 and reads the reason from byte 4 (src/mspscada.c:748, src/mspscada.c:763); a refusal only stops retrying here.
- Allocation failure: assumed not to happen.
- The `flags` field of queue entries: its switch never matches (src/msphash.c:223-233) and nothing reads it.
- Interrupted system calls: an EINTR in the first loop of mspTCPReadMsg corrupts its count (src/msptcp.c:221-233); reads and writes return data, the end of the stream or an error.
- Framing.Receiver.ReadHeader: for streams whose fixed header fits the receive buffer; the loop would write behind it otherwise.
- Framing.Receiver.ReadMsg: the same, and for lengths for which adding up the message size does not overflow an `int`.
- Builders.CharTrim: for buffers with a character that is not a space; the code would read in front of the buffer otherwise.
- Builders.SizeTopics: for blocks whose length words are below 2^31; larger ones are negative numbers in C, with which the code walks backwards.
- Builders.BuildTopics: the same.
- `long` and pointers have 32 bits: as the library was shipped; store keys and receive ids are modelled at that width.
- InboundEngine.InHandle.DeletePublication: for a receive id that does not lead to an entry that waits in the index. Without a store it can (`InboundFacts.OfferedIsFoundIff`), and the code would leave the index with freed memory (`InboundFacts.AcceptKeepsIff`).
- InboundFacts.PublishKeeps: before the 32-bit receive id wraps, after which ids need not be distinct.
- mspResetHconn leaves the received-message index as it is (src/msputils.c:843-857); the inbound invariant is for one connection with a new handle, as in the single-thread build.
- ReceiverSafety.ExactlyOnceInbound: with an application's offer and accept as one step (`InboundFacts.AcceptDeletesOffered` covers what arrives between them), and before the 32-bit receive id wraps.
- ReceiverStalls.ReleasableIff: the same bound on receive ids.
- Progress.DeliverableIff: for a store that deletes what it is told to and ids up to 32767, as in `Conservation`.
- QoS 1 over the inbound link is covered for storing and acknowledging; a broker that resends a QoS 1 message on one connection can take the second PUBACK for a later message with the id, so at-least-once delivery is not claimed beyond what was acknowledged.
- Conservation.NothingLostNothingTwice: for ids up to 32767, where the store keys agree.
- The types of the broker's replies are read by the switch of mspReceiveScadaMessage (src/mspscada.c:596-785), which is not modelled; each handler starts with the id that `WireIds.IdRead` gives.
- Decline of an offer: changes nothing in the queue; its signal is a step of `Semaphores`.
- Keys of the file store are texts of digits, those of the engines numbers; `FileStores.DecimalIsKey`, `FilesKeep` and `SentFilesKeep` are the link. A received key with leading zeros, which the store never writes, would be read as another key.
- The Perl client, the XS glue, ppersist.c, logging, memory statistics, name resolution, socket options, thread start-up, mailboxes and pipes: plumbing around the modelled parts.
- Pings and keep-alive polling: they carry no message.
