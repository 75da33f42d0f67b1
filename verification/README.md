# Canopee, modelled and proved

A Dafny model of the stateful and byte-exact parts of Canopee, a peer-to-peer node:
its multi-recipient object envelope, the WebSocket gateway and its request queue, the
object store with sharing, caching and eviction, replicated records and device lists,
device pairing, the edge registry, the object-exchange event loop, the two static-file
HTTP servers, and capabilities. Each component is one module (a long one has its laws in
a second module). Code that updates things in place is a class or a loop proved against
a specification function; the laws are lemmas about that function over every input,
every run or every interleaving. So that function and method cannot
be wrong alike, each operation also has laws that tell what comes out of it in the inputs' own
fields, literal offsets, constants and texts: those in the modules called Answers, and in
`EnvelopeLaws`, `WebSocketLaws`, `Records`, `EventLoop` and `Decimal`.

| module | what it covers |
|---|---|
| Prelude, Bytes, Text, Decimal | results, octet layouts, ASCII string operations, numerals |
| Crypto, Envelope, EnvelopeLaws | ideal key agreement, derivation and sealing, with a toy instance; the envelope printer and parser; the envelope octet by octet |
| WebSocket, WebSocketLaws, GatewaySession, GatewayAnswers | RFC 6455 framing, and the same bit by bit; the uncorrelated request queue with pub/sub pushes |
| Objects, Sealing, Sharing, SealingAnswers | the content-addressed store; seal, store, open, share and concatenate; sharing end to end |
| CacheIndex, Serving, ServingRuntime, ServingLaws, ServingAnswers | cache index, serving gate, home index, deletion and the eviction loop |
| Records, Devices, DeviceAnswers | last-writer-wins pointers; the device list of one identity and its merging |
| DeviceSync, DeviceAgreement, DeviceSettling | many devices of one identity, pointers travelling apart from the lists they name; how they come to agree; that they settle in every run |
| Pairing, PairingAnswers | the pairing exchange |
| EdgeRegistry, EdgeAnswers, Publisher, PublisherAnswers, EventLoop | subdomain registrations over timed traces; the serve session that beats; request ids and replication |
| HttpRange, HttpRender, HttpLaws, HttpAnswers | byte ranges; the two renderers; what they agree on |
| Capabilities, CapabilityIndex, CapabilityAnswers | resource names, signed bytes and permission; grants, revocations and checks |

Cryptographic laws are hypotheses about a suite of functions (`Crypto.Ideal`, `Pairing.Ideal` and
their companions): of the secrets, salts and contexts in use different ones derive different keys,
and only what was sealed under a key opens under it. `Crypto.ToySuiteIsIdeal`, `Envelope.HypothesesAreConsistent` and
`Pairing.HypothesesAreConsistent` exhibit suites that meet them. Content hashes are an injective
constructor and signatures a value only the signer makes, except in `HttpRender` and
`Capabilities`, where they are parameters and each law says what it needs of them.

## What turned out not to hold

The model keeps the code as it is. Where a natural property fails, the exact condition is proved.

- An envelope for 65536 or more distinct recipients wraps its 16-bit count; with exactly 65536 it
  reads back as malformed. The round trip holds if and only if there are at most 65535
  (`Envelope.RoundTrip`).
- An error event of the subscription pump settles whichever promise is at the head of the client's
  queue. Every promise gets its own answer if and only if no such error finds the queue nonempty
  (`GatewaySession.FifoCorrelation`, `GatewaySession.PumpErrorStealsAPromise`).
- Deleting an object that the home index does not list evicts the current home index
  (`ServingLaws.UnlistedDeletionLosesHome`). The serving set stays in step with the home index over a
  run if and only if every removal meets its guard (`ServingLaws.RunRefinesIff`,
  `ServingLaws.DeletionRefinesIff`, `ServingLaws.EvictionRefinesIff`).
- Fetching an object does not compare the id of what a peer sends with the id asked for; it is the
  object asked for if and only if the peer sent that one (`Sealing.ReadIsOfIdIff`).
- A cleartext object reads back unchanged if and only if its bytes are not envelope-shaped
  (`Sealing.PublicObjectReadsBackIff`).
- One unreadable file, or one undecodable pointer of the owner's, makes the whole scan for pushed
  pointers come back empty (`Records.Slot.LatestPointerRecord`).
- A newer pushed pointer whose own `owner` field is not the slot's is written to the cache, never used,
  and written again on every sync. A refresh lowers the cached stamp if and only if it does that over
  a usable pointer, and refreshing settles if and only if there is no such pointer
  (`Records.SyncLowersIff`, `Records.RunNeverLowersIff`, `Records.SyncSettlesIff`); a store can hold one
  (`Records.ForeignPointerLapses`).
- A removed device comes back with the next merge if and only if the list merged in names it
  (`Devices.RemovalUndoneIff`), and over every run if and only if a step since brought it and none dropped
  it (`DeviceSync.RemovedIsBackIff`); whoever takes over the list of a removal names the device again if and
  only if it is that device itself, still running, or is served such a list (`DeviceSync.RemovalHeardIff`).
- Merging is meant to keep the union of all registered devices, but the refresh before it replaces the
  list whole by a later one, and a list whose object cannot be had reads as no list. A pass loses exactly
  the ids that no served list names, that are not its own, and that the later list does not name or that
  stood in a list it cannot have (`DeviceSync.LosesIff`). So a fresh device that was pushed a pointer to a
  list out of reach publishes, as the newest list, one that names itself alone, and so does one whose list
  object was evicted (`DeviceAgreement.FreshDeviceForgets`, `DeviceAgreement.EvictedListIsForgotten`).
- A device left out names itself again with its next pass (`DeviceSync.UnnamedMachineSpeaksUp`). In every
  run, whatever is heard, missed, fetched or lost, passes publish only a bounded number of times beyond
  what commands and lost lists cause (`DeviceSettling.PublicationsEndInEveryRun`), unless a clock is behind:
  a device whose clock is behind a list that leaves it out publishes with every pass
  (`DeviceSettling.SlowClockNeverSettles`). Passes that have the newest list agree after all but a bounded
  number of rounds (`DeviceAgreement.AgreementIsReached`).
- Pointers are stamped in whole seconds and only a later one is taken over. Devices whose passes change
  nothing any more hold one list that names them all, unless two were published in the newest second
  (`DeviceAgreement.StuckAgreeUnlessTied`); two of one second can then stand apart until something else is
  published or the store scan finds the other first (`DeviceAgreement.SameSecondSplits`).
- A pairing enters what it transfers into the cache index, so the transferred objects are handed out
  though nobody shared them, those of the own identity included (`ServingLaws.PairingServesIff`,
  `ServingLaws.PairedRecordsAreServed`).
- The registry's comments say a deregistration is signed; the code drops the mapping on any message
  with timestamp zero (`EdgeRegistry.Registry.Handle`). An expired entry is refreshed without a new
  validation (`EdgeRegistry.HolderRefreshesWithoutValidation`).
- Stopping a serve session is meant to stop its tasks by dropping the shutdown signal; what is dropped is a
  copy, so a beat that comes due before its tasks have been awaited registers the app again after its
  deregistration (`Publisher.StopIsFinalIff`).
- Closing one of several connections to a peer forgets it (`EventLoop.ConnectedIff`).
- The two HTTP servers read a range value with a colon differently (`HttpRange.ReadingsAgreeIff`,
  `HttpRange.KeyedRangeIsLost`), look up an unrooted path differently (`HttpLaws.PathsAgreeIff`), and
  take an entity tag and `gzip` differently when they come with blanks or upper case; apart from
  that they agree (`HttpLaws.RenderersAgreeIff`, `HttpLaws.TagsAgreeIff`).
- No shared name of a real identity survives printing and parsing, since identities contain a colon
  (`Capabilities.SharedNamesOfIdentitiesReadBackWrong`), and two shared names can print alike
  (`Capabilities.CanonicalEqualIff`); the text a capability is signed over leaves open where its
  subject ends (`Capabilities.FieldsEqualIff`).
- Revoking marks only the first entry with the id: a grant issued twice in one second is refused as a
  capability and still gives access (`CapabilityIndex.DuplicateSurvivesRevocation`,
  `CapabilityIndex.RevocationIsCompleteIff`).
- A capability index whose object cannot be had reads as none: the issuer's check then accepts a revoked
  capability (`CapabilityIndex.OwnCheckIff`), and a grant starts a new index. A revocation lasts if and only
  if no grant since did that, or it was made again from there (`CapabilityIndex.RevocationLastsIff`).

## Model

| member | source | states |
|---|---|---|
| Envelope.Recipients | crates/canopee-identity/src/envelope.rs:101-108 | the owner first, then exactly the further keys, each once |
| Envelope.EncryptForRecipients | crates/canopee-identity/src/envelope.rs:96-164 | the bytes written are the sealed layout for the deduplicated recipients, whatever their number |
| Envelope.DecryptEnvelope | crates/canopee-identity/src/envelope.rs:171-237 | on arbitrary bytes every slice is in bounds and the result is the specified one, error by error |
| Envelope.DecryptIfEncrypted | crates/canopee-identity/src/envelope.rs:242-247 | bytes that are not envelope-shaped pass through untouched, others are opened |
| Envelope.FindContentKey | crates/canopee-identity/src/envelope.rs:206-232 | the slot scan yields the content key of the first slot that unwraps, and none only if no slot does |
| Envelope.SlotOpensOnlyForItsRecipient | crates/canopee-identity/src/envelope.rs:137-163 | a slot unwraps to the content key for its recipient and for nobody else |
| Envelope.ScanFindsOwnSlot | crates/canopee-identity/src/envelope.rs:206-232 | every slot before the reader's own fails to unwrap, and its own yields the content key |
| Envelope.OpeningAnyTail | crates/canopee-identity/src/envelope.rs:171-237 | the complete account of reading a produced head, for any tail and any number of recipients: the wrapped count of slots is scanned, and what follows them opens only if it is the written ciphertext |
| Envelope.RoundTrip | crates/canopee-identity/src/envelope.rs:96-237 | an identity reads the exact plaintext if and only if it is named and at most 65535 distinct recipients are; others get NoMatchingRecipient; 65536 reads as malformed |
| Envelope.PrefixOpensIff | crates/canopee-identity/src/envelope.rs:171-237 | for any number of recipients, exactly when a proper prefix decrypts: beyond 65535 only if unread slots happen to spell the ciphertext |
| Envelope.NoPrefixOpens | crates/canopee-identity/src/envelope.rs:171-237 | no proper prefix of an envelope for up to 65535 recipients decrypts for anyone |
| Envelope.TamperedTailFails | crates/canopee-identity/src/envelope.rs:233-237 | up to 65535 recipients, any other ciphertext in place of the sealed one is rejected for every named reader |
| EnvelopeLaws.SealedOctets | crates/canopee-identity/src/envelope.rs:113-164 | the octets written, at literal offsets: magic, version, count, salt, nonce, and in the i-th slot the ephemeral key, the nonce and the content key under the key derived from the agreed secret, the salt, and the label, ephemeral key and recipient |
| EnvelopeLaws.WrapOpensUnderIff | crates/canopee-identity/src/envelope.rs:137-163 | the 48 wrapped octets of a slot open under a derived key if and only if the secret is the agreed one, the salt the header's, and the context the 22 octets of the label, the ephemeral key and the recipient |
| EnvelopeLaws.OpenedMeans | crates/canopee-identity/src/envelope.rs:171-237 | reading any octets: each error with its cause at literal offsets, and else what the key of the first slot that opens for the reader opens the rest to |
| EnvelopeLaws.RecipientsMean | crates/canopee-identity/src/envelope.rs:101-108 | the order of the slots: the owner, and each further key at the end when it is first named |
| Envelope.HypothesesAreConsistent | crates/canopee-identity/src/envelope.rs:256-272 | for any number below 2^24, so beyond the 65536 that wrap the count, a concrete suite with that many distinct identities and fresh slot draws meets every hypothesis used above |
| Crypto.ToySuiteIsIdeal | crates/canopee-identity/src/envelope.rs:256-272 | the ideal laws of agreement, derivation and sealing hold of a concrete suite |
| WebSocket.Connection.ReadFrame | crates/canopee-gateway/src/ws.rs:165-226 | one call reports exactly what the stream's first frame means, and leaves what follows it |
| WebSocket.Connection.WriteFrame | crates/canopee-gateway/src/ws.rs:228-245 | appends one unmasked final frame with the shortest header, and nothing else |
| WebSocket.Connection.ReadCommand | crates/canopee-gateway/src/ws.rs:123-142 | the loop delivers the specified command, consumes what it read and sends the specified replies |
| WebSocket.Connection.WriteClose | crates/canopee-gateway/src/ws.rs:247-253 | the close frame carries the reason code, big-endian, if any |
| WebSocket.ReadsWhatIsLaid | crates/canopee-gateway/src/ws.rs:165-226 | any laid-out frame of at most 16 MiB, masked or not, in any length form, reads back as what it means and leaves what followed |
| WebSocket.AcceptsOnlyLaidFrames | crates/canopee-gateway/src/ws.rs:165-226 | conversely whatever is accepted was some laid-out frame with that meaning |
| WebSocketLaws.ParsedMeans | crates/canopee-gateway/src/ws.rs:165-226 | reading any octets, bit by bit: which first octets are refused, the length from its 7, 16 or 64 bits, what is left unread, and of a masked payload that bit k of octet i differs from the one on the wire if and only if bit k of key octet i % 4 is set |
| WebSocketLaws.XorBitIff | crates/canopee-gateway/src/ws.rs:202-206 | a bit of an exclusive or is set if and only if just one of the two bits is |
| WebSocketLaws.MaskedHelloReads | crates/canopee-gateway/src/ws.rs:165-226 | the masked "Hello" of section 5.7 of RFC 6455, octet for octet, reads back as that text |
| WebSocketLaws.WrittenOctets | crates/canopee-gateway/src/ws.rs:228-245 | the octets of a written frame: the final bit and opcode, no mask bit, the length in one, three or nine octets, the payload |
| WebSocketLaws.ServedMeans | crates/canopee-gateway/src/ws.rs:123-142 | what a stream's first frame makes read_command do: text is parsed and delivered or closes with an error, a ping is answered, a close is echoed with its code if it carries one and ends it, a pong is skipped |
| WebSocket.ShortestHeader | crates/canopee-gateway/src/ws.rs:228-245 | the form written is strictly shorter than every other form that fits |
| WebSocket.StreamRoundTrip | crates/canopee-gateway/src/ws.rs:165-226 | any list of frames laid end to end is read back as exactly that list, every octet consumed |
| WebSocket.PingsAreAnsweredInOrder | crates/canopee-gateway/src/ws.rs:123-142 | before the next data frame's command, one pong per ping goes out, equal to it and in order |
| WebSocket.PongsReadBack | crates/canopee-gateway/src/ws.rs:123-142 | the peer reads those replies back as exactly its pings' payloads |
| GatewaySession.Session.HandleCommand | crates/canopee-gateway/src/lib.rs:212-249 | one command: a request is answered once, a subscription replaces the receiver and is not answered |
| GatewaySession.Session.HandleSubscription | crates/canopee-gateway/src/lib.rs:212-249 | one subscription event is forwarded in order, a closed empty channel ends the session |
| GatewaySession.CanopeeWeb.Request | crates/canopee-gateway/www/client.js:175-181 | a request is sent and its promise joins the end of the queue |
| GatewaySession.CanopeeWeb.OnMessage | crates/canopee-gateway/www/client.js:183-208 | a reply or error settles the head of the queue, a push touches no promise |
| GatewaySession.CanopeeWeb.Drop | crates/canopee-gateway/www/client.js:211-215 | every queued promise is rejected, in order |
| GatewaySession.FifoCorrelation | crates/canopee-gateway/src/lib.rs:212-287 | over every interleaving promises settle in order, the queue is requests minus replies, and each promise has its own answer if and only if no pump error met a nonempty queue |
| GatewaySession.PumpErrorStealsAPromise | crates/canopee-gateway/src/lib.rs:253-287 | a concrete run in which a pump error settles a promise whose answer is still to come |
| GatewaySession.PromisesTellVerdicts | crates/canopee-gateway/src/lib.rs:212-249 | in a run without a stolen promise the k-th promise is resolved if the k-th request handled succeeded and rejected if it failed |
| GatewaySession.OnlyFailuresSteal | crates/canopee-gateway/src/lib.rs:253-287 | only a failing pump settles a promise with another's answer |
| GatewaySession.OldTopicIsSilent | crates/canopee-gateway/src/lib.rs:229-246 | once a subscription is handled, in every continuation nothing of an earlier topic is sent |
| GatewayAnswers.PushesAreDelivered | crates/canopee-gateway/src/lib.rs:212-287 | over every run what a subscription's pump makes is sent in order, each event once, all of it but what is queued while the subscription lasts, and all but a tail when another takes its place |
| GatewayAnswers.EndOfChannelDrops | crates/canopee-gateway/src/lib.rs:229-287 | a pump that ends or fails drops the connection once what is queued was forwarded, and every queued promise with it |
| GatewayAnswers.MessageMeans | crates/canopee-gateway/www/client.js:183-208 | which promise a message settles and how |
| Objects.GetVerified | crates/canopee-storage/src/storage.rs:37-56 | whatever is read is filed under its own id and verifies |
| Objects.Storage.PutVerified | crates/canopee-storage/src/storage.rs:21-35 | stores exactly the verifying objects, and changes nothing else |
| Objects.Storage.Delete | crates/canopee-storage/src/storage.rs:139-152 | removes at most that object, and says truly whether it failed |
| Sealing.Runtime.PutObjectFor | crates/canopee-runtime/src/lib.rs:466-483 | the stored object is the sealed and resealed one, under its own id |
| Sealing.Runtime.PutObjectPublic | crates/canopee-runtime/src/lib.rs:494-506 | the stored object is the cleartext one, under its own id |
| Sealing.Runtime.Reseal | crates/canopee-runtime/src/lib.rs:510-515 | id and signature are recomputed over the changed payload before storing |
| Sealing.Runtime.OpenObject | crates/canopee-runtime/src/lib.rs:426-440 | the payload's data is replaced by what it opens to, everything else kept |
| Sealing.Runtime.Obtain | crates/canopee-runtime/src/sharing.rs:217-271 | the object held, or the first one a peer answers with, imported unless its id is taken or it does not verify |
| Sealing.Runtime.Get | crates/canopee-runtime/src/lib.rs:535-542 | the object held or fetched, opened, with every failure, and what stays stored |
| Sealing.ReadIsOfIdIff | crates/canopee-runtime/src/sharing.rs:217-271 | what is read is the object asked for if and only if it was held or the answering peer sent that one |
| Sealing.Runtime.ShareCopy | crates/canopee-runtime/src/sharing.rs:115-146 | without recipients the id is kept, with them a copy sealed for the wider circle is stored |
| Sealing.Runtime.ConcatObjects | crates/canopee-runtime/src/lib.rs:552-592 | stores and announces the concatenation of what the inputs, held or fetched, open to; on a failure only what was fetched stays |
| Sealing.SealedObjectOpens | crates/canopee-runtime/src/lib.rs:415-483 | for every payload the sealed object verifies, keeps the plaintext's size, opens to the original for every reader named and for nobody else |
| Sealing.PutThenGet | crates/canopee-runtime/src/lib.rs:466-542 | reading the id just stored gives back the original bytes, even envelope-shaped ones |
| Sealing.SharedCopyOpens | crates/canopee-runtime/src/sharing.rs:115-160 | a shared copy opens, for every recipient and the sharer, to what the sharer reads |
| Sealing.PublicObjectReadsBackIff | crates/canopee-runtime/src/lib.rs:494-542 | a cleartext object reads back unchanged if and only if its bytes are not envelope-shaped |
| Sealing.OpeningShrinks | crates/canopee-identity/src/envelope.rs:171-237 | opening an envelope yields strictly fewer bytes |
| Sealing.ConcatSplits | crates/canopee-runtime/src/lib.rs:552-592 | concatenating a joined list joins the concatenations, the second read from what the first left, and the first failure decides |
| Sealing.HeldInputsNeedNoNetwork | crates/canopee-runtime/src/lib.rs:561-567 | inputs that are all held leave the store as it is, whatever the network would answer |
| SealingAnswers.ObtainingMeans | crates/canopee-runtime/src/sharing.rs:217-271 | what is held is had, and else each refusal of an answer with its exact cause, in terms of ids, payload and signature |
| SealingAnswers.OpenedObjectMeans | crates/canopee-runtime/src/lib.rs:426-440 | cleartext stays, and of what starts like an envelope just the data is replaced, by what it opens to, or the error is told |
| Sharing.ShareObjectFor | crates/canopee-runtime/src/sharing.rs:115-160 | the object is opened, sealed again for the recipients, stored and listed; each failure and the resulting state |
| SealingAnswers.CopyMeans | crates/canopee-runtime/src/sharing.rs:127-146 | no copy without recipients, and else a new object of the sharer, of the same kind and the size of the plaintext, sealed for owner and recipients |
| Sharing.SharedReachesExactlyItsRecipients | crates/canopee-runtime/src/sharing.rs:115-160 | the current home index names, under that name, a copy this node serves, which each recipient and the sharer open to what the sharer reads and nobody else opens |
| CacheIndex.Cache.MarkCached | crates/canopee-storage/src/cache.rs:140-144 | the object becomes tracked as served now, others stay as they were |
| CacheIndex.Cache.TouchServed | crates/canopee-storage/src/cache.rs:75-79 | a tracked object's time is refreshed, an untracked one stays untracked |
| CacheIndex.Cache.TotalCachedBytes | crates/canopee-storage/src/cache.rs:83-92 | the loop sums the declared sizes of the tracked objects that can be read |
| CacheIndex.Cache.LruCachedObjects | crates/canopee-storage/src/cache.rs:97-109 | exactly the tracked readable objects, least recently served first |
| ServingRuntime.Runtime.EvictIfOverCap | crates/canopee-node/src/lib.rs:135-154 | terminates; the evicted are a least-recently-served prefix each of which was needed, the total drops by exactly their sizes, it ends within the cap unless a deletion fails, and nothing outside the cache index goes |
| ServingAnswers.SweepMeans | crates/canopee-node/src/lib.rs:135-154 | of two evicted objects the earlier was handed out no later, no kept one earlier than either, and before each the total was over the cap |
| ServingRuntime.Runtime.Open | crates/canopee-runtime/src/lib.rs:246-257 | start-up serves the stored index's shared entries and the public records |
| ServingRuntime.Runtime.Announce | crates/canopee-runtime/src/sharing.rs:10-13 | the id joins the serving set |
| ServingRuntime.Runtime.ReconcileShared | crates/canopee-runtime/src/sharing.rs:176-212 | the two loops add what became shared and remove what no longer is |
| ServingRuntime.Runtime.SaveHomeIndex | crates/canopee-runtime/src/sharing.rs:46-57 | the index is stored under the next version and the serving set follows it |
| ServingAnswers.SavingMeans | crates/canopee-runtime/src/sharing.rs:46-57 | the current index is then the one given under the next version, and an id is served if and only if it became shared, or was served and did not stop being shared |
| ServingRuntime.Runtime.SetHomeEntryShared | crates/canopee-runtime/src/sharing.rs:62-82 | the first entry of that name changes its flag, an unknown name changes nothing |
| ServingAnswers.FlagIsSet | crates/canopee-runtime/src/sharing.rs:62-82 | afterwards the current index is the old one under the next version, with just the flag of the first entry of that name set to the one given |
| ServingAnswers.FlagRefusals | crates/canopee-runtime/src/sharing.rs:62-76 | an unreadable or missing index and an unknown name are refused and change nothing |
| ServingAnswers.FlagDecides | crates/canopee-runtime/src/sharing.rs:62-82 | so an own object that this entry alone names, neither announced nor tracked, is handed out afterwards if and only if the flag is true |
| ServingRuntime.Runtime.ShareObjectFor | crates/canopee-runtime/src/sharing.rs:115-160 | given the copy, it is stored and the entry replaced or appended and marked shared; an unknown object changes nothing |
| ServingAnswers.SharingMeans | crates/canopee-runtime/src/sharing.rs:115-160 | one shared entry for the copy or the object takes the place of the first of its name or the last place, all else of the index stays |
| ServingRuntime.Runtime.InstallPaired | crates/canopee-runtime/src/pairing.rs:244-259 | each transferred object is stored and tracked as cached, whoever owns it |
| ServingAnswers.PairingMeans | crates/canopee-runtime/src/pairing.rs:244-259 | what a pairing brings is stored and tracked as handed out now, whoever owns it, and the rest and what is shared stay |
| ServingRuntime.Runtime.GetObject | crates/canopee-runtime/src/lib.rs:104-114 | the gate hands out shared or cached objects only, and refreshes their time |
| ServingAnswers.GateIff | crates/canopee-runtime/src/lib.rs:104-114 | an object is handed out if and only if it is stored under its id, verifies, and is tracked or shared; only a tracked one's time moves |
| ServingRuntime.Runtime.PutVerified | crates/canopee-runtime/src/lib.rs:124-130 | a pushed object is stored if it verifies and tracked if it is foreign |
| ServingRuntime.Runtime.Import | crates/canopee-runtime/src/lib.rs:604-615 | an imported object is stored if it verifies and tracked if it is foreign |
| ServingRuntime.Runtime.Evict | crates/canopee-runtime/src/lib.rs:619-625 | the object leaves store, cache index and serving set, or the failed deletion changes nothing else |
| ServingRuntime.Runtime.DeleteObject | crates/canopee-runtime/src/lib.rs:627-661 | one entry is dropped and saved, then the object and the old index are evicted |
| ServingAnswers.DeletionMeans | crates/canopee-runtime/src/lib.rs:627-661 | a listed object deleted: the new index lacks just the first entry naming it, the object and the old index are gone from all three places, anything else is where it was |
| ServingAnswers.DeletionAnswers | crates/canopee-runtime/src/lib.rs:627-661 | every answer to a deletion with its exact cause, in the order of the checks |
| ServingLaws.RunRefinesIff | crates/canopee-runtime/src/sharing.rs:10-212 | over every run, removals included, the serving set refines the home index throughout if and only if every removal meets its guard when it comes |
| ServingLaws.IncrementalAgreesWithRecomputed | crates/canopee-runtime/src/sharing.rs:10-212 | over every such run from opening the serving set contains what the current index shares, and beyond that only ids announced or marked by hand and not withdrawn since |
| ServingLaws.EvictionRefinesIff | crates/canopee-runtime/src/lib.rs:619-625 | an eviction, however its deletion fares, keeps the serving set in step with the home index if and only if it is refused, or the id is not the index and is kept or not shared by it |
| ServingLaws.DeletionRefinesIff | crates/canopee-runtime/src/lib.rs:627-661 | for every outcome of its two deletions, a deletion keeps it exactly under a guard read off the index, the object and the outcomes |
| ServingLaws.UnlistedDeletionLosesHome | crates/canopee-runtime/src/lib.rs:627-661 | a concrete node on which deleting an unlisted object makes the home index unreadable |
| ServingLaws.NothingSharedByDefault | crates/canopee-runtime/src/lib.rs:102-131 | over every run, removals and pairings included, the cache index holds exactly the foreign objects admitted and the others that a pairing brought, not evicted since, and the gate hands out only those, what the index named by the home pointer shares, and what was announced or marked and not withdrawn since |
| ServingLaws.OwnObjectsStayPrivate | crates/canopee-runtime/src/lib.rs:102-131 | an own object that the named index does not share, unshared ones included, that was not announced or marked since, and that no pairing brought, is never handed out |
| ServingLaws.TrackedIsForeignOrTransferred | crates/canopee-runtime/src/lib.rs:604-615 | over every run from a cache index of foreign objects, whatever it tracks is foreign or was transferred by a pairing of the run |
| ServingLaws.PairingServesIff | crates/canopee-runtime/src/pairing.rs:244-259 | a pairing adds to what is handed out exactly the objects it transfers, own ones included |
| ServingLaws.PairedRecordsAreServed | crates/canopee-runtime/src/pairing.rs:244-259 | after a restart under the transferred identity its transferred records are handed out, and accounted for as paired |
| Records.PublishedPointerStands | crates/canopee-runtime/src/records.rs:18-61 | a pointer just published is delivered by the store it was put into, is what resolution returns whatever store and DHT hold, and is replaced by a refresh only by a later one |
| Records.Slot.LatestPointerRecord | crates/canopee-runtime/src/records.rs:68-90 | a true arg-max over delivered pointers when nothing blocks the scan, and nothing at all when something does |
| Records.ScanMeans | crates/canopee-runtime/src/records.rs:66-94 | an unreadable file or an undecodable own pointer makes the scan find nothing; else it finds a pointer of that name, signed by its owner, in an own verifying pointer object, if there is one, and none such is later |
| Records.Slot.ResolvePointer | crates/canopee-runtime/src/records.rs:96-157 | cache, then pushed, then DHT, and a find is cached |
| Records.ResolvingMeans | crates/canopee-runtime/src/records.rs:96-155 | a good cached pointer, else whatever was pushed, else a good answer of the DHT, good meaning owner, name and signature |
| Records.Slot.SyncRecord | crates/canopee-runtime/src/sync.rs:88-157 | one refresh writes and answers as specified, including the failed fetches |
| Records.RefreshMeans | crates/canopee-runtime/src/sync.rs:88-157 | whether a refresh takes the pushed pointer, that of the DHT, fails or changes nothing, from stamps and what can be fetched |
| Records.SyncMovesForwardIff | crates/canopee-runtime/src/sync.rs:88-157 | a refresh replaces the usable pointer only by a strictly newer one and says so exactly then, if and only if it takes no misfiled pointer into the cache |
| Records.SyncLowersIff | crates/canopee-runtime/src/sync.rs:88-157 | a refresh lowers the cached stamp if and only if a misfiled pointer is fetched over a usable one |
| Records.RunNeverLowersIff | crates/canopee-runtime/src/sync.rs:88-157 | over any run against changing worlds no refresh lowers the stamp if and only if none lapses so |
| Records.ForeignPointerLapses | crates/canopee-runtime/src/records.rs:68-90 | a concrete store in which a verifying object delivers another owner's pointer for the slot, and the refresh that lapses on it |
| Records.SyncSettlesIff | crates/canopee-runtime/src/sync.rs:88-157 | with fetches succeeding, from the third call on the answer is false and the stamp is the maximum of cache, store and DHT, if and only if no pushed pointer newer than the usable cached one is for another slot |
| Records.ResolutionIsSticky | crates/canopee-runtime/src/records.rs:96-157 | once something usable is cached, resolution returns it whatever store and DHT hold |
| Devices.Device.LoadMerged | crates/canopee-runtime/src/records.rs:471-495 | the loop computes the union with local entries first |
| Devices.Device.Save | crates/canopee-runtime/src/records.rs:575-589 | the list is saved under the next version |
| Devices.Device.AddDevice | crates/canopee-runtime/src/records.rs:594-613 | the entry is refreshed in place or appended, then saved |
| Devices.Device.RemoveDevice | crates/canopee-runtime/src/records.rs:616-627 | every entry of that device goes; this device is refused |
| Devices.Device.Reconcile | crates/canopee-runtime/src/records.rs:654-688 | writes only when the ids changed |
| Devices.ReconcileLaws | crates/canopee-runtime/src/records.rs:654-688 | afterwards the ids are the union with this device, local entries are a prefix, and it wrote if and only if that was news or there was no list |
| DeviceAnswers.ReconcilingMeans | crates/canopee-runtime/src/records.rs:654-688 | what is written is the merge with an entry of this device at its end if none names it, and it is written if and only if it is longer than the list or there was none |
| DeviceAnswers.UnionMeans | crates/canopee-runtime/src/records.rs:471-508 | merging appends, in their order, just the entries whose id is not there yet, as they are |
| Devices.AddLaws | crates/canopee-runtime/src/records.rs:594-613 | ids grow by exactly that one, other local entries and an existing added-at time stay |
| DeviceAnswers.AddingMeans | crates/canopee-runtime/src/records.rs:594-613 | the first entry of the device gets the name given and keeps its added-at time, or is added last with the present one; all others are as merged |
| Devices.WithoutLaws | crates/canopee-runtime/src/records.rs:616-627 | removal takes out exactly that id |
| Devices.RemovalUndoneIff | crates/canopee-runtime/src/records.rs:616-688 | a removed device is gone, and is back after the next merge if and only if the list merged in names it |
| Devices.Device.FreshestDeviceList | crates/canopee-runtime/src/records.rs:512-571 | every peer is asked for every known manifest, and of what is served the first of the highest-versioned lists is kept |
| Devices.AskedIff | crates/canopee-runtime/src/records.rs:551-569 | what can be kept is exactly what some peer serves for a known manifest |
| DeviceAnswers.BestMeans | crates/canopee-runtime/src/records.rs:512-571 | the list kept is of the highest version served, the first such |
| DeviceSync.RefreshingIsSyncing | crates/canopee-runtime/src/sync.rs:52-157 | resolving and then refreshing the pointer is resolving and syncing its record, failed fetches included |
| DeviceSync.Node.Load | crates/canopee-runtime/src/records.rs:269-294 | the pointer is resolved and its list taken from the store or fetched and kept; failing both it reads as no list |
| DeviceSync.Node.Refresh | crates/canopee-runtime/src/sync.rs:88-157 | a later pushed pointer is taken over once its list is had, else a later one of the DHT; a failed fetch ends it |
| DeviceSync.Node.PeriodicPass | crates/canopee-runtime/src/sync.rs:19-46 | load, refresh, load again and reconcile, published when that wrote; neither a missing list nor a failed refresh ends the pass |
| DeviceAnswers.InHandMeans | crates/canopee-runtime/src/sync.rs:88-157 | which pointer a pass works on, from what is cached, pushed, on the DHT and obtainable |
| DeviceSync.Node.AddDevice | crates/canopee-runtime/src/records.rs:594-613 | the list had, not refreshed, or an empty one, is merged, extended and published |
| DeviceSync.Node.RemoveDevice | crates/canopee-runtime/src/records.rs:616-627 | the list had, or an empty one, is merged, rid of the device and published; this device is refused |
| DeviceSync.StepLaws | crates/canopee-runtime/src/records.rs:471-688 | what every step leaves behind: ids, version, stamp and what is held, and that a pass publishes exactly when it has no list or meets an id that the list does not name |
| DeviceSync.RunKeepsSound | crates/canopee-runtime/src/sync.rs:19-157 | over every run of arrivals, losses, passes, additions and removals whatever a device has was published, duplicate-free and within the ids in play |
| DeviceSync.QuietIff | crates/canopee-runtime/src/sync.rs:28-43 | a pass changes nothing if and only if the list in hand is held and names this device and all it is served, and nothing later can be taken over |
| DeviceSync.LosesIff | crates/canopee-runtime/src/sync.rs:28-43 | a pass drops an id if and only if it cannot have the list in hand or takes over one without it, is served none with it, and it is not its own |
| DeviceSync.UnnamedMachineSpeaksUp | crates/canopee-runtime/src/sync.rs:28-43 | a device that has no list, or one without its own id, publishes in the same pass one that names exactly itself and what it had and was served |
| DeviceSync.LaterListIsTakenWhole | crates/canopee-runtime/src/sync.rs:100-119 | a later pointer delivered with its list within reach makes the next pass name all that list names, at no lower version |
| DeviceSync.RemovalHeardIff | crates/canopee-runtime/src/records.rs:616-627 | whoever takes over the list of a removal names the removed device again if and only if it is that device or is served a list naming it |
| DeviceSync.NamedIff | crates/canopee-runtime/src/records.rs:471-688 | over every run a device names an id if and only if a step of its own brought it and none since dropped it, or it did at first and none dropped it |
| DeviceSync.RemovedIsBackIff | crates/canopee-runtime/src/records.rs:616-688 | over every run after a removal the remover names the device again if and only if a step of its own since brought it and none dropped it |
| DeviceAgreement.HearsIff | crates/canopee-runtime/src/sync.rs:100-157 | a pass has the newest list if and only if that is within reach and its pointer is in hand, delivered by an unblocked scan, or on the DHT with nothing later pushed |
| DeviceAgreement.HearingKeepsTop | crates/canopee-runtime/src/sync.rs:19-157 | a pass that has the newest list ends holding the newest, which names what the last did, what it was served and this device |
| DeviceAgreement.PublicationsAreBounded | crates/canopee-runtime/src/records.rs:643-688 | over every run of such passes, however long, there are at most as many publications as ids the newest list did not name |
| DeviceAgreement.RoundAgreesIff | crates/canopee-runtime/src/sync.rs:19-157 | a round of such passes ends with every device on the list that was newest, and named by it, if and only if nobody published in it |
| DeviceAgreement.AgreementIsReached | crates/canopee-runtime/src/sync.rs:19-157 | of any number of rounds all but as many as there are ids to learn end in agreement |
| DeviceAgreement.TwoRoundsAgree | crates/canopee-runtime/src/sync.rs:19-157 | when nobody is served an unknown id, after two rounds all hold one list that names what the newest did and every one of them |
| DeviceAgreement.AgreedIsQuiet | crates/canopee-runtime/src/records.rs:643-688 | once all hold the newest list and it names everybody, a pass changes nothing, whatever it is answered |
| DeviceAgreement.StuckAgreeUnlessTied | crates/canopee-runtime/src/sync.rs:88-157 | devices whose passes change nothing hold lists of the newest second, and the same one unless two were published in it |
| DeviceAgreement.SameSecondSplits | crates/canopee-runtime/src/records.rs:594-613 | a run of six steps after which two devices hold different lists of one second and no further pass changes anything |
| DeviceAgreement.EvictedListIsForgotten | crates/canopee-runtime/src/records.rs:269-294 | a device that lost the object of its list, with nothing within reach, publishes one that names itself alone |
| DeviceAgreement.FreshDeviceForgets | crates/canopee-runtime/src/records.rs:654-688 | a run of three steps after which the newest list names only a fresh device that was pushed a pointer and could not have its list |
| DeviceSettling.PassLaws | crates/canopee-runtime/src/sync.rs:28-43 | a pass moves on to a later list, or publishes one that strictly enlarges the one it has, or starts from nothing, which it does only if it does not hold the list in hand |
| DeviceSettling.PublicationsEndInEveryRun | crates/canopee-runtime/src/records.rs:643-688 | over every run, however long and whatever is heard, missed, fetched or lost, the number of passes that publish is bounded by the devices, lists and ids at its start, the commands in it and the lists in hand it loses |
| DeviceSettling.SlowClockNeverSettles | crates/canopee-runtime/src/records.rs:654-688 | a device whose clock is behind a list that leaves it out publishes with every pass of a run, however long |
| DeviceSettling.QuietStretchAgrees | crates/canopee-runtime/src/sync.rs:19-157 | while nothing is published, once the newest pointer was delivered to everyone and everyone made a full pass, all hold that list and are named by it |
| Pairing.NewDevice.InitiatePairing | crates/canopee-runtime/src/pairing.rs:33-51 | a fresh session replaces any earlier one |
| Pairing.CompletePairing | crates/canopee-runtime/src/pairing.rs:55-145 | checks the code shown, then sends the sealed identity and records for that session and target |
| PairingAnswers.SendingMeans | crates/canopee-runtime/src/pairing.rs:55-145 | each refusal with its exact cause, and else the sealed request: identity and the devices, profile and contacts records, under the key of the typed code and the literal label, session, sender and target |
| PairingAnswers.SlotContributesIff | crates/canopee-runtime/src/pairing.rs:102-145 | a slot contributes exactly a genuine own pointer and the own verifying object stored under what it names |
| Pairing.GatherRecords | crates/canopee-runtime/src/pairing.rs:102-145 | the loop collects the transferred slots in order, with the objects they name |
| Pairing.NewDevice.AcceptPairing | crates/canopee-runtime/src/pairing.rs:173-268 | the whole new state and the answer, refusal by refusal, are the specified ones |
| PairingAnswers.AnswersMean | crates/canopee-runtime/src/pairing.rs:173-268 | every answer with its exact cause, field by field, in the order of the checks |
| PairingAnswers.InstalledObjectsMean | crates/canopee-runtime/src/pairing.rs:244-259 | afterwards an object is stored and marked cached at that time if and only if a record brought it, and any other is as before |
| PairingAnswers.InstalledSlotsMean | crates/canopee-runtime/src/pairing.rs:244-259 | each slot holds the pointer of the last record written for it, and no other slot moved |
| Pairing.SaltIsInjective | crates/canopee-runtime/src/pairing.rs:87-98 | the unmarked concatenation pins session, sender and target |
| Pairing.AcceptedWasMade | crates/canopee-runtime/src/pairing.rs:173-212 | an accepted payload was sealed by a holder of the key of the open session's code, this session, sender and target |
| Pairing.AcceptedOnlyAsBuilt | crates/canopee-runtime/src/pairing.rs:173-268 | a payload made by any source is accepted only with the same code, session, sender and target, replayed or redirected as it may be |
| Pairing.AcceptanceMeansSource | crates/canopee-runtime/src/pairing.rs:55-268 | if only source devices were told codes, whatever is accepted was built by its sender for this code, session and device |
| Pairing.HypothesesAreConsistent | crates/canopee-runtime/src/pairing.rs:85-145 | a concrete suite meets the laws and the hypothesis, and makes whatever a source completes |
| Pairing.EarlyRefusalChangesNothing | crates/canopee-runtime/src/pairing.rs:173-243 | any refusal before the key write changes nothing but the consumed session |
| Pairing.AcceptanceInstallsOnlyValidPointers | crates/canopee-runtime/src/pairing.rs:220-268 | every installed pointer verifies, belongs to the imported identity, sits in its slot and names a stored object of that identity |
| Pairing.HonestPairingAcceptedIff | crates/canopee-runtime/src/pairing.rs:33-268 | for any pointer files, the intended exchange is accepted, and installs every slot, if and only if the sender's pointers carry their slots' names |
| Pairing.RunKeepsSlotsNamed | crates/canopee-runtime/src/pairing.rs:249-259 | over every run of publishing, resolving, syncing and pairing every pointer file carries its slot's name |
| Pairing.HonestPairingIsAccepted | crates/canopee-runtime/src/pairing.rs:33-268 | so from pointer files the program itself wrote the intended exchange is always accepted and installs every slot |
| Pairing.OneAcceptancePerSession | crates/canopee-runtime/src/pairing.rs:33-268 | over every run acceptances never outnumber initiated sessions |
| EdgeRegistry.Registry.Resolve | crates/canopee-edge/src/registry.rs:61-70 | looks up the lower-cased query and answers only within 90 seconds |
| EdgeAnswers.QueryMeans | crates/canopee-edge/src/registry.rs:61-70 | a query finds just the entry under its lower-case spelling, through its 90th second |
| EdgeRegistry.Registry.Handle | crates/canopee-edge/src/registry.rs:72-136 | the whole new map and the verdict: deregistration, heartbeat, or full validation |
| EdgeAnswers.MessageMeans | crates/canopee-edge/src/registry.rs:72-188 | in the message's own fields: which entry it is about, what drops and what refreshes it, the first fault of a refused claim, and that just that entry changes |
| EdgeRegistry.ResolvesIff | crates/canopee-edge/src/registry.rs:61-136 | after any trace a subdomain resolves to a peer if and only if the last word on it was that peer's accepted registration at most 90 seconds ago |
| EdgeRegistry.SilentPublisherNeverResolves | crates/canopee-edge/src/registry.rs:61-136 | a publisher last accepted more than 90 seconds ago resolves for nobody |
| EdgeRegistry.SteadyPublisherAlwaysResolves | crates/canopee-runtime/src/serve.rs:300-336 | accepted beats at most 90 seconds apart keep a publisher resolvable at every moment, absent a deregistration or another accepted peer |
| EdgeRegistry.EntriesTraceBackToValidation | crates/canopee-edge/src/registry.rs:72-188 | every entry goes back to a successful validation for its peer and identity, since when only that pair was accepted and nothing dropped it |
| EdgeRegistry.PairSurvives | crates/canopee-edge/src/registry.rs:72-136 | without a new validation the holder of an entry does not change |
| EdgeRegistry.HolderRefreshesWithoutValidation | crates/canopee-edge/src/registry.rs:96-118 | the holder's signed beat is accepted whatever it serves, however stale and however late |
| EdgeRegistry.KeysAreLowerCase | crates/canopee-edge/src/registry.rs:142-188 | served digests being lower-case hexadecimal, every key of every run is lower case |
| EdgeRegistry.EveryFreshEntryIsReachable | crates/canopee-edge/src/registry.rs:61-70 | so lower-casing queries loses nothing: every fresh entry resolves under its key and every respelling |
| EdgeRegistry.GoneUntilAccepted | crates/canopee-edge/src/registry.rs:81-88 | after a deregistration by anyone an app resolves only if somebody was accepted for it since |
| Publisher.ServeRuntime.StartServeSession | crates/canopee-runtime/src/serve.rs:90-201 | a running session is stopped first, beats and all; then a servable app is registered, and takes the slot if and only if the edge accepted |
| Publisher.ServeRuntime.StopServeSession | crates/canopee-runtime/src/serve.rs:204-226 | takes the slot, deregisters, and lowers the running flag after whatever beats came while its tasks were awaited |
| Publisher.ServeRuntime.HeartbeatTurn | crates/canopee-runtime/src/serve.rs:300-336 | a turn before its time does nothing; at its time it registers and sleeps again, or returns once the session no longer runs |
| PublisherAnswers.BeatMeans | crates/canopee-runtime/src/serve.rs:300-336 | a running task that is due registers its app stamped now and is next due in thirty seconds; any other sends nothing |
| Publisher.ServeRuntime.BeginStop | crates/canopee-runtime/src/serve.rs:204-226 | the slot is freed and the deregistration sent |
| Publisher.ServeRuntime.Terminate | crates/canopee-runtime/src/serve.rs:53-65 | the running flag falls only once its tasks were awaited |
| Publisher.StoppedIsSilent | crates/canopee-runtime/src/serve.rs:53-65 | once its tasks were awaited a session never sends again, in any continuation |
| Publisher.StopIsFinalIff | crates/canopee-runtime/src/serve.rs:204-336 | the deregistration stays a session's last message, whatever follows, if and only if no beat of it came due before its tasks were awaited |
| Publisher.MissedBeatsAreTolerated | crates/canopee-runtime/src/serve.rs:300-336 | spaced beats keep the app resolvable though as many in a row are lost as fit into ninety seconds |
| Publisher.SessionIsPaced | crates/canopee-runtime/src/serve.rs:300-336 | over every run the registrations of a session prompt about its beats are spaced by the interval and the slack |
| Publisher.RunningSessionResolves | crates/canopee-runtime/src/serve.rs:90-336 | a session started and left running resolves at the edge throughout, from the publisher's own run and what the edge accepted of it |
| EventLoop.Loop.HandleGet | crates/canopee-network/src/manager/event_loop.rs:268-278 | the request goes out under a fresh id with its caller waiting |
| EventLoop.Loop.HandleReplicate | crates/canopee-network/src/manager/event_loop.rs:279-315 | one store request per target under consecutive fresh ids, or an immediate reply |
| EventLoop.Loop.HandleResponse | crates/canopee-network/src/manager/event_loop.rs:682-717 | the waiting sender of that id, store map first, gets the answer of its kind |
| EventLoop.Loop.HandleOutboundFailure | crates/canopee-network/src/manager/event_loop.rs:750-761 | the waiting sender of that id gets the failure |
| EventLoop.Loop.HandlePeer | crates/canopee-network/src/manager/event_loop.rs:499-529 | a seen peer joins the map unless it is this node, a closed one leaves it |
| EventLoop.Collect | crates/canopee-network/src/manager/event_loop.rs:322-348 | the loop's verdict is an error only if nobody stored, and then the first one |
| EventLoop.EveryRunConserves | crates/canopee-network/src/manager/event_loop.rs:268-761 | over every run the maps share no id, and each issued request waits in the map of its kind unanswered or is answered exactly once in kind |
| EventLoop.DuplicateChangesNothing | crates/canopee-network/src/manager/event_loop.rs:682-761 | any further word on an answered id changes nothing |
| EventLoop.FirstWordDecides | crates/canopee-network/src/manager/event_loop.rs:682-761 | a request's reply is that of the first event naming it, and it waits while there is none |
| EventLoop.GetIsAnswered | crates/canopee-network/src/manager/event_loop.rs:682-761 | over every run the caller of a get is told the object, ObjectNotFound, WrongKind or the failure's text if and only if that is what the first event naming its request brings |
| EventLoop.StoreIsAnswered | crates/canopee-network/src/manager/event_loop.rs:682-761 | likewise the caller of a store request: stored, the error told, WrongKind or the failure's text |
| EventLoop.ReplicationSucceedsIff | crates/canopee-network/src/manager/event_loop.rs:279-348 | with all targets answered a named-peer replication succeeds if and only if the peer was connected and stored, a broadcast if and only if nobody was connected or somebody stored |
| EventLoop.EveryTargetIsAsked | crates/canopee-network/src/manager/event_loop.rs:305-315 | the k-th target is asked under the k-th id |
| EventLoop.ConnectedIff | crates/canopee-network/src/manager/event_loop.rs:499-529 | a peer counts as connected if and only if no connection to it closed since it was last seen |
| Decimal.ParseOfPrint | crates/canopee-runtime/src/http.rs:216-233 | a printed number reads back if and only if it fits 64 bits |
| Decimal.NumberReadsIff | crates/canopee-runtime/src/http.rs:210-233 | a text reads as a number if and only if it is that many digits, one at least, with or without a plus, below 2^64 |
| HttpRange.ParseValue | crates/canopee-runtime/src/http.rs:186-241 | a selected range lies within the file, start not after end |
| HttpRange.ParseLine | crates/canopee-cli/src/app.rs:613-664 | a selected range lies within the file, start not after end |
| HttpRange.PrintedRangeMeans | crates/canopee-runtime/src/http.rs:203-241 | `bytes=a-b` selects from a through b as far as the file goes, or is unsatisfiable |
| HttpRange.PrintedSuffixMeans | crates/canopee-runtime/src/http.rs:210-222 | `bytes=-n` selects the last n bytes, all of a shorter file |
| HttpRange.PrintedFromMeans | crates/canopee-runtime/src/http.rs:224-230 | `bytes=a-` selects everything from a on |
| HttpRange.LineReadsItsValue | crates/canopee-cli/src/app.rs:613-619 | a header line is read as its trimmed value |
| HttpRange.ReadingsAgree | crates/canopee-cli/src/app.rs:613-664 | the two parsers agree on every value without a colon |
| HttpRange.ReadingsAgreeIff | crates/canopee-runtime/src/http.rs:186-197 | they select the same bytes if and only if there is no colon or what follows the first one selects none |
| HttpRange.KeyedRangeIsLost | crates/canopee-runtime/src/http.rs:186-197 | any key before a range is stripped by one parser and hides the range from the other |
| HttpAnswers.SpecMeans | crates/canopee-runtime/src/http.rs:198-241 | for any two bounds, numerals or not, exactly which stretch is selected, what is unsatisfiable and what is ignored |
| HttpAnswers.ValueMeans | crates/canopee-runtime/src/http.rs:186-197 | blanks around a value do not count, and what stands before a first colon is skipped, or by the other parser required |
| HttpRender.Decide | crates/canopee-runtime/src/http.rs:53-158 | a slice answer lies within its file |
| HttpRender.RenderResponse | crates/canopee-runtime/src/http.rs:19-159 | status, header list in order, and body are those decided for the request |
| HttpRender.PrepareResponse | crates/canopee-cli/src/app.rs:421-575 | the text written is the head of the decided response, and a body is written exactly for a served GET |
| HttpRender.PushHeader | crates/canopee-cli/src/app.rs:579-594 | status line, type, optional length and connection, in order |
| HttpRender.SameAskedSameAnswer | crates/canopee-cli/src/app.rs:421-575 | equal requests get equal status and body, and the same header list but for Connection and the zero length of a refusal |
| HttpAnswers.LibraryAnswerMeans | crates/canopee-runtime/src/http.rs:53-158 | which status answers what, and for each the literal header list and the body, compression included |
| HttpAnswers.CliAnswerMeans | crates/canopee-cli/src/app.rs:421-575 | where the command line server puts Connection, and its zero length on refusals |
| HttpAnswers.HeadMeans | crates/canopee-cli/src/app.rs:421-594 | the text of a head: the status line with code and phrase, one line a header in order, an empty line |
| HttpAnswers.HeaderMeans | crates/canopee-runtime/src/http.rs:169-175 | the first request header of that name in any case is the one read |
| HttpAnswers.SelectMeans | crates/canopee-runtime/src/http.rs:37-44 | a path selects its own file, or the root's unless a dot follows its last slash |
| HttpLaws.PathsAgreeIff | crates/canopee-runtime/src/serve.rs:231-242 | both servers look up the same path if and only if it is rooted |
| HttpLaws.LibraryMatchesIff | crates/canopee-runtime/src/http.rs:60-63 | the library's comparison holds if and only if the tag is right but for quotes, blanks and case, and stripping quotes then blanks is enough |
| HttpLaws.CliMatchesIff | crates/canopee-cli/src/app.rs:389-391 | the command line server's, on the lower-cased line, holds if and only if it is, and stripping blanks then quotes is enough |
| HttpLaws.TagsAgreeIff | crates/canopee-cli/src/app.rs:457-465 | the two differ exactly on a tag that is right in that sense and that just one of them strips down |
| HttpAnswers.LibraryTagIff | crates/canopee-runtime/src/http.rs:60-63 | the library's comparison holds if and only if what was sent is the digest within blanks within quotes |
| HttpAnswers.CliTagIff | crates/canopee-cli/src/app.rs:457-465 | the command line server's if and only if it is the digest within quotes |
| HttpLaws.RenderersAgreeIff | crates/canopee-cli/src/app.rs:341-575 | for rooted paths and colon-free ranges the two servers give the same answer to the same request, as each receives it, if and only if no file is selected, or neither the tag nor, where the whole file is answered, a miscased gzip tells them apart |
| HttpLaws.RenderersAgree | crates/canopee-cli/src/app.rs:341-575 | in particular for a lower-case gzip and a tag that both strip down or neither does |
| HttpLaws.SameAnswerSameHeader | crates/canopee-cli/src/app.rs:421-575 | the same answer means the same ETag, Content-Range and every other header a client reads |
| HttpLaws.AssetIff | crates/canopee-runtime/src/http.rs:297-300 | an asset request is one with a dot after its last slash |
| HttpLaws.RevalidationIff | crates/canopee-runtime/src/http.rs:53-73 | sending back an earlier tag yields 304 if and only if the target still selects those bytes, whatever range is asked for |
| HttpLaws.LengthTellsTheBody | crates/canopee-runtime/src/http.rs:99-158 | Content-Length is the length of the body a GET delivers |
| HttpLaws.HeadMirrorsGet | crates/canopee-runtime/src/http.rs:75-158 | HEAD answers like GET without a range, minus the body |
| HttpLaws.CompleteDecodesToFile | crates/canopee-runtime/src/http.rs:124-158 | a complete answer decodes to the stored file and is never longer than it |
| HttpLaws.PieceIsExact | crates/canopee-runtime/src/http.rs:82-121 | the answer for a printed piece is exactly that slice with its Content-Range and Content-Length |
| HttpLaws.RangesReassemble | crates/canopee-runtime/src/http.rs:82-121 | the pieces between any increasing boundaries concatenate to that stretch of the file |
| Capabilities.CanonicalOfParse | crates/canopee-storage/src/capability.rs:69-95 | every accepted resource string prints back as written |
| Capabilities.ParseOfCanonicalIff | crates/canopee-storage/src/capability.rs:69-95 | a resource reads back as itself if and only if it is not a shared name whose owner has a colon |
| CapabilityAnswers.ResourceReads | crates/canopee-storage/src/capability.rs:77-95 | each kind of resource text and what it reads as, and every refusal |
| Capabilities.SharedNamesOfIdentitiesReadBackWrong | crates/canopee-storage/src/capability.rs:69-95 | for any identity URI the owner reads back as the bare scheme |
| Capabilities.CanonicalEqualIff | crates/canopee-storage/src/capability.rs:69-75 | two resources print alike if and only if equal or shared names splitting one text differently |
| Capabilities.SortSorts | crates/canopee-storage/src/capability.rs:173-174 | the sorted list is in name order and a permutation |
| Capabilities.PermissionsTextIff | crates/canopee-storage/src/capability.rs:166-181 | the signed permission text determines the multiset of permissions and nothing more |
| CapabilityAnswers.PermissionNames | crates/canopee-storage/src/capability.rs:166-181 | the permission text is the names in alphabetical order, commas between |
| Capabilities.FieldsEqualIff | crates/canopee-storage/src/capability.rs:166-181 | two capabilities are signed over the same text if and only if both times, the permission multiset, and subject and resource run together agree |
| Capabilities.IdsTellPermissionsIff | crates/canopee-storage/src/capability.rs:132-181 | grants alike but for permissions share an id if and only if those agree as multisets |
| Capabilities.IssuedPermitsIff | crates/canopee-storage/src/capability.rs:132-242 | a fresh grant permits exactly what it lists, to its subject, on its resource, in its window |
| CapabilityAnswers.VerifiesIff | crates/canopee-storage/src/capability.rs:166-225 | a capability verifies if and only if its key is its issuer's, its id the digest of the literal text of its five parts, and the signature that key's over label, id and text |
| CapabilityAnswers.PermitsIff | crates/canopee-storage/src/capability.rs:227-242 | any capability permits just its subject just its permissions on just its resource, from its issue through its expiry, if it verifies |
| CapabilityIndex.FirstWithId | crates/canopee-storage/src/capability.rs:307-309 | the first entry with the id, or none |
| CapabilityIndex.Issuer.GrantCapability | crates/canopee-runtime/src/capabilities.rs:13-38 | the issued capability is stored, appended unrevoked to the index, or to a new one if that cannot be had, and the index published under the next version |
| CapabilityIndex.Issuer.RevokeCapability | crates/canopee-runtime/src/capabilities.rs:73-86 | the first entry with the id is marked and the index published, or an error, also when there is no index to be had, changes nothing |
| CapabilityAnswers.RevokeMeans | crates/canopee-runtime/src/capabilities.rs:73-86 | just the first entry with the id is closed, or there is none or no index |
| CapabilityIndex.Issuer.CheckCapability | crates/canopee-runtime/src/capabilities.rs:90-137 | the verdict, cause by cause, against the own or the fetched index, as far as it can be had |
| CapabilityAnswers.VerdictMeans | crates/canopee-runtime/src/capabilities.rs:90-137 | every verdict with its exact cause, in the order of the checks |
| CapabilityIndex.Issuer.CheckAccess | crates/canopee-runtime/src/capabilities.rs:142-153 | true if and only if the index can be had and some entry is unrevoked and permits the access |
| CapabilityIndex.RevokedIff | crates/canopee-runtime/src/capabilities.rs:13-120 | over every run an id counts as revoked if and only if a step revoked it after a step granted it |
| CapabilityIndex.OwnCapabilityChecksOutIff | crates/canopee-runtime/src/capabilities.rs:90-120 | an own capability checks out if and only if it verifies, is in its window and was never revoked after being granted |
| CapabilityIndex.RevocationIsForEver | crates/canopee-runtime/src/capabilities.rs:73-120 | after a revocation the capability is refused in every continuation |
| CapabilityIndex.RevocationIsCompleteIff | crates/canopee-runtime/src/capabilities.rs:73-86 | a revocation reaches every copy if and only if no later entry with the id is open |
| CapabilityIndex.IndexIsLedger | crates/canopee-runtime/src/capabilities.rs:13-86 | with distinct ids the index is the one in which revocation reaches every copy |
| CapabilityIndex.OpenGrantGivesAccess | crates/canopee-runtime/src/capabilities.rs:142-153 | an open grant gives access whatever else happened |
| CapabilityIndex.AccessIff | crates/canopee-runtime/src/capabilities.rs:142-153 | with distinct ids there is access if and only if some grant is open and permits it |
| CapabilityIndex.AttemptsAreTold | crates/canopee-runtime/src/capabilities.rs:13-86 | over every run in which the index is at times out of reach it is that of the run from the last grant that started over, without the revocations that failed |
| CapabilityIndex.OwnCheckIff | crates/canopee-runtime/src/capabilities.rs:90-120 | an own capability then checks out if and only if it verifies, is in its window, and the index is out of reach or no step that still tells revoked it |
| CapabilityIndex.RevocationLastsIff | crates/canopee-runtime/src/capabilities.rs:13-86 | a revocation lasts, whatever follows, if and only if no grant since started over, or it was granted and revoked again from there |
| CapabilityIndex.DuplicateSurvivesRevocation | crates/canopee-runtime/src/capabilities.rs:73-153 | a grant issued twice and revoked is refused as a capability and still gives access |

## Left out

- The libp2p swarm, Kademlia, gossipsub, relay, mDNS, TLS and sockets: message delivery, DHT answers and fetched objects are inputs of each step.
- The internals of Ed25519, X25519, HKDF, Argon2, XChaCha20-Poly1305, SHA-256 and SHA-1, and of bincode, serde and base64: functions with stated laws.
- Real gzip: any function of the body; only its length and its inverse are used.
- File-system races, temporary files, renames, write errors other than those named as inputs, environment variables, timeouts and task scheduling: each modelled step is atomic. In particular a half-read frame dropped by the gateway's select loop is not modelled.
- The WebSocket handshake, token and origin checks, and the accept key: single expressions or plumbing.
- Kademlia provider and record maps, peer metadata, usernames, profiles and contact lists: the same patterns with less state.
- Publishing a pointer also stores and pushes an object that carries it. `Records.Slot` has that; in `Serving` it is one more `Put` step of the run, and elsewhere it is left out.
- u64 overflow of summed declared sizes: sizes are natural numbers.
- Name sidecar files of the store, except that a failing sidecar deletion makes a deletion report failure.
- The MIME table, a function of the path here, and reading a request off the socket beyond what a header line makes of a value: in particular the command line server takes the last of repeated headers and the library the first.
- Non-ASCII header text, paths and app ids.
- CLI commands, desktop app, demo pages and SDK wrappers.
- Sealing.Runtime.Obtain: which peer is asked first is not modelled; the first answer that arrives is an input.
- ServingRuntime.Runtime.ShareObjectFor: the re-sealed copy is an input here; `Sharing.ShareObjectFor` makes it and `Sharing.SharedReachesExactlyItsRecipients` says what it is. The `entry:` pointer published beside the index is left out.
- Sharing.SharedReachesExactlyItsRecipients: up to 65535 distinct recipients, as for every envelope; how a home index is encoded is a parameter, of which only the bytes matter.
- ServingLaws.NothingSharedByDefault: a pairing is the installing of its objects; the sender transfers no home index, so a payload that names the home slot is not part of the run.
- DeviceSync.StepLaws: which pointers arrive, what the DHT and the peers answer and which lists can be fetched are inputs, the same throughout one step; an object under the list's id that is not a device list, an answer for a list that is of another owner, and evicted pointer objects are not modelled. That a pointer is ever delivered is not claimed.
- DeviceSync.QuietIff: the clock is not behind the pointer in hand, as in `DeviceSettling.PublicationsEndInEveryRun`; what happens otherwise is `DeviceSettling.SlowClockNeverSettles`.
- DeviceSettling.QuietStretchAgrees: a pass counts only if its store scan is not blocked, as in `DeviceAgreement.HearsIff`; `DeviceSettling.PublicationsEndInEveryRun` allows blocked scans.
- EdgeRegistry.SteadyPublisherAlwaysResolves: is about accepted messages; which beats arrive and are accepted is an input, here and in Publisher.MissedBeatsAreTolerated.
- Publisher.ServeRuntime.StartServeSession: dialing the edge and loading the app's files are inputs; signing failures and the handler task that answers requests are not modelled.
- EventLoop.ReplicationSucceedsIff: says nothing while a target has not answered; not every query is answered in the source either.
- CapabilityIndex.Issuer.GrantCapability: storing and publishing do not fail, and the index loaded, when it can be had, is the one last saved.
- CapabilityIndex.RevocationIsForEver: like `CapabilityIndex.OwnCapabilityChecksOutIff`, `CapabilityIndex.RevokedIff` and `CapabilityIndex.AccessIff`, it is about runs in which the index can always be had; `CapabilityIndex.AttemptsAreTold` carries these over to the others, and `CapabilityIndex.RevocationLastsIff` says when a revocation lasts there.
- Pairing.AcceptedOnlyAsBuilt: peers are Ed25519 devices, as every device key of the program is, so a peer id has 38 octets.
- Capabilities.IdsTellPermissionsIff: assumes a collision-free digest.
