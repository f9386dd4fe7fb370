# NearDrop secure session core, modelled in Dafny

NearDrop is an iOS app that exchanges end-to-end encrypted text messages with nearby
devices over MultipeerConnectivity. This project models its three pieces of sequential logic and proves
properties about them:

- **`PeerService`** (`peer_service.dfy`), the peer tables and connection state machine, as a
  class with the source's six pieces of state: `connectionState`, `discoveredPeers`,
  `connectedPeers`, `peerSharedSecrets`, `peerPublicKeys` and `receivedMessages`. It has every
  public call (`startDiscovery`, `stopDiscovery`, `invitePeer`, `sendMessage`,
  `getSafetyCode`, `disconnect`), the private `establishSharedSecret`, and the delegate
  callbacks for a state change, received data, a received invitation, a found peer and a lost
  peer. Each method's contract gives the whole new state. The class invariant `Valid()` says
  that both peer lists are duplicate-free and that the device never discovers itself; every
  method keeps it. A ghost log `transport` records, in order, what the service hands to
  MultipeerConnectivity.
- **`CryptoKitWrapper`** (`crypto_kit_wrapper.dfy`, `base64.dfy`): the safety-code formatter
  `generateSafetyCode`, the key-agreement and AES-GCM wrappers, and the Base64 helpers. Base64
  follows section 4 of RFC 4648 and is written out in full, and its round trip is proved.
- **`MessageStore`** (`message_store.dfy`) and the value types `Message` and `Conversation`
  (`models.dfy`). The store is a class over the `conversations` list, with `addMessage`,
  `getConversation`, `deleteConversation` and `clearAll`. Each mutating method equals, and is
  proved equal to, a function on the list, and the lemmas about that function give the
  "nothing else changes" and peer-name uniqueness guarantees.

`peer_service_scenarios.dfy` holds client methods that drive a `PeerService` through whole
runs using only the methods' contracts:
- the `disconnected → discovering → connecting → connected → discovering` lifecycle;
- a late blob that is dropped after its sender disconnects;
- a one-sided invitation, after which the inviter still has no secret;
- a mutual invitation, after which a message sent by one side is the message the other receives;
- discovery, followed by the safety code shown for the discovered peer.

The cryptographic primitives are foreign code: X25519, HKDF-SHA256, AES-GCM and SHA-256, plus
the JSON coder for `Message`. They are the function-valued fields of two records, `CryptoKit`
and `MessageJson`. Nothing is proved about them. Two ghost predicates state the one property each of them
is assumed to have: `AeadCorrect` says `open` undoes `seal`, and `JsonRoundTrip` says decoding undoes
encoding. The mutual-invitation scenario also takes X25519 symmetry as a precondition.

Points where the code behaves in a way one might not expect. The model follows the code:
- `stopDiscovery` only publishes `disconnected`; it clears no table (PeerService.swift:78-82).
- On `.notConnected`, the state becomes `discovering` whenever no connected peer remains, even
  when discovery was stopped. Otherwise the state is left as it was (PeerService.swift:174-176).
- Only the invited side derives a secret (PeerService.swift:229-232); `invitePeer` derives none.
  So after a one-sided invitation the inviter cannot send, and it drops whatever the peer sends.
  `InviterHasNoSecret` proves this.
- The safety code hashes local ‖ remote in caller order, with no sorting. `SafetyCodeAgreement`
  proves that the two ends show the same code exactly when the digests of a ‖ b and b ‖ a agree
  modulo 100 in each of their first six bytes.
- `Message` equality is the synthesised one. It compares all five fields, not just `id`.

## Model

| member | source | states |
|---|---|---|
| Seqs.RemoveAll | NearDrop/NearDrop/Services/PeerService.swift:171 | `removeAll { $0 == x }` drops every occurrence of x, keeps every other element, never grows the list, and keeps a duplicate-free list duplicate-free |
| Seqs.RemoveAllConcat | NearDrop/NearDrop/Services/PeerService.swift:265 | removal distributes over concatenation, so the remaining peers keep their relative order |
| Models.Conversation.LastMessage | NearDrop/NearDrop/Models/Message.swift:27-29 | `lastMessage` is nil exactly when `messages` is empty; otherwise `messages` is its prefix followed by the last message |
| Models.MessageEqualityIsFieldwise | NearDrop/NearDrop/Models/Message.swift:4-9 | synthesised equality holds exactly when all five fields agree, and for every message there is a different message with the same id |
| Base64.SextetOf | NearDrop/NearDrop/Core/CryptoKitWrapper.swift:130-132 | a character that decodes to a digit value is the alphabet character for that value |
| Base64.Decode | NearDrop/NearDrop/Core/CryptoKitWrapper.swift:130-132 | whatever decodes is a whole number of four-character groups, every character in the alphabet except '=' padding in the last two positions |
| Base64.Encode | NearDrop/NearDrop/Core/CryptoKitWrapper.swift:125-127 | the encoding has four characters for every started group of three bytes |
| Base64.DecodeEncode | NearDrop/NearDrop/Core/CryptoKitWrapper.swift:125-132 | decoding the encoding of any byte string gives back that byte string |
| Base64.DecodeLength | NearDrop/NearDrop/Core/CryptoKitWrapper.swift:130-132 | a string that decodes has exactly the length that the encoding of its bytes would have |
| CryptoKitWrapper.DataToBase64 | NearDrop/NearDrop/Core/CryptoKitWrapper.swift:125-127 | `base64ToData(dataToBase64(d)) == d` for every `d` |
| CryptoKitWrapper.Base64ToData | NearDrop/NearDrop/Core/CryptoKitWrapper.swift:130-132 | whatever decodes has four characters per started group of three decoded bytes |
| CryptoKitWrapper.DeriveSharedSecret | NearDrop/NearDrop/Core/CryptoKitWrapper.swift:45-59 | fails exactly when the X25519 agreement throws; otherwise the result is HKDF-SHA256 of the agreed secret, with the salt (empty when absent) and the info, as a 32-byte key |
| CryptoKitWrapper.DeriveSharedSecretDefaults | NearDrop/NearDrop/Core/CryptoKitWrapper.swift:48-49 | leaving out the salt and the info is the same as passing empty ones, and the key has 32 bytes |
| CryptoKitWrapper.Encrypt | NearDrop/NearDrop/Core/CryptoKitWrapper.swift:64-70 | it fails exactly when `seal` throws; otherwise the blob is at least nonce plus tag long and starts with the nonce |
| CryptoKitWrapper.Decrypt | NearDrop/NearDrop/Core/CryptoKitWrapper.swift:73-76 | a blob shorter than a 12-byte nonce plus a 16-byte tag is refused |
| CryptoKitWrapper.DecryptEncrypt | NearDrop/NearDrop/Core/CryptoKitWrapper.swift:64-76 | with a correct AEAD, `decrypt` under the same key gives back the data `encrypt` sealed |
| CryptoKitWrapper.DigitChar | NearDrop/NearDrop/Core/CryptoKitWrapper.swift:108 | the character is a decimal digit with the given value |
| CryptoKitWrapper.TwoDigits | NearDrop/NearDrop/Core/CryptoKitWrapper.swift:108 | `%02d` of a value below 100 is two decimal digits whose value is that number |
| CryptoKitWrapper.CodeDigits | NearDrop/NearDrop/Core/CryptoKitWrapper.swift:108 | two characters per byte, all decimal digits |
| CryptoKitWrapper.CodeDigitsAt | NearDrop/NearDrop/Core/CryptoKitWrapper.swift:107-108 | characters 2i and 2i+1 are the zero-padded digits of `bytes[i] % 100` |
| CryptoKitWrapper.CodeDigitsEqual | NearDrop/NearDrop/Core/CryptoKitWrapper.swift:108 | two byte strings give the same digits exactly when they agree byte by byte modulo 100 |
| CryptoKitWrapper.CodeDigitsAgree | NearDrop/NearDrop/Core/CryptoKitWrapper.swift:108 | bytes that agree modulo 100 give the same digits |
| CryptoKitWrapper.Chunks | NearDrop/NearDrop/Core/CryptoKitWrapper.swift:111-116 | the stride gives one chunk per started group of three characters |
| CryptoKitWrapper.ChunksSizes | NearDrop/NearDrop/Core/CryptoKitWrapper.swift:111-116 | every chunk has one to three characters, only the last may be short, and none is short when the length is a multiple of 3 |
| CryptoKitWrapper.ChunksCons | NearDrop/NearDrop/Core/CryptoKitWrapper.swift:111-116 | the chunks of a string longer than three characters are its first three characters followed by the chunks of the rest |
| CryptoKitWrapper.ConcatChunks | NearDrop/NearDrop/Core/CryptoKitWrapper.swift:111-116 | the chunks run together give back the string |
| CryptoKitWrapper.RemoveSeparators | NearDrop/NearDrop/Core/CryptoKitWrapper.swift:117 | deleting the separator from a join of separator-free parts gives the parts run together |
| CryptoKitWrapper.JoinWith | NearDrop/NearDrop/Core/CryptoKitWrapper.swift:117 | `joined(separator:)` of n > 0 parts is as long as the parts run together plus n - 1 separators; no parts give the empty string |
| CryptoKitWrapper.Grouped | NearDrop/NearDrop/Core/CryptoKitWrapper.swift:110-117 | the grouping of a non-empty code adds one hyphen per started group of three after the first, and the empty code stays empty |
| CryptoKitWrapper.UngroupGrouped | NearDrop/NearDrop/Core/CryptoKitWrapper.swift:110-117 | deleting the hyphens from the grouping of a hyphen-free string gives that string back |
| CryptoKitWrapper.GroupedTwelve | NearDrop/NearDrop/Core/CryptoKitWrapper.swift:110-117 | twelve characters group as four full blocks of three joined by '-' |
| CryptoKitWrapper.SafetyDigits | NearDrop/NearDrop/Core/CryptoKitWrapper.swift:99-108 | the intermediate code has 12 characters, and characters 2i, 2i+1 are exactly `%02d` of `SHA256(local ‖ remote)[i] % 100` for i < 6, two decimal digits of that value |
| CryptoKitWrapper.GenerateSafetyCode | NearDrop/NearDrop/Core/CryptoKitWrapper.swift:94-120 | the code is the 12-digit intermediate cut into groups of three and joined by '-': XXX-XXX-XXX-XXX |
| CryptoKitWrapper.SafetyCodeShape | NearDrop/NearDrop/Core/CryptoKitWrapper.swift:94-120 | the code has length 15, '-' at 3, 7 and 11 and digits elsewhere, and deleting the hyphens gives exactly the 12-digit intermediate |
| CryptoKitWrapper.SafetyCodeAgreement | NearDrop/NearDrop/Core/CryptoKitWrapper.swift:99-104 | because the hash input is local ‖ remote, the codes for (a, b) and (b, a) are equal exactly when the digests of a ‖ b and b ‖ a agree modulo 100 in their first six bytes |
| MessageStore.FirstIndex | NearDrop/NearDrop/Services/MessageStore.swift:20 | absent exactly when no conversation has the name; otherwise the index of a conversation with that name, and no earlier one has it |
| MessageStore.AddedMessage | NearDrop/NearDrop/Services/MessageStore.swift:19-34 | the list keeps its length when a conversation with the peer exists and grows by exactly one otherwise; the lemmas below give both cases in full |
| MessageStore.WithMessage | NearDrop/NearDrop/Services/MessageStore.swift:22-23 | the conversation keeps its id, peer name and creation date, gains the message at the end as its last message, and its `lastMessageAt` becomes the message's timestamp |
| MessageStore.AddMessageToExisting | NearDrop/NearDrop/Services/MessageStore.swift:20-23 | for a known peer the message is appended to the first conversation with that name, which gets the message's timestamp as `lastMessageAt`; no other conversation changes and the length stays the same |
| MessageStore.AddMessageToNew | NearDrop/NearDrop/Services/MessageStore.swift:24-33 | for a new peer the old list is kept as a prefix followed by exactly one new conversation with that name, messages `[message]` and `lastMessageAt` equal to the message's timestamp |
| MessageStore.AddMessageFrame | NearDrop/NearDrop/Services/MessageStore.swift:19-34 | the list grows by at most one, every conversation keeps its identity, and only one with the peer's name can change |
| MessageStore.AddMessageKeepsNamesUnique | NearDrop/NearDrop/Services/MessageStore.swift:20-33 | peer names unique before `addMessage` stay unique after it |
| MessageStore.AddMessageThenFind | NearDrop/NearDrop/Services/MessageStore.swift:19-42 | afterwards the lookup by that name finds a conversation whose last message is the new one |
| MessageStore.WithoutId | NearDrop/NearDrop/Services/MessageStore.swift:46 | no conversation with the id survives, and the list never grows |
| MessageStore.WithoutIdMembers | NearDrop/NearDrop/Services/MessageStore.swift:46 | a conversation survives exactly when it was in the list and its id differs |
| MessageStore.WithoutIdConcat | NearDrop/NearDrop/Services/MessageStore.swift:46 | deletion distributes over concatenation, so the survivors keep their original order |
| MessageStore.WithoutAbsentId | NearDrop/NearDrop/Services/MessageStore.swift:46 | deleting an id that no conversation has changes nothing |
| MessageStore.WithoutIdKeepsNamesUnique | NearDrop/NearDrop/Services/MessageStore.swift:45-48 | deletion keeps peer names unique |
| MessageStore.MessageStore.constructor | NearDrop/NearDrop/Services/MessageStore.swift:12-14 | the store starts from the loaded list |
| MessageStore.MessageStore.AddMessage | NearDrop/NearDrop/Services/MessageStore.swift:19-37 | the new list is `AddedMessage` of the old; it grows by at most one, keeps unique names unique, and `getConversation` for the peer then ends with the message |
| MessageStore.MessageStore.GetConversation | NearDrop/NearDrop/Services/MessageStore.swift:40-42 | nil exactly when no conversation has that peer name; otherwise the first one that has it |
| MessageStore.MessageStore.DeleteConversation | NearDrop/NearDrop/Services/MessageStore.swift:45-48 | every conversation with that id is removed and the rest keep their order; unique names stay unique |
| MessageStore.MessageStore.ClearAll | NearDrop/NearDrop/Services/MessageStore.swift:51-54 | the list is empty |
| PeerService.AdvertisedKey | NearDrop/NearDrop/Services/PeerService.swift:253-256 | a key is stored exactly when the info has a "publicKey" entry that Base64-decodes, and it is the decoded bytes |
| PeerService.AdvertisedInfo | NearDrop/NearDrop/Services/PeerService.swift:51 | the discovery info has the single key "publicKey", whose value decodes to the identity public key |
| PeerService.AdvertisedKeyRoundTrip | NearDrop/NearDrop/Services/PeerService.swift:51 | the key another device stores on finding this one is exactly the identity key it advertises |
| PeerService.SealMessage | NearDrop/NearDrop/Services/PeerService.swift:105-109 | a blob exists exactly when JSON encoding and sealing both succeed |
| PeerService.OpenMessage | NearDrop/NearDrop/Services/PeerService.swift:193-195 | a message is recovered exactly when decryption and then decoding succeed, and after a successful decryption the result is the decoding of the plaintext |
| PeerService.OpenSealedMessage | NearDrop/NearDrop/Services/PeerService.swift:105-109 | with a correct AEAD and JSON coder, a sealed message opens under the same key as that message |
| PeerService.PeerService.constructor | NearDrop/NearDrop/Services/PeerService.swift:32-66 | the state starts `disconnected` with all lists and tables empty, and the advertised info is the identity key in Base64 |
| PeerService.PeerService.StartDiscovery | NearDrop/NearDrop/Services/PeerService.swift:71-75 | the state becomes `discovering` after advertising and browsing start; nothing else changes |
| PeerService.PeerService.StopDiscovery | NearDrop/NearDrop/Services/PeerService.swift:78-82 | the state becomes `disconnected`; the connected and discovered lists, secrets and public keys are untouched |
| PeerService.PeerService.InvitePeer | NearDrop/NearDrop/Services/PeerService.swift:85-89 | the invitation carries this session's public key, with a 30-second timeout; no table changes |
| PeerService.PeerService.SendMessage | NearDrop/NearDrop/Services/PeerService.swift:92-113 | throws `noSharedSecret` exactly when the peer has no secret, with nothing sent; otherwise the new message is sealed under the peer's secret and sent to that peer alone, or the failure is reported with nothing sent: the encoder's error exactly when encoding fails, and `seal`'s own error exactly when encoding succeeds and sealing fails |
| PeerService.PeerService.GetSafetyCode | NearDrop/NearDrop/Services/PeerService.swift:116-125 | nil exactly when no public key is stored for the peer; otherwise `generateSafetyCode(identity key, stored key)`, 15 characters with hyphens at 3, 7 and 11 |
| PeerService.PeerService.SessionSecret | NearDrop/NearDrop/Services/PeerService.swift:140-146 | a key exists exactly when the peer's raw key parses and X25519 with this session key succeeds, and it is HKDF-SHA256 of that agreement with empty salt and info |
| PeerService.PeerService.Disconnect | NearDrop/NearDrop/Services/PeerService.swift:128-134 | the connected list, secrets and public keys become empty and the state `disconnected` |
| PeerService.PeerService.EstablishSharedSecret | NearDrop/NearDrop/Services/PeerService.swift:138-149 | succeeds exactly when the key parses and the agreement succeeds, and then stores the derived key, replacing any old one; on failure the secrets are unchanged |
| PeerService.PeerService.OnSessionStateChange | NearDrop/NearDrop/Services/PeerService.swift:156-183 | `.connected` appends the peer only if absent and sets `connected`; `.connecting` only sets `connecting`; `.notConnected` removes the peer, its secret and its key, leaves other peers' entries alone, and sets `discovering` exactly when no connected peer remains; an unknown state changes nothing |
| PeerService.PeerService.OnDataReceived | NearDrop/NearDrop/Services/PeerService.swift:185-205 | with no secret, or when decryption or decoding fails, `receivedMessages` is unchanged; otherwise exactly the decoded message is appended |
| PeerService.PeerService.OnInvitation | NearDrop/NearDrop/Services/PeerService.swift:224-240 | accepted exactly when a context is present and a secret derives from it, which is then stored; a rejected invitation leaves the secrets unchanged |
| PeerService.PeerService.OnFoundPeer | NearDrop/NearDrop/Services/PeerService.swift:247-261 | a peer that is already discovered, or is this device, changes nothing; any other peer is appended, and its key is stored only when the advertised key decodes |
| PeerService.PeerService.OnLostPeer | NearDrop/NearDrop/Services/PeerService.swift:263-268 | the peer leaves `discoveredPeers` only, and its public key is kept |
| PeerServiceScenarios.SinglePeerLifecycle | NearDrop/NearDrop/Services/PeerService.swift:71-176 | with one peer, the state passes through disconnected, discovering, connecting, connected and discovering, in that order |
| PeerServiceScenarios.StaleBlobDropped | NearDrop/NearDrop/Services/PeerService.swift:170-190 | after a peer disconnects it has no secret and no safety code, and a late blob from it is dropped |
| PeerServiceScenarios.InviterHasNoSecret | NearDrop/NearDrop/Services/PeerService.swift:85-95 | after inviting a peer that then connects, sending to it fails with `noSharedSecret` and blobs from it are dropped |
| PeerServiceScenarios.MutualInvitationRoundTrip | NearDrop/NearDrop/Services/PeerService.swift:92-240 | when each side accepts the other's invitation and agreement is symmetric, both sides hold the same key, and a message one sends is appended unchanged at the other |
| PeerServiceScenarios.DiscoveredPeerSafetyCode | NearDrop/NearDrop/Services/PeerService.swift:247-256 | once a peer is found through its advertised info, its safety code is computed from the local identity key followed by the peer's identity key |

## Left out

- MultipeerConnectivity (`MCSession`, the advertiser and the browser) is transport I/O. What
  the service hands to it goes into the ghost `transport` log. `session.send` throwing is not
  modelled: a sealed message counts as sent.
- The stream and resource delegate callbacks (PeerService.swift:207-217) have empty bodies and
  are not modelled.
- `DispatchQueue.main.async`: each callback is one atomic method. In `didReceive` the decrypt
  and the append therefore happen in one step, although the source hops to the main queue
  between them.
- `print` logging is left out.
- The CryptoKit primitives (X25519 of RFC 7748, HKDF of RFC 5869, AES-GCM of NIST SP 800-38D,
  SHA-256 of FIPS 180-4) are function-valued inputs, and nothing cryptographic is proved about
  them. ECDH symmetry, AEAD correctness and the JSON round trip appear only as stated
  hypotheses.
- Key generation (`generateIdentityKeys`, `generateSessionKeys`) is random, so the keys are
  constructor inputs, as is `UIDevice.current.name`. `UUID()`, `Date()` and the random AES-GCM
  nonce are parameters of `SendMessage` (`id`, `timestamp`, `nonce`) and of
  `MessageStore.AddMessage` (`newId`, `now`).
- `sign` and `verify` (CryptoKitWrapper.swift:81-88) pass straight through to Ed25519, and the
  modelled core never calls them.
- `CryptoError` and the errors CryptoKit throws are not told apart: a throwing call returns
  `None`. The `combined == nil` branch of `encrypt` (CryptoKitWrapper.swift:66-68) cannot
  happen with a 12-byte nonce and is not modelled as a separate failure.
- `PeerServiceError.encryptionFailed` and `.peerNotFound` are declared but never thrown. They
  are kept in the datatype only.
- JSON encoding and decoding of `Message` is a foreign coder. `UserDefaults` persistence
  (MessageStore.swift:58-79) is I/O: the store starts from any loaded list, and saves are not
  modelled.
- `formattedTimestamp` (Message.swift:11-16) wraps `DateFormatter`. `Date` is an opaque value
  compared only for equality.
- Base64.Decode: Foundation's treatment of non-zero bits left over in a padded final group is
  not modelled exactly. The model ignores those bits, so it claims no canonical-encoding
  property.
- The themes, the views and the app wiring are UI and are left out.
- PeerService.AdvertisedKey: the "publicKey" entry of a peer's discovery info is looked up by
  comparing keys scalar by scalar, whereas a Swift `[String: String]` also matches a
  canonically equivalent key (one spelled with U+212A KELVIN SIGN, say). The model then stores
  no key where Swift stores one, and `OnFoundPeer` inherits this.
- MessageStore.FirstIndex: peer names are compared scalar by scalar, whereas Swift's `String ==`
  treats canonically equivalent strings (an NFC and an NFD spelling of the same name) as equal.
  The model is exact only when every name uses one normalisation form.
- MessageStore.MessageStore.GetConversation: the same per-scalar comparison of peer names, so
  the model can miss a conversation whose stored name is a different normalisation of the query.
- MessageStore.AddedMessage: through `FirstIndex`, a name that differs from a stored one only in
  its normalisation starts a second conversation, where Swift appends to the existing one.
- Models.MessageEqualityIsFieldwise: `text` and `sender` are compared scalar by scalar, whereas
  the synthesised Swift `==` compares them by canonical equivalence.
