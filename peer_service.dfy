/**
 * NearDrop/Services/PeerService.swift: the peer tables and the connection state machine.
 * MultipeerConnectivity is outside the model; what the service hands to it is recorded, in
 * order, in the ghost `transport` log. Each delegate callback, which the source runs on the
 * main queue, is one atomic method.
 */
module PeerService {
  import opened Wrappers
  import opened Bytes
  import opened Seqs
  import opened Models
  import opened CryptoKitWrapper

  /** `MCPeerID`: an opaque peer handle compared with `==`. */
  type PeerId(==)

  /** `ConnectionState`, the published aggregate state. */
  datatype ConnectionState = Disconnected | Discovering | Connecting | Connected

  /** `MCSessionState` as the session delegate receives it; `Unknown` is the `@unknown default`. */
  datatype MCSessionState = NotConnected | PeerConnecting | PeerConnected | Unknown

  /** `PeerServiceError`. Only `noSharedSecret` is ever thrown by the service. */
  datatype PeerServiceError = NoSharedSecret | EncryptionFailed | PeerNotFound

  /** What `sendMessage` can throw: the service's own error, or the error of the JSON encoder or of `seal`. */
  datatype SendFailure = Service(error: PeerServiceError) | EncodingFailed | SealFailed

  /** `JSONEncoder`/`JSONDecoder` on `Message`; `None` when they throw. */
  datatype MessageJson = MessageJson(encode: Message -> Option<seq<byte>>, decode: seq<byte> -> Option<Message>)

  /**
   * The hypothesis that decoding undoes encoding, which Codable does not promise: the members
   * that need it take it as a precondition.
   */
  ghost predicate JsonRoundTrip(json: MessageJson)
  {
    forall m: Message {:trigger json.encode(m)} :: json.encode(m).Some? ==> json.decode(json.encode(m).value) == Some(m)
  }

  /** The calls the service makes on MultipeerConnectivity. */
  datatype TransportCall =
    | StartAdvertising
    | StartBrowsing
    | StopAdvertising
    | StopBrowsing
    | Invite(peer: PeerId, context: seq<byte>, timeout: int)
    | Send(data: seq<byte>, toPeers: seq<PeerId>)
    | DisconnectSession
    | AnswerInvitation(from: PeerId, accept: bool)

  /** The key under "publicKey" in a peer's discovery info, when present and valid Base64. */
  function AdvertisedKey(info: Option<map<string, string>>): (r: Option<seq<byte>>)
    ensures r.Some? <==> info.Some? && "publicKey" in info.value && Base64ToData(info.value["publicKey"]).Some?
    ensures r.Some? ==> Base64ToData(info.value["publicKey"]) == r
  {
    if info.Some? && "publicKey" in info.value then Base64ToData(info.value["publicKey"]) else None
  }

  /** The discovery info a service advertises: its identity key in Base64 under "publicKey". */
  function AdvertisedInfo(identityKeys: IdentityKeys): (r: map<string, string>)
    ensures r.Keys == {"publicKey"}
    ensures Base64ToData(r["publicKey"]) == Some(identityKeys.publicKeyData)
  {
    map["publicKey" := DataToBase64(identityKeys.publicKeyData)]
  }

  /** What one device advertises is exactly the key another stores on finding it. */
  lemma AdvertisedKeyRoundTrip(identityKeys: IdentityKeys)
    ensures AdvertisedKey(Some(AdvertisedInfo(identityKeys))) == Some(identityKeys.publicKeyData)
  {
  }

  /** `encoder.encode(message)` then `encrypt`: the blob `sendMessage` hands to the session. */
  function SealMessage(kit: CryptoKit, json: MessageJson, message: Message, key: SymmetricKey, nonce: Nonce): (r: Option<seq<byte>>)
    ensures r.Some? <==> json.encode(message).Some? && Encrypt(kit, json.encode(message).value, key, nonce).Some?
  {
    match json.encode(message)
    case None => None
    case Some(plain) => Encrypt(kit, plain, key, nonce)
  }

  /** `decrypt` then `decoder.decode`: the message `didReceive` recovers, or `None` when either throws. */
  function OpenMessage(kit: CryptoKit, json: MessageJson, data: seq<byte>, key: SymmetricKey): (r: Option<Message>)
    ensures r.Some? <==> Decrypt(kit, data, key).Some? && json.decode(Decrypt(kit, data, key).value).Some?
    ensures Decrypt(kit, data, key).Some? ==> r == json.decode(Decrypt(kit, data, key).value)
  {
    match Decrypt(kit, data, key)
    case None => None
    case Some(plain) => json.decode(plain)
  }

  /** A message sealed under a key opens, under the same key, as that message. */
  lemma OpenSealedMessage(kit: CryptoKit, json: MessageJson, message: Message, key: SymmetricKey, nonce: Nonce)
    requires AeadCorrect(kit) && JsonRoundTrip(json)
    requires SealMessage(kit, json, message, key, nonce).Some?
    ensures OpenMessage(kit, json, SealMessage(kit, json, message, key, nonce).value, key) == Some(message)
  {
    var plain := json.encode(message).value;
    DecryptEncrypt(kit, plain, key, nonce);
  }

  /** `PeerService`. */
  class PeerService {
    const kit: CryptoKit
    const json: MessageJson
    /** This device's `MCPeerID` and its `displayName`. */
    const peerID: PeerId
    const displayName: string
    const identityKeys: IdentityKeys
    const sessionKeys: SessionKeys
    /** The advertiser's `discoveryInfo`. */
    const discoveryInfo: map<string, string>

    var discoveredPeers: seq<PeerId>
    var connectedPeers: seq<PeerId>
    var receivedMessages: seq<Message>
    var connectionState: ConnectionState
    var peerSharedSecrets: map<PeerId, SymmetricKey>
    var peerPublicKeys: map<PeerId, seq<byte>>

    /** Everything handed to MultipeerConnectivity so far, oldest first. */
    ghost var transport: seq<TransportCall>

    /** Both peer lists are duplicate-free, and this device never discovers itself. */
    predicate Valid()
      reads this
    {
      NoDuplicates(discoveredPeers) && peerID !in discoveredPeers && NoDuplicates(connectedPeers)
    }

    /**
     * `init()`: key generation, the device name and the new `MCPeerID` are inputs; the advertiser
     * is set up to publish the identity key in Base64.
     */
    constructor (kit: CryptoKit, json: MessageJson, identityKeys: IdentityKeys, sessionKeys: SessionKeys,
                 peerID: PeerId, deviceName: string)
      ensures Valid()
      ensures this.kit == kit && this.json == json && this.peerID == peerID && displayName == deviceName
      ensures this.identityKeys == identityKeys && this.sessionKeys == sessionKeys
      ensures discoveryInfo == AdvertisedInfo(identityKeys)
      ensures discoveredPeers == [] && connectedPeers == [] && receivedMessages == []
      ensures connectionState == Disconnected
      ensures peerSharedSecrets == map[] && peerPublicKeys == map[]
      ensures transport == []
    {
      this.kit := kit;
      this.json := json;
      this.identityKeys := identityKeys;
      this.sessionKeys := sessionKeys;
      this.peerID := peerID;
      displayName := deviceName;
      discoveryInfo := AdvertisedInfo(identityKeys);
      discoveredPeers, connectedPeers, receivedMessages := [], [], [];
      connectionState := Disconnected;
      peerSharedSecrets, peerPublicKeys := map[], map[];
      transport := [];
    }

    /** `establishSharedSecret`'s key: the peer's raw key parsed, then agreed with this session key. */
    function SessionSecret(peerSessionPublicKey: seq<byte>): (r: Option<SymmetricKey>)
      ensures r.Some? <==>
        kit.agreementPublicKey(peerSessionPublicKey).Some? &&
        kit.sharedSecretFromKeyAgreement(sessionKeys.privateKey, kit.agreementPublicKey(peerSessionPublicKey).value).Some?
      ensures r.Some? ==>
        r.value == kit.hkdfSha256(
          kit.sharedSecretFromKeyAgreement(sessionKeys.privateKey, kit.agreementPublicKey(peerSessionPublicKey).value).value,
          [], [])
    {
      match kit.agreementPublicKey(peerSessionPublicKey)
      case None => None
      case Some(publicKey) => DeriveSharedSecret(kit, sessionKeys.privateKey, publicKey)
    }

    /** `startDiscovery()`: advertise, browse, and publish `discovering`. */
    method StartDiscovery()
      requires Valid()
      modifies this`connectionState, this`transport
      ensures Valid()
      ensures connectionState == Discovering
      ensures transport == old(transport) + [StartAdvertising, StartBrowsing]
    {
      transport := transport + [StartAdvertising];
      transport := transport + [StartBrowsing];
      connectionState := Discovering;
    }

    /** `stopDiscovery()`: stops the transport and publishes `disconnected`; no table is cleared. */
    method StopDiscovery()
      requires Valid()
      modifies this`connectionState, this`transport
      ensures Valid()
      ensures connectionState == Disconnected
      ensures connectedPeers == old(connectedPeers) && discoveredPeers == old(discoveredPeers)
      ensures peerSharedSecrets == old(peerSharedSecrets) && peerPublicKeys == old(peerPublicKeys)
      ensures transport == old(transport) + [StopAdvertising, StopBrowsing]
    {
      transport := transport + [StopAdvertising];
      transport := transport + [StopBrowsing];
      connectionState := Disconnected;
    }

    /** `invitePeer(_:)`: sends this session's public key as the context; derives nothing. */
    method InvitePeer(peer: PeerId)
      requires Valid()
      modifies this`transport
      ensures Valid()
      ensures transport == old(transport) + [Invite(peer, sessionKeys.publicKeyData, 30)]
    {
      var context := sessionKeys.publicKeyData;
      transport := transport + [Invite(peer, context, 30)];
    }

    /**
     * `sendMessage(_:to:)`: throws `noSharedSecret`, before building or encrypting anything,
     * exactly when there is no secret for the peer; otherwise the new message, JSON-encoded and
     * sealed under that secret, is sent to the peer alone. The message's `UUID()`, `Date()` and
     * the random nonce are inputs.
     */
    method SendMessage(text: string, to: PeerId, id: Uuid, timestamp: Date, nonce: Nonce)
      returns (outcome: Outcome<SendFailure>)
      requires Valid()
      modifies this`transport
      ensures Valid()
      ensures outcome == Fail(Service(NoSharedSecret)) <==> to !in peerSharedSecrets
      ensures to in peerSharedSecrets ==>
        var message := Message(id, text, displayName, timestamp, true);
        var blob := SealMessage(kit, json, message, peerSharedSecrets[to], nonce);
        (outcome == Fail(EncodingFailed) <==> json.encode(message).None?) &&
        (outcome == Fail(SealFailed) <==> json.encode(message).Some? && blob.None?) &&
        (outcome.Pass? <==> blob.Some?) &&
        (outcome.Pass? ==> transport == old(transport) + [Send(blob.value, [to])])
      ensures outcome.Fail? ==> transport == old(transport)
    {
      if to !in peerSharedSecrets {
        return Fail(Service(NoSharedSecret));
      }
      var sharedSecret := peerSharedSecrets[to];
      var message := Message(id, text, displayName, timestamp, true);
      var messageData := json.encode(message);
      if messageData.None? {
        return Fail(EncodingFailed);
      }
      var encryptedData := Encrypt(kit, messageData.value, sharedSecret, nonce);
      if encryptedData.None? {
        return Fail(SealFailed);
      }
      transport := transport + [Send(encryptedData.value, [to])];
      return Pass;
    }

    /**
     * `getSafetyCode(for:)`: `nil` exactly when no public key is stored for the peer; otherwise the
     * code of this identity key and the stored key, in that order, in the XXX-XXX-XXX-XXX shape.
     */
    function GetSafetyCode(peer: PeerId): (r: Option<string>)
      reads this
      ensures r.None? <==> peer !in peerPublicKeys
      ensures r.Some? ==>
        r.value == GenerateSafetyCode(kit, identityKeys.publicKeyData, peerPublicKeys[peer]) &&
        |r.value| == 15 && r.value[3] == '-' && r.value[7] == '-' && r.value[11] == '-'
    {
      if peer !in peerPublicKeys then None
      else
        SafetyCodeShape(kit, identityKeys.publicKeyData, peerPublicKeys[peer]);
        Some(GenerateSafetyCode(kit, identityKeys.publicKeyData, peerPublicKeys[peer]))
    }

    /** `disconnect()`: the session is torn down and all three tables are emptied. */
    method Disconnect()
      requires Valid()
      modifies this`connectedPeers, this`peerSharedSecrets, this`peerPublicKeys, this`connectionState, this`transport
      ensures Valid()
      ensures connectedPeers == [] && peerSharedSecrets == map[] && peerPublicKeys == map[]
      ensures connectionState == Disconnected
      ensures transport == old(transport) + [DisconnectSession]
    {
      transport := transport + [DisconnectSession];
      connectedPeers := [];
      peerSharedSecrets := map[];
      peerPublicKeys := map[];
      connectionState := Disconnected;
    }

    /**
     * `establishSharedSecret(with:peerSessionPublicKey:)`: throws when the key does not parse or
     * the agreement fails, changing nothing; otherwise stores the derived key, replacing any old one.
     */
    method EstablishSharedSecret(peer: PeerId, peerSessionPublicKey: seq<byte>) returns (ok: bool)
      modifies this`peerSharedSecrets
      ensures ok <==> SessionSecret(peerSessionPublicKey).Some?
      ensures peerSharedSecrets ==
        if ok then old(peerSharedSecrets)[peer := SessionSecret(peerSessionPublicKey).value]
        else old(peerSharedSecrets)
    {
      var peerPublicKey := kit.agreementPublicKey(peerSessionPublicKey);
      if peerPublicKey.None? {
        return false;
      }
      var sharedSecret := DeriveSharedSecret(kit, sessionKeys.privateKey, peerPublicKey.value);
      if sharedSecret.None? {
        return false;
      }
      peerSharedSecrets := peerSharedSecrets[peer := sharedSecret.value];
      return true;
    }

    /** `session(_:peer:didChange:)`. */
    method OnSessionStateChange(peer: PeerId, state: MCSessionState)
      requires Valid()
      modifies this`connectedPeers, this`peerSharedSecrets, this`peerPublicKeys, this`connectionState
      ensures Valid()
      ensures state == PeerConnected ==>
        connectedPeers == (if peer in old(connectedPeers) then old(connectedPeers) else old(connectedPeers) + [peer]) &&
        connectionState == Connected &&
        peerSharedSecrets == old(peerSharedSecrets) && peerPublicKeys == old(peerPublicKeys)
      ensures state == PeerConnecting ==>
        connectionState == Connecting && connectedPeers == old(connectedPeers) &&
        peerSharedSecrets == old(peerSharedSecrets) && peerPublicKeys == old(peerPublicKeys)
      ensures state == NotConnected ==>
        connectedPeers == RemoveAll(old(connectedPeers), peer) &&
        peerSharedSecrets == old(peerSharedSecrets) - {peer} &&
        peerPublicKeys == old(peerPublicKeys) - {peer} &&
        connectionState == (if connectedPeers == [] then Discovering else old(connectionState))
      ensures state == Unknown ==>
        connectedPeers == old(connectedPeers) && connectionState == old(connectionState) &&
        peerSharedSecrets == old(peerSharedSecrets) && peerPublicKeys == old(peerPublicKeys)
    {
      match state {
        case PeerConnected =>
          if peer !in connectedPeers {
            connectedPeers := connectedPeers + [peer];
          }
          connectionState := Connected;
        case PeerConnecting =>
          connectionState := Connecting;
        case NotConnected =>
          connectedPeers := RemoveAll(connectedPeers, peer);
          peerSharedSecrets := peerSharedSecrets - {peer};
          peerPublicKeys := peerPublicKeys - {peer};
          if connectedPeers == [] {
            connectionState := Discovering;
          }
        case Unknown =>
      }
    }

    /**
     * `session(_:didReceive:fromPeer:)`: with no secret for the sender, or when decryption or
     * decoding fails, nothing changes; otherwise the message is appended.
     */
    method OnDataReceived(data: seq<byte>, peer: PeerId)
      requires Valid()
      modifies this`receivedMessages
      ensures Valid()
      ensures peer !in peerSharedSecrets ==> receivedMessages == old(receivedMessages)
      ensures peer in peerSharedSecrets ==>
        receivedMessages ==
          match OpenMessage(kit, json, data, peerSharedSecrets[peer])
          case None => old(receivedMessages)
          case Some(message) => old(receivedMessages) + [message]
    {
      if peer !in peerSharedSecrets {
        return;
      }
      var sharedSecret := peerSharedSecrets[peer];
      var decryptedData := Decrypt(kit, data, sharedSecret);
      if decryptedData.None? {
        return;
      }
      var message := json.decode(decryptedData.value);
      if message.None? {
        return;
      }
      receivedMessages := receivedMessages + [message.value];
    }

    /**
     * `advertiser(_:didReceiveInvitationFromPeer:withContext:invitationHandler:)`: accepts exactly
     * when a context is present and a secret can be derived from it, which is then stored;
     * a rejected invitation leaves the secrets as they were.
     */
    method OnInvitation(peer: PeerId, context: Option<seq<byte>>) returns (accept: bool)
      requires Valid()
      modifies this`peerSharedSecrets, this`transport
      ensures Valid()
      ensures accept <==> context.Some? && SessionSecret(context.value).Some?
      ensures peerSharedSecrets ==
        if accept then old(peerSharedSecrets)[peer := SessionSecret(context.value).value]
        else old(peerSharedSecrets)
      ensures transport == old(transport) + [AnswerInvitation(peer, accept)]
    {
      if context.Some? {
        accept := EstablishSharedSecret(peer, context.value);
      } else {
        accept := false;
      }
      transport := transport + [AnswerInvitation(peer, accept)];
    }

    /**
     * `browser(_:foundPeer:withDiscoveryInfo:)`: a peer already discovered, or this device itself,
     * changes nothing; any other is appended, and its advertised key is stored when it decodes.
     */
    method OnFoundPeer(peer: PeerId, info: Option<map<string, string>>)
      requires Valid()
      modifies this`discoveredPeers, this`peerPublicKeys
      ensures Valid()
      ensures peer in old(discoveredPeers) || peer == peerID ==>
        discoveredPeers == old(discoveredPeers) && peerPublicKeys == old(peerPublicKeys)
      ensures peer !in old(discoveredPeers) && peer != peerID ==>
        discoveredPeers == old(discoveredPeers) + [peer] &&
        peerPublicKeys ==
          match AdvertisedKey(info)
          case None => old(peerPublicKeys)
          case Some(key) => old(peerPublicKeys)[peer := key]
    {
      if peer !in discoveredPeers && peer != peerID {
        discoveredPeers := discoveredPeers + [peer];
        var pubKeyData := AdvertisedKey(info);
        if pubKeyData.Some? {
          peerPublicKeys := peerPublicKeys[peer := pubKeyData.value];
        }
      }
    }

    /** `browser(_:lostPeer:)`: the peer leaves `discoveredPeers` only; its public key is kept. */
    method OnLostPeer(peer: PeerId)
      requires Valid()
      modifies this`discoveredPeers
      ensures Valid()
      ensures discoveredPeers == RemoveAll(old(discoveredPeers), peer)
      ensures peerPublicKeys == old(peerPublicKeys)
    {
      discoveredPeers := RemoveAll(discoveredPeers, peer);
    }
  }
}
