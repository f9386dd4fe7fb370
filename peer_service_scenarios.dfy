/**
 * Whole runs of the peer service: a connection lifecycle, a disconnect followed by a late blob,
 * one-sided and mutual invitations, and discovery followed by a safety code. Each is a client
 * of `PeerService` that relies on the methods' contracts only, for the code as written.
 */
module PeerServiceScenarios {
  import opened Wrappers
  import opened Bytes
  import opened Models
  import opened CryptoKitWrapper
  import opened PeerService

  /** One peer connects and leaves while discovery runs: the published state goes through all four values. */
  method SinglePeerLifecycle(service: PeerService, peer: PeerId) returns (trace: seq<ConnectionState>)
    requires service.Valid() && service.connectionState == Disconnected && service.connectedPeers == []
    modifies service
    ensures service.Valid()
    ensures trace == [Disconnected, Discovering, Connecting, Connected, Discovering]
  {
    trace := [service.connectionState];
    service.StartDiscovery();
    trace := trace + [service.connectionState];
    service.OnSessionStateChange(peer, PeerConnecting);
    trace := trace + [service.connectionState];
    service.OnSessionStateChange(peer, PeerConnected);
    trace := trace + [service.connectionState];
    service.OnSessionStateChange(peer, NotConnected);
    trace := trace + [service.connectionState];
  }

  /**
   * After a peer disconnects its secret and key are gone: a late blob from it is dropped rather
   * than decrypted, and there is no safety code for it.
   */
  method StaleBlobDropped(service: PeerService, peer: PeerId, blob: seq<byte>)
    requires service.Valid()
    modifies service
    ensures service.Valid()
    ensures peer !in service.peerSharedSecrets && service.GetSafetyCode(peer).None?
    ensures service.receivedMessages == old(service.receivedMessages)
  {
    service.OnSessionStateChange(peer, NotConnected);
    service.OnDataReceived(blob, peer);
  }

  /**
   * The side that invites never derives a secret, so after it invites a peer and the peer
   * connects, sending to that peer still fails with `noSharedSecret` and blobs from it are dropped.
   */
  method InviterHasNoSecret(service: PeerService, peer: PeerId, text: string, id: Uuid,
                            timestamp: Date, nonce: Nonce, blob: seq<byte>)
    returns (outcome: Outcome<SendFailure>)
    requires service.Valid() && peer !in service.peerSharedSecrets
    modifies service
    ensures service.Valid()
    ensures outcome == Fail(Service(NoSharedSecret))
    ensures peer in service.connectedPeers && service.connectionState == Connected
    ensures service.receivedMessages == old(service.receivedMessages)
  {
    service.InvitePeer(peer);
    service.OnSessionStateChange(peer, PeerConnecting);
    service.OnSessionStateChange(peer, PeerConnected);
    outcome := service.SendMessage(text, peer, id, timestamp, nonce);
    service.OnDataReceived(blob, peer);
  }

  /**
   * When both devices invite each other and each accepts the other's session key, and X25519
   * agreement gives both the same key, a message `a` sends is the message `b` receives.
   */
  method MutualInvitationRoundTrip(a: PeerService, b: PeerService,
                                   aId: PeerId, bId: PeerId, text: string, id: Uuid,
                                   timestamp: Date, nonce: Nonce)
    returns (outcome: Outcome<SendFailure>)
    requires a != b && a.Valid() && b.Valid()
    requires a.kit == b.kit && a.json == b.json
    requires AeadCorrect(a.kit) && JsonRoundTrip(a.json)
    requires b.SessionSecret(a.sessionKeys.publicKeyData).Some?
    requires a.SessionSecret(b.sessionKeys.publicKeyData) == b.SessionSecret(a.sessionKeys.publicKeyData)
    modifies a, b
    ensures a.Valid() && b.Valid()
    ensures bId in a.peerSharedSecrets && aId in b.peerSharedSecrets
    ensures a.peerSharedSecrets[bId] == b.peerSharedSecrets[aId]
    ensures outcome.Pass? <==> SealMessage(a.kit, a.json, Message(id, text, a.displayName, timestamp, true), a.peerSharedSecrets[bId], nonce).Some?
    ensures outcome.Pass? ==>
      b.receivedMessages == old(b.receivedMessages) + [Message(id, text, a.displayName, timestamp, true)]
  {
    a.InvitePeer(bId);
    var acceptedByB := b.OnInvitation(aId, Some(a.sessionKeys.publicKeyData));
    b.InvitePeer(aId);
    var acceptedByA := a.OnInvitation(bId, Some(b.sessionKeys.publicKeyData));
    outcome := a.SendMessage(text, bId, id, timestamp, nonce);
    if outcome.Pass? {
      var message := Message(id, text, a.displayName, timestamp, true);
      var blob := SealMessage(a.kit, a.json, message, a.peerSharedSecrets[bId], nonce).value;
      OpenSealedMessage(a.kit, a.json, message, a.peerSharedSecrets[bId], nonce);
      b.OnDataReceived(blob, aId);
    }
  }

  /**
   * A device found with the discovery info another device advertises stores that device's identity
   * key, so the safety code shown for it is computed from the two identity keys, local first.
   */
  method DiscoveredPeerSafetyCode(service: PeerService, peer: PeerId, peerIdentity: IdentityKeys)
    requires service.Valid() && peer !in service.discoveredPeers && peer != service.peerID
    modifies service
    ensures service.Valid()
    ensures peer in service.discoveredPeers
    ensures service.GetSafetyCode(peer) ==
      Some(GenerateSafetyCode(service.kit, service.identityKeys.publicKeyData, peerIdentity.publicKeyData))
  {
    AdvertisedKeyRoundTrip(peerIdentity);
    service.OnFoundPeer(peer, Some(AdvertisedInfo(peerIdentity)));
  }
}
