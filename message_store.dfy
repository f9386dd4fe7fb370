/**
 * NearDrop/Services/MessageStore.swift: the in-memory list of conversations. Saving to and
 * loading from `UserDefaults` is I/O and is not modelled; the constructor starts from whatever
 * list the load produced.
 */
module MessageStore {
  import opened Wrappers
  import opened Models

  /** No two conversations are with the same peer name. */
  predicate UniquePeerNames(cs: seq<Conversation>)
  {
    forall i, j :: 0 <= i < j < |cs| ==> cs[i].peerName != cs[j].peerName
  }

  /** `firstIndex(where: { $0.peerName == peerName })`: the first position with that name, if any. */
  function FirstIndex(cs: seq<Conversation>, peerName: string): (r: Option<nat>)
    ensures r.None? <==> forall i :: 0 <= i < |cs| ==> cs[i].peerName != peerName
    ensures r.Some? ==>
      r.value < |cs| && cs[r.value].peerName == peerName &&
      forall i :: 0 <= i < r.value ==> cs[i].peerName != peerName
    decreases |cs|
  {
    if cs == [] then None
    else if cs[0].peerName == peerName then Some(0)
    else
      match FirstIndex(cs[1..], peerName)
      case None => None
      case Some(i) => Some(i + 1)
  }

  /**
   * `conversations[index].messages.append(message)` followed by
   * `conversations[index].lastMessageAt = message.timestamp`: the same conversation with the
   * message at the end, which is now its last message.
   */
  function WithMessage(c: Conversation, message: Message): (r: Conversation)
    ensures SameIdentity(c, r)
    ensures r.messages == c.messages + [message] && r.LastMessage() == Some(message)
    ensures r.lastMessageAt == message.timestamp
  {
    c.(messages := c.messages + [message]).(lastMessageAt := message.timestamp)
  }

  /**
   * The list `addMessage` leaves: the message appended to the first conversation with the peer,
   * or, when there is none, a new conversation `newId`, created `now`, holding just that message.
   */
  function AddedMessage(cs: seq<Conversation>, message: Message, peerName: string, newId: Uuid, now: Date): (r: seq<Conversation>)
    ensures |r| == if FirstIndex(cs, peerName).Some? then |cs| else |cs| + 1
  {
    match FirstIndex(cs, peerName)
    case Some(i) => cs[i := WithMessage(cs[i], message)]
    case None => cs + [Conversation(newId, peerName, [message], now, message.timestamp)]
  }

  /** For a known peer the message goes at the end of its first conversation; nothing else changes. */
  lemma AddMessageToExisting(cs: seq<Conversation>, message: Message, peerName: string, newId: Uuid, now: Date, i: nat)
    requires i < |cs| && cs[i].peerName == peerName
    requires forall j :: 0 <= j < i ==> cs[j].peerName != peerName
    ensures var r := AddedMessage(cs, message, peerName, newId, now);
      |r| == |cs| &&
      SameIdentity(cs[i], r[i]) &&
      r[i].messages == cs[i].messages + [message] &&
      r[i].lastMessageAt == message.timestamp &&
      forall j :: 0 <= j < |cs| && j != i ==> r[j] == cs[j]
  {
    assert FirstIndex(cs, peerName) == Some(i);
  }

  /** For a new peer exactly one conversation is appended at the end, holding just the message. */
  lemma AddMessageToNew(cs: seq<Conversation>, message: Message, peerName: string, newId: Uuid, now: Date)
    requires forall j :: 0 <= j < |cs| ==> cs[j].peerName != peerName
    ensures var r := AddedMessage(cs, message, peerName, newId, now);
      |r| == |cs| + 1 && r[..|cs|] == cs &&
      r[|cs|].id == newId && r[|cs|].peerName == peerName && r[|cs|].createdAt == now &&
      r[|cs|].messages == [message] && r[|cs|].lastMessageAt == message.timestamp
  {
  }

  /**
   * The list grows by at most one, every conversation keeps its identity, and at most the one
   * with the peer's name changes.
   */
  lemma AddMessageFrame(cs: seq<Conversation>, message: Message, peerName: string, newId: Uuid, now: Date)
    ensures var r := AddedMessage(cs, message, peerName, newId, now);
      |cs| <= |r| <= |cs| + 1 &&
      forall j :: 0 <= j < |cs| ==> SameIdentity(cs[j], r[j]) && (r[j] == cs[j] || r[j].peerName == peerName)
  {
  }

  /** Adding a message keeps peer names unique. */
  lemma AddMessageKeepsNamesUnique(cs: seq<Conversation>, message: Message, peerName: string, newId: Uuid, now: Date)
    requires UniquePeerNames(cs)
    ensures UniquePeerNames(AddedMessage(cs, message, peerName, newId, now))
  {
    var r := AddedMessage(cs, message, peerName, newId, now);
    match FirstIndex(cs, peerName)
    case Some(i) =>
      assert forall j :: 0 <= j < |r| ==> r[j].peerName == cs[j].peerName;
    case None =>
      assert forall j :: 0 <= j < |cs| ==> r[j] == cs[j];
  }

  /** Afterwards the lookup by that name finds a conversation whose last message is the new one. */
  lemma AddMessageThenFind(cs: seq<Conversation>, message: Message, peerName: string, newId: Uuid, now: Date)
    ensures var r := AddedMessage(cs, message, peerName, newId, now);
      FirstIndex(r, peerName).Some? && r[FirstIndex(r, peerName).value].LastMessage() == Some(message)
  {
    var r := AddedMessage(cs, message, peerName, newId, now);
    match FirstIndex(cs, peerName)
    case Some(i) =>
      assert forall j :: 0 <= j < i ==> r[j] == cs[j];
      assert r[i].peerName == peerName && forall j :: 0 <= j < i ==> r[j].peerName != peerName;
      assert FirstIndex(r, peerName) == Some(i);
    case None =>
      assert forall j :: 0 <= j < |cs| ==> r[j] == cs[j];
      assert r[|cs|].peerName == peerName && forall j :: 0 <= j < |cs| ==> r[j].peerName != peerName;
      assert FirstIndex(r, peerName) == Some(|cs|);
  }

  /** `removeAll { $0.id == id }`: every conversation with that id dropped, the rest in order. */
  function WithoutId(cs: seq<Conversation>, id: Uuid): (r: seq<Conversation>)
    ensures |r| <= |cs|
    ensures forall j :: 0 <= j < |r| ==> r[j].id != id
  {
    if cs == [] then []
    else (if cs[0].id == id then [] else [cs[0]]) + WithoutId(cs[1..], id)
  }

  /** Exactly the conversations with a different id remain. */
  lemma {:induction false} WithoutIdMembers(cs: seq<Conversation>, id: Uuid)
    ensures forall c :: c in WithoutId(cs, id) <==> c in cs && c.id != id
  {
    if cs != [] {
      WithoutIdMembers(cs[1..], id);
      assert cs == [cs[0]] + cs[1..];
    }
  }

  /** Deletion distributes over concatenation: the survivors keep their relative order. */
  lemma {:induction false} WithoutIdConcat(a: seq<Conversation>, b: seq<Conversation>, id: Uuid)
    ensures WithoutId(a + b, id) == WithoutId(a, id) + WithoutId(b, id)
  {
    if a == [] {
      assert a + b == b;
    } else {
      assert (a + b)[1..] == a[1..] + b;
      WithoutIdConcat(a[1..], b, id);
    }
  }

  /** Deleting an id no conversation has leaves the list as it was. */
  lemma {:induction false} WithoutAbsentId(cs: seq<Conversation>, id: Uuid)
    requires forall j :: 0 <= j < |cs| ==> cs[j].id != id
    ensures WithoutId(cs, id) == cs
  {
    if cs != [] {
      WithoutAbsentId(cs[1..], id);
      assert cs == [cs[0]] + cs[1..];
    }
  }

  /** Deleting keeps peer names unique. */
  lemma {:induction false} WithoutIdKeepsNamesUnique(cs: seq<Conversation>, id: Uuid)
    requires UniquePeerNames(cs)
    ensures UniquePeerNames(WithoutId(cs, id))
  {
    if cs != [] {
      var rest := WithoutId(cs[1..], id);
      WithoutIdKeepsNamesUnique(cs[1..], id);
      if cs[0].id != id {
        WithoutIdMembers(cs[1..], id);
        forall c | c in rest ensures c.peerName != cs[0].peerName {
          var k :| 0 <= k < |cs[1..]| && cs[1..][k] == c;
          assert cs[k + 1] == c;
        }
        var r := [cs[0]] + rest;
        forall i, j | 0 <= i < j < |r| ensures r[i].peerName != r[j].peerName {
          if i == 0 {
            assert r[j] in rest;
          } else {
            assert r[i] == rest[i - 1] && r[j] == rest[j - 1];
          }
        }
      }
    }
  }

  /** `MessageStore`: the published `conversations` list. */
  class MessageStore {
    var conversations: seq<Conversation>

    /** `init()`: the list the persisted data decoded to (empty when there was none). */
    constructor (loaded: seq<Conversation>)
      ensures conversations == loaded
    {
      conversations := loaded;
    }

    /** `addMessage(_:forPeer:)`; the new conversation's `UUID()` and `Date()` are parameters. */
    method AddMessage(message: Message, peerName: string, newId: Uuid, now: Date)
      modifies this
      ensures conversations == AddedMessage(old(conversations), message, peerName, newId, now)
      ensures |old(conversations)| <= |conversations| <= |old(conversations)| + 1
      ensures UniquePeerNames(old(conversations)) ==> UniquePeerNames(conversations)
      ensures GetConversation(peerName).Some? && GetConversation(peerName).value.LastMessage() == Some(message)
    {
      ghost var before := conversations;
      var index := FirstIndex(conversations, peerName);
      match index {
        case Some(i) =>
          conversations := conversations[i := conversations[i].(messages := conversations[i].messages + [message])];
          conversations := conversations[i := conversations[i].(lastMessageAt := message.timestamp)];
        case None =>
          var conversation := Conversation(newId, peerName, [message], now, message.timestamp);
          conversations := conversations + [conversation];
      }
      AddMessageFrame(before, message, peerName, newId, now);
      AddMessageThenFind(before, message, peerName, newId, now);
      if UniquePeerNames(before) {
        AddMessageKeepsNamesUnique(before, message, peerName, newId, now);
      }
    }

    /** `getConversation(forPeer:)`: the first conversation with that peer name, or `nil`. */
    function GetConversation(peerName: string): (r: Option<Conversation>)
      reads this
      ensures r.None? <==> forall c :: c in conversations ==> c.peerName != peerName
      ensures r.Some? ==>
        exists i :: (0 <= i < |conversations| && conversations[i] == r.value && r.value.peerName == peerName &&
          forall j :: 0 <= j < i ==> conversations[j].peerName != peerName)
    {
      match FirstIndex(conversations, peerName)
      case Some(i) => Some(conversations[i])
      case None => None
    }

    /** `deleteConversation(_:)`: removes every conversation with the same id, keeping the order of the rest. */
    method DeleteConversation(conversation: Conversation)
      modifies this
      ensures conversations == WithoutId(old(conversations), conversation.id)
      ensures forall c :: c in conversations ==> c.id != conversation.id
      ensures UniquePeerNames(old(conversations)) ==> UniquePeerNames(conversations)
    {
      if UniquePeerNames(conversations) {
        WithoutIdKeepsNamesUnique(conversations, conversation.id);
      }
      conversations := WithoutId(conversations, conversation.id);
    }

    /** `clearAll()`. */
    method ClearAll()
      modifies this
      ensures conversations == []
    {
      conversations := [];
    }
  }
}
