/** The value types of NearDrop/Models/Message.swift. */
module Models {
  import opened Wrappers

  /** Foundation's `UUID`: only compared for equality. */
  type Uuid(==, !new)

  /** Foundation's `Date`: only copied and compared for equality in the modelled code. */
  type Date(==, !new)

  /** One chat message. Swift synthesises `==` for it, so equality compares all five fields. */
  datatype Message = Message(id: Uuid, text: string, sender: string, timestamp: Date, isEncrypted: bool)

  /**
   * The messages exchanged with one peer. In Swift `id`, `peerName` and `createdAt` are `let`
   * and only `messages` and `lastMessageAt` are `var`. `MessageStore.AddMessage` assigns those
   * two fields in place and is proved equal to `MessageStore.AddedMessage`, whose
   * `MessageStore.WithMessage` step keeps the first three.
   */
  datatype Conversation = Conversation(
    id: Uuid,
    peerName: string,
    messages: seq<Message>,
    createdAt: Date,
    lastMessageAt: Date)
  {
    /** `messages.last`: absent exactly for an empty conversation, otherwise the final message. */
    function LastMessage(): (r: Option<Message>)
      ensures r.None? <==> |messages| == 0
      ensures r.Some? ==> messages == messages[..|messages| - 1] + [r.value]
    {
      if messages == [] then None else Some(messages[|messages| - 1])
    }
  }

  /** The three `let` fields agree: `b` is the same conversation as `a`, possibly with other messages. */
  predicate SameIdentity(a: Conversation, b: Conversation)
  {
    a.id == b.id && a.peerName == b.peerName && a.createdAt == b.createdAt
  }

  /**
   * Synthesised `Equatable`: two messages are equal exactly when all five fields are, so
   * sharing an `id` does not make two messages equal.
   */
  lemma MessageEqualityIsFieldwise(a: Message, b: Message)
    ensures a == b <==>
      a.id == b.id && a.text == b.text && a.sender == b.sender &&
      a.timestamp == b.timestamp && a.isEncrypted == b.isEncrypted
    ensures exists c: Message :: c.id == a.id && c != a
  {
    var c := a.(isEncrypted := !a.isEncrypted);
    assert c.id == a.id && c != a;
  }
}
