/** System messages: public ones everybody sees and private ones addressed to
    one user, with the access rule that decides who may read a message. */
module Messages {
  import opened Common

  datatype Visibility = Public | Private

  /** A row of the `messages` table; creation time is the position in the
      table (later rows are newer). */
  datatype Message = Message(id: Uuid, messageType: string, content: string, visibility: Visibility,
                             targetUserId: Option<Uuid>)

  /** The MESSAGE_CREATE and MESSAGE_DELETE audit records; a missing target
      is written as "". */
  datatype MessageAudit =
    | MessageCreated(operator: Uuid, messageId: Uuid, messageType: string, visibility: Visibility, target: string)
    | MessageDeleted(operator: Uuid, messageId: Uuid, messageType: string, visibility: Visibility, target: string)

  function TargetText(target: Option<Uuid>): string {
    if target.Some? then target.value else ""
  }

  /** Whether a user who is not an administrator may read `m`: it is public
      or addressed to them. */
  predicate VisibleTo(m: Message, requester: Uuid) {
    m.visibility == Public || m.targetUserId == Some(requester)
  }

  /** The messages newest first. */
  function NewestFirst(ms: seq<Message>): (r: seq<Message>)
    ensures |r| == |ms| && forall i :: 0 <= i < |ms| ==> r[i] == ms[|ms| - 1 - i]
    ensures forall m :: m in r <==> m in ms
  {
    var r := seq(|ms|, i requires 0 <= i < |ms| => ms[|ms| - 1 - i]);
    assert forall k :: 0 <= k < |ms| ==> r[|ms| - 1 - k] == ms[k];
    r
  }

  /** The messages a user may read, in table order. */
  function VisibleMessages(ms: seq<Message>, requester: Uuid): (r: seq<Message>)
    ensures |r| <= |ms|
    ensures forall m :: m in r <==> m in ms && VisibleTo(m, requester)
  {
    if ms == [] then []
    else
      var init := VisibleMessages(ms[..|ms| - 1], requester);
      var last := ms[|ms| - 1];
      assert ms == ms[..|ms| - 1] + [last];
      if VisibleTo(last, requester) then init + [last] else init
  }

  /** One more message of the table joins the end of the visible list when
      the user may read it: the list keeps table order. */
  lemma VisibleMessagesSnoc(ms: seq<Message>, m: Message, requester: Uuid)
    ensures VisibleMessages(ms + [m], requester) ==
      VisibleMessages(ms, requester) + (if VisibleTo(m, requester) then [m] else [])
  {
    assert (ms + [m])[..|ms|] == ms;
  }

  /** The message with the given id, if any. */
  function Find(ms: seq<Message>, id: Uuid): (r: Option<Message>)
    ensures r.None? <==> forall m :: m in ms ==> m.id != id
    ensures r.Some? ==> r.value in ms && r.value.id == id
  {
    if ms == [] then None
    else if ms[0].id == id then Some(ms[0])
    else Find(ms[1..], id)
  }

  /** The messages other than the one with the given id, in order. */
  function Without(ms: seq<Message>, id: Uuid): (r: seq<Message>)
    ensures forall m :: m in r <==> m in ms && m.id != id
    ensures |r| <= |ms|
  {
    if ms == [] then []
    else
      var rest := Without(ms[1..], id);
      assert ms == [ms[0]] + ms[1..];
      if ms[0].id == id then rest else [ms[0]] + rest
  }

  /** No two messages share an id. */
  predicate DistinctIds(ms: seq<Message>) {
    forall i, j :: 0 <= i < j < |ms| ==> ms[i].id != ms[j].id
  }

  /** With distinct ids, finding a stored message's id gives that message. */
  lemma {:induction false} FindStored(ms: seq<Message>, m: Message)
    requires DistinctIds(ms) && m in ms
    ensures Find(ms, m.id) == Some(m)
  {
    if ms[0] != m {
      assert ms[0].id != m.id by {
        var k :| 0 <= k < |ms| && ms[k] == m;
      }
      assert m in ms[1..];
      FindStored(ms[1..], m);
    }
  }

  class MessageService {
    /** The `messages` table, oldest first. */
    var messages: seq<Message>
    /** The audit records queued, oldest first. */
    var audit: seq<MessageAudit>
    /** The ids of the users that exist. */
    const users: set<Uuid>

    predicate Valid()
      reads this
    {
      DistinctIds(messages)
    }

    constructor(users: set<Uuid>)
      ensures Valid() && messages == [] && audit == [] && this.users == users
    {
      messages := [];
      audit := [];
      this.users := users;
    }

    /** `createMessage`: a private message needs an existing target; a
        public one keeps whatever target it was given, unchecked. */
    method CreateMessage(newId: Uuid, messageType: string, content: string, visibility: Visibility,
                         targetUserId: Option<Uuid>, operatorId: Uuid) returns (r: Result<Message>)
      requires Valid()
      requires forall m :: m in messages ==> m.id != newId
      modifies this
      ensures Valid()
      ensures visibility == Private && targetUserId.None? ==>
        r == Err(MissingRequiredField) && messages == old(messages) && audit == old(audit)
      ensures visibility == Private && targetUserId.Some? && targetUserId.value !in users ==>
        r == Err(UserNotFound) && messages == old(messages) && audit == old(audit)
      ensures visibility == Public || (targetUserId.Some? && targetUserId.value in users) ==>
        var m := Message(newId, messageType, content, visibility, targetUserId);
        r == Ok(m) && messages == old(messages) + [m] &&
        audit == old(audit) + [MessageCreated(operatorId, newId, messageType, visibility, TargetText(targetUserId))]
    {
      if visibility == Private && targetUserId.None? {
        return Err(MissingRequiredField);
      }
      if visibility == Private && targetUserId.value !in users {
        return Err(UserNotFound);
      }
      var m := Message(newId, messageType, content, visibility, targetUserId);
      messages := messages + [m];
      audit := audit + [MessageCreated(operatorId, newId, messageType, visibility, TargetText(targetUserId))];
      r := Ok(m);
    }

    /** `getMessages`: every message for an administrator asking for all of
        them, otherwise the public ones and those addressed to the requester;
        newest first either way. */
    function GetMessages(requesterId: Uuid, includeAll: bool): (r: seq<Message>)
      reads this
      ensures includeAll ==> r == NewestFirst(messages)
      ensures !includeAll ==> r == NewestFirst(VisibleMessages(messages, requesterId))
      ensures forall m :: m in r <==> m in messages && (includeAll || VisibleTo(m, requesterId))
    {
      if includeAll then NewestFirst(messages) else NewestFirst(VisibleMessages(messages, requesterId))
    }

    /** `getMessage`: an administrator reads any message; anybody else only
        a public one or one addressed to them. */
    function GetMessage(messageId: Uuid, requesterId: Uuid, isAdmin: bool): (r: Result<Message>)
      reads this
      ensures Find(messages, messageId).None? <==> r == Err(MessageNotFound)
      ensures r.Ok? ==> r.value in messages && r.value.id == messageId
      ensures Find(messages, messageId).Some? ==>
        (r.Ok? <==> isAdmin || VisibleTo(Find(messages, messageId).value, requesterId))
      ensures r.Err? && r.error != MessageNotFound ==> r.error == AccessDenied
    {
      match Find(messages, messageId)
      case None => Err(MessageNotFound)
      case Some(m) =>
        if isAdmin then Ok(m)
        else if m.visibility == Public then Ok(m)
        else if m.targetUserId.Some? && m.targetUserId.value == requesterId then Ok(m)
        else Err(AccessDenied)
    }

    /** `deleteMessage`: removes exactly the message with that id. */
    method DeleteMessage(messageId: Uuid, operatorId: Uuid) returns (r: Outcome)
      requires Valid()
      modifies this
      ensures Valid()
      ensures Find(old(messages), messageId).None? ==>
        r == Raised(MessageNotFound) && messages == old(messages) && audit == old(audit)
      ensures Find(old(messages), messageId).Some? ==>
        var m := Find(old(messages), messageId).value;
        r == Done && messages == Without(old(messages), messageId) &&
        audit == old(audit) + [MessageDeleted(operatorId, messageId, m.messageType, m.visibility, TargetText(m.targetUserId))]
    {
      var found := Find(messages, messageId);
      if found.None? {
        return Raised(MessageNotFound);
      }
      var m := found.value;
      WithoutKeepsDistinct(messages, messageId);
      messages := Without(messages, messageId);
      audit := audit + [MessageDeleted(operatorId, messageId, m.messageType, m.visibility, TargetText(m.targetUserId))];
      r := Done;
    }

    /** A user who is not an administrator can open a stored message exactly
        when it is in their message list. */
    lemma GetMessageAgreesWithList(m: Message, requesterId: Uuid)
      requires Valid() && m in messages
      ensures GetMessage(m.id, requesterId, false).Ok? <==> m in GetMessages(requesterId, false)
    {
      FindStored(messages, m);
    }
  }

  /** Removing a message keeps the other ids distinct. */
  lemma {:induction false} WithoutKeepsDistinct(ms: seq<Message>, id: Uuid)
    requires DistinctIds(ms)
    ensures DistinctIds(Without(ms, id))
  {
    if ms != [] {
      WithoutKeepsDistinct(ms[1..], id);
      var rest := Without(ms[1..], id);
      if ms[0].id != id {
        forall m | m in rest ensures m.id != ms[0].id {
          var k :| 0 <= k < |ms[1..]| && ms[1..][k] == m;
          assert ms[k + 1] == m;
        }
      }
    }
  }
}
