/** The project chat handlers of the backend
    (backend/controller/messageController.js). */
module MessageController {
  import opened Common
  import opened TaskController

  datatype Message = Message(id: nat, projectId: string, senderId: string, text: string, sentAt: int)

  /** One entry of the response, with the sender's name filled in. */
  datatype MessageView = MessageView(id: nat, senderId: string, senderName: string, text: string, sentAt: int)

  /** isProjectMemberOrLeader: an accepted membership, or the project's
      leader (`leaders` maps each project id to its leader's id). */
  predicate Allowed(ms: seq<Membership>, leaders: map<string, string>, projectId: string, userId: string)
    ensures Allowed(ms, leaders, projectId, userId) <==>
      (exists i :: 0 <= i < |ms| && ms[i].projectId == projectId && ms[i].memberId == userId
                   && ms[i].status == ProjectMember.Accepted)
      || (projectId in leaders && leaders[projectId] == userId)
  {
    FindAccepted(ms, projectId, userId).Some? || (projectId in leaders && leaders[projectId] == userId)
  }

  function SentAt(m: Message): int { m.sentAt }

  function OfProject(projectId: string): Message -> bool {
    (m: Message) => m.projectId == projectId
  }

  /** `Message.find({ projectId }).sort({ sentAt: 1 })`. */
  function Thread(messages: seq<Message>, projectId: string): (r: seq<Message>)
    ensures multiset(r) == multiset(Filter(messages, OfProject(projectId)))
    ensures SortedBy(r, SentAt)
    ensures forall m :: m in r <==> m in messages && m.projectId == projectId
  {
    var f := Filter(messages, OfProject(projectId));
    var r := SortBy(f, SentAt);
    SortByMembers(f, SentAt);
    r
  }

  /** Posting to one project adds exactly that message to its thread and
      leaves every other project's thread as it was. */
  lemma ThreadAfterPost(messages: seq<Message>, m: Message, projectId: string)
    ensures m.projectId == projectId ==>
      multiset(Thread(messages + [m], projectId)) == multiset(Thread(messages, projectId)) + multiset{m}
    ensures m.projectId != projectId ==>
      multiset(Thread(messages + [m], projectId)) == multiset(Thread(messages, projectId))
  {
    FilterAppend(messages, [m], OfProject(projectId));
    assert Filter([m], OfProject(projectId)) == if m.projectId == projectId then [m] else [] by {
      assert [m][1..] == [];
    }
  }

  /** The populated, mapped response; `None` when some sender no longer
      exists, where reading the id of the missing sender throws. */
  function Views(thread: seq<Message>, users: map<string, string>): (r: Option<seq<MessageView>>)
    ensures r.Some? <==> forall i :: 0 <= i < |thread| ==> thread[i].senderId in users
    ensures r.Some? ==> |r.value| == |thread| && forall i :: 0 <= i < |thread| ==>
      r.value[i].id == thread[i].id && r.value[i].senderId == thread[i].senderId
      && r.value[i].text == thread[i].text && r.value[i].sentAt == thread[i].sentAt
      && r.value[i].senderName == users[thread[i].senderId]
  {
    if forall i :: 0 <= i < |thread| ==> thread[i].senderId in users then
      Some(seq(|thread|, i requires 0 <= i < |thread| =>
        MessageView(thread[i].id, thread[i].senderId, users[thread[i].senderId], thread[i].text, thread[i].sentAt)))
    else None
  }

  /** The text that a post stores: `!message_text || !message_text.trim()`
      rejects it, otherwise the trimmed text is kept. */
  function StoredText(text: Option<string>): (r: Option<string>)
    ensures r.None? <==> text.None? || JsTrim(text.value) == ""
  {
    if text.None? || JsTrim(text.value) == "" then None else Some(JsTrim(text.value))
  }

  /** A stored text is not empty, starts and ends with a character that is
      not JavaScript whitespace, and holds only characters of the posted
      text. */
  lemma StoredTextClean(text: Option<string>)
    ensures var r := StoredText(text);
      r.Some? ==> (r.value != "" && !IsJsSpace(r.value[0]) && !IsJsSpace(r.value[|r.value| - 1])
        && forall c :: c in r.value ==> c in text.value)
  {
    if text.Some? {
      TrimEnds(text.value, IsJsSpace);
    }
  }

  /** Storing a stored text again keeps it as it is. */
  lemma StoredTextIdempotent(text: Option<string>)
    ensures StoredText(text).Some? ==> StoredText(StoredText(text)) == StoredText(text)
  {
    var r := StoredText(text);
    if r.Some? {
      TrimFixed(r.value, IsJsSpace);
    }
  }

  /** A text that is only JavaScript whitespace is never stored. */
  lemma BlankRejected(text: string)
    requires forall i :: 0 <= i < |text| ==> IsJsSpace(text[i])
    ensures StoredText(Some(text)).None?
  {
    TrimEmptyIff(text, IsJsSpace);
  }

  predicate IdsBelow(messages: seq<Message>, bound: nat) {
    forall i :: 0 <= i < |messages| ==> messages[i].id < bound
  }

  lemma AppendKeepsIds(messages: seq<Message>, m: Message, bound: nat)
    requires IdsBelow(messages, bound) && m.id == bound
    ensures IdsBelow(messages + [m], bound + 1)
  {
  }

  class MessageStore {
    var memberships: seq<Membership>
    var leaders: map<string, string>
    var users: map<string, string>
    var messages: seq<Message>
    var nextMessageId: nat

    predicate Valid()
      reads this
    {
      IdsBelow(messages, nextMessageId)
    }

    constructor(memberships: seq<Membership>, leaders: map<string, string>, users: map<string, string>)
      ensures Valid() && messages == []
      ensures this.memberships == memberships && this.leaders == leaders && this.users == users
    {
      this.memberships := memberships;
      this.leaders := leaders;
      this.users := users;
      messages := [];
      nextMessageId := 0;
    }

    /** `Message.create` with the next id. */
    method Append(projectId: string, userId: string, body: string, now: int)
      requires Valid()
      modifies this
      ensures Valid()
      ensures memberships == old(memberships) && leaders == old(leaders) && users == old(users)
      ensures messages == old(messages) + [Message(old(nextMessageId), projectId, userId, body, now)]
    {
      var m := Message(nextMessageId, projectId, userId, body, now);
      AppendKeepsIds(messages, m, nextMessageId);
      messages := messages + [m];
      nextMessageId := nextMessageId + 1;
    }

    /** getProjectMessages. */
    method GetProjectMessages(projectId: string, userId: string) returns (code: int, views: seq<MessageView>)
      ensures !Allowed(memberships, leaders, projectId, userId) ==> code == 403 && views == []
      ensures Allowed(memberships, leaders, projectId, userId) ==>
        var v := Views(Thread(messages, projectId), users);
        (v.None? ==> code == 500 && views == []) && (v.Some? ==> code == 200 && views == v.value)
    {
      if !Allowed(memberships, leaders, projectId, userId) {
        return 403, [];
      }
      var v := Views(Thread(messages, projectId), users);
      if v.None? {
        return 500, [];
      }
      code, views := 200, v.value;
    }

    /** postProjectMessage; `now` is the clock reading. */
    method PostProjectMessage(projectId: string, userId: string, text: Option<string>, now: int) returns (code: int)
      requires Valid()
      modifies this
      ensures Valid()
      ensures memberships == old(memberships) && leaders == old(leaders) && users == old(users)
      ensures if StoredText(text).None? then
          code == 400 && messages == old(messages)
        else if !Allowed(memberships, leaders, projectId, userId) then
          code == 403 && messages == old(messages)
        else
          code == 200 &&
          messages == old(messages) + [Message(old(nextMessageId), projectId, userId, StoredText(text).value, now)]
    {
      var stored := StoredText(text);
      if stored.None? {
        return 400;
      }
      if !Allowed(memberships, leaders, projectId, userId) {
        return 403;
      }
      Append(projectId, userId, stored.value, now);
      code := 200;
    }
  }
}
