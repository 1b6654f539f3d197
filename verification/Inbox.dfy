/**
 * Conversations in the shared inbox (packages/comms/src/conversations.ts).
 *
 * A thread's columns are proved to be functions of everything that happened in it.
 */
module Inbox {
  import opened Prelude

  type Id = string

  datatype Status = Open | Pending | Snoozed | Closed

  datatype Conversation = Conversation(
    account: Id,
    counterparty: string,
    client: Option<Id>,
    status: Status,
    snoozedUntil: Option<int>,
    closedAt: Option<int>,
    firstUnreadAt: Option<int>,
    replyDueAt: Option<int>,
    lastInboundAt: Option<int>,
    lastOutboundAt: Option<int>,
    lastMessageAt: Option<int>)

  type Conversations = map<Id, Conversation>

  /** What sending a reply came to: refused, or handed to the channel and perhaps not delivered. */
  datatype Sending = Blocked | Sent(delivered: bool)

  datatype InboxError = AccountInactive | SnoozeNeedsTime | NothingToSend | NotFound | Unidentified | NotSent

  // ---------------------------------------------------------------------------
  // The history of a thread
  // ---------------------------------------------------------------------------

  datatype Event =
    | Inbound(at: int)
    | Read
    | Note(at: int)
    | Reply(at: int, delivered: bool)
    | Marked(status: Status, until: Option<int>, at: int)

  type History = seq<Event>

  /** Two things a client can be waiting for: to be answered, and to be looked at. */
  datatype Wait = ToBeAnswered | ToBeRead

  predicate Ends(wait: Wait, e: Event) {
    e.Reply? || (e.Marked? && e.status == Closed) || (wait == ToBeRead && (e.Read? || e.Note?))
  }

  function Before(h: History): History
    requires |h| > 0
  {
    h[..|h| - 1]
  }

  function Last(h: History): Event
    requires |h| > 0
  {
    h[|h| - 1]
  }

  /** Since when the client has been waiting. */
  function Waiting(h: History, wait: Wait): Option<int> {
    if |h| == 0 then None
    else if Ends(wait, Last(h)) then None
    else if Last(h).Inbound? && Waiting(Before(h), wait).None? then Some(Last(h).at)
    else Waiting(Before(h), wait)
  }

  function StatusOf(h: History): Status {
    if |h| == 0 then Open
    else if Last(h).Marked? then Last(h).status
    else if Last(h).Inbound? && StatusOf(Before(h)) == Closed then Open
    else StatusOf(Before(h))
  }

  function SnoozeOf(h: History): Option<int> {
    if |h| == 0 || Last(h).Inbound? then None
    else if Last(h).Marked? then (if Last(h).status == Snoozed then Last(h).until else None)
    else SnoozeOf(Before(h))
  }

  function ClosedAtOf(h: History): Option<int> {
    if |h| == 0 then None
    else if Last(h).Marked? then (if Last(h).status == Closed then Some(Last(h).at) else None)
    else ClosedAtOf(Before(h))
  }

  datatype Kind = Incoming | Outgoing | AnyMessage

  predicate IsKind(kind: Kind, e: Event) {
    match e
    case Inbound(_) => kind != Outgoing
    case Reply(_, _) => kind != Incoming
    case Note(_) => kind == AnyMessage
    case _ => false
  }

  function LatestOf(h: History, kind: Kind): Option<int> {
    if |h| == 0 then None
    else if IsKind(kind, Last(h)) then Some(Last(h).at)
    else LatestOf(Before(h), kind)
  }

  /** The columns of a thread with this history. */
  function Described(account: Id, counterparty: string, client: Option<Id>, h: History): Conversation {
    Conversation(account, counterparty, client, StatusOf(h), SnoozeOf(h), ClosedAtOf(h),
                 Waiting(h, ToBeRead), Waiting(h, ToBeAnswered),
                 LatestOf(h, Incoming), LatestOf(h, Outgoing), LatestOf(h, AnyMessage))
  }

  // ---------------------------------------------------------------------------
  // The program
  // ---------------------------------------------------------------------------

  predicate SameThread(c: Conversation, account: Id, counterparty: string) {
    c.account == account && c.counterparty == counterparty
  }

  /** What the statements write to a thread's row for each event. */
  function Updated(c: Conversation, e: Event): Conversation {
    match e
    case Inbound(at) =>
      c.(status := if c.status == Closed then Open else c.status,
         snoozedUntil := None,
         lastInboundAt := Some(at),
         lastMessageAt := Some(at),
         firstUnreadAt := if c.firstUnreadAt.None? then Some(at) else c.firstUnreadAt,
         replyDueAt := if c.replyDueAt.None? then Some(at) else c.replyDueAt)
    case Read => c.(firstUnreadAt := None)
    case Note(at) => c.(lastMessageAt := Some(at), firstUnreadAt := None)
    case Reply(at, _) =>
      c.(lastMessageAt := Some(at), lastOutboundAt := Some(at), replyDueAt := None, firstUnreadAt := None)
    case Marked(status, until, at) =>
      c.(status := status,
         snoozedUntil := if status == Snoozed then until else None,
         closedAt := if status == Closed then Some(at) else None,
         replyDueAt := if status == Closed then None else c.replyDueAt,
         firstUnreadAt := if status == Closed then None else c.firstUnreadAt)
  }

  /** Updating the row of a history gives the row of the longer history. */
  lemma UpdateDescribes(account: Id, counterparty: string, client: Option<Id>, h: History, e: Event)
    ensures Updated(Described(account, counterparty, client, h), e) == Described(account, counterparty, client, h + [e])
  {
    assert Before(h + [e]) == h;
  }

  /** A status is set with a time exactly when it snoozes. */
  predicate TimeGiven(e: Event) { e.Marked? ==> (e.status == Snoozed <==> e.until.Some?) }

  predicate TimesGiven(h: History) { forall i :: 0 <= i < |h| ==> TimeGiven(h[i]) }

  ghost predicate RowMirrors(c: Conversation, h: History) {
    |h| > 0 && h[0].Inbound? && TimesGiven(h) && c == Described(c.account, c.counterparty, c.client, h)
  }

  ghost predicate Mirrors(conversations: Conversations, histories: map<Id, History>) {
    conversations.Keys == histories.Keys
    && forall id :: id in conversations ==> RowMirrors(conversations[id], histories[id])
  }

  ghost predicate OneThreadEach(conversations: Conversations) {
    forall a, b ::
      (a in conversations && b in conversations
       && SameThread(conversations[a], conversations[b].account, conversations[b].counterparty)) ==> a == b
  }

  /** One thread got one more event, and nothing else changed. */
  ghost predicate Happened(
    conversations: Conversations, histories: map<Id, History>,
    conversations': Conversations, histories': map<Id, History>, id: Id, e: Event)
  {
    id in conversations && id in histories
    && histories' == histories[id := histories[id] + [e]]
    && conversations' == conversations[id := Updated(conversations[id], e)]
  }

  lemma RowKeeps(c: Conversation, h: History, e: Event)
    requires RowMirrors(c, h) && TimeGiven(e)
    ensures RowMirrors(Updated(c, e), h + [e])
  {
    UpdateDescribes(c.account, c.counterparty, c.client, h, e);
    assert (h + [e])[0] == h[0];
  }

  /** One row of the same thread in place of another. */
  lemma RowReplaced(conversations: Conversations, histories: map<Id, History>, id: Id, row: Conversation, h: History)
    requires Mirrors(conversations, histories) && OneThreadEach(conversations) && id in conversations
    requires RowMirrors(row, h) && SameThread(row, conversations[id].account, conversations[id].counterparty)
    ensures Mirrors(conversations[id := row], histories[id := h]) && OneThreadEach(conversations[id := row])
  {
    forall k | k in conversations ensures RowMirrors(conversations[id := row][k], histories[id := h][k]) {
      assert RowMirrors(conversations[k], histories[k]);
    }
    ThreadsApart(conversations, id, row);
  }

  lemma ThreadsApart(conversations: Conversations, id: Id, row: Conversation)
    requires OneThreadEach(conversations) && id in conversations
    requires SameThread(row, conversations[id].account, conversations[id].counterparty)
    ensures OneThreadEach(conversations[id := row])
  {}

  lemma HappenedKeeps(
    conversations: Conversations, histories: map<Id, History>,
    conversations': Conversations, histories': map<Id, History>, id: Id, e: Event)
    requires Mirrors(conversations, histories) && OneThreadEach(conversations)
    requires Happened(conversations, histories, conversations', histories', id, e) && TimeGiven(e)
    ensures Mirrors(conversations', histories') && OneThreadEach(conversations')
  {
    assert RowMirrors(conversations[id], histories[id]);
    RowKeeps(conversations[id], histories[id], e);
    RowReplaced(conversations, histories, id, Updated(conversations[id], e), histories[id] + [e]);
  }

  lemma FirstRow(account: Id, counterparty: string, client: Option<Id>, at: int)
    ensures Described(account, counterparty, client, [Inbound(at)]) ==
      Conversation(account, counterparty, client, Open, None, None, Some(at), Some(at), Some(at), None, Some(at))
  {
    var h := [Inbound(at)];
    assert Before(h) == [] && Last(h) == Inbound(at);
    assert forall wait :: Waiting([], wait) == None;
    assert StatusOf([]) == Open && ClosedAtOf([]) == None && LatestOf([], Outgoing) == None;
    assert !IsKind(Outgoing, Inbound(at)) && IsKind(Incoming, Inbound(at)) && IsKind(AnyMessage, Inbound(at));
    assert !Ends(ToBeRead, Inbound(at)) && !Ends(ToBeAnswered, Inbound(at));
    assert Last(h).Inbound? && Last(h).at == at;
    assert Waiting(Before(h), ToBeRead) == None && Waiting(Before(h), ToBeAnswered) == None;
    assert !Ends(ToBeRead, Last(h)) && !Ends(ToBeAnswered, Last(h));
    assert Waiting(h, ToBeRead) == Some(at) && Waiting(h, ToBeAnswered) == Some(at);
  }

  lemma OpenedKeeps(
    conversations: Conversations, histories: map<Id, History>, id: Id,
    account: Id, counterparty: string, client: Option<Id>, at: int)
    requires Mirrors(conversations, histories) && OneThreadEach(conversations) && id !in conversations
    requires forall k :: k in conversations ==> !SameThread(conversations[k], account, counterparty)
    ensures var c := Described(account, counterparty, client, [Inbound(at)]);
      Mirrors(conversations[id := c], histories[id := [Inbound(at)]]) && OneThreadEach(conversations[id := c])
  {
    var c := Described(account, counterparty, client, [Inbound(at)]);
    assert RowMirrors(c, [Inbound(at)]);
    forall k | k in conversations ensures RowMirrors(conversations[k], histories[k]) {}
  }

  class InboxTable {
    var conversations: Conversations
    ghost var histories: map<Id, History>

    ghost predicate Valid()
      reads this
    {
      Mirrors(conversations, histories) && OneThreadEach(conversations)
    }

    constructor ()
      ensures Valid() && conversations == map[]
    {
      conversations, histories := map[], map[];
    }

    /** `newId` is the identifier a new row would get; `matched` is the client whose identity was confirmed. */
    method ReceiveInbound(
      newId: Id, account: Id, active: bool, counterparty: string, matched: Option<Id>, at: int)
      returns (r: Result<Id, InboxError>)
      requires Valid() && newId !in conversations
      modifies this
      ensures Valid()
      ensures r.Err? <==> !active
      ensures r.Err? ==> r == Err(AccountInactive) && conversations == old(conversations) && histories == old(histories)
      ensures r.Ok? ==> r.value in conversations && SameThread(conversations[r.value], account, counterparty)
      ensures r.Ok? && r.value in old(conversations) ==>
        Happened(old(conversations), old(histories), conversations, histories, r.value, Inbound(at))
      ensures r.Ok? && r.value !in old(conversations) ==>
        r.value == newId && histories == old(histories)[newId := [Inbound(at)]]
        && conversations == old(conversations)[newId := Described(account, counterparty, matched, [Inbound(at)])]
    {
      if !active { return Err(AccountInactive); }
      var existing := set k | k in conversations && SameThread(conversations[k], account, counterparty);
      if existing == {} {
        forall k | k in conversations ensures !SameThread(conversations[k], account, counterparty) {
          assert k !in existing;
        }
        OpenThread(newId, account, counterparty, matched, at);
        return Ok(newId);
      }
      var id :| id in existing;
      var c := conversations[id];
      Write(id, Inbound(at), c.(
        status := if c.status == Closed then Open else c.status,
        snoozedUntil := None,
        lastInboundAt := Some(at),
        lastMessageAt := Some(at),
        firstUnreadAt := if c.firstUnreadAt.None? then Some(at) else c.firstUnreadAt,
        replyDueAt := if c.replyDueAt.None? then Some(at) else c.replyDueAt));
      return Ok(id);
    }

    method OpenThread(newId: Id, account: Id, counterparty: string, matched: Option<Id>, at: int)
      requires Valid() && newId !in conversations
      requires forall k :: k in conversations ==> !SameThread(conversations[k], account, counterparty)
      modifies this
      ensures Valid() && histories == old(histories)[newId := [Inbound(at)]]
      ensures conversations == old(conversations)[newId := Described(account, counterparty, matched, [Inbound(at)])]
    {
      OpenedKeeps(conversations, histories, newId, account, counterparty, matched, at);
      FirstRow(account, counterparty, matched, at);
      conversations := conversations[newId :=
        Conversation(account, counterparty, matched, Open, None, None, Some(at), Some(at), Some(at), None, Some(at))];
      histories := histories[newId := [Inbound(at)]];
    }

    /** One UPDATE of one row, and the event it stands for. */
    method Write(id: Id, ghost e: Event, row: Conversation)
      requires Valid() && id in conversations && row == Updated(conversations[id], e) && TimeGiven(e)
      modifies this
      ensures Valid() && Happened(old(conversations), old(histories), conversations, histories, id, e)
    {
      HappenedKeeps(conversations, histories, conversations[id := row], histories[id := histories[id] + [e]], id, e);
      conversations := conversations[id := row];
      histories := histories[id := histories[id] + [e]];
    }

    /** An identifier that is not there changes nothing and is not an error. */
    method SetStatus(id: Id, status: Status, until: Option<int>, now: int) returns (error: Option<InboxError>)
      requires Valid()
      modifies this
      ensures Valid()
      ensures error == if status == Snoozed && until.None? then Some(SnoozeNeedsTime) else None
      ensures error.Some? || id !in old(conversations) ==>
        conversations == old(conversations) && histories == old(histories)
      ensures error.None? && id in old(conversations) ==>
        Happened(old(conversations), old(histories), conversations, histories, id,
                 Marked(status, if status == Snoozed then until else None, now))
    {
      if status == Snoozed && until.None? { return Some(SnoozeNeedsTime); }
      if id in conversations {
        var c := conversations[id];
        Write(id, Marked(status, if status == Snoozed then until else None, now), c.(
          status := status,
          snoozedUntil := if status == Snoozed then until else None,
          closedAt := if status == Closed then Some(now) else None,
          replyDueAt := if status == Closed then None else c.replyDueAt,
          firstUnreadAt := if status == Closed then None else c.firstUnreadAt));
      }
      return None;
    }

    method MarkRead(id: Id)
      requires Valid()
      modifies this
      ensures Valid()
      ensures if id in old(conversations)
              then Happened(old(conversations), old(histories), conversations, histories, id, Read)
              else conversations == old(conversations) && histories == old(histories)
    {
      if id in conversations { Write(id, Read, conversations[id].(firstUnreadAt := None)); }
    }

    method LinkConversation(id: Id, client: Id) returns (error: Option<InboxError>)
      requires Valid()
      modifies this
      ensures Valid() && histories == old(histories)
      ensures error == if id in old(conversations) then None else Some(NotFound)
      ensures conversations == if id in old(conversations)
        then old(conversations)[id := old(conversations)[id].(client := Some(client))] else old(conversations)
    {
      if id !in conversations { return Some(NotFound); }
      assert RowMirrors(conversations[id], histories[id]) && histories == histories[id := histories[id]];
      RowReplaced(conversations, histories, id, conversations[id].(client := Some(client)), histories[id]);
      conversations := conversations[id := conversations[id].(client := Some(client))];
      return None;
    }

    /** A note reaches nobody; a reply goes to the client, who has to be known. */
    method ReplyInConversation(id: Id, blank: bool, internal: bool, adapter: Option<Sending>, now: int)
      returns (r: Result<bool, InboxError>)
      requires Valid()
      modifies this
      ensures Valid()
      ensures r.Err? ==> conversations == old(conversations) && histories == old(histories)
      ensures r.Ok? <==>
        !blank && id in old(conversations)
        && (internal || (old(conversations)[id].client.Some? && adapter.Some? && adapter.value.Sent?))
      ensures r.Ok? && internal ==>
        r == Ok(false) && Happened(old(conversations), old(histories), conversations, histories, id, Note(now))
      ensures r.Ok? && !internal ==>
        r == Ok(adapter.value.delivered)
        && Happened(old(conversations), old(histories), conversations, histories, id, Reply(now, adapter.value.delivered))
    {
      if blank { return Err(NothingToSend); }
      if id !in conversations { return Err(NotFound); }
      if internal {
        Write(id, Note(now), Touched(conversations[id], false, now));
        return Ok(false);
      }
      if conversations[id].client.None? { return Err(Unidentified); }
      if adapter.None? || adapter.value.Blocked? { return Err(NotSent); }
      Write(id, Reply(now, adapter.value.delivered), Touched(conversations[id], true, now));
      return Ok(adapter.value.delivered);
    }
  }

  /** Marks a thread as looked at and, if it was answered, as owing nothing. */
  function Touched(c: Conversation, answered: bool, now: int): Conversation {
    c.(lastMessageAt := Some(now),
       lastOutboundAt := if answered then Some(now) else c.lastOutboundAt,
       replyDueAt := if answered then None else c.replyDueAt,
       firstUnreadAt := None)
  }

  // ---------------------------------------------------------------------------
  // What the columns mean
  // ---------------------------------------------------------------------------

  /** The i-th event is the first message since whatever last ended the wait, and nothing has ended it since. */
  predicate FirstUnanswered(h: History, wait: Wait, i: nat) {
    i < |h| && h[i].Inbound?
    && (forall k :: i < k < |h| ==> !Ends(wait, h[k]))
    && (forall j :: 0 <= j < i && h[j].Inbound? ==> EndedBetween(h, wait, j, i))
  }

  predicate EndedBetween(h: History, wait: Wait, j: nat, i: nat)
    requires i < |h|
  {
    exists k :: j < k < i && Ends(wait, h[k])
  }

  /** The client waits since the first message that arrived after the wait last ended. */
  lemma {:induction false} WaitingSince(h: History, wait: Wait) returns (i: nat)
    requires Waiting(h, wait).Some?
    ensures FirstUnanswered(h, wait, i) && Waiting(h, wait) == Some(h[i].at)
  {
    var last := |h| - 1;
    if Waiting(Before(h), wait).Some? {
      i := WaitingSince(Before(h), wait);
      forall j | 0 <= j < i && h[j].Inbound? ensures EndedBetween(h, wait, j, i) {
        assert EndedBetween(Before(h), wait, j, i);
        var k :| j < k < i && Ends(wait, Before(h)[k]);
        assert Ends(wait, h[k]);
      }
    } else {
      i := last;
      forall j | 0 <= j < i && h[j].Inbound? ensures EndedBetween(h, wait, j, i) {
        var k := NotWaiting(Before(h), wait, j);
        assert Ends(wait, h[k]);
      }
    }
  }

  /** A client who is not waiting has had every message dealt with. */
  lemma {:induction false} NotWaiting(h: History, wait: Wait, j: nat) returns (k: nat)
    requires Waiting(h, wait).None? && j < |h| && h[j].Inbound?
    ensures j < k < |h| && Ends(wait, h[k])
  {
    if Ends(wait, Last(h)) {
      k := |h| - 1;
    } else {
      k := NotWaiting(Before(h), wait, j);
    }
  }

  /** And conversely: a message nothing has ended since means that the client is waiting. */
  lemma WaitingIff(h: History, wait: Wait)
    ensures Waiting(h, wait).Some? <==>
      exists i :: 0 <= i < |h| && h[i].Inbound? && forall k :: i < k < |h| ==> !Ends(wait, h[k])
  {
    if Waiting(h, wait).Some? {
      var i := WaitingSince(h, wait);
    } else {
      forall i | 0 <= i < |h| && h[i].Inbound? ensures exists k :: i < k < |h| && Ends(wait, h[k]) {
        var k := NotWaiting(h, wait, i);
      }
    }
  }

  /** A thread nobody has looked at is owed a reply, and has been for at least as long. */
  lemma UnreadIsOwed(h: History, j: nat)
    requires FirstUnanswered(h, ToBeRead, j)
    ensures Waiting(h, ToBeAnswered).Some?
    ensures exists i :: 0 <= i <= j && FirstUnanswered(h, ToBeAnswered, i)
  {
    assert forall k :: j < k < |h| ==> !Ends(ToBeRead, h[k]);
    WaitingIff(h, ToBeAnswered);
    var i := WaitingSince(h, ToBeAnswered);
    assert h[j].Inbound? && !EndedBetween(h, ToBeAnswered, j, i);
  }

  /** A closed thread owes nothing, neither an answer nor a look. */
  lemma {:induction false} ClosedOwesNothing(h: History, wait: Wait)
    requires StatusOf(h) == Closed
    ensures Waiting(h, wait).None?
  {
    if !Last(h).Marked? { ClosedOwesNothing(Before(h), wait); }
  }

  /** A message to a closed thread opens it again, and the client waits from then. */
  lemma MessageReopens(h: History, at: int)
    requires StatusOf(h) == Closed
    ensures StatusOf(h + [Inbound(at)]) == Open
    ensures Waiting(h + [Inbound(at)], ToBeAnswered) == Some(at) == Waiting(h + [Inbound(at)], ToBeRead)
  {
    assert Before(h + [Inbound(at)]) == h;
    ClosedOwesNothing(h, ToBeAnswered);
    ClosedOwesNothing(h, ToBeRead);
  }

  // ---------------------------------------------------------------------------
  // Three places where the columns say something else than their names
  // ---------------------------------------------------------------------------

  /** The last time a status was set, if it is this one. */
  predicate LastMarked(h: History, status: Status, i: nat) {
    i < |h| && h[i].Marked? && h[i].status == status && forall k :: i < k < |h| ==> !h[k].Marked?
  }

  predicate MessageSince(h: History, i: nat) { exists k :: i < k < |h| && h[k].Inbound? }

  /** A thread is asleep with no time to wake up exactly when a message arrived after it was snoozed. */
  lemma {:induction false} SnoozedWithoutTime(h: History)
    requires TimesGiven(h)
    ensures StatusOf(h) == Snoozed && SnoozeOf(h).None? <==> exists i :: LastMarked(h, Snoozed, i) && MessageSince(h, i)
    ensures StatusOf(h) == Snoozed <==> exists i :: LastMarked(h, Snoozed, i)
  {
    if |h| > 0 {
      SnoozedWithoutTime(Before(h));
      LastMarkedStep(h, Snoozed);
    }
  }

  /**
   * So for every row the table can hold: it is asleep with no time to wake up exactly when a message arrived
   * after it was snoozed, and while it is closed neither wait is on.
   */
  lemma RowAsleep(c: Conversation, h: History)
    requires RowMirrors(c, h)
    ensures c.status == Snoozed && c.snoozedUntil.None? <==> exists i :: LastMarked(h, Snoozed, i) && MessageSince(h, i)
    ensures c.status == Closed ==> c.firstUnreadAt.None? && c.replyDueAt.None?
  {
    SnoozedWithoutTime(h);
    if c.status == Closed {
      ClosedOwesNothing(h, ToBeRead);
      ClosedOwesNothing(h, ToBeAnswered);
    }
  }

  lemma LastMarkedStep(h: History, status: Status)
    requires |h| > 0
    ensures (exists i :: LastMarked(h, status, i)) <==>
      if Last(h).Marked? then Last(h).status == status else exists i :: LastMarked(Before(h), status, i)
    ensures (exists i :: LastMarked(h, status, i) && MessageSince(h, i)) <==>
      !Last(h).Marked? && exists i :: LastMarked(Before(h), status, i) && (Last(h).Inbound? || MessageSince(Before(h), i))
  {
    if Last(h).Marked? && Last(h).status == status { assert LastMarked(h, status, |h| - 1); }
    forall i: nat | i < |h| - 1 && !Last(h).Marked?
      ensures LastMarked(h, status, i) <==> LastMarked(Before(h), status, i)
      ensures MessageSince(h, i) <==> Last(h).Inbound? || MessageSince(Before(h), i)
    {
      LaterMessage(h, i);
      assert forall k :: 0 <= k < |h| - 1 ==> Before(h)[k] == h[k];
    }
  }

  lemma LaterMessage(h: History, i: nat)
    requires i < |h| - 1
    ensures MessageSince(h, i) <==> Last(h).Inbound? || MessageSince(Before(h), i)
  {
    if MessageSince(Before(h), i) {
      var k :| i < k < |h| - 1 && Before(h)[k].Inbound?;
      assert h[k].Inbound?;
    }
    if MessageSince(h, i) && !Last(h).Inbound? {
      var k :| i < k < |h| && h[k].Inbound?;
      assert Before(h)[k].Inbound?;
    }
  }

  /** A thread that is not closed still carries a closing date exactly when a message reopened it. */
  lemma {:induction false} ClosingDateOutlivesClosing(h: History)
    ensures StatusOf(h) != Closed && ClosedAtOf(h).Some? <==> exists i :: LastMarked(h, Closed, i) && MessageSince(h, i)
    ensures ClosedAtOf(h).Some? <==> exists i :: LastMarked(h, Closed, i)
  {
    if |h| > 0 {
      ClosingDateOutlivesClosing(Before(h));
      LastMarkedStep(h, Closed);
    }
  }

  predicate SameButDelivery(e: Event, f: Event) { e == f || (e.Reply? && f.Reply? && e.at == f.at) }

  /** No column of a thread tells whether a reply was delivered: one that was not ends the waits all the same. */
  lemma {:induction false} DeliveryNeverSeen(
    account: Id, counterparty: string, client: Option<Id>, h: History, g: History)
    requires |h| == |g| && forall i :: 0 <= i < |h| ==> SameButDelivery(h[i], g[i])
    ensures Described(account, counterparty, client, h) == Described(account, counterparty, client, g)
  {
    if |h| > 0 {
      DeliveryNeverSeen(account, counterparty, client, Before(h), Before(g));
      var c := Described(account, counterparty, client, Before(h));
      UpdateDescribes(account, counterparty, client, Before(h), Last(h));
      UpdateDescribes(account, counterparty, client, Before(g), Last(g));
      assert Before(h) + [Last(h)] == h && Before(g) + [Last(g)] == g;
      assert Updated(c, Last(h)) == Updated(c, Last(g));
    }
  }
}
