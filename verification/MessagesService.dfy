/**
 The calls of the message service on the store, one at a time, and what `markDeliveredTo` returns
 when other calls come between its two steps.
 */
module MessagesService {
  import opened Ids
  import opened Options
  import opened Counting
  import opened Messages

  function IncomingUnread(t: Thread, viewer: Side): Message -> bool {
    (m: Message) => Incoming(t, viewer, m) && !m.status.Read?
  }

  /** Unread messages newer than anything the range covers. */
  function NewerUnread(g: Range): Message -> bool {
    (m: Message) => Incoming(g.thread, g.reader, m) && m.createdAt > g.through && !m.status.Read?
  }

  ghost function UnreadCount(st: Store, t: Thread, viewer: Side): nat {
    Count(st, IncomingUnread(t, viewer))
  }

  /** The thread's messages, not read, that were not written by this side. */
  ghost function UnreadRows(st: Store, t: Thread, viewer: Side): set<MessageId> {
    set id | && id in st && st[id].threadId == t.id && st[id].status != Read
             && (st[id].senderId == t.customerId <==> viewer == Staff)
  }

  lemma UnreadCountMeans(st: Store, t: Thread, viewer: Side)
    ensures UnreadCount(st, t, viewer) == |UnreadRows(st, t, viewer)|
  {
    CountIs(st, IncomingUnread(t, viewer), UnreadRows(st, t, viewer));
  }

  /** The effect of one uninterrupted read call on the records. */
  function ReadThrough(st: Store, g: Range, at: int): Store {
    Apply(Apply(st, Stamp(g, at)), MarkRead(g, at))
  }

  /** One message after a read call of `reader` through the time `through`. */
  function AfterRead(m: Message, t: Thread, reader: Side, through: int, at: int): Message {
    if m.threadId == t.id && m.status != Read && m.createdAt <= through && (m.senderId == t.customerId
        <==> reader == Staff) then
      m.(status := Read, deliveredAt := if m.status == Sent then Some(at) else m.deliveredAt, readAt := Some(at))
    else
      m
  }

  /** Exactly the other side's unread messages of the thread up to that time are read, all others stay as they are. */
  lemma ReadThroughMeans(st: Store, t: Thread, reader: Side, through: int, at: int)
    ensures var st' := ReadThrough(st, Range(t, reader, through), at);
            && st'.Keys == st.Keys
            && forall id :: id in st ==> st'[id] == AfterRead(st[id], t, reader, through, at)
  {
  }

  /** A read call marks everything the other side sent up to the through point, ties included, and nothing else. */
  lemma ReadMarksPrefix(st: Store, g: Range, at: int, id: MessageId)
    requires id in st
    ensures id in ReadThrough(st, g, at)
    ensures InRange(g, st[id]) ==> ReadThrough(st, g, at)[id].status.Read?
    ensures !InRange(g, st[id]) ==> ReadThrough(st, g, at)[id] == st[id]
    ensures forall x | x in st && InRange(g, st[id])
                       && Incoming(g.thread, g.reader, st[x]) && st[x].createdAt <= st[id].createdAt ::
              ReadThrough(st, g, at)[x].status.Read?
  {
  }

  lemma StampKeepsUnread(st: Store, g: Range, at: int)
    ensures Count(Apply(st, Stamp(g, at)), Unread(g)) == Count(st, Unread(g))
  {
    CountSame(st, Apply(st, Stamp(g, at)), Unread(g));
  }

  lemma UnreadAfter(st: Store, g: Range, at: int, id: MessageId)
    requires id in st
    ensures IncomingUnread(g.thread, g.reader)(ReadThrough(st, g, at)[id]) <==> NewerUnread(g)(st[id])
  {
  }

  lemma UnreadSplit(st: Store, g: Range)
    ensures UnreadCount(st, g.thread, g.reader) == Count(st, NewerUnread(g)) + Count(st, Unread(g))
  {
    var newer := set id | id in st && NewerUnread(g)(st[id]);
    var covered := set id | id in st && Unread(g)(st[id]);
    CountIs(st, NewerUnread(g), newer);
    CountIs(st, Unread(g), covered);
    CountIs(st, IncomingUnread(g.thread, g.reader), newer + covered);
    assert newer !! covered;
  }

  /**
   After a read call the unread count is the old one less the reported count, which leaves
   exactly the other side's messages that are strictly newer and were not read already.
   */
  lemma ReadConservesUnread(st: Store, g: Range, at: int)
    ensures UnreadCount(ReadThrough(st, g, at), g.thread, g.reader) + Count(st, Unread(g))
            == UnreadCount(st, g.thread, g.reader)
    ensures UnreadCount(ReadThrough(st, g, at), g.thread, g.reader) == Count(st, NewerUnread(g))
  {
    var st' := ReadThrough(st, g, at);
    var newer := set id | id in st && NewerUnread(g)(st[id]);
    forall id | id in st
      ensures IncomingUnread(g.thread, g.reader)(st'[id]) <==> NewerUnread(g)(st[id])
    {
      UnreadAfter(st, g, at, id);
    }
    assert st'.Keys == st.Keys;
    CountIs(st, NewerUnread(g), newer);
    CountIs(st', IncomingUnread(g.thread, g.reader), newer);
    UnreadSplit(st, g);
  }

  /** Unread counts of the other viewer's side do not move. */
  lemma ReadLeavesOtherSide(st: Store, g: Range, at: int)
    ensures UnreadCount(ReadThrough(st, g, at), g.thread, OtherSide(g.reader))
            == UnreadCount(st, g.thread, OtherSide(g.reader))
  {
    CountSame(st, ReadThrough(st, g, at), IncomingUnread(g.thread, OtherSide(g.reader)));
  }

  // ----- which rows `markDeliveredTo` returns -----

  /** The rows a delivery to one side changes. */
  function Undelivered(st: Store, t: Thread, recipient: Side): set<MessageId> {
    set id | id in st && Incoming(t, recipient, st[id]) && st[id].status.Sent?
  }

  /** The rows the lookup by time stamp finds. */
  function DeliveredAt(st: Store, t: Thread, at: int): set<MessageId> {
    set id | id in st && st[id].threadId == t.id && st[id].status.Delivered? && st[id].deliveredAt == Some(at)
  }

  /** One of the writes is a read update that covers the message. */
  predicate ReadLater(m: Message, ws: seq<Write>)
    decreases |ws|
  {
    ws != [] && ((ws[0].MarkRead? && InRange(ws[0].range, m)) || ReadLater(m, ws[1..]))
  }

  predicate Delivers(w: Write, id: MessageId, m: Message, at: int) {
    && m.status.Sent?
    && ((w.DeliverOne? && w.id == id && w.at == at)
        || (w.DeliverTo? && Incoming(w.thread, w.recipient, m) && w.at == at))
  }

  /** One of the writes delivers the row under this time stamp, and none after it reads it. */
  predicate DeliveredLater(st: Store, ws: seq<Write>, t: Thread, id: MessageId, at: int)
    decreases |ws|
  {
    && ws != []
    && (|| (id in st && st[id].threadId == t.id && Delivers(ws[0], id, st[id], at) && !ReadLater(st[id], ws[1..]))
        || DeliveredLater(Apply(st, ws[0]), ws[1..], t, id, at))
  }

  lemma {:induction false} ReadLaterSame(m: Message, m': Message, ws: seq<Write>)
    requires m'.threadId == m.threadId && m'.senderId == m.senderId && m'.createdAt == m.createdAt
    ensures ReadLater(m', ws) == ReadLater(m, ws)
    decreases |ws|
  {
    if ws != [] {
      ReadLaterSame(m, m', ws[1..]);
    }
  }

  lemma LookupAfterWrite(st: Store, w: Write, t: Thread, id: MessageId, at: int)
    ensures id in DeliveredAt(Apply(st, w), t, at) <==>
            || (id in DeliveredAt(st, t, at) && !(w.MarkRead? && InRange(w.range, st[id])))
            || (id in st && st[id].threadId == t.id && Delivers(w, id, st[id], at))
  {
  }

  /**
   After any writes the lookup finds the rows it would have found, and those delivered since, that
   were not read since.
   */
  lemma {:induction false} LookupAfter(st: Store, ws: seq<Write>, t: Thread, id: MessageId, at: int)
    ensures id in DeliveredAt(After(st, ws), t, at) <==>
            (id in DeliveredAt(st, t, at) && !ReadLater(st[id], ws)) || DeliveredLater(st, ws, t, id, at)
    decreases |ws|
  {
    if ws != [] {
      var st1 := Apply(st, ws[0]);
      LookupAfterWrite(st, ws[0], t, id, at);
      LookupAfter(st1, ws[1..], t, id, at);
      if id in st {
        ReadLaterSame(st[id], st1[id], ws[1..]);
      }
    }
  }

  /** What one call returns when other calls write between its update and its lookup. */
  function Returned(st: Store, t: Thread, recipient: Side, at: int, between: seq<Write>): set<MessageId> {
    if Undelivered(st, t, recipient) == {} then {}
    else DeliveredAt(After(Apply(st, DeliverTo(t, recipient, at)), between), t, at)
  }

  lemma ReturnedRow(st: Store, t: Thread, recipient: Side, at: int, between: seq<Write>, id: MessageId)
    requires Undelivered(st, t, recipient) != {}
    ensures id in Returned(st, t, recipient, at, between) <==>
            || (id in Undelivered(st, t, recipient) + DeliveredAt(st, t, at) && !ReadLater(st[id], between))
            || DeliveredLater(Apply(st, DeliverTo(t, recipient, at)), between, t, id, at)
  {
    var st1 := Apply(st, DeliverTo(t, recipient, at));
    LookupAfter(st1, between, t, id, at);
    LookupAfterWrite(st, DeliverTo(t, recipient, at), t, id, at);
    if id in st {
      ReadLaterSame(st[id], st1[id], between);
    }
  }

  lemma {:induction false} NotSentNotDelivered(st: Store, ws: seq<Write>, t: Thread, id: MessageId, at: int)
    requires id in st && !st[id].status.Sent?
    ensures !DeliveredLater(st, ws, t, id, at)
    decreases |ws|
  {
    if ws != [] {
      NotSentNotDelivered(Apply(st, ws[0]), ws[1..], t, id, at);
    }
  }

  /** No row this call delivered was read before the lookup, and nobody else's under the same stamp is still unread. */
  ghost predicate OnlyOwnRowsLeft(st: Store, t: Thread, recipient: Side, at: int, between: seq<Write>) {
    && (forall id :: id in Undelivered(st, t, recipient) ==> !ReadLater(st[id], between))
    && (forall id :: id in DeliveredAt(st, t, at) ==> ReadLater(st[id], between))
    && (forall id: MessageId :: !DeliveredLater(Apply(st, DeliverTo(t, recipient, at)), between, t, id, at))
  }

  /**
   A call returns exactly the messages it changed if and only if it changed none, or none of
   them was read before the lookup and every row that others delivered under the same time
   stamp, before the call or between its two steps, was.
   */
  lemma ReturnsItsOwnIff(st: Store, t: Thread, recipient: Side, at: int, between: seq<Write>)
    ensures Returned(st, t, recipient, at, between) == Undelivered(st, t, recipient) <==>
            Undelivered(st, t, recipient) == {} || OnlyOwnRowsLeft(st, t, recipient, at, between)
  {
    var mine, returned := Undelivered(st, t, recipient), Returned(st, t, recipient, at, between);
    var st1 := Apply(st, DeliverTo(t, recipient, at));
    if mine != {} {
      forall id: MessageId
        ensures id in returned <==>
                || (id in mine + DeliveredAt(st, t, at) && !ReadLater(st[id], between))
                || DeliveredLater(st1, between, t, id, at)
        ensures id in mine ==> !DeliveredLater(st1, between, t, id, at)
      {
        ReturnedRow(st, t, recipient, at, between, id);
        if id in mine { NotSentNotDelivered(st1, between, t, id, at); }
      }
      if OnlyOwnRowsLeft(st, t, recipient, at, between) {
        assert forall id :: id in returned <==> id in mine;
      }
    }
  }

  const THREAD := Thread(1, 2)

  function FromCustomer(status: DeliveryStatus, deliveredAt: Option<int>): Message {
    Message(1, 2, "", "", 0, status, deliveredAt, None)
  }

  /** Delivered one by one a moment earlier in the same millisecond, message 5 is returned with message 6. */
  lemma TwinIsReturned() returns (st: Store)
    ensures 5 in Returned(st, THREAD, Staff, 10, []) && 5 !in Undelivered(st, THREAD, Staff)
  {
    st := map[5 := FromCustomer(Delivered, Some(10)), 6 := FromCustomer(Sent, None)];
    assert SentBy(OtherSide(Staff), 2, 2) && 6 in Undelivered(st, THREAD, Staff);
    ReturnedRow(st, THREAD, Staff, 10, [], 5);
  }

  /** A read call between the update and the lookup takes message 6 out of the result. */
  lemma ReadRowIsLost() returns (st: Store, between: seq<Write>)
    ensures 6 in Undelivered(st, THREAD, Staff) && 6 !in Returned(st, THREAD, Staff, 10, between)
  {
    st, between := map[6 := FromCustomer(Sent, None)], [MarkRead(Range(THREAD, Staff, 0), 11)];
    assert SentBy(OtherSide(Staff), 2, 2) && 6 in Undelivered(st, THREAD, Staff);
    ReturnedRow(st, THREAD, Staff, 10, between, 6);
    NotSentNotDelivered(Apply(st, DeliverTo(THREAD, Staff, 10)), between, THREAD, 6, 10);
  }

  // ----- unread counts of several threads -----

  /** An unread message of this thread that one of the references selects. */
  function Selected(threads: seq<Thread>, viewer: Side, id: ThreadId): Message -> bool {
    (m: Message) =>
      && m.threadId == id && !m.status.Read?
      && exists i :: 0 <= i < |threads| && Incoming(threads[i], viewer, m)
  }

  /** The thread's messages, not read, that were not written by the side, for the customer some reference names. */
  ghost function SelectedRows(st: Store, threads: seq<Thread>, viewer: Side, id: ThreadId): set<MessageId> {
    set x | && x in st && st[x].threadId == id && st[x].status != Read
            && exists i :: && 0 <= i < |threads| && threads[i].id == id
                           && (st[x].senderId == threads[i].customerId <==> viewer == Staff)
  }

  datatype Created = Created(id: MessageId, isNew: bool)

  class MessagesService {
    var messages: Store

    constructor ()
      ensures messages == map[]
    {
      messages := map[];
    }

    /** Saves a message unless this client message is stored already; `id` is the fresh id it would get. */
    method Create(id: MessageId, m: Message) returns (r: Created)
      requires id !in messages
      modifies this
      ensures messages == Apply(old(messages), Insert(id, m))
      ensures r.isNew ==> messages == old(messages)[id := m.(status := Sent, deliveredAt := None, readAt := None)]
      ensures r.isNew <==> forall x :: x in old(messages) ==>
                old(messages)[x].threadId != m.threadId || old(messages)[x].clientMessageId != m.clientMessageId
      ensures r.isNew <==> !Duplicate(old(messages), m)
      ensures r.isNew ==> r.id == id
      ensures r.id in messages
      ensures messages[r.id].threadId == m.threadId && messages[r.id].clientMessageId == m.clientMessageId
      ensures !r.isNew ==> messages == old(messages)
    {
      if existing :| existing in messages && messages[existing].threadId == m.threadId
                     && messages[existing].clientMessageId == m.clientMessageId {
        return Created(existing, false);
      }
      messages := messages[id := m.(status := Sent, deliveredAt := None, readAt := None)];
      r := Created(id, true);
    }

    /** Moves a message from sent to delivered; any other message is left as it is. */
    method MarkDelivered(id: MessageId, now: int) returns (r: Option<Message>)
      modifies this
      ensures messages == Apply(old(messages), DeliverOne(id, now))
      ensures messages == if id in old(messages) && old(messages)[id].status == Sent
                          then old(messages)[id := old(messages)[id].(status := Delivered, deliveredAt := Some(now))]
                          else old(messages)
      ensures r.Some? <==> id in old(messages) && old(messages)[id].status.Sent?
      ensures r.Some? ==> id in messages && r.value == messages[id]
    {
      if id !in messages || !messages[id].status.Sent? {
        return None;
      }
      messages := messages[id := messages[id].(status := Delivered, deliveredAt := Some(now))];
      r := Some(messages[id]);
    }

    /**
     Moves what is still `sent` from the other side to delivered. The rows are then looked up by the
     time stamp, so besides the rows this call changed it returns those that an earlier call
     delivered in the same millisecond.
     */
    method MarkDeliveredTo(t: Thread, recipient: Side, now: int) returns (changed: set<MessageId>)
      modifies this
      ensures messages == Apply(old(messages), DeliverTo(t, recipient, now))
      ensures forall id :: id in messages <==> id in old(messages)
      ensures forall id :: id in messages ==>
                messages[id] == if old(messages)[id].threadId == t.id && old(messages)[id].status == Sent
                                   && (old(messages)[id].senderId == t.customerId <==> recipient == Staff)
                                then old(messages)[id].(status := Delivered, deliveredAt := Some(now))
                                else old(messages)[id]
      ensures changed == Returned(old(messages), t, recipient, now, [])
      ensures var mine := Undelivered(old(messages), t, recipient);
              changed == if mine == {} then {} else mine + DeliveredAt(old(messages), t, now)
    {
      var matched := set id | id in messages && Incoming(t, recipient, messages[id]) && messages[id].status.Sent?;
      messages := Apply(messages, DeliverTo(t, recipient, now));
      if matched == {} {
        return {};
      }
      changed := set id | id in messages && messages[id].threadId == t.id
                   && messages[id].status.Delivered? && messages[id].deliveredAt == Some(now);
    }

    /**
     Marks what the reader's side has seen when it has seen this message; `None` if the thread has
     no such message.
     */
    method MarkRead(t: Thread, reader: Side, throughId: MessageId, readAt: int) returns (updated: Option<nat>)
      modifies this
      ensures updated.Some? <==> throughId in old(messages) && old(messages)[throughId].threadId == t.id
      ensures updated.None? ==> messages == old(messages)
      ensures updated.Some? ==>
                var g := Range(t, reader, old(messages)[throughId].createdAt);
                messages == ReadThrough(old(messages), g, readAt) && updated.value == Count(old(messages), Unread(g))
      ensures updated.Some? ==>
                && messages.Keys == old(messages).Keys
                && forall id :: id in messages ==>
                     messages[id] == AfterRead(old(messages)[id], t, reader, old(messages)[throughId].createdAt, readAt)
    {
      if throughId !in messages || messages[throughId].threadId != t.id {
        return None;
      }
      var g := Range(t, reader, messages[throughId].createdAt);
      ReadThroughMeans(messages, t, reader, g.through, readAt);
      StampKeepsUnread(messages, g, readAt);
      messages := Apply(messages, Stamp(g, readAt));
      var matched := set id | id in messages && Unread(g)(messages[id]);
      CountIs(messages, Unread(g), matched);
      messages := Apply(messages, Messages.MarkRead(g, readAt));
      updated := Some(|matched|);
    }

    /** One count for each thread that is asked about. */
    method GetUnreadCounts(threads: seq<Thread>, viewer: Side) returns (counts: map<ThreadId, nat>)
      ensures forall id :: id in counts <==> exists i :: 0 <= i < |threads| && threads[i].id == id
      ensures forall id :: id in counts ==> counts[id] == Count(messages, Selected(threads, viewer, id))
      ensures forall id :: id in counts ==>
                counts[id] == |SelectedRows(messages, threads, viewer, id)|
    {
      counts := map[];
      var k := 0;
      while k < |threads|
        invariant 0 <= k <= |threads|
        invariant forall id :: id in counts <==> exists i :: 0 <= i < k && threads[i].id == id
        invariant forall id :: id in counts ==> counts[id] == Count(messages, Selected(threads, viewer, id))
      {
        var rows := set id | id in messages && Selected(threads, viewer, threads[k].id)(messages[id]);
        CountIs(messages, Selected(threads, viewer, threads[k].id), rows);
        counts := counts[threads[k].id := |rows|];
        k := k + 1;
      }
      forall id | id in counts
        ensures counts[id] == |SelectedRows(messages, threads, viewer, id)|
      {
        CountIs(messages, Selected(threads, viewer, id), SelectedRows(messages, threads, viewer, id));
      }
    }
  }

  /** References that agree on the customer of a thread, as those of stored threads do, count its unread messages. */
  lemma SelectedIsUnread(st: Store, threads: seq<Thread>, viewer: Side, k: nat)
    requires k < |threads|
    requires forall i :: 0 <= i < |threads| && threads[i].id == threads[k].id ==> threads[i] == threads[k]
    ensures Count(st, Selected(threads, viewer, threads[k].id)) == UnreadCount(st, threads[k], viewer)
  {
    var rows := set id | id in st && IncomingUnread(threads[k], viewer)(st[id]);
    CountIs(st, IncomingUnread(threads[k], viewer), rows);
    CountIs(st, Selected(threads, viewer, threads[k].id), rows);
  }
}
