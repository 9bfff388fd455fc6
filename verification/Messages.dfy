/**
 The message store: sides of a thread, the forward-only delivery status and the bulk
 updates that change it. Every update below is one atomic database operation, so any
 interleaving of calls is some sequence of them.
 */
module Messages {
  import opened Ids
  import opened Options
  import opened Counting

  datatype Side = Customer | Staff

  datatype Thread = Thread(id: ThreadId, customerId: UserId)

  function SideOf(t: Thread, user: UserId): Side {
    if t.customerId == user then Customer else Staff
  }

  function OtherSide(side: Side): Side {
    if side.Customer? then Staff else Customer
  }

  /** The filter on the sender that selects messages written by one side. */
  predicate SentBy(side: Side, customerId: UserId, sender: UserId) {
    if side.Customer? then sender == customerId else sender != customerId
  }

  /** The filter agrees with the side a user is on, so the two sides split every thread. */
  lemma SentByIsSideOf(t: Thread, side: Side, sender: UserId)
    ensures SentBy(side, t.customerId, sender) <==> SideOf(t, sender) == side
    ensures SentBy(OtherSide(side), t.customerId, sender) <==> SideOf(t, sender) != side
  {
  }

  datatype DeliveryStatus = Sent | Delivered | Read

  datatype Message = Message(
    threadId: ThreadId,
    senderId: UserId,
    clientMessageId: string,
    text: string,
    createdAt: int,
    status: DeliveryStatus,
    deliveredAt: Option<int>,
    readAt: Option<int>)

  type Store = map<MessageId, Message>

  /** What `markRead` covers: the other side's messages up to and including a moment. */
  datatype Range = Range(thread: Thread, reader: Side, through: int)

  predicate Incoming(t: Thread, viewer: Side, m: Message) {
    m.threadId == t.id && SentBy(OtherSide(viewer), t.customerId, m.senderId)
  }

  predicate InRange(g: Range, m: Message) {
    Incoming(g.thread, g.reader, m) && m.createdAt <= g.through
  }

  function Matching(g: Range, status: DeliveryStatus): Message -> bool {
    (m: Message) => InRange(g, m) && m.status == status
  }

  function Unread(g: Range): Message -> bool {
    (m: Message) => InRange(g, m) && !m.status.Read?
  }

  function UpdateMany(st: Store, filter: Message -> bool, change: Message -> Message): Store {
    map id | id in st :: if filter(st[id]) then change(st[id]) else st[id]
  }

  datatype Write =
    | Insert(id: MessageId, m: Message)
    | DeliverOne(id: MessageId, at: int)
    | DeliverTo(thread: Thread, recipient: Side, at: int)
    | Stamp(range: Range, at: int)
    | MarkRead(range: Range, at: int)

  /** The unique index on thread and client message id. */
  predicate Duplicate(st: Store, m: Message) {
    exists id :: id in st && st[id].threadId == m.threadId && st[id].clientMessageId == m.clientMessageId
  }

  function Apply(st: Store, w: Write): Store {
    match w
    case Insert(id, m) =>
      if id in st || Duplicate(st, m) then st
      else st[id := m.(status := Sent, deliveredAt := None, readAt := None)]
    case DeliverOne(id, at) =>
      if id in st && st[id].status.Sent? then st[id := st[id].(status := Delivered, deliveredAt := Some(at))] else st
    case DeliverTo(t, recipient, at) =>
      UpdateMany(st, (m: Message) => Incoming(t, recipient, m) && m.status.Sent?,
                 (m: Message) => m.(status := Delivered, deliveredAt := Some(at)))
    case Stamp(g, at) =>
      UpdateMany(st, Matching(g, Sent), (m: Message) => m.(deliveredAt := Some(at)))
    case MarkRead(g, at) =>
      UpdateMany(st, Unread(g), (m: Message) => m.(status := Read, readAt := Some(at)))
  }

  /** The count a read call reports: how many messages its second update changed. */
  ghost function UpdatedCount(st: Store, w: Write): nat {
    if w.MarkRead? then Count(st, Unread(w.range)) else 0
  }

  function After(st: Store, ws: seq<Write>): Store
    decreases |ws|
  {
    if ws == [] then st else After(Apply(st, ws[0]), ws[1..])
  }

  ghost function TotalUpdated(st: Store, ws: seq<Write>): nat
    decreases |ws|
  {
    if ws == [] then 0 else UpdatedCount(st, ws[0]) + TotalUpdated(Apply(st, ws[0]), ws[1..])
  }

  // ----- forward-only status -----

  /** From `m` to `m'` the status moved forward only, and stamps set by a completed transition are kept. */
  predicate Forward(m: Message, m': Message) {
    && m' == m.(status := m'.status, deliveredAt := m'.deliveredAt, readAt := m'.readAt)
    && (m'.status.Sent? ==> m.status.Sent?)
    && (m.status.Read? ==> m'.status.Read?)
    && (!m.status.Sent? ==> m'.deliveredAt == m.deliveredAt)
    && (m.status.Read? ==> m'.readAt == m.readAt)
    && (m.readAt.Some? ==> m'.readAt == m.readAt)
  }

  predicate Stamped(m: Message) {
    (m.status.Delivered? ==> m.deliveredAt.Some?) && (m.status.Read? <==> m.readAt.Some?)
  }

  ghost predicate AllStamped(st: Store) {
    forall id :: id in st ==> Stamped(st[id])
  }

  lemma WriteForward(st: Store, w: Write, id: MessageId)
    requires id in st && Stamped(st[id])
    ensures id in Apply(st, w) && Forward(st[id], Apply(st, w)[id]) && Stamped(Apply(st, w)[id])
  {
  }

  lemma WriteKeepsStamps(st: Store, w: Write)
    requires AllStamped(st)
    ensures AllStamped(Apply(st, w))
  {
    forall id | id in Apply(st, w)
      ensures Stamped(Apply(st, w)[id])
    {
      if id in st { WriteForward(st, w, id); }
    }
  }

  /**
   In every interleaving a message's status only moves forward, delivered messages have a
   delivery time that never changes again, and the read time is there exactly for read
   messages and is written once.
   */
  lemma {:induction false} StatusOnlyMovesForward(st: Store, ws: seq<Write>, id: MessageId)
    requires AllStamped(st) && id in st
    ensures AllStamped(After(st, ws))
    ensures id in After(st, ws) && Forward(st[id], After(st, ws)[id])
    decreases |ws|
  {
    if ws != [] {
      WriteKeepsStamps(st, ws[0]);
      WriteForward(st, ws[0], id);
      StatusOnlyMovesForward(Apply(st, ws[0]), ws[1..], id);
    }
  }

  // ----- read counts -----

  function IsRead(): Message -> bool {
    (m: Message) => m.status.Read?
  }

  /** A read update adds to the read messages exactly those it matched. */
  lemma ReadUpdateCounts(st: Store, g: Range, at: int)
    ensures Count(Apply(st, MarkRead(g, at)), IsRead()) == Count(st, IsRead()) + Count(st, Unread(g))
  {
    var st' := Apply(st, MarkRead(g, at));
    var before := set id | id in st && st[id].status.Read?;
    var marked := set id | id in st && Unread(g)(st[id]);
    CountIs(st, IsRead(), before);
    CountIs(st, Unread(g), marked);
    CountIs(st', IsRead(), before + marked);
    assert before !! marked;
  }

  lemma OtherWriteCounts(st: Store, w: Write)
    requires !w.MarkRead?
    ensures Count(Apply(st, w), IsRead()) == Count(st, IsRead())
  {
    var alreadyRead := set id | id in st && st[id].status.Read?;
    CountIs(st, IsRead(), alreadyRead);
    CountIs(Apply(st, w), IsRead(), alreadyRead);
  }

  /** Concurrent readers never double count: all reported counts add up to the messages that became read. */
  lemma {:induction false} CountsAddUp(st: Store, ws: seq<Write>)
    ensures Count(After(st, ws), IsRead()) == Count(st, IsRead()) + TotalUpdated(st, ws)
    decreases |ws|
  {
    if ws != [] {
      if ws[0].MarkRead? {
        ReadUpdateCounts(st, ws[0].range, ws[0].at);
      } else {
        OtherWriteCounts(st, ws[0]);
      }
      CountsAddUp(Apply(st, ws[0]), ws[1..]);
    }
  }

  // ----- when "read" comes without "delivered" -----

  ghost predicate ReadImpliesDelivered(st: Store) {
    forall id :: id in st && st[id].status.Read? ==> st[id].deliveredAt.Some?
  }

  /** A message in the range that arrived after the first update of a read call and before the second. */
  predicate Unstamped(g: Range, m: Message) {
    InRange(g, m) && m.status.Sent? && m.deliveredAt.None?
  }

  /** The read update keeps "read implies delivered" if and only if no message in its range went unstamped. */
  lemma ReadUpdateKeepsDelivered(st: Store, g: Range, at: int)
    requires AllStamped(st) && ReadImpliesDelivered(st)
    ensures ReadImpliesDelivered(Apply(st, MarkRead(g, at))) <==> forall id :: id in st ==> !Unstamped(g, st[id])
  {
    var st' := Apply(st, MarkRead(g, at));
    forall id | id in st
      ensures st'[id].status.Read? && st'[id].deliveredAt.None? <==> Unstamped(g, st[id])
    {
      assert Stamped(st[id]);
    }
    if id :| id in st && Unstamped(g, st[id]) {
      assert st'[id].status.Read?;
    } else {
      assert forall id :: id in st' ==> id in st;
    }
  }

  /** Uninterrupted, the two updates of a read call always keep it. */
  lemma UninterruptedReadKeepsDelivered(st: Store, g: Range, at: int)
    requires AllStamped(st) && ReadImpliesDelivered(st)
    ensures ReadImpliesDelivered(Apply(Apply(st, Stamp(g, at)), MarkRead(g, at)))
  {
    var st1 := Apply(st, Stamp(g, at));
    WriteKeepsStamps(st, Stamp(g, at));
    ReadUpdateKeepsDelivered(st1, g, at);
  }

  /** A message inserted between them ends up read but never delivered. */
  lemma ReadWithoutDelivered() returns (ws: seq<Write>, id: MessageId)
    ensures id in After(map[], ws) && After(map[], ws)[id].status.Read? && After(map[], ws)[id].deliveredAt.None?
  {
    var g := Range(Thread(1, 2), Staff, 10);
    var m := Message(1, 2, "c", "hi", 10, Sent, None, None);
    id := 5;
    ws := [Stamp(g, 11), Insert(id, m), MarkRead(g, 11)];
    var tail := [Insert(id, m), MarkRead(g, 11)];
    var last := [MarkRead(g, 11)];
    assert ws[1..] == tail && tail[1..] == last && last[1..] == [];
    var st1, st2 := map[], map[id := m];
    assert Apply(map[], ws[0]) == st1;
    assert Apply(st1, tail[0]) == st2;
    assert After(map[], ws) == After(st1, tail) == After(st2, last) == After(Apply(st2, last[0]), []);
    assert SentBy(OtherSide(Staff), 2, m.senderId);
    assert Unread(g)(m);
  }
}
