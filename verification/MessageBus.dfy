/**
 The message bus (src/ai/collaboration.py): mailboxes that are appended to, popped and replaced in
 place.  A mailbox is a list object, because `poll` hands the object itself to its caller.
 */
module MessageBuses {
  import opened Options

  type Payload(==, !new)

  /** `receiver` is an agent's id, or "*" for everybody who has a mailbox. */
  datatype Message = Message(sender: string, receiver: string, payload: Payload)

  const BROADCAST := "*"

  // ---------------------------------------------------------------- the mailboxes as values

  type Boxes = map<string, seq<Message>>

  function BoxOf(b: Boxes, a: string): seq<Message> {
    if a in b then b[a] else []
  }

  function Registered(b: Boxes, a: string): Boxes {
    if a in b then b else b[a := []]
  }

  function Delivered(b: Boxes, m: Message): Boxes {
    if m.receiver == BROADCAST then map a | a in b :: b[a] + [m]
    else b[m.receiver := BoxOf(b, m.receiver) + [m]]
  }

  function Drained(b: Boxes, a: string): Boxes {
    if a in b then b[a := []] else b
  }

  function Popped(b: Boxes, a: string): Boxes {
    if BoxOf(b, a) == [] then b else b[a := b[a][1..]]
  }

  // ---------------------------------------------------------------- the bus

  class Mailbox {
    var items: seq<Message>

    constructor ()
      ensures items == []
    {
      items := [];
    }

    method Append(m: Message)
      modifies this
      ensures items == old(items) + [m]
    {
      items := items + [m];
    }
  }

  class MessageBus {
    var mailboxes: map<string, Mailbox>

    /** No two agents share a mailbox. */
    ghost predicate Valid()
      reads this
    {
      forall a, c :: a in mailboxes && c in mailboxes && mailboxes[a] == mailboxes[c] ==> a == c
    }

    function Contents(): Boxes
      reads this, mailboxes.Values
    {
      map a | a in mailboxes :: mailboxes[a].items
    }

    constructor ()
      ensures Valid() && Contents() == map[]
    {
      mailboxes := map[];
    }

    method Register(a: string)
      requires Valid()
      modifies this
      ensures Valid() && fresh(mailboxes.Values - old(mailboxes.Values))
      ensures forall c :: c in old(mailboxes) ==> c in mailboxes && mailboxes[c] == old(mailboxes)[c]
      ensures Contents() == Registered(old(Contents()), a)
    {
      if a !in mailboxes {
        var box := new Mailbox();
        mailboxes := mailboxes[a := box];
      }
    }

    method Send(m: Message)
      requires Valid()
      modifies this, mailboxes.Values
      ensures Valid() && fresh(mailboxes.Values - old(mailboxes.Values))
      ensures forall c :: c in old(mailboxes) ==> c in mailboxes && mailboxes[c] == old(mailboxes)[c]
      ensures Contents() == Delivered(old(Contents()), m)
    {
      if m.receiver == BROADCAST {
        SendToAll(m);
      } else {
        Register(m.receiver);
        assert m.receiver in Contents();
        DeliverTo(m.receiver, m);
      }
    }

    method DeliverTo(a: string, m: Message)
      requires Valid() && a in mailboxes
      modifies mailboxes[a]
      ensures mailboxes[a].items == old(mailboxes[a].items) + [m]
      ensures forall c :: c in mailboxes && c != a ==> mailboxes[c].items == old(mailboxes[c].items)
    {
      mailboxes[a].Append(m);
    }

    method SendToAll(m: Message)
      requires Valid()
      modifies mailboxes.Values
      ensures Contents() == map a | a in old(Contents()) :: old(Contents())[a] + [m]
    {
      AppendToEach(m);
    }

    method AppendToEach(m: Message)
      requires Valid()
      modifies mailboxes.Values
      ensures forall a :: a in mailboxes ==> mailboxes[a].items == old(mailboxes[a].items) + [m]
    {
      var todo := mailboxes.Keys;
      while todo != {}
        invariant todo <= mailboxes.Keys
        invariant forall a :: a in todo ==> mailboxes[a].items == old(mailboxes[a].items)
        invariant forall a :: a in mailboxes && a !in todo ==> mailboxes[a].items == old(mailboxes[a].items) + [m]
        decreases |todo|
      {
        var a :| a in todo;
        DeliverTo(a, m);
        todo := todo - {a};
      }
    }

    /**
     The list returned is the agent's own mailbox, which a new one replaces, unless it was empty: then
     the list returned is still the mailbox in use.
     */
    method Poll(a: string) returns (box: Mailbox)
      requires Valid()
      modifies this
      ensures Valid() && fresh(mailboxes.Values - old(mailboxes.Values))
      ensures box.items == BoxOf(old(Contents()), a)
      ensures Contents() == Drained(old(Contents()), a)
      ensures a in old(mailboxes) ==> box == old(mailboxes)[a]
      ensures a in old(mailboxes) && box.items == [] ==> mailboxes == old(mailboxes)
      ensures box in mailboxes.Values <==> a in old(mailboxes) && box.items == []
    {
      if a !in mailboxes {
        box := new Mailbox();
        return;
      }
      box := mailboxes[a];
      if box.items != [] {
        Renew(a);
      }
    }

    /** A new, empty mailbox in the place of the agent's own. */
    method Renew(a: string)
      requires Valid() && a in mailboxes
      modifies this
      ensures Valid() && a in mailboxes && mailboxes == old(mailboxes)[a := mailboxes[a]]
      ensures fresh(mailboxes[a]) && mailboxes[a].items == []
    {
      var empty := new Mailbox();
      mailboxes := mailboxes[a := empty];
    }

    method PollOne(a: string) returns (m: Option<Message>)
      requires Valid()
      modifies mailboxes.Values
      ensures m == if BoxOf(old(Contents()), a) == [] then None else Some(BoxOf(old(Contents()), a)[0])
      ensures Contents() == Popped(old(Contents()), a)
    {
      if a !in mailboxes || mailboxes[a].items == [] {
        return None;
      }
      var box := mailboxes[a];
      m := Some(box.items[0]);
      box.items := box.items[1..];
    }

    method Pending(a: string) returns (n: nat)
      ensures n == |BoxOf(Contents(), a)|
    {
      n := if a in mailboxes then |mailboxes[a].items| else 0;
    }
  }

  /** The list that `poll` returns gets the next message to its agent, exactly if it was an empty mailbox in use. */
  method PolledListGrowsIff(bus: MessageBus, a: string, m: Message) returns (box: Mailbox)
    requires bus.Valid() && m.receiver == a && a != BROADCAST
    modifies bus, bus.mailboxes.Values
    ensures var before := BoxOf(old(bus.Contents()), a);
            box.items == if a in old(bus.mailboxes) && before == [] then [m] else before
  {
    box := bus.Poll(a);
    ghost var was := box.items;
    if a in bus.mailboxes {
      assert bus.Contents()[a] == [] && bus.mailboxes[a] in bus.mailboxes.Values;
    }
    bus.Send(m);
    assert bus.Contents()[a] == [m];
  }

  /** Such a list is then polled again. */
  method EmptyPollIsDeliveredAgain(bus: MessageBus, a: string, m: Message) returns (first: Mailbox, second: Mailbox)
    requires bus.Valid() && a in bus.mailboxes && bus.mailboxes[a].items == []
    requires m.receiver == a && a != BROADCAST
    modifies bus, bus.mailboxes.Values
    ensures first == second && first.items == [m]
  {
    first := bus.Poll(a);
    assert a in bus.Contents() && bus.mailboxes[a] == first;
    bus.Send(m);
    second := bus.Poll(a);
  }

  // ---------------------------------------------------------------- runs

  datatype Event = Register(agent: string) | Send(message: Message) | Poll(agent: string) | PollOne(agent: string)

  function Step(b: Boxes, e: Event): Boxes {
    match e
    case Register(a) => Registered(b, a)
    case Send(m) => Delivered(b, m)
    case Poll(a) => Drained(b, a)
    case PollOne(a) => Popped(b, a)
  }

  /** What a step hands to agent `a`. */
  function Handed(b: Boxes, e: Event, a: string): seq<Message> {
    match e
    case Poll(c) => if c == a then BoxOf(b, a) else []
    case PollOne(c) => if c == a && BoxOf(b, a) != [] then [BoxOf(b, a)[0]] else []
    case _ => []
  }

  function Run(events: seq<Event>): Boxes {
    if events == [] then map[] else Step(Run(events[..|events| - 1]), events[|events| - 1])
  }

  function Received(events: seq<Event>, a: string): seq<Message> {
    if events == [] then []
    else
      var front := events[..|events| - 1];
      Received(front, a) + Handed(Run(front), events[|events| - 1], a)
  }

  /** Some step has given the agent a mailbox: it was registered, or written to. */
  predicate HasMailbox(events: seq<Event>, a: string) {
    exists i :: 0 <= i < |events| && Opens(events[i], a)
  }

  predicate Opens(e: Event, a: string) {
    e == Register(a) || (e.Send? && e.message.receiver == a && a != BROADCAST)
  }

  /** The messages sent to the agent by name, and the broadcasts sent while it had a mailbox, in order. */
  function SentTo(events: seq<Event>, a: string): seq<Message> {
    if events == [] then []
    else
      var front, e := events[..|events| - 1], events[|events| - 1];
      SentTo(front, a) +
      if e.Send? && (if e.message.receiver == BROADCAST then HasMailbox(front, a) else e.message.receiver == a)
      then [e.message] else []
  }

  lemma {:induction false} MailboxesOpened(events: seq<Event>, a: string)
    ensures a in Run(events) <==> HasMailbox(events, a)
  {
    if events != [] {
      var front, e := events[..|events| - 1], events[|events| - 1];
      MailboxesOpened(front, a);
      if HasMailbox(front, a) {
        var i :| 0 <= i < |front| && Opens(front[i], a);
        assert Opens(events[i], a);
      }
      if HasMailbox(events, a) && !Opens(e, a) {
        var i :| 0 <= i < |events| && Opens(events[i], a);
        assert Opens(front[i], a);
      }
    }
  }

  /** No message is lost, repeated or reordered: what an agent received, then its mailbox, is what was sent to it. */
  lemma {:induction false} NothingLostOrReordered(events: seq<Event>, a: string)
    ensures Received(events, a) + BoxOf(Run(events), a) == SentTo(events, a)
  {
    if events != [] {
      var front, e := events[..|events| - 1], events[|events| - 1];
      NothingLostOrReordered(front, a);
      MailboxesOpened(front, a);
      StepKeepsFlow(Run(front), e, a);
      Regroup(Received(front, a), Handed(Run(front), e, a), BoxOf(Run(events), a),
              BoxOf(Run(front), a), Accepted(Run(front), e, a));
    }
  }

  lemma Regroup<T>(received: seq<T>, handed: seq<T>, box: seq<T>, before: seq<T>, sent: seq<T>)
    requires handed + box == before + sent
    ensures (received + handed) + box == (received + before) + sent
  {
    assert (received + handed) + box == received + (handed + box);
    assert received + (before + sent) == (received + before) + sent;
  }

  function Accepted(b: Boxes, e: Event, a: string): seq<Message> {
    if e.Send? && (if e.message.receiver == BROADCAST then a in b else e.message.receiver == a)
    then [e.message] else []
  }

  /** One step: handed out and left over make up what was there and what came. */
  lemma StepKeepsFlow(b: Boxes, e: Event, a: string)
    ensures Handed(b, e, a) + BoxOf(Step(b, e), a) == BoxOf(b, a) + Accepted(b, e, a)
  {
    match e
    case Register(_) =>
    case Send(_) =>
    case Poll(c) =>
    case PollOne(c) =>
      if c == a && BoxOf(b, a) != [] {
        assert BoxOf(b, a) == [BoxOf(b, a)[0]] + BoxOf(b, a)[1..];
      }
  }

  /** A broadcast reaches nobody who has no mailbox yet, however soon the mailbox is opened. */
  lemma BroadcastMissesTheUnregistered(m: Message, a: string)
    requires m.receiver == BROADCAST
    ensures Run([Send(m), Register(a)]) == map[a := []]
  {
    var events := [Send(m), Register(a)];
    assert events[..1] == [Send(m)];
    assert events[..1][..0] == [];
    assert Run([]) == map[];
    assert Run(events[..1]) == map[];
  }
}
