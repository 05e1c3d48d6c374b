/**
  Lamport logical clocks (exemploLamport/lamport.py), after Lamport, "Time, Clocks,
  and the Ordering of Events in a Distributed System" (1978), rules IR1 and IR2:
  - IR1: a process increments its clock by one for each of its own events (an
    internal event, or the sending of a message);
  - IR2: on receipt of a message stamped T the receiver sets its clock to
    max(its clock, T) + 1.
  A process keeps its clock and the mailbox of the messages it has received.
 */
module Lamport {

  /** A message carries its sender, the sender's clock at sending, and a text. */
  datatype Message = Message(senderId: int, logicalClock: int, content: string)

  /** IR2: the least clock value above both the local clock and the stamp. */
  function ReceiveClock(local: nat, stamp: int): (c: nat)
    ensures c > local && c > stamp
    ensures c - 1 == local || c - 1 == stamp
  {
    (if local >= stamp then local else stamp) + 1
  }

  /** The events that move a process's clock. */
  datatype Event = Local | Receive(stamp: int)

  /** One event: IR1 for a local event, IR2 for a receipt. The clock always rises. */
  function Tick(clock: nat, ev: Event): (c: nat)
    ensures c > clock
    ensures ev.Local? ==> c == clock + 1
    ensures ev.Receive? ==> c > ev.stamp
  {
    match ev
    case Local => clock + 1
    case Receive(stamp) => ReceiveClock(clock, stamp)
  }

  /** The clock after a history of events, starting from `clock`. Each event raises the
      clock by at least one, and the final clock is above every stamp received. */
  function ClockAfter(clock: nat, events: seq<Event>): (c: nat)
    ensures c >= clock + |events|
    ensures forall i :: 0 <= i < |events| && events[i].Receive? ==> c > events[i].stamp
    decreases |events|
  {
    if events == [] then clock
    else
      var c := ClockAfter(Tick(clock, events[0]), events[1..]);
      assert forall i :: 1 <= i < |events| ==> events[i] == events[1..][i - 1];
      c
  }

  lemma {:induction false} ClockAfterAppend(clock: nat, events: seq<Event>, ev: Event)
    ensures ClockAfter(clock, events + [ev]) == Tick(ClockAfter(clock, events), ev)
    decreases |events|
  {
    if events == [] {
      assert [ev][1..] == [];
    } else {
      assert (events + [ev])[1..] == events[1..] + [ev];
      ClockAfterAppend(Tick(clock, events[0]), events[1..], ev);
    }
  }

  /** Clocks never go back along a history, whatever its events. */
  lemma {:induction false} ClockAfterMonotone(clock: nat, events: seq<Event>, k: nat)
    requires k <= |events|
    ensures ClockAfter(clock, events[..k]) <= ClockAfter(clock, events)
  {
    var rest := events[k..];
    assert events == events[..k] + rest;
    ClockAfterSplit(clock, events[..k], rest);
    assert ClockAfter(clock, events) == ClockAfter(ClockAfter(clock, events[..k]), rest);
  }

  lemma {:induction false} ClockAfterSplit(clock: nat, xs: seq<Event>, ys: seq<Event>)
    ensures ClockAfter(clock, xs + ys) == ClockAfter(ClockAfter(clock, xs), ys)
    decreases |xs|
  {
    if xs == [] {
      assert xs + ys == ys;
    } else {
      assert (xs + ys)[1..] == xs[1..] + ys;
      ClockAfterSplit(Tick(clock, xs[0]), xs[1..], ys);
    }
  }

  class Process {
    const processId: int
    const totalProcesses: int
    var logicalClock: nat
    var mailbox: seq<Message>
    /** The events of this process so far, in order. */
    ghost var history: seq<Event>

    /** The clock is what IR1/IR2 give for the history, and Lamport's clock condition
        holds for receipt: every received message was sent at an earlier clock. */
    ghost predicate Valid()
      reads this
    {
      && logicalClock == ClockAfter(0, history)
      && forall i :: 0 <= i < |mailbox| ==> mailbox[i].logicalClock < logicalClock
    }

    constructor (processId: int, totalProcesses: int)
      ensures Valid()
      ensures this.processId == processId && this.totalProcesses == totalProcesses
      ensures logicalClock == 0 && mailbox == [] && history == []
    {
      this.processId := processId;
      this.totalProcesses := totalProcesses;
      logicalClock := 0;
      mailbox := [];
      history := [];
    }

    /** IR1: one local event. Returns the new clock. */
    method IncrementClock() returns (clock: nat)
      requires Valid()
      modifies this
      ensures Valid()
      ensures logicalClock == old(logicalClock) + 1 && clock == logicalClock
      ensures mailbox == old(mailbox) && history == old(history) + [Local]
    {
      ClockAfterAppend(0, history, Local);
      logicalClock := logicalClock + 1;
      history := history + [Local];
      clock := logicalClock;
    }

    /** An internal event: IR1 alone. */
    method InternalEvent()
      requires Valid()
      modifies this
      ensures Valid()
      ensures logicalClock == old(logicalClock) + 1
      ensures mailbox == old(mailbox) && history == old(history) + [Local]
    {
      var _ := IncrementClock();
    }

    /** IR2: take the message into the mailbox and move the clock past its stamp. */
    method ReceiveMessage(message: Message)
      requires Valid()
      modifies this
      ensures Valid()
      ensures logicalClock == ReceiveClock(old(logicalClock), message.logicalClock)
      ensures logicalClock > old(logicalClock) && logicalClock > message.logicalClock
      ensures mailbox == old(mailbox) + [message]
      ensures history == old(history) + [Receive(message.logicalClock)]
    {
      ClockAfterAppend(0, history, Receive(message.logicalClock));
      logicalClock := ReceiveClock(logicalClock, message.logicalClock);
      mailbox := mailbox + [message];
      history := history + [Receive(message.logicalClock)];
    }

    /** A send: IR1 on the sender, then delivery to the receiver (which may be the
        sender itself), stamped with the sender's new clock. */
    method SendMessage(receiver: Process, content: string)
      requires Valid() && receiver.Valid()
      modifies this, receiver
      ensures Valid() && receiver.Valid()
      ensures var m := Message(processId, old(logicalClock) + 1, content);
                receiver.mailbox == old(receiver.mailbox) + [m]
      ensures receiver.logicalClock ==
                ReceiveClock(if receiver == this then old(logicalClock) + 1 else old(receiver.logicalClock),
                             old(logicalClock) + 1)
      ensures receiver.logicalClock > old(logicalClock) + 1
      ensures receiver != this ==>
                logicalClock == old(logicalClock) + 1 && mailbox == old(mailbox) &&
                history == old(history) + [Local]
    {
      var clock := IncrementClock();
      var message := Message(processId, clock, content);
      receiver.ReceiveMessage(message);
    }
  }
}
