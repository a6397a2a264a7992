// The two ends of the handshake socket, pkg/runtime/sync.go. What its methods do to the
// channel is what the steps of the handshake do to theirs.
module Sync {

  import opened Wrappers
  import opened Handshake

  // What the socket holds for one of its ends, and how many descriptors of the other end
  // are still open, in any process.
  class Queue {
    var items: seq<Message>
    var writers: nat

    constructor (writers: nat)
      ensures items == [] && this.writers == writers
    {
      items := [];
      this.writers := writers;
    }
  }

  class SyncPipe {
    const inbox: Queue
    const outbox: Queue
    var buffer: seq<Message>

    constructor (inbox: Queue, outbox: Queue)
      ensures this.inbox == inbox && this.outbox == outbox && buffer == []
    {
      this.inbox, this.outbox := inbox, outbox;
      buffer := [];
    }

    method Send(m: Message)
      modifies outbox`items
      ensures outbox.items == old(outbox.items) + [m]
    {
      outbox.items := outbox.items + [m];
    }

    method SendError()
      modifies outbox`items
      ensures outbox.items == old(outbox.items) + [ErrorMessage]
    {
      outbox.items := outbox.items + [ErrorMessage];
    }

    // Called when the read does not block: there is a message, or nobody is left who could
    // send one. The decoder keeps whatever else had arrived.
    method AwaitMessage(wanted: Message) returns (r: Heard)
      requires Hear(buffer, inbox.items, inbox.writers > 0, wanted).Some?
      modifies this, inbox`items
      ensures Some(r) == Hear(old(buffer), old(inbox.items), inbox.writers > 0, wanted)
      ensures buffer == ReadAhead(old(buffer), old(inbox.items)) && inbox.items == []
    {
      var available := buffer + inbox.items;
      if available == [] {
        return EndOfFile;
      }
      var got := available[0];
      buffer, inbox.items := available[1..], [];
      if got == wanted {
        return Proceed;
      } else if got == ErrorMessage {
        return RemoteError;
      }
      return Unexpected;
    }

    // Closing this end's descriptor, or losing it with its process.
    method Close()
      requires outbox.writers > 0
      modifies outbox`writers
      ensures outbox.writers == old(outbox.writers) - 1
    {
      outbox.writers := outbox.writers - 1;
    }
  }

  // ----- One direction of the channel over its whole life -----

  datatype Use = Put(m: Message) | Take

  // What is under way, and all that has been sent and decoded so far.
  datatype Line = Line(buffer: seq<Message>, queue: seq<Message>, sent: seq<Message>, decoded: seq<Message>)

  function Using(l: Line, u: Use): Line {
    match u
    case Put(m) => l.(queue := l.queue + [m], sent := l.sent + [m])
    case Take =>
      if CanDecode(l.buffer, l.queue) then
        l.(buffer := ReadAhead(l.buffer, l.queue), queue := [], decoded := l.decoded + [Decoded(l.buffer, l.queue)])
      else l
  }

  function UsingAll(uses: seq<Use>): Line {
    if uses == [] then Line([], [], [], [])
    else Using(UsingAll(uses[..|uses| - 1]), uses[|uses| - 1])
  }

  lemma DecodedInOrder(buffer: seq<Message>, queue: seq<Message>)
    requires CanDecode(buffer, queue)
    ensures [Decoded(buffer, queue)] + ReadAhead(buffer, queue) == buffer + queue
  {
    if buffer == [] {
      assert [queue[0]] + queue[1..] == queue;
    } else {
      assert [buffer[0]] + buffer[1..] == buffer;
    }
  }

  // Over any sequence of sends and awaits, whatever the decoder reads ahead, what has been
  // decoded and what is under way is exactly what was sent, in order and each once.
  lemma {:induction false} NothingLost(uses: seq<Use>)
    ensures var l := UsingAll(uses); l.decoded + (l.buffer + l.queue) == l.sent
  {
    if uses != [] {
      var u := uses[|uses| - 1];
      var l := UsingAll(uses[..|uses| - 1]);
      NothingLost(uses[..|uses| - 1]);
      if u.Put? {
        assert l.decoded + (l.buffer + (l.queue + [u.m])) == l.decoded + (l.buffer + l.queue) + [u.m];
      } else if CanDecode(l.buffer, l.queue) {
        DecodedInOrder(l.buffer, l.queue);
        var got, ahead := Decoded(l.buffer, l.queue), ReadAhead(l.buffer, l.queue);
        assert l.decoded + [got] + (ahead + []) == l.decoded + ([got] + ahead);
      }
    }
  }
}
