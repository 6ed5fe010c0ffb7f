/** The control socket's server side: one request and one answer for each connection. */
module ControlSocket {
  import opened Basics
  import opened Events
  import opened Uid
  import opened Framing
  import opened DoorSystem

  class ControlSocket {
    const queue: EventQueue
    var nextConn: nat

    constructor (queue: EventQueue)
      ensures this.queue == queue && nextConn == 0
    {
      this.queue, nextConn := queue, 0;
    }

    /** Serves one connection. `parse` decodes a line as JSON text, and `reply` is what the dispatcher
        puts in this connection's slot before the reply timeout, if anything. A request reaches the
        queue only when a whole line was read, it parsed, and there was room; every other end leaves
        the queue alone. `None` means that nothing was sent. */
    method Serve(chunks: seq<seq<Byte>>, parse: seq<Byte> -> Option<Request>, reply: Option<Response>)
      returns (answer: Option<Answer>)
      requires Chunked(chunks, SERVER_CHUNK)
      modifies this, queue
      ensures nextConn == old(nextConn) + 1
      ensures match Receive([], chunks)
              case Closed => answer == None && queue.items == old(queue.items)
              case TooLarge => answer == Some(Refused) && queue.items == old(queue.items)
              case Line(bytes) =>
                var request := parse(bytes);
                if request.None? then answer == Some(Refused) && queue.items == old(queue.items)
                else if |old(queue.items)| >= QUEUE_CAPACITY then answer == Some(Busy) && queue.items == old(queue.items)
                else
                  && queue.items == old(queue.items) + [WebCommand(request.value, old(nextConn))]
                  && answer == Some(if reply.Some? then Result(reply.value) else ServiceTimeout)
    {
      var conn := nextConn;
      nextConn := nextConn + 1;
      var received, buf := ReadRequest(chunks);
      if received.Closed? {
        return None;
      }
      if received.TooLarge? {
        return Some(Refused);
      }
      var request := parse(received.bytes);
      if request.None? {
        return Some(Refused);
      }
      var ok := queue.PutNowait(WebCommand(request.value, conn));
      if !ok {
        return Some(Busy);
      }
      if reply.Some? {
        return Some(Result(reply.value));
      }
      return Some(ServiceTimeout);
    }
  }
}
