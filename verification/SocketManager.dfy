/** A connected socket: what the peer sends, and what was sent to it. */
module SocketManager {
  import opened Config
  import opened Bytes

  class Socket {
    var incoming: bytes
    var outgoing: seq<bytes>

    constructor (incoming: bytes)
      ensures this.incoming == incoming && outgoing == []
    {
      this.incoming := incoming;
      outgoing := [];
    }

    method Send(message: array<byte>, size: nat) returns (code: int)
      requires size <= message.Length
      modifies this`outgoing
      ensures code == 0 && outgoing == old(outgoing) + [message[..size]]
    {
      outgoing := outgoing + [message[..size]];
      code := 0;
    }

    /** Fills the whole buffer with the next bytes of the stream: 0 when that succeeds and the number of bytes fits
        in an int; -2 when the peer has closed the stream, -1 when it ends early or the count is too large. */
    method Receive(buffer: array<byte>) returns (code: int)
      requires buffer.Length > 0
      modifies this`incoming, buffer
      ensures code == 0 <==> buffer.Length <= |old(incoming)| && buffer.Length <= MAX_INT
      ensures if buffer.Length <= |old(incoming)|
              then buffer[..] == old(incoming)[..buffer.Length] && incoming == old(incoming)[buffer.Length..]
              else incoming == []
      ensures old(incoming) == [] ==> code == -2
    {
      var i := 0;
      while i < buffer.Length && i < |incoming|
        invariant 0 <= i <= buffer.Length && i <= |incoming| && incoming == old(incoming)
        invariant buffer[..i] == incoming[..i]
      {
        buffer[i] := incoming[i];
        i := i + 1;
      }
      incoming := incoming[i..];
      var result := AsInt(i);
      if result == 0 {
        code := -2;
      } else if result == -1 {
        code := -1;
      } else if result != buffer.Length {
        code := -1;
      } else {
        code := 0;
      }
    }
  }
}
