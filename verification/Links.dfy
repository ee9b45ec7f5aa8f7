/**
 A connection as frames: those still to be read, and the payloads written.
 */
module Links {
  import opened Wrappers
  import opened ByteStrings

  /** The connection's two directions: frames still to be read, and payloads written. */
  class Link {
    var input: seq<Bytes>
    var output: seq<Bytes>

    constructor (input: seq<Bytes>)
      ensures this.input == input && output == []
    {
      this.input, output := input, [];
    }

    method Read() returns (frame: Option<Bytes>)
      modifies this`input
      ensures old(input) == [] ==> frame == None && input == []
      ensures old(input) != [] ==> frame == Some(old(input)[0]) && input == old(input)[1..]
    {
      if input == [] { return None; }
      frame := Some(input[0]);
      input := input[1..];
    }

    method Write(payload: Bytes)
      modifies this`output
      ensures output == old(output) + [payload]
    {
      output := output + [payload];
    }
  }
}
