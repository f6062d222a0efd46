/**
 * The connection endpoints the proxy reads and writes, with the socket and
 * the buffered-I/O internals abstracted away: the read side of a descriptor
 * is the sequence of lines successive `Rio_readlineb` calls return, the
 * write side is the bytes `Rio_writen` has sent so far, and a `size_t *`
 * output parameter is a cell holding one `size_t`.
 */
module Streams {
  import opened CType

  /** A `rio_t` read buffer over a descriptor: the lines not yet read. */
  class LineReader {
    var pending: seq<string>

    /** Every line a read returns holds at least one byte. */
    ghost predicate Valid()
      reads this
    {
      forall i :: 0 <= i < |pending| ==> |pending[i]| > 0
    }

    constructor (lines: seq<string>)
      requires forall i :: 0 <= i < |lines| ==> |lines[i]| > 0
      ensures Valid() && pending == lines
    {
      pending := lines;
    }

    /** `Rio_readlineb`: the next line, or the empty string at end of stream. */
    method ReadLine() returns (line: string)
      requires Valid()
      modifies this
      ensures Valid()
      ensures old(pending) == [] ==> line == [] && pending == []
      ensures old(pending) != [] ==> line == old(pending)[0] && pending == old(pending)[1..]
    {
      if pending == [] {
        line := [];
      } else {
        line := pending[0];
        pending := pending[1..];
      }
    }
  }

  /** The write side of a descriptor: every byte `Rio_writen` has sent, in order. */
  class Sink {
    var written: string

    constructor ()
      ensures written == []
    {
      written := [];
    }

    /** `Rio_writen(fd, bytes, |bytes|)` */
    method Write(bytes: string)
      modifies this
      ensures written == old(written) + bytes
    {
      written := written + bytes;
    }
  }

  /** The `size_t` a `size_t *` output parameter points to. */
  class SizeCell {
    var value: SizeT

    constructor (initial: SizeT)
      ensures value == initial
    {
      value := initial;
    }
  }
}
