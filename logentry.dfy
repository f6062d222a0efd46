/**
 * The address part of `format_log_entry`: the client's IPv4 address, taken
 * from network to host byte order, split into the four numbers of its
 * dotted-decimal form by shifts and masks.
 *
 * The address is an unsigned 32-bit value, so `x >> k` is division by 2^k
 * and `x & 0xff` is the remainder modulo 256.
 */
module LogEntry {

  type Byte = x: int | 0 <= x < 0x100
  type U32 = x: int | 0 <= x < 0x1_0000_0000

  /** The four `unsigned char` fields `%d.%d.%d.%d` prints. */
  datatype Quad = Quad(a: Byte, b: Byte, c: Byte, d: Byte)

  /** `ntohl`: the four address bytes as they travel, most significant first. */
  function NetworkToHost(wire: seq<Byte>): U32
    requires |wire| == 4
  {
    var b0: int, b1: int, b2: int, b3: int := wire[0], wire[1], wire[2], wire[3];
    b0 * 0x100_0000 + b1 * 0x1_0000 + b2 * 0x100 + b3
  }

  /**
   * The four fields of the dotted form: the top byte, then the next three,
   * each found by dividing by a power of 256 and, below the top, keeping the
   * remainder modulo 256. The top byte needs no remainder, since the address
   * has only 32 bits.
   */
  function Octets(host: U32): Quad
  {
    Quad(host / 0x100_0000, (host / 0x1_0000) % 0x100, (host / 0x100) % 0x100, host % 0x100)
  }

  /** The four fields weigh 2^24, 2^16, 2^8 and 1 in the address. */
  lemma {:induction false} OctetsValue(host: U32)
    ensures var q := Octets(host);
      q.a * 0x100_0000 + q.b * 0x1_0000 + q.c * 0x100 + q.d == host
  {
    var h1 := host / 0x100;
    var h2 := h1 / 0x100;
    assert host == h1 * 0x100 + host % 0x100;
    assert h1 == h2 * 0x100 + h1 % 0x100;
    assert h2 == (h2 / 0x100) * 0x100 + h2 % 0x100;
    assert h2 == host / 0x1_0000;
    assert h2 / 0x100 == host / 0x100_0000;
  }

  /** The printed fields are the address bytes in the order they travel. */
  lemma {:induction false} OctetsOfWire(wire: seq<Byte>)
    requires |wire| == 4
    ensures Octets(NetworkToHost(wire)) == Quad(wire[0], wire[1], wire[2], wire[3])
  {
    var host := NetworkToHost(wire);
    var b0: int, b1: int, b2: int, b3: int := wire[0], wire[1], wire[2], wire[3];
    assert host / 0x100_0000 == b0;
    assert host / 0x1_0000 == b0 * 0x100 + b1;
    assert host / 0x100 == b0 * 0x1_0000 + b1 * 0x100 + b2;
  }

  /** Distinct addresses give distinct dotted quads. */
  lemma {:induction false} OctetsInjective(h1: U32, h2: U32)
    requires Octets(h1) == Octets(h2)
    ensures h1 == h2
  {
    OctetsValue(h1);
    OctetsValue(h2);
  }
}
