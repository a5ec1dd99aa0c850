/** Datagram layout of the TFTP server: big-endian 16-bit fields, opcodes of
    RFC 1350 section 5 and RFC 2347. */
module TftpWire {
  import opened Common

  type Packet = seq<byte>

  const DATA := 3
  const ACK := 4
  const ERROR := 5
  const OACK := 6

  /** Block numbers travel modulo this. */
  const BLOCK_SPACE := 65536

  function U16(n: nat): (r: Packet)
    requires n < BLOCK_SPACE
    ensures |r| == 2 && U16At(r, 0) == n
  {
    [n / 256, n % 256]
  }

  function U16At(d: Packet, i: nat): (r: nat)
    requires i + 1 < |d|
    ensures r < BLOCK_SPACE
  {
    (d[i] as int) * 256 + d[i + 1] as int
  }

  function AckPacket(block: nat): (r: Packet)
    ensures |r| == 4 && U16At(r, 0) == ACK && U16At(r, 2) == block % BLOCK_SPACE
  {
    U16(ACK) + U16(block % BLOCK_SPACE)
  }

  function DataPacketOf(block: nat, chunk: Packet): (r: Packet)
    ensures |r| == 4 + |chunk| && U16At(r, 0) == DATA && U16At(r, 2) == block % BLOCK_SPACE
    ensures r[4..] == chunk
  {
    U16(DATA) + U16(block % BLOCK_SPACE) + chunk
  }

  /** Two indices less than a whole block space apart are equal when their
      wire forms are. */
  lemma WrapIsInjective(a: nat, b: nat)
    requires a <= b < a + BLOCK_SPACE
    ensures a % BLOCK_SPACE == b % BLOCK_SPACE <==> a == b
  {
    var d := b - a;
    if a % BLOCK_SPACE == b % BLOCK_SPACE {
      assert b - a == BLOCK_SPACE * (b / BLOCK_SPACE - a / BLOCK_SPACE);
    }
  }
}
