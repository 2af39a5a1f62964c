/** Byte swapping, and how numbers lie in memory on a little-endian machine. */
module ByteOrder {
  type byte = bv8

  function Bswap16(x: bv16): bv16 {
    (x >> 8) | (x << 8)
  }

  function Bswap32(x: bv32): bv32 {
    ((x >> 24) & 0xff) | ((x << 8) & 0xff0000) | ((x >> 8) & 0xff00) | ((x << 24) & 0xff000000)
  }

  function Bswap64(x: bv64): bv64 {
    ((x & 0x00000000000000FF) << 56) | ((x & 0x000000000000FF00) << 40) |
    ((x & 0x0000000000FF0000) << 24) | ((x & 0x00000000FF000000) << 8) |
    ((x & 0x000000FF00000000) >> 8) | ((x & 0x0000FF0000000000) >> 24) |
    ((x & 0x00FF000000000000) >> 40) | ((x & 0xFF00000000000000) >> 56)
  }

  // ------------------------------------------------------------ little endian: as the machine stores numbers

  function Store16(x: bv16): (b: seq<byte>)
    ensures |b| == 2
  {
    [(x & 0xff) as byte, ((x >> 8) & 0xff) as byte]
  }

  function Store32(x: bv32): (b: seq<byte>)
    ensures |b| == 4
  {
    [(x & 0xff) as byte, ((x >> 8) & 0xff) as byte, ((x >> 16) & 0xff) as byte, ((x >> 24) & 0xff) as byte]
  }

  function Store64(x: bv64): (b: seq<byte>)
    ensures |b| == 8
  {
    [(x & 0xff) as byte, ((x >> 8) & 0xff) as byte, ((x >> 16) & 0xff) as byte, ((x >> 24) & 0xff) as byte,
     ((x >> 32) & 0xff) as byte, ((x >> 40) & 0xff) as byte, ((x >> 48) & 0xff) as byte, ((x >> 56) & 0xff) as byte]
  }

  function Load16(b: seq<byte>): bv16
    requires |b| == 2
  {
    (b[0] as bv16) | ((b[1] as bv16) << 8)
  }

  function Load32(b: seq<byte>): bv32
    requires |b| == 4
  {
    (b[0] as bv32) | ((b[1] as bv32) << 8) | ((b[2] as bv32) << 16) | ((b[3] as bv32) << 24)
  }

  function Load64(b: seq<byte>): bv64
    requires |b| == 8
  {
    (b[0] as bv64) | ((b[1] as bv64) << 8) | ((b[2] as bv64) << 16) | ((b[3] as bv64) << 24) |
    ((b[4] as bv64) << 32) | ((b[5] as bv64) << 40) | ((b[6] as bv64) << 48) | ((b[7] as bv64) << 56)
  }

  // ------------------------------------------------------------ big endian: as the wire carries them

  function Big16(b: seq<byte>): bv16
    requires |b| == 2
  {
    ((b[0] as bv16) << 8) | (b[1] as bv16)
  }

  function Big32(b: seq<byte>): bv32
    requires |b| == 4
  {
    ((b[0] as bv32) << 24) | ((b[1] as bv32) << 16) | ((b[2] as bv32) << 8) | (b[3] as bv32)
  }

  function Big64(b: seq<byte>): bv64
    requires |b| == 8
  {
    ((b[0] as bv64) << 56) | ((b[1] as bv64) << 48) | ((b[2] as bv64) << 40) | ((b[3] as bv64) << 32) |
    ((b[4] as bv64) << 24) | ((b[5] as bv64) << 16) | ((b[6] as bv64) << 8) | (b[7] as bv64)
  }

  /** Swapping a number that was loaded in the machine's order gives the wire's value. */
  lemma SwappedLoadIsBigEndian(b2: seq<byte>, b4: seq<byte>, b8: seq<byte>)
    requires |b2| == 2 && |b4| == 4 && |b8| == 8
    ensures Bswap16(Load16(b2)) == Big16(b2)
    ensures Bswap32(Load32(b4)) == Big32(b4)
    ensures Bswap64(Load64(b8)) == Big64(b8)
  {
  }

  lemma StoreLoad(x: bv16, y: bv32, z: bv64)
    ensures Load16(Store16(x)) == x
    ensures Load32(Store32(y)) == y
    ensures Load64(Store64(z)) == z
  {
  }

  lemma SwapTwice(x: bv16, y: bv32, z: bv64)
    ensures Bswap16(Bswap16(x)) == x
    ensures Bswap32(Bswap32(y)) == y
    ensures Bswap64(Bswap64(z)) == z
  {
  }

  /** What is swapped and stored is recovered by loading and swapping. */
  lemma SwapStoreLoadSwap(x: bv16, y: bv32, z: bv64)
    ensures Bswap16(Load16(Store16(Bswap16(x)))) == x
    ensures Bswap32(Load32(Store32(Bswap32(y)))) == y
    ensures Bswap64(Load64(Store64(Bswap64(z)))) == z
  {
    StoreLoad(Bswap16(x), Bswap32(y), Bswap64(z));
    SwapTwice(x, y, z);
    hide Bswap16, Bswap32, Bswap64, Store16, Store32, Store64, Load16, Load32, Load64;
  }
}
