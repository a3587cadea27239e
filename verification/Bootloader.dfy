/** The SD-card bootloader's copy loop and the image packer it agrees with. */
module Bootloader {
  import opened Arith
  import opened Memory

  type Byte = b: nat | b < 256

  type Sector = s: seq<Byte> | |s| == 512 witness seq(512, _ => 0)

  /** The card: its sectors, whether it is block-addressed, and the outcome of reading each sector. */
  datatype Card = Card(sectors: nat -> Sector, sdhc: bool, status: nat -> int)

  const APP_BASE: nat := 0x1_0000
  const BOOT_RAM: nat := 0x1_F000
  const MEMORY_SIZE: nat := 0x2_0000
  const APP_START_SECTOR: nat := 2048
  const MAX_FW_BYTES: nat := 61440

  // ---- the image on the card -------------------------------------------------------------

  /** Byte `j` of what starts at the application's first sector. */
  function ImageByte(c: Card, j: nat): Byte
  {
    c.sectors(APP_START_SECTOR + j / 512)[j % 512]
  }

  function ImageBytes(c: Card, from: nat, len: nat): (s: seq<Byte>)
    ensures |s| == len && forall j | 0 <= j < len :: s[j] == ImageByte(c, from + j)
  {
    seq<Byte>(len, j requires 0 <= j < len => ImageByte(c, from + j))
  }

  function LittleEndian(b0: Byte, b1: Byte, b2: Byte, b3: Byte): nat
  {
    b0 + 256 * b1 + 65536 * b2 + 16777216 * b3
  }

  function ImageSize(c: Card): nat
  {
    LittleEndian(ImageByte(c, 0), ImageByte(c, 1), ImageByte(c, 2), ImageByte(c, 3))
  }

  /** Sectors that hold a header and `size` bytes. */
  function SectorsFor(size: nat): nat { (4 + size + 511) / 512 }

  /** The read of sector number `k` of the image succeeds. */
  predicate Readable(c: Card, k: nat) { c.status(APP_START_SECTOR + k) == 0 }

  // ---- the packer ---------------------------------------------------------------------------

  function Header(size: nat): seq<Byte>
    requires size < TWO32
  {
    [size % 256, size / 256 % 256, size / 65536 % 256, size / 16777216]
  }

  lemma HeaderRoundTrip(size: nat)
    requires size < TWO32
    ensures var h := Header(size); h[0] as int + 256 * (h[1] as int) + 65536 * (h[2] as int) + 16777216 * (h[3] as int) == size
  {
    assert size / 256 / 256 == size / 65536 && size / 65536 / 256 == size / 16777216;
  }

  /** Packs a firmware image: its size, its bytes, and zeros up to a multiple of four. */
  method Wrap(fw: seq<Byte>) returns (image: seq<Byte>)
    requires |fw| < TWO32
    ensures |image| % 4 == 0 && 4 + |fw| <= |image| < 8 + |fw|
    ensures image[..4 + |fw|] == Header(|fw|) + fw
    ensures image[0] as int + 256 * (image[1] as int) + 65536 * (image[2] as int) + 16777216 * (image[3] as int) == |fw|
    ensures image[4..4 + |fw|] == fw
    ensures forall j | 4 + |fw| <= j < |image| :: image[j] == 0
  {
    HeaderRoundTrip(|fw|);
    var data, pad := PadToWord(fw);
    image := Header(|fw|) + data;
    Padded(Header(|fw|), fw, pad, image);
  }

  method PadToWord(fw: seq<Byte>) returns (data: seq<Byte>, ghost pad: seq<Byte>)
    ensures data == fw + pad && |data| % 4 == 0 && |pad| < 4
    ensures forall j | 0 <= j < |pad| :: pad[j] == 0
  {
    data, pad := fw, [];
    while |data| % 4 != 0
      invariant data == fw + pad && FitsPadding(|fw|, |pad|)
      invariant forall j | 0 <= j < |pad| :: pad[j] == 0
      decreases 4 - |pad|
    {
      PadLength(|fw|, |pad|);
      data, pad := data + [0], pad + [0];
    }
    PadLength(|fw|, |pad|);
  }

  /** No more than the zeros needed to reach a multiple of four. */
  predicate FitsPadding(n: nat, k: nat) { k <= (4 - n % 4) % 4 }

  lemma PadLength(n: nat, k: nat)
    requires FitsPadding(n, k)
    ensures k < 4 && ((n + k) % 4 != 0 ==> FitsPadding(n, k + 1))
  {
    var r := n % 4;
    assert (n + k) % 4 == (r + k) % 4;
  }

  lemma Padded(h: seq<Byte>, fw: seq<Byte>, pad: seq<Byte>, image: seq<Byte>)
    requires image == h + (fw + pad) && forall j | 0 <= j < |pad| :: pad[j] == 0
    ensures image[..|h| + |fw|] == h + fw
    ensures forall j | |h| + |fw| <= j < |image| :: image[j] == 0
  {
    forall j | |h| + |fw| <= j < |image|
      ensures image[j] == 0
    {
      assert image[j] == pad[j - |h| - |fw|];
    }
  }

  /** The image was written to the card from the application's first sector on. */
  ghost predicate Holds(c: Card, image: seq<Byte>)
  {
    forall j | 0 <= j < |image| :: ImageByte(c, j) == image[j]
  }

  /** The bootloader sees the size and the bytes that were packed. */
  lemma HoldsFirmware(c: Card, image: seq<Byte>, fw: seq<Byte>)
    requires |fw| < TWO32 && 4 + |fw| <= |image| && image[..4 + |fw|] == Header(|fw|) + fw && Holds(c, image)
    ensures ImageSize(c) == |fw| && ImageBytes(c, 4, |fw|) == fw
  {
    var h := Header(|fw|);
    forall j | 0 <= j < 4 + |fw|
      ensures ImageByte(c, j) == (h + fw)[j]
    {
      assert image[..4 + |fw|][j] == image[j];
    }
    HeaderRoundTrip(|fw|);
  }

  // ---- the loader ------------------------------------------------------------------------------

  method Memcpy(m: array<Byte>, dst: nat, src: nat, n: nat)
    requires dst + n <= m.Length && src + n <= m.Length && Apart(dst, src, n)
    modifies m
    ensures m[..] == Put(old(m[..]), dst, old(m[..])[src..src + n], n)
  {
    ghost var m0 := m[..];
    ghost var b := m0[src..src + n];
    var k := 0;
    NoneYet(m0, dst, b);
    while k < n
      invariant k <= n && m[..] == Put(m0, dst, b, k)
    {
      PutApart(m0, dst, b, k, src + k);
      var x := m[..][src + k];
      PutOne(m, dst, k, x, m0, b);
      k := k + 1;
    }
  }

  /** The command argument: block-addressed cards take the sector number, others its byte address. */
  function ReadArgument(sdhc: bool, sector: nat): nat
  {
    if sdhc then sector else sector * 512 % TWO32
  }

  function AddressedSector(sdhc: bool, arg: nat): nat
  {
    if sdhc then arg else arg / 512
  }

  /** The card is asked for the sector meant, as long as its byte address fits 32 bits. */
  lemma RightSector(sdhc: bool, sector: nat)
    requires sector * 512 < TWO32
    ensures AddressedSector(sdhc, ReadArgument(sdhc, sector)) == sector
  {
  }

  /** Reads a sector into the buffer; on failure the buffer is left alone. */
  method ReadSector(c: Card, sector: nat, m: array<Byte>, buf: nat) returns (status: int)
    requires buf + 512 <= m.Length && sector * 512 < TWO32
    modifies m
    ensures status == c.status(sector)
    ensures m[..] == if status == 0 then Put(old(m[..]), buf, c.sectors(sector), 512) else old(m[..])
  {
    var arg := ReadArgument(c.sdhc, sector);
    RightSector(c.sdhc, sector);
    var from := AddressedSector(c.sdhc, arg);
    status := c.status(from);
    if status != 0 {
      return;
    }
    var data := c.sectors(from);
    ghost var m0 := m[..];
    var i := 0;
    NoneYet(m0, buf, data);
    while i < 512
      invariant i <= 512 && m[..] == Put(m0, buf, data, i)
    {
      PutOne(m, buf, i, data[i], m0, data);
      i := i + 1;
    }
  }

  /** The outcome of loading: a bad header sector, a bad size, a bad later sector, or success. */
  function Outcome(c: Card): int
  {
    if !Readable(c, 0) then -1
    else if ImageSize(c) == 0 || ImageSize(c) > MAX_FW_BYTES then -2
    else if AllReadable(c, SectorsFor(ImageSize(c))) then 0
    else -3
  }

  predicate AllReadable(c: Card, n: nat)
  {
    forall k: nat | k < n :: Readable(c, k)
  }

  /** Outside the application area, up to the given length, and the sector buffer nothing has changed. */
  ghost predicate OnlyWrites(before: seq<Byte>, after: seq<Byte>, len: nat, buf: nat)
  {
    && |after| == |before|
    && forall q | 0 <= q < |before| && !(APP_BASE <= q < APP_BASE + len) && !(buf <= q < buf + 512) :: after[q] == before[q]
  }

  /** The first `n` firmware bytes are in place. */
  ghost predicate Loaded(m: seq<Byte>, c: Card, n: nat)
    requires APP_BASE + n <= |m|
  {
    m[APP_BASE..APP_BASE + n] == ImageBytes(c, 4, n)
  }

  /** The sector buffer lies in the bootloader's own memory. */
  predicate BufferInBootRam(m: seq<Byte>, buf: nat)
  {
    |m| == MEMORY_SIZE && BOOT_RAM <= buf && buf + 512 <= MEMORY_SIZE
  }

  /** One buffered sector copied behind what is already loaded. */
  lemma ChunkLoaded(m: seq<Byte>, m1: seq<Byte>, m2: seq<Byte>, c: Card, buf: nat, k: nat, from: nat, written: nat, chunk: nat)
    requires BufferInBootRam(m, buf) && written + chunk <= MAX_FW_BYTES && from + chunk <= 512 && 512 * k + from == 4 + written
    requires Loaded(m, c, written) && m1 == Put(m, buf, c.sectors(APP_START_SECTOR + k), 512)
    requires m2 == Put(m1, APP_BASE + written, m1[buf + from..buf + from + chunk], chunk)
    ensures Loaded(m2, c, written + chunk) && OnlyWrites(m, m2, written + chunk, buf)
  {
    var s := c.sectors(APP_START_SECTOR + k);
    assert m1[buf..buf + 512] == s;
    forall q | APP_BASE <= q < APP_BASE + written + chunk
      ensures m2[q] == ImageByte(c, 4 + q - APP_BASE)
    {
      var j := q - APP_BASE;
      if j < written {
        assert m[APP_BASE..APP_BASE + written][j] == ImageBytes(c, 4, written)[j];
      } else {
        var i := from + (j - written);
        assert 4 + j == 512 * k + i;
        assert m2[q] == m1[buf + i] == s[i];
      }
    }
  }

  lemma OnlyWritesOn(m0: seq<Byte>, m1: seq<Byte>, m2: seq<Byte>, len1: nat, len2: nat, buf: nat)
    requires OnlyWrites(m0, m1, len1, buf) && OnlyWrites(m1, m2, len2, buf) && len1 <= len2
    ensures OnlyWrites(m0, m2, len2, buf)
  {
  }

  /** Reads image sector `k` and copies its part of the firmware behind what is loaded. */
  method LoadChunk(c: Card, m: array<Byte>, buf: nat, k: nat, from: nat, written: nat, chunk: nat) returns (status: int)
    requires BufferInBootRam(m[..], buf) && written + chunk <= MAX_FW_BYTES && from + chunk <= 512 && 512 * k + from == 4 + written
    requires Loaded(m[..], c, written)
    modifies m
    ensures status == c.status(APP_START_SECTOR + k)
    ensures OnlyWrites(old(m[..]), m[..], if status == 0 then written + chunk else 0, buf)
    ensures status == 0 ==> Loaded(m[..], c, written + chunk)
  {
    ghost var m0 := m[..];
    status := ReadSector(c, APP_START_SECTOR + k, m, buf);
    if status == 0 {
      ghost var m1 := m[..];
      var src := buf + from;
      Memcpy(m, APP_BASE + written, src, chunk);
      ghost var m2 := m[..];
      assert m2 == Put(m1, APP_BASE + written, m1[src..src + chunk], chunk);
      ChunkLoaded(m0, m1, m2, c, buf, k, from, written, chunk);
    }
  }

  /** The sectors after the header sector. */
  method LoadRest(c: Card, m: array<Byte>, buf: nat, size: nat, first: nat) returns (status: int, sectors: nat)
    requires BufferInBootRam(m[..], buf) && 0 < size <= MAX_FW_BYTES && first == if size < 508 then size else 508
    requires Readable(c, 0) && Loaded(m[..], c, first)
    modifies m
    ensures status == (if AllReadable(c, SectorsFor(size)) then 0 else -3)
    ensures OnlyWrites(old(m[..]), m[..], size, buf)
    ensures status == 0 ==> Loaded(m[..], c, size) && sectors == SectorsFor(size)
  {
    ghost var m0 := m[..];
    var written := first;
    sectors := 1;
    while written < size
      invariant BufferInBootRam(m[..], buf) && first <= written <= size && OnlyWrites(m0, m[..], written, buf)
      invariant Loaded(m[..], c, written) && AllReadable(c, sectors)
      invariant if written < size then 512 * sectors == 4 + written else sectors == SectorsFor(size)
      decreases size - written
    {
      var chunk := if size - written > 512 then 512 else size - written;
      ghost var m1 := m[..];
      var r := LoadChunk(c, m, buf, sectors, 0, written, chunk);
      if r != 0 {
        assert !Readable(c, sectors) && sectors < SectorsFor(size);
        return -3, sectors + 1;
      }
      OnlyWritesOn(m0, m1, m[..], written, written + chunk, buf);
      assert Readable(c, sectors);
      sectors := sectors + 1;
      written := written + chunk;
    }
    status := 0;
  }

  /** Loads the application. The outcome depends on the card alone; success
      leaves exactly the image's firmware bytes at the application base, having
      read just the sectors that hold them; and nothing at or above the
      bootloader's memory changes except the sector buffer. */
  method LoadFw(c: Card, m: array<Byte>, buf: nat) returns (status: int, sectors: nat)
    requires BufferInBootRam(m[..], buf)
    modifies m
    ensures status == Outcome(c)
    ensures status == 0 ==> Loaded(m[..], c, ImageSize(c)) && sectors == SectorsFor(ImageSize(c))
    ensures OnlyWrites(old(m[..]), m[..], if ImageSize(c) <= MAX_FW_BYTES then ImageSize(c) else 0, buf)
  {
    ghost var m0 := m[..];
    var r := ReadSector(c, APP_START_SECTOR, m, buf);
    sectors := 1;
    if r != 0 {
      return -1, sectors;
    }
    var size := SizeInBuffer(c, m, buf, m0);
    if size == 0 || size > MAX_FW_BYTES {
      return -2, sectors;
    }
    var written := if size < 508 then size else 508;
    LoadFirst(c, m, buf, written, m0);
    ghost var m2 := m[..];
    status, sectors := LoadRest(c, m, buf, size, written);
    OnlyWritesOn(m0, m2, m[..], written, size, buf);
  }

  /** The header, once its sector is in the buffer. */
  method SizeInBuffer(c: Card, m: array<Byte>, buf: nat, ghost m0: seq<Byte>) returns (size: nat)
    requires BufferInBootRam(m0, buf) && m[..] == Put(m0, buf, c.sectors(APP_START_SECTOR), 512)
    ensures size == ImageSize(c)
  {
    assert m[..][buf..buf + 512] == c.sectors(APP_START_SECTOR);
    size := LittleEndian(m[buf], m[buf + 1], m[buf + 2], m[buf + 3]);
  }

  /** The firmware bytes of the header sector. */
  method LoadFirst(c: Card, m: array<Byte>, buf: nat, written: nat, ghost m0: seq<Byte>)
    requires BufferInBootRam(m0, buf) && m[..] == Put(m0, buf, c.sectors(APP_START_SECTOR), 512) && written <= 508
    modifies m
    ensures BufferInBootRam(m[..], buf) && Loaded(m[..], c, written) && OnlyWrites(m0, m[..], written, buf)
  {
    ghost var m1 := m[..];
    var src := buf + 4;
    Memcpy(m, APP_BASE, src, written);
    ghost var m2 := m[..];
    assert m2 == Put(m1, APP_BASE, m1[src..src + written], written);
    ChunkLoaded(m0, m1, m2, c, buf, 0, 4, 0, written);
  }

  /** Packing, writing to the card and loading: a firmware comes back byte for
      byte if and only if its size is from 1 to 61440 bytes, when the card can be read. */
  method WrapAndLoad(fw: seq<Byte>, c: Card, m: array<Byte>, buf: nat, ghost image: seq<Byte>) returns (status: int, sectors: nat)
    requires |fw| < TWO32 && m.Length == 0x2_0000 && 0x1_F000 <= buf && buf + 512 <= m.Length
    requires 4 + |fw| <= |image| && image[..4 + |fw|] == Header(|fw|) + fw
    requires forall j: nat | j < |image| :: c.sectors(2048 + j / 512)[j % 512] == image[j]
    requires forall k: nat :: Readable(c, k)
    modifies m
    ensures status == 0 <==> 1 <= |fw| <= 61440
    ensures status == 0 ==> m[0x1_0000..0x1_0000 + |fw|] == fw && sectors == (4 + |fw| + 511) / 512
    ensures status != 0 ==> status == -2
  {
    assert Holds(c, image) by {
      forall j: nat | j < |image|
        ensures ImageByte(c, j) == image[j]
      {
        assert c.sectors(2048 + j / 512)[j % 512] == image[j];
      }
    }
    HoldsFirmware(c, image, fw);
    status, sectors := LoadFw(c, m, buf);
    if status == 0 {
      assert m[..][APP_BASE..APP_BASE + |fw|] == fw;
    }
  }
}
