/**
 The stand-alone filesystem detector: it reads the first 16 bytes of
 block 0 of the flash and names the filesystem by its signature. The flash
 read and the printing are not modelled; the buffer is the input.
 */
module Filetype {

  newtype Byte = x: int | 0 <= x < 256

  datatype Fs = LittleFs | Fat | Unknown

  /** Length of the buffer read from block 0. */
  const BlockBytes := 16

  predicate IsAscii(s: string)
  {
    forall k :: 0 <= k < |s| ==> s[k] as int < 256
  }

  /** The bytes of an ASCII string, as a `b'...'` literal gives them. */
  function Ascii(s: string): (b: seq<Byte>)
    requires IsAscii(s)
    ensures |b| == |s| && forall k :: 0 <= k < |s| ==> b[k] as int == s[k] as int
  {
    seq(|s|, k requires 0 <= k < |s| => s[k] as int as Byte)
  }

  /** `b'littlefs'`, expected at offsets 8 to 15. */
  const LittleFsMagic: seq<Byte> := Ascii("littlefs")
  /** `b'MSDOS5.0'`, the OEM name expected at offsets 3 to 10. */
  const FatMagic: seq<Byte> := Ascii("MSDOS5.0")

  /** The if / elif / else over the two signatures. Since no buffer carries
      both, each result names exactly the signature found. */
  function Detect(buf: seq<Byte>): (fs: Fs)
    requires |buf| == BlockBytes
    ensures fs == LittleFs <==> buf[8..16] == LittleFsMagic
    ensures fs == Fat <==> buf[3..11] == FatMagic
    ensures fs == Unknown <==> buf[8..16] != LittleFsMagic && buf[3..11] != FatMagic
  {
    SignaturesExclusive(buf);
    if buf[8..16] == LittleFsMagic then LittleFs
    else if buf[3..11] == FatMagic then Fat
    else Unknown
  }

  /** The same decision with the FAT test first. */
  function DetectFatFirst(buf: seq<Byte>): Fs
    requires |buf| == BlockBytes
  {
    if buf[3..11] == FatMagic then Fat
    else if buf[8..16] == LittleFsMagic then LittleFs
    else Unknown
  }

  /** No buffer carries both signatures: byte 8 would have to be both 'l'
      (first byte of "littlefs") and '5' (sixth byte of "MSDOS5.0"). */
  lemma SignaturesExclusive(buf: seq<Byte>)
    requires |buf| == BlockBytes
    ensures !(buf[8..16] == LittleFsMagic && buf[3..11] == FatMagic)
  {
    if buf[8..16] == LittleFsMagic {
      assert buf[8] == buf[8..16][0] == LittleFsMagic[0];
      assert buf[3..11][5] == buf[8];
      assert LittleFsMagic[0] as int == 'l' as int != '5' as int == FatMagic[5] as int;
    }
  }

  /** Hence the order of the two tests does not matter. */
  lemma CheckOrderIrrelevant(buf: seq<Byte>)
    requires |buf| == BlockBytes
    ensures DetectFatFirst(buf) == Detect(buf)
  {
    SignaturesExclusive(buf);
  }

  /** Bytes 0 to 2 (the FAT jump instruction) never affect the result. */
  lemma LeadingBytesIgnored(b1: seq<Byte>, b2: seq<Byte>)
    requires |b1| == |b2| == BlockBytes
    requires b1[3..] == b2[3..]
    ensures Detect(b1) == Detect(b2)
  {
    assert b1[8..16] == b1[3..][5..13] == b2[3..][5..13] == b2[8..16];
    assert b1[3..11] == b1[3..][..8] == b2[3..][..8] == b2[3..11];
  }

  /** LittleFS wins whatever the other eight bytes hold. */
  lemma LittleFsWhateverElse(head: seq<Byte>)
    requires |head| == 8
    ensures Detect(head + LittleFsMagic) == LittleFs
  {
    assert (head + LittleFsMagic)[8..16] == LittleFsMagic;
  }

  /** Each of the three results is reached by some buffer. */
  lemma EveryResultReachable()
    ensures Detect([0, 0, 0] + FatMagic + [0, 0, 0, 0, 0]) == Fat
    ensures Detect(seq(16, _ => 0)) == Unknown
  {
    var fat: seq<Byte> := [0, 0, 0] + FatMagic + [0, 0, 0, 0, 0];
    assert fat[3..11] == FatMagic;
    SignaturesExclusive(fat);
    var zero: seq<Byte> := seq(16, _ => 0);
    assert zero[8..16][0] == 0 && LittleFsMagic[0] != 0;
    assert zero[3..11][0] == 0 && FatMagic[0] != 0;
  }
}
