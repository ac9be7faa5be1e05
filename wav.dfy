/** WAVFile.cs: the canonical 44-byte RIFF/WAVE PCM header, its little-endian
    layout as written by CreateWAVFile and read by ReadWAVHeader, and the two
    header derivations for the encrypted and the decrypted file. */
module WAV {
  import opened Types

  /** Data size the encrypted header derives from an original data size d:
      one 8-byte double per 2-byte sample, plus the leading value. */
  const SIZEOF_SHORT: uint32 := 2
  const SIZEOF_DOUBLE: uint32 := 8
  /** Bytes of the header that ReadWAVHeader and CreateWAVFile handle, and the
      offset at which both transforms start the data region */
  const HEADER_SIZE: nat := 44

  /** The WAVHeader struct; the four tags are byte arrays of any length. */
  datatype WAVHeader = WAVHeader(
    chunkID: seq<uint8>,        // "RIFF"
    chunkSize: uint32,          // documented as 36 + subchunk2Size
    format: seq<uint8>,         // "WAVE"
    subchunk1ID: seq<uint8>,    // "fmt "
    subchunk1Size: uint32,      // 16 for PCM
    audioFormat: uint16,        // 1 for PCM
    numChannels: uint16,
    sampleRate: uint32,
    byteRate: uint32,
    blockAlign: uint16,
    bitsPerSample: uint16,
    subchunk2ID: seq<uint8>,    // "data"
    subchunk2Size: uint32)      // bytes in the data region
  {
    /** Every tag has the four bytes ReadWAVHeader reads for it. */
    predicate HasFourByteTags()
    {
      |chunkID| == 4 && |format| == 4 && |subchunk1ID| == 4 && |subchunk2ID| == 4
    }
  }

  /** `new WAVHeader()`: zero numbers, and the null tags as empty sequences */
  function EmptyHeader(): WAVHeader
  {
    WAVHeader([], 0, [], [], 0, 0, 0, 0, 0, 0, 0, [], 0)
  }

  // ---- Little-endian fields (BinaryWriter.Write / BinaryReader.ReadUInt16, ReadUInt32) ----

  function LE16(v: uint16): (b: seq<uint8>)
    ensures |b| == 2
  {
    [v % 0x100, v / 0x100]
  }

  function LE32(v: uint32): (b: seq<uint8>)
    ensures |b| == 4
  {
    [v % 0x100, (v / 0x100) % 0x100, (v / 0x100 / 0x100) % 0x100, v / 0x100 / 0x100 / 0x100]
  }

  function FromLE16(b: seq<uint8>): uint16
    requires |b| == 2
  {
    b[0] as int + 0x100 * b[1] as int
  }

  function FromLE32(b: seq<uint8>): uint32
    requires |b| == 4
  {
    b[0] as int + 0x100 * (b[1] as int + 0x100 * (b[2] as int + 0x100 * b[3] as int))
  }

  lemma LE16RoundTrip(v: uint16)
    ensures FromLE16(LE16(v)) == v
  {
  }

  lemma FromLE16RoundTrip(b: seq<uint8>)
    requires |b| == 2
    ensures LE16(FromLE16(b)) == b
  {
  }

  lemma LE32RoundTrip(v: uint32)
    ensures FromLE32(LE32(v)) == v
  {
    var q1 := v / 0x100;
    var q2 := q1 / 0x100;
    assert v == v % 0x100 + 0x100 * q1;
    assert q1 == q1 % 0x100 + 0x100 * q2;
    assert q2 == q2 % 0x100 + 0x100 * (q2 / 0x100);
  }

  lemma FromLE32RoundTrip(b: seq<uint8>)
    requires |b| == 4
    ensures LE32(FromLE32(b)) == b
  {
    var high := b[2] as int + 0x100 * b[3] as int;
    var mid := b[1] as int + 0x100 * high;
    var v := FromLE32(b);
    ByteSplit(b[0], mid);
    ByteSplit(b[1], high);
    ByteSplit(b[2], b[3]);
    assert v / 0x100 == mid && v % 0x100 == b[0];
    assert (v / 0x100) / 0x100 == high;
    assert ((v / 0x100) / 0x100) / 0x100 == b[3];
  }

  lemma ByteSplit(low: uint8, high: int)
    requires high >= 0
    ensures (low + 0x100 * high) / 0x100 == high && (low + 0x100 * high) % 0x100 == low
  {
  }

  // ---- Header layout ----

  /** The bytes CreateWAVFile writes: the 13 fields in declaration order of the
      file format, numbers little-endian, tags as they are. */
  function SerializeHeader(h: WAVHeader): (b: seq<uint8>)
    ensures |b| == 28 + |h.chunkID| + |h.format| + |h.subchunk1ID| + |h.subchunk2ID|
    ensures h.HasFourByteTags() ==> |b| == HEADER_SIZE
  {
    h.chunkID + LE32(h.chunkSize) + h.format + h.subchunk1ID + LE32(h.subchunk1Size)
    + LE16(h.audioFormat) + LE16(h.numChannels) + LE32(h.sampleRate) + LE32(h.byteRate)
    + LE16(h.blockAlign) + LE16(h.bitsPerSample) + h.subchunk2ID + LE32(h.subchunk2Size)
  }

  /** The two bytes at `offset` */
  function Bytes2(file: seq<uint8>, offset: nat): (b: seq<uint8>)
    requires offset + 2 <= |file|
    ensures b == file[offset..offset + 2]
  {
    [file[offset], file[offset + 1]]
  }

  /** The four bytes at `offset` */
  function Bytes4(file: seq<uint8>, offset: nat): (b: seq<uint8>)
    requires offset + 4 <= |file|
    ensures b == file[offset..offset + 4]
  {
    [file[offset], file[offset + 1], file[offset + 2], file[offset + 3]]
  }

  /** The header ReadWAVHeader reads from the start of a file: four bytes per
      tag, the numbers little-endian. A file shorter than 44 bytes makes one
      of the reads throw. */
  function ParseHeader(file: seq<uint8>): (r: Option<WAVHeader>)
    ensures r.Some? <==> |file| >= HEADER_SIZE
    ensures r.Some? ==> r.value.HasFourByteTags()
  {
    if |file| < HEADER_SIZE then None
    else Some(WAVHeader(
      Bytes4(file, 0), FromLE32(Bytes4(file, 4)), Bytes4(file, 8), Bytes4(file, 12), FromLE32(Bytes4(file, 16)),
      FromLE16(Bytes2(file, 20)), FromLE16(Bytes2(file, 22)), FromLE32(Bytes4(file, 24)), FromLE32(Bytes4(file, 28)),
      FromLE16(Bytes2(file, 32)), FromLE16(Bytes2(file, 34)), Bytes4(file, 36), FromLE32(Bytes4(file, 40))))
  }

  /** Reading back a written header with four-byte tags gives the same
      header, whatever the file holds after it. */
  lemma ParseSerialize(h: WAVHeader, rest: seq<uint8>)
    requires h.HasFourByteTags()
    ensures ParseHeader(SerializeHeader(h) + rest) == Some(h)
  {
    var b := SerializeHeader(h) + rest;
    assert b[0..4] == h.chunkID;
    assert b[4..8] == LE32(h.chunkSize);
    assert b[8..12] == h.format;
    assert b[12..16] == h.subchunk1ID;
    assert b[16..20] == LE32(h.subchunk1Size);
    assert b[20..22] == LE16(h.audioFormat);
    assert b[22..24] == LE16(h.numChannels);
    assert b[24..28] == LE32(h.sampleRate);
    assert b[28..32] == LE32(h.byteRate);
    assert b[32..34] == LE16(h.blockAlign);
    assert b[34..36] == LE16(h.bitsPerSample);
    assert b[36..40] == h.subchunk2ID;
    assert b[40..44] == LE32(h.subchunk2Size);
    LE32RoundTrip(h.chunkSize);
    LE32RoundTrip(h.subchunk1Size);
    LE16RoundTrip(h.audioFormat);
    LE16RoundTrip(h.numChannels);
    LE32RoundTrip(h.sampleRate);
    LE32RoundTrip(h.byteRate);
    LE16RoundTrip(h.blockAlign);
    LE16RoundTrip(h.bitsPerSample);
    LE32RoundTrip(h.subchunk2Size);
  }

  /** Writing a header that was read gives back the first 44 bytes of the file. */
  lemma SerializeParse(file: seq<uint8>)
    requires |file| >= HEADER_SIZE
    ensures SerializeHeader(ParseHeader(file).value) == file[..HEADER_SIZE]
  {
    FromLE32RoundTrip(file[4..8]);
    FromLE32RoundTrip(file[16..20]);
    FromLE16RoundTrip(file[20..22]);
    FromLE16RoundTrip(file[22..24]);
    FromLE32RoundTrip(file[24..28]);
    FromLE32RoundTrip(file[28..32]);
    FromLE16RoundTrip(file[32..34]);
    FromLE16RoundTrip(file[34..36]);
    FromLE32RoundTrip(file[40..44]);
    assert file[..HEADER_SIZE] == file[0..4] + file[4..8] + file[8..12] + file[12..16] + file[16..20]
      + file[20..22] + file[22..24] + file[24..28] + file[28..32] + file[32..34] + file[34..36]
      + file[36..40] + file[40..44];
  }

  // ---- Header derivations ----

  /** The header CreateEncryptedWAVFile derives: the data size times
      sizeof(double) / sizeof(short), plus sizeof(double) for the leading value,
      in unchecked `uint` arithmetic. ChunkSize is computed from the size the
      header had before the patch: the code reads the property, not the local
      copy it has just changed. */
  function EncryptedHeader(h: WAVHeader): (r: WAVHeader)
    ensures r == h.(subchunk2Size := r.subchunk2Size, chunkSize := r.chunkSize)
    ensures r.subchunk2Size == (4 * h.subchunk2Size + 8) % TWO_TO_THE_32
    ensures r.chunkSize == (h.subchunk2Size + 36) % TWO_TO_THE_32
  {
    var scaled := h.(subchunk2Size := Wrap(h.subchunk2Size * (SIZEOF_DOUBLE / SIZEOF_SHORT)));
    var extended := scaled.(subchunk2Size := Add32(scaled.subchunk2Size, SIZEOF_DOUBLE));
    extended.(chunkSize := Add32(h.subchunk2Size, 36))
  }

  /** The header CreateDecryptedWAVFile derives: the data size less
      sizeof(short), in unchecked `uint` arithmetic, so 0 and 1 wrap; ChunkSize
      again from the size before the patch. */
  function DecryptedHeader(h: WAVHeader): (r: WAVHeader)
    ensures r == h.(subchunk2Size := r.subchunk2Size, chunkSize := r.chunkSize)
    ensures h.subchunk2Size >= 2 ==> r.subchunk2Size == h.subchunk2Size - 2
    ensures h.subchunk2Size < 2 ==> r.subchunk2Size == h.subchunk2Size + TWO_TO_THE_32 - 2
    ensures r.chunkSize == (h.subchunk2Size + 36) % TWO_TO_THE_32
  {
    var reduced := h.(subchunk2Size := Sub32(h.subchunk2Size, SIZEOF_SHORT));
    reduced.(chunkSize := Add32(h.subchunk2Size, 36))
  }

  /** The relation ChunkSize = Subchunk2Size + 36 that the header comments
      promise holds in an encrypted header for one original data size only. */
  lemma EncryptedChunkSizeMismatch(h: WAVHeader)
    ensures var r := EncryptedHeader(h);
            r.chunkSize == r.subchunk2Size + 36 <==> h.subchunk2Size == 2863311528
  {
    var d := h.subchunk2Size;
    var r := EncryptedHeader(h);
    if r.chunkSize == r.subchunk2Size + 36 && d + 36 < TWO_TO_THE_32 {
      assert (4 * d + 8) % TWO_TO_THE_32 == d;
      ThreeDPlusEight(d);
    }
  }

  lemma ThreeDPlusEight(d: uint32)
    requires (4 * d + 8) % TWO_TO_THE_32 == d
    ensures d == 2863311528
  {
    var q := (4 * d + 8) / TWO_TO_THE_32;
    assert 4 * d + 8 == q * TWO_TO_THE_32 + d;
    assert 3 * d + 8 == q * TWO_TO_THE_32;
    assert 0 <= q <= 3;
  }

  /** In a decrypted header ChunkSize = Subchunk2Size + 36 never holds; when
      nothing wraps, ChunkSize is Subchunk2Size + 38. */
  lemma DecryptedChunkSizeMismatch(h: WAVHeader)
    ensures var r := DecryptedHeader(h); r.chunkSize != r.subchunk2Size + 36
    ensures var r := DecryptedHeader(h);
            2 <= h.subchunk2Size < TWO_TO_THE_32 - 36 ==> r.chunkSize == r.subchunk2Size + 38
  {
  }

  // ---- The file object ----

  /** A WAV file: its name and the header the program holds for it. The disk
      contents are passed in and returned as byte sequences. */
  class WAVFile {
    var fileName: string
    var header: WAVHeader

    constructor (fileName: string)
      ensures this.fileName == fileName && header == EmptyHeader()
    {
      this.fileName := fileName;
      header := EmptyHeader();
    }

    /** Reads the header from the start of `file`, one field at a time. */
    method ReadWAVHeader(file: seq<uint8>) returns (ok: bool)
      modifies this`header
      ensures ok <==> |file| >= HEADER_SIZE
      ensures ok ==> ParseHeader(file) == Some(header)
      ensures !ok ==> header == old(header)
    {
      if |file| < HEADER_SIZE {
        // a read past the end of the stream throws
        return false;
      }
      var h := EmptyHeader();
      h := h.(chunkID := file[0..4]);
      h := h.(chunkSize := FromLE32(file[4..8]));
      h := h.(format := file[8..12]);
      h := h.(subchunk1ID := file[12..16]);
      h := h.(subchunk1Size := FromLE32(file[16..20]));
      h := h.(audioFormat := FromLE16(file[20..22]));
      h := h.(numChannels := FromLE16(file[22..24]));
      h := h.(sampleRate := FromLE32(file[24..28]));
      h := h.(byteRate := FromLE32(file[28..32]));
      h := h.(blockAlign := FromLE16(file[32..34]));
      h := h.(bitsPerSample := FromLE16(file[34..36]));
      h := h.(subchunk2ID := file[36..40]);
      h := h.(subchunk2Size := FromLE32(file[40..44]));
      header := h;
      ok := true;
    }

    /** The bytes a new file gets: the header, one write per field. */
    method CreateWAVFile() returns (file: seq<uint8>)
      ensures file == SerializeHeader(header)
      ensures header.HasFourByteTags() ==> |file| == HEADER_SIZE
    {
      file := header.chunkID;
      file := file + LE32(header.chunkSize);
      file := file + header.format;
      file := file + header.subchunk1ID;
      file := file + LE32(header.subchunk1Size);
      file := file + LE16(header.audioFormat);
      file := file + LE16(header.numChannels);
      file := file + LE32(header.sampleRate);
      file := file + LE32(header.byteRate);
      file := file + LE16(header.blockAlign);
      file := file + LE16(header.bitsPerSample);
      file := file + header.subchunk2ID;
      file := file + LE32(header.subchunk2Size);
    }

    /** Patches the header for the encrypted file and writes it. */
    method CreateEncryptedWAVFile() returns (file: seq<uint8>)
      modifies this`header
      ensures header == EncryptedHeader(old(header))
      ensures file == SerializeHeader(header)
    {
      var h := header;
      h := h.(subchunk2Size := Wrap(h.subchunk2Size * (SIZEOF_DOUBLE / SIZEOF_SHORT)));
      h := h.(subchunk2Size := Add32(h.subchunk2Size, SIZEOF_DOUBLE));
      // from the field, which still holds the unpatched header
      h := h.(chunkSize := Add32(header.subchunk2Size, 36));
      header := h;
      file := CreateWAVFile();
    }

    /** Patches the header for the decrypted file and writes it. */
    method CreateDecryptedWAVFile() returns (file: seq<uint8>)
      modifies this`header
      ensures header == DecryptedHeader(old(header))
      ensures file == SerializeHeader(header)
    {
      var h := header;
      h := h.(subchunk2Size := Sub32(h.subchunk2Size, SIZEOF_SHORT));
      // from the field, which still holds the unpatched header
      h := h.(chunkSize := Add32(header.subchunk2Size, 36));
      header := h;
      file := CreateWAVFile();
    }
  }
}
