/** Program.cs: the output names, the argument checks and the order in which
    Main reads the original header, derives the two output headers and runs
    the two transforms with the same key. */
module Program {
  import opened Types
  import SDS
  import WAV

  /** The key Main passes to both transforms */
  const KEY: int := 1
  const WAV_EXTENSION: string := ".wav"
  const ENCRYPTED_SUFFIX: string := " (encrypted)"
  const DECRYPTED_SUFFIX: string := " (decrypted)"
  const NOT_ONE_ARGUMENT: string := "Please supply only a WAV file for encryption."
  const NOT_A_WAV_NAME: string := "Please supply a correct WAV file for encryption."

  // ---- File names ----

  predicate OccursAt(s: string, pattern: string, i: nat)
  {
    i + |pattern| <= |s| && s[i..i + |pattern|] == pattern
  }

  /** Ordinal search for the first occurrence of `pattern` at or after `from` */
  function IndexFrom(s: string, pattern: string, from: nat): (r: Option<nat>)
    ensures r.Some? ==> from <= r.value && OccursAt(s, pattern, r.value)
    ensures r.Some? ==> forall j :: from <= j < r.value ==> !OccursAt(s, pattern, j)
    ensures r.None? ==> forall j :: from <= j ==> !OccursAt(s, pattern, j)
    decreases |s| + 1 - from
  {
    if from + |pattern| > |s| then None
    else if OccursAt(s, pattern, from) then Some(from)
    else IndexFrom(s, pattern, from + 1)
  }

  /** string.IndexOf, ordinal: the first index at which `pattern` occurs */
  function IndexOf(s: string, pattern: string): Option<nat>
  {
    IndexFrom(s, pattern, 0)
  }

  predicate Contains(s: string, pattern: string)
  {
    IndexOf(s, pattern).Some?
  }

  /** string.Insert */
  function Insert(s: string, index: nat, value: string): string
    requires index <= |s|
  {
    s[..index] + value + s[index..]
  }

  /** `name` with `suffix` inserted just before its first ".wav" */
  function DerivedName(name: string, suffix: string): (r: string)
    requires Contains(name, WAV_EXTENSION)
    ensures var i := IndexOf(name, WAV_EXTENSION).value;
            |r| == |name| + |suffix| && r[..i] == name[..i]
            && r[i..i + |suffix|] == suffix && r[i + |suffix|..] == name[i..]
  {
    Insert(name, IndexOf(name, WAV_EXTENSION).value, suffix)
  }

  function EncryptedName(name: string): string
    requires Contains(name, WAV_EXTENSION)
  {
    DerivedName(name, ENCRYPTED_SUFFIX)
  }

  function DecryptedName(name: string): string
    requires Contains(name, WAV_EXTENSION)
  {
    DerivedName(name, DECRYPTED_SUFFIX)
  }

  /** The two output names are 12 characters longer than the original, and
      the three names are pairwise different. */
  lemma OutputNamesDistinct(name: string)
    requires Contains(name, WAV_EXTENSION)
    ensures |EncryptedName(name)| == |name| + 12 && |DecryptedName(name)| == |name| + 12
    ensures EncryptedName(name) != name && DecryptedName(name) != name
    ensures EncryptedName(name) != DecryptedName(name)
  {
    var i := IndexOf(name, WAV_EXTENSION).value;
    assert EncryptedName(name)[i + 2] == 'e';
    assert DecryptedName(name)[i + 2] == 'd';
  }

  /** A derived name keeps the extension: its first ".wav" now comes right
      after the inserted suffix, so "song.wav" becomes "song (encrypted).wav". */
  lemma DerivedNameKeepsExtension(name: string, suffix: string)
    requires Contains(name, WAV_EXTENSION)
    requires |suffix| > 0 && suffix[0] == ' ' && forall k :: 0 <= k < |suffix| ==> suffix[k] != '.'
    ensures IndexOf(DerivedName(name, suffix), WAV_EXTENSION) == Some(IndexOf(name, WAV_EXTENSION).value + |suffix|)
  {
    var i := IndexOf(name, WAV_EXTENSION).value;
    var r := DerivedName(name, suffix);
    var e := i + |suffix|;
    assert r[e..e + 4] == name[i..i + 4];
    assert OccursAt(r, WAV_EXTENSION, e);
    forall j | 0 <= j < e
      ensures !OccursAt(r, WAV_EXTENSION, j)
    {
      if j + 4 <= i {
        assert r[j..j + 4] == name[j..j + 4];
        assert !OccursAt(name, WAV_EXTENSION, j);
      } else if j < i {
        // the window would hold the suffix's leading space
        if j + 4 <= |r| {
          assert r[i] == suffix[0] == ' ';
          assert r[j..j + 4][i - j] == r[i];
          assert WAV_EXTENSION[i - j] != ' ';
        }
      } else {
        // the window would start inside the suffix, which has no '.'
        if j + 4 <= |r| {
          assert r[j] == suffix[j - i] != '.';
          assert r[j..j + 4][0] == r[j];
        }
      }
    }
    NoEarlierOccurrence(r, WAV_EXTENSION, 0, e);
  }

  lemma {:induction false} NoEarlierOccurrence(s: string, pattern: string, from: nat, e: nat)
    requires from <= e && OccursAt(s, pattern, e)
    requires forall j :: from <= j < e ==> !OccursAt(s, pattern, j)
    ensures IndexFrom(s, pattern, from) == Some(e)
    decreases e - from
  {
    if from < e {
      NoEarlierOccurrence(s, pattern, from + 1, e);
    }
  }

  // ---- The pipeline ----

  /** BinaryReader.ReadInt16: two bytes, little-endian, two's complement */
  function Int16LE(low: uint8, high: uint8): (v: int16)
    ensures v % 0x1_0000 == (low + 0x100 * high) % 0x1_0000
  {
    var u := low + 0x100 * high;
    if u >= 0x8000 then u - 0x1_0000 else u
  }

  /** The data region of the original file as 16-bit samples */
  function Samples(data: seq<uint8>): (s: seq<int16>)
    requires |data| % 2 == 0
    ensures |s| == |data| / 2
  {
    seq(|data| / 2, i requires 0 <= i < |data| / 2 => Int16LE(data[2 * i], data[2 * i + 1]))
  }

  /** An output file: the header bytes written first, then the data region
      appended after them. */
  datatype OutputFile<T> = OutputFile(name: string, header: seq<uint8>, data: seq<T>)

  datatype Outcome =
    | Usage(message: string)
    // ReadWAVHeader throws: the original is shorter than a header
    | HeaderUnreadable
    // ReadInt16 throws: the original data region ends inside a sample
    | PartialSample
    | Completed(encrypted: OutputFile<real>, decrypted: OutputFile<int16>, error: Option<SDS.DecodeError>)

  /** The encryption block of Main: copy the original header, derive and
      write the encrypted header, then append one double per step. An odd
      data region makes the last ReadInt16 throw. */
  method EncryptToFile(originalFile: WAV.WAVFile, fileName: string, data: seq<uint8>, rt: SDS.Runtime)
      returns (file: Option<OutputFile<real>>)
    ensures |data| % 2 == 1 ==> file == None
    ensures |data| % 2 == 0 ==>
              file == Some(OutputFile(fileName, WAV.SerializeHeader(WAV.EncryptedHeader(originalFile.header)),
                                      SDS.Encrypt(Samples(data), KEY, rt)))
    ensures file.Some? && originalFile.header.HasFourByteTags() ==> |file.value.header| == WAV.HEADER_SIZE
  {
    var encryptedFile := new WAV.WAVFile(fileName);
    encryptedFile.header := originalFile.header;
    var header := encryptedFile.CreateEncryptedWAVFile();
    if |data| % 2 == 1 {
      return None;
    }
    var encrypted, samplesCount;
    ghost var drawsMade;
    encrypted, samplesCount, drawsMade := SDS.EncryptWAVFile(Samples(data), KEY, rt);
    file := Some(OutputFile(fileName, header, encrypted));
  }

  /** The decryption block of Main: copy the ORIGINAL header, derive and
      write the decrypted header, then append the decoded samples of the
      encrypted data region. */
  method DecryptToFile(originalFile: WAV.WAVFile, fileName: string, encrypted: seq<real>, rt: SDS.Runtime)
      returns (file: OutputFile<int16>, error: Option<SDS.DecodeError>)
    ensures var d := SDS.Decrypt(encrypted, KEY, rt);
            file == OutputFile(fileName, WAV.SerializeHeader(WAV.DecryptedHeader(originalFile.header)), d.samples)
            && error == d.error
    ensures originalFile.header.HasFourByteTags() ==> |file.header| == WAV.HEADER_SIZE
  {
    var decryptedFile := new WAV.WAVFile(fileName);
    decryptedFile.header := originalFile.header;
    var header := decryptedFile.CreateDecryptedWAVFile();
    var decrypted, samplesCount;
    ghost var drawsMade;
    decrypted, error, samplesCount, drawsMade := SDS.DecryptWAVFile(encrypted, KEY, rt);
    file := OutputFile(fileName, header, decrypted);
  }

  /** Main: check the argument, name the outputs, read the original header,
      then run the encryption and the decryption blocks, both from the
      original header and with KEY. */
  method Run(args: seq<string>, original: seq<uint8>, rt: SDS.Runtime) returns (outcome: Outcome)
    ensures |args| != 1 ==> outcome == Usage(NOT_ONE_ARGUMENT)
    ensures |args| == 1 && !Contains(args[0], WAV_EXTENSION) ==> outcome == Usage(NOT_A_WAV_NAME)
    ensures |args| == 1 && Contains(args[0], WAV_EXTENSION) && |original| < WAV.HEADER_SIZE
            ==> outcome == HeaderUnreadable
    ensures (|args| == 1 && Contains(args[0], WAV_EXTENSION) && |original| >= WAV.HEADER_SIZE
             && |original[WAV.HEADER_SIZE..]| % 2 == 1) ==> outcome == PartialSample
    ensures (|args| == 1 && Contains(args[0], WAV_EXTENSION) && |original| >= WAV.HEADER_SIZE
             && |original[WAV.HEADER_SIZE..]| % 2 == 0) ==>
              var h := WAV.ParseHeader(original).value;
              var x := SDS.Encrypt(Samples(original[WAV.HEADER_SIZE..]), KEY, rt);
              var d := SDS.Decrypt(x, KEY, rt);
              outcome == Completed(
                OutputFile(EncryptedName(args[0]), WAV.SerializeHeader(WAV.EncryptedHeader(h)), x),
                OutputFile(DecryptedName(args[0]), WAV.SerializeHeader(WAV.DecryptedHeader(h)), d.samples),
                d.error)
    ensures outcome.Completed? ==> |outcome.encrypted.header| == |outcome.decrypted.header| == WAV.HEADER_SIZE
  {
    if |args| != 1 {
      return Usage(NOT_ONE_ARGUMENT);
    }
    var fileNameOriginal := args[0];
    if !Contains(fileNameOriginal, WAV_EXTENSION) {
      return Usage(NOT_A_WAV_NAME);
    }
    var fileNameEncrypted := EncryptedName(fileNameOriginal);
    var fileNameDecrypted := DecryptedName(fileNameOriginal);

    // input
    var originalFile := new WAV.WAVFile(fileNameOriginal);
    var read := originalFile.ReadWAVHeader(original);
    if !read {
      return HeaderUnreadable;
    }

    var encrypted := EncryptToFile(originalFile, fileNameEncrypted, original[WAV.HEADER_SIZE..], rt);
    if encrypted.None? {
      return PartialSample;
    }
    // decryption reads the encrypted file from the end of its header on
    var decrypted, error := DecryptToFile(originalFile, fileNameDecrypted, encrypted.value.data, rt);
    outcome := Completed(encrypted.value, decrypted, error);
  }

  /** For an original whose header states its data size d = 2N truthfully,
      N >= 1, and no wrap-around: encryption appends 8(N + 1) = 4d + 8 bytes,
      what the encrypted header states; a complete decryption appends
      2(N - 1) = d - 2 bytes, what the decrypted header states. The encrypted
      ChunkSize falls short of the real chunk by 6N + 8 bytes. */
  lemma DataSizesMatchHeaders(h: WAV.WAVHeader, samples: seq<int16>, rt: SDS.Runtime)
    requires |samples| >= 1 && h.subchunk2Size == 2 * |samples|
    requires 4 * h.subchunk2Size + 8 < TWO_TO_THE_32
    ensures 8 * |SDS.Encrypt(samples, KEY, rt)| == WAV.EncryptedHeader(h).subchunk2Size
    ensures var d := SDS.Decrypt(SDS.Encrypt(samples, KEY, rt), KEY, rt);
            d.error.None? ==> 2 * |d.samples| == WAV.DecryptedHeader(h).subchunk2Size
    ensures WAV.EncryptedHeader(h).chunkSize + 6 * |samples| + 8
            == 8 * |SDS.Encrypt(samples, KEY, rt)| + 36
  {
  }

  /** With the key Main uses for both directions, the decrypted file holds
      every original sample but the last, and its header's data size is
      exactly the bytes written, provided no decrypt window starts at 0. */
  lemma PipelineRoundTrip(h: WAV.WAVHeader, samples: seq<int16>, rt: SDS.Runtime)
    requires |samples| >= 1 && h.subchunk2Size == 2 * |samples|
    requires forall i :: 0 <= i < |samples| - 1 ==> SDS.Encrypt(samples, KEY, rt)[i] != 0.0
    ensures SDS.Decrypt(SDS.Encrypt(samples, KEY, rt), KEY, rt)
            == SDS.Decryption(samples[..|samples| - 1], None)
    ensures 2 * |samples[..|samples| - 1]| == WAV.DecryptedHeader(h).subchunk2Size
  {
    SDS.RoundTrip(samples, KEY, rt);
  }
}
