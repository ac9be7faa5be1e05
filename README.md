# SDS sound encryption, modelled in Dafny

SDSSoundEncrypt hides a 16-bit PCM WAV file by feeding each sample into a
stochastic differential system (SDS). The system is a two-variable nonlinear
recurrence that is stepped with Euler's method. Each step is driven by white
noise from a generator seeded with a key. The encrypted file stores the first
state variable `x1` of every step as a double. Decryption recovers each sample
from three consecutive stored values and the same noise draw, by solving the
step equation for the sample.

This project models the three core files:

- `sds.dfy` (module `SDS`, from `SDS.cs`).
  - The step functions over `real`, with `Math.Pow(x, n)` as repeated multiplication.
  - The reverse solve, the sample codec and `Math.Round`.
  - The encrypt and decrypt loops as methods. They are proved against the
    specification functions `Trace`/`Encrypt` and `DecryptWindows`/`Decrypt`.
  - The exact-inverse and round-trip lemmas.
- `wav.dfy` (module `WAV`, from `WAVFile.cs`).
  - The `WAVHeader` record and its 44-byte little-endian layout, in both
    directions, with round trips.
  - The two header derivations in unchecked 32-bit arithmetic.
  - The `WAVFile` class, whose methods update its `header` field as the C#
    property is updated.
- `program.dfy` (module `Program`, from `Program.cs`).
  - Ordinal `IndexOf`/`Insert` name derivation.
  - The argument checks.
  - `Run`, which is `Main`: it reads the header, copies the original header
    into each output, derives and writes that header, and then appends the
    transformed data. Both directions use key 1.
- `types.dfy` (module `Types`): the C# integer widths, unchecked `uint`
  arithmetic, `Option` and `Result`.

The .NET runtime enters as the value `SDS.Runtime`. `seeded(key)(k)` is the
k-th `NextDouble()` of `new Random(key)`, and `sqrtN0DT` is
`Math.Sqrt(N0 / DT)`. No property depends on what these values are. The key
fact is that encryption step k and decryption window k both use draw k of the
same key.

Where the code and its own documentation disagree, the model follows the code:

- The header comments (WAVFile.cs:19, :141, :161) promise
  `ChunkSize = Subchunk2Size + 36`. But WAVFile.cs:142 and :162 compute
  `ChunkSize` from the property `Header`, which still holds the unpatched
  header. So the derived `ChunkSize` is the original size plus 36.
  `WAV.EncryptedChunkSizeMismatch` proves that the promise holds in an
  encrypted header for exactly one original size, d = 2863311528.
  `WAV.DecryptedChunkSizeMismatch` proves it never holds in a decrypted header.
- The decrypted header is derived from the original header, not from the
  encrypted one (Program.cs:54). Its data size is therefore d - 2, not
  4d + 8 - 2.
- Round trips hold exactly over `real`. Nothing is claimed about IEEE doubles.

## Model

| member | source | states |
|---|---|---|
| `SDS.NoiseOfDraw` | SDSSoundEncrypt/SDS.cs:144-145 | a uniform draw u becomes the noise (Z1 + Z2·u)·sqrt(N0/DT) of that draw's index |
| `SDS.Random.constructor` | SDSSoundEncrypt/SDS.cs:91 | a generator seeded with the key starts at draw 0 of that key's stream |
| `SDS.Random.NextDouble` | SDSSoundEncrypt/SDS.cs:144 | each call returns the next draw of the stream and advances the count by one |
| `SDS.GetX1Encrypted` | SDSSoundEncrypt/SDS.cs:36-39 | the Euler step x1 + x2·DT of the first state variable; `SDS.StepInverse` states the property it has together with the other two step functions |
| `SDS.GetX2Encrypted` | SDSSoundEncrypt/SDS.cs:49-52 | the Euler step of x2 driven by the noise and by the sample c3 as the coefficient of x1³; `SDS.StepInverse` shows that c3 can be solved back out of it |
| `SDS.GetC3Decrypted` | SDSSoundEncrypt/SDS.cs:65-71 | the reverse solve for c3 from x1[i], x1[i+1], x1[i+2] and the noise, defined for x1[i] ≠ 0; `SDS.ReverseStep` and `SDS.StepInverse` prove it inverts the forward step |
| `SDS.ReverseAlgebra` | SDSSoundEncrypt/SDS.cs:36-71 | any c3 with c3·x1[i]³ equal to the reverse numerator drives the forward step from x1[i], x1[i+1] to x1[i+2] |
| `SDS.PowNonZero` | SDSSoundEncrypt/SDS.cs:68 | x^n is not 0 when x is not 0, so the division by Math.Pow(x1[i], 3) is defined exactly when x1[i] ≠ 0 |
| `SDS.ReverseStep` | SDSSoundEncrypt/SDS.cs:65-71 | for x1[i] ≠ 0, re-running the forward step with the c3 that GetC3Decrypted returns and x2 = (x1[i+1] − x1[i])/DT reproduces x1[i+2] |
| `SDS.StepInverse` | SDSSoundEncrypt/SDS.cs:36-71 | GetC3Decrypted applied to the three values a forward step emits recovers the c3 fed to GetX2Encrypted, whenever x1 ≠ 0: it is the exact inverse |
| `SDS.Normalize` | SDSSoundEncrypt/SDS.cs:118-126 | every 16-bit sample maps into [−1, 1], with its sign kept, 0 to 0, −32768 to −1 and 32767 to 1 |
| `SDS.NormalizeMonotonic` | SDSSoundEncrypt/SDS.cs:118-126 | normalisation keeps the order of samples |
| `SDS.Denormalize` | SDSSoundEncrypt/SDS.cs:236-244 | scaling by 32768 below 0 and by 32767 otherwise keeps the sign of c3 and maps 0 to 0; `SDS.DenormalizeNormalize` shows it undoes Normalize |
| `SDS.DenormalizeNormalize` | SDSSoundEncrypt/SDS.cs:236-244 | denormalising a normalised sample gives it back exactly, over reals |
| `SDS.Round` | SDSSoundEncrypt/SDS.cs:247 | Math.Round gives an integer within 1/2, a tie goes to the even neighbour, and an integral value stays put |
| `SDS.DecryptSample` | SDSSoundEncrypt/SDS.cs:216-247 | a window fails with ZeroState exactly when x1[i] = 0, and with OutOfRange exactly when x1[i] ≠ 0 and the rounded, denormalised c3 lies outside the `short` range; a decoded sample is within 1/2 of the denormalised c3, so it is never wrapped or clamped |
| `SDS.DecryptSampleNear` | SDSSoundEncrypt/SDS.cs:236-247 | a decoded sample, normalised again, lies within half a step, 0.5/32767, of the c3 that GetC3Decrypted solved for |
| `SDS.DecodeNormalized` | SDSSoundEncrypt/SDS.cs:236-247 | denormalising, rounding and narrowing a normalised sample gives the sample back |
| `SDS.Step` | SDSSoundEncrypt/SDS.cs:144-156 | one encrypt iteration: the new x1 and x2 come from the previous state and the sample, and the new noise is carried for the next iteration; `SDS.Trace` states how the steps chain |
| `SDS.Trace` | SDSSoundEncrypt/SDS.cs:93-157 | an encrypt run has N+1 states; state 0 is (X10, X20, noise of draw 0); state k+1 comes from state k, sample k and the noise of draw k carried in state k; state k carries draw k |
| `SDS.Encrypt` | SDSSoundEncrypt/SDS.cs:108-157 | N samples give N+1 values, the first is X10 = 0.1, and each later value is the previous one plus x2·DT of the previous state |
| `SDS.EncryptWAVFile` | SDSSoundEncrypt/SDS.cs:79-165 | the loop writes exactly Encrypt(original), reports N samples and makes N+1 draws, one before the loop and one per sample |
| `SDS.Window` | SDSSoundEncrypt/SDS.cs:199-217 | window i decodes the values i, i+1, i+2 with the noise of draw i; `SDS.WindowOfEncrypt` states what it gives on an encrypted stream |
| `SDS.DecryptWindows` | SDSSoundEncrypt/SDS.cs:196-252 | sample i comes from window i (values i, i+1, i+2 with draw i); with no fault, m windows give m samples; a fault names the first window that fails |
| `SDS.Decrypt` | SDSSoundEncrypt/SDS.cs:196-252 | a data region of M values decodes to max(0, M−2) samples when no window fails; otherwise the fault names the first failing window and the samples are those of the windows before it; sample i is window i's |
| `SDS.DecryptWAVFile` | SDSSoundEncrypt/SDS.cs:173-260 | the read-three, seek-back-two loop writes exactly Decrypt(encrypted): max(0, M−2) samples when no window fails, with one draw per full window |
| `SDS.WindowOfEncrypt` | SDSSoundEncrypt/SDS.cs:199-217 | decrypt window i of an encrypted stream, with the same key, gives back sample i when x1[i] ≠ 0, because window i uses the draw that encrypt step i used |
| `SDS.RoundTrip` | SDSSoundEncrypt/SDS.cs:79-260 | decrypt(encrypt(S)) with the same key is S without its last sample, with no fault, when no used window starts at 0 |
| `SDS.EncryptPrefix` | SDSSoundEncrypt/SDS.cs:113-157 | encrypting a prefix of p samples gives the first p+1 values of the whole encryption |
| `SDS.LastSampleUnobservable` | SDSSoundEncrypt/SDS.cs:144-156 | the last sample never reaches the encrypted stream; this is the one-sample loss described at WAVFile.cs:158-159 |
| `Types.Wrap` | SDSSoundEncrypt/WAVFile.cs:138 | an unchecked uint result is the exact value when that fits, and otherwise differs from it by a multiple of 2^32; this covers the multiplication by sizeof(double)/sizeof(short) |
| `Types.Add32` | SDSSoundEncrypt/WAVFile.cs:140 | unchecked uint addition is exact below 2^32 and wraps by 2^32 above it |
| `Types.Sub32` | SDSSoundEncrypt/WAVFile.cs:160 | unchecked uint subtraction is exact when no borrow occurs and wraps by 2^32 otherwise |
| `WAV.LE16RoundTrip` | SDSSoundEncrypt/WAVFile.cs:91 | reading back a written ushort gives the same value |
| `WAV.FromLE16RoundTrip` | SDSSoundEncrypt/WAVFile.cs:117 | writing a ushort that was read gives back the same two bytes |
| `WAV.LE32RoundTrip` | SDSSoundEncrypt/WAVFile.cs:87 | reading back a written uint gives the same value |
| `WAV.FromLE32RoundTrip` | SDSSoundEncrypt/WAVFile.cs:113 | writing a uint that was read gives back the same four bytes |
| `WAV.SerializeHeader` | SDSSoundEncrypt/WAVFile.cs:112-124 | the written header is 28 bytes plus its tags, so exactly 44 bytes with 4-byte tags, the data offset used at SDS.cs:103 and :189 |
| `WAV.ParseHeader` | SDSSoundEncrypt/WAVFile.cs:84-98 | a header is read exactly when the file has at least 44 bytes, and it then has 4-byte tags |
| `WAV.ParseSerialize` | SDSSoundEncrypt/WAVFile.cs:86-124 | reading back a written header with 4-byte tags gives the same header, whatever follows it |
| `WAV.SerializeParse` | SDSSoundEncrypt/WAVFile.cs:86-124 | writing a header that was read reproduces the first 44 bytes of the file |
| `WAV.EncryptedHeader` | SDSSoundEncrypt/WAVFile.cs:133-144 | Subchunk2Size becomes (4d+8) mod 2^32 and ChunkSize becomes (d+36) mod 2^32 from the original d; every other field is unchanged |
| `WAV.DecryptedHeader` | SDSSoundEncrypt/WAVFile.cs:154-164 | Subchunk2Size becomes d−2, wrapping to d−2+2^32 for d < 2 (4294967294 for d = 0), and ChunkSize becomes (d+36) mod 2^32; every other field is unchanged |
| `WAV.EncryptedChunkSizeMismatch` | SDSSoundEncrypt/WAVFile.cs:141-142 | the documented ChunkSize = Subchunk2Size + 36 holds in an encrypted header if and only if d = 2863311528 |
| `WAV.DecryptedChunkSizeMismatch` | SDSSoundEncrypt/WAVFile.cs:161-162 | the documented relation never holds in a decrypted header; without wrap-around, ChunkSize = Subchunk2Size + 38 |
| `WAV.WAVFile.constructor` | SDSSoundEncrypt/WAVFile.cs:70-74 | a new file object has the given name and an empty header |
| `WAV.WAVFile.ReadWAVHeader` | SDSSoundEncrypt/WAVFile.cs:79-102 | reading succeeds exactly for files of 44 bytes or more, and then sets the header to the parsed one; otherwise the header is untouched |
| `WAV.WAVFile.CreateWAVFile` | SDSSoundEncrypt/WAVFile.cs:107-126 | the new file holds the serialised header, 44 bytes when the tags have 4 bytes |
| `WAV.WAVFile.CreateEncryptedWAVFile` | SDSSoundEncrypt/WAVFile.cs:133-148 | the header field becomes EncryptedHeader of its old value, and the file written holds that header |
| `WAV.WAVFile.CreateDecryptedWAVFile` | SDSSoundEncrypt/WAVFile.cs:154-168 | the header field becomes DecryptedHeader of its old value, and the file written holds that header |
| `Program.IndexFrom` | SDSSoundEncrypt/Program.cs:16 | the search returns the first occurrence of the pattern at or after the start, or reports that there is none |
| `Program.DerivedName` | SDSSoundEncrypt/Program.cs:16-18 | the suffix is inserted immediately before the first ".wav", with everything before and after it kept |
| `Program.OutputNamesDistinct` | SDSSoundEncrypt/Program.cs:16-18 | both derived names are 12 characters longer than the original, and the three names are pairwise different |
| `Program.DerivedNameKeepsExtension` | SDSSoundEncrypt/Program.cs:15-18 | in a derived name the first ".wav" comes right after the suffix: "x.wav" becomes "x (encrypted).wav" |
| `Program.Int16LE` | SDSSoundEncrypt/SDS.cs:116 | ReadInt16 reads two little-endian bytes as the two's-complement value congruent to them modulo 2^16 |
| `Program.Samples` | SDSSoundEncrypt/SDS.cs:113-116 | a data region of 2N bytes holds N samples |
| `Program.EncryptToFile` | SDSSoundEncrypt/Program.cs:36-45 | the encrypted file holds the header derived from the original header, 44 bytes long when the original header has 4-byte tags (as every header `Run` reads does), followed by Encrypt of the original samples with key 1; an odd data region gives no file |
| `Program.DecryptToFile` | SDSSoundEncrypt/Program.cs:51-60 | the decrypted file holds the header derived from the ORIGINAL header, 44 bytes long when the original header has 4-byte tags (as every header `Run` reads does), followed by Decrypt of the encrypted data with key 1, and the fault if any |
| `Program.Run` | SDSSoundEncrypt/Program.cs:7-71 | no transform runs unless there is exactly one argument that contains ".wav"; otherwise the matching message is given. A file shorter than a header, or a data region ending inside a sample, stops the run. Otherwise both output headers come from the original header, both transforms use key 1, and decryption reads the encrypted data after its 44-byte header |
| `Program.DataSizesMatchHeaders` | SDSSoundEncrypt/Program.cs:39-60 | for d = 2N with N ≥ 1 and 4d+8 < 2^32 (no wrap-around), encryption appends 8(N+1) = 4d+8 bytes, the patched Subchunk2Size. A complete decryption appends 2(N−1) = d−2 bytes, the decrypted Subchunk2Size. The encrypted ChunkSize falls short by 6N+8 |
| `Program.PipelineRoundTrip` | SDSSoundEncrypt/Program.cs:39-60 | provided the header states d = 2N with N ≥ 1 and no used decrypt window starts at 0, with key 1 in both directions the decrypted file holds all samples but the last, and its header states exactly the bytes written |

## Left out

- File and console I/O is not modelled. This covers `FileStream`, `BinaryReader`/`BinaryWriter`, `GetWAVFileInfo` and the "Finished …" messages. Files are byte sequences. The data regions are sequences of samples or of `real` values. The encrypted doubles are not encoded as IEEE-754 bytes.
- IEEE-754 arithmetic is modelled as exact `real` arithmetic. The rounding of `Math.Pow` and of the other double operations is not modelled.
- `Math.Sqrt(N0 / DT)` is not modelled. It enters as the value `Runtime.sqrtN0DT`.
- The internals of `System.Random` are not modelled. Its output for a key is the stream `Runtime.seeded(key)`. That two runs with one key draw the same values holds because this is a function. No lemma states it.
- SDS.DecryptWAVFile: the source keeps going after a window it cannot decode and writes an unspecified value. That happens when x1[i] = 0, where C# divides by zero and gets an infinity or NaN, or when the rounded value does not fit a `short`. The model stops at that window and reports its index and the kind of fault.
- Program.Run: when the original ends inside a sample, `ReadInt16` throws. The model reports `PartialSample` and does not keep the bytes already written. When the original is shorter than 44 bytes, `ReadWAVHeader` throws. The model reports `HeaderUnreadable`.
- An encrypted data region that ends inside a double is not modelled, because the model keeps encrypted data as whole values.
- `GetWAVFileDuration` is not modelled. It is floating-point division and formatting.
- WAV.WAVFile.constructor: `new WAVHeader()` leaves the four tag arrays null, and writing a null array throws `ArgumentNullException`. The model gives a fresh header empty tags, so `CreateWAVFile` on a file whose header was never read writes 28 bytes instead of throwing. `Main` always reads a header first, so the pipeline never takes this path.
- `WAVHeader.cs` is not part of this model. It is an unused duplicate of the struct nested in `WAVFile`.
- `string.IndexOf(string)` is culture-sensitive in .NET. It is modelled as an ordinal search.
- The commented-out debug blocks and the alternative formulas without the C5 term are not modelled.
