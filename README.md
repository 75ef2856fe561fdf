# nus3audio container writer, modelled in Dafny

The model covers nus3audio-rs's codec for the NUS3 audio container. A
container (`Nus3audioFile`) is an ordered list of entries (`AudioFile`),
each with a u32 track id, a name and an opaque payload. `write` serialises
the container into eight consecutive sections:

- the `NUS3` header, carrying the length of everything after it;
- `AUDIINDX`, holding the entry count;
- the TNID, NMOF and ADOF tables: track ids, name offsets, and
  (offset, size) payload pairs;
- the TNNM name blob, holding each name followed by a zero byte;
- JUNK padding, which aligns the PACK payloads to 16 bytes;
- PACK, holding each distinct payload once, padded to 16 bytes.

Payloads are deduplicated by CRC-32. An entry whose checksum was already seen
reuses the (offset, size) pair of the first entry with that checksum.
`calc_size` predicts the output size. `take_file` and `from_bytes` parse only
the 8-byte `NUS3` header. `filename` derives a file name from the entry name
and the payload's magic bytes.

Modules, one concept each:

- `Format`: bytes, u32, the little-endian u32 encoding and the section tags.
- `Nus3audio`: the two datatypes, `new` and `filename`.
- `Parser`: `take_file` with nom 4's tag and `le_u32` semantics, and `from_bytes`.
- `Layout`: `write` as functions.
  - The offset plan it computes before emitting anything (`MakePlan`): name
    offsets, JUNK padding and PACK start.
  - The payload pass with its checksum map (`PackLayout`, one `PackStep` per
    entry).
  - The reference definitions of what ends up in PACK (`Packed`, `First`,
    `IsNew`).
  - The emitted bytes (`Serialize`).
- `WriteProperties`: where each section sits in `Serialize`, what it declares
  and what it holds.
- `Output`: what a reader finds at the offsets the tables give, deduplication,
  and the output length against `calc_size`.
- `RoundTrip`: `take_file` / `from_bytes` applied to `write`'s output.
- `Writer`: the imperative code.
  - The caller's `Vec<u8>` as a class `ByteVec` whose byte sequence the
    `WriteImpl` methods append to.
  - The name-offset loop and the deduplicating payload loop, with their u32
    accumulators and the checksum map as a `map`.
  - The section emission.
  - `calc_size` with its two loops.
  - `Writer.Write` is proved to append exactly `Serialize`, and
    `Writer.CalcSize` to return `PredictedSize`.

The CRC-32 of a payload (`crc32::checksum_ieee`) is a parameter
`crc: seq<u8> -> u32`. Every deduplication property is stated in terms of
checksum equality, so no property depends on how the checksum is computed.

The offset arithmetic of `write` runs on u32 values. The model uses
unbounded integers and excludes overflow with the precondition
`Fits(files)`: the size `calc_size` predicts is below 2^32. Under it,
`Layout.PlanFits` shows that every value `write` emits as a u32 is in range.
In `Writer` the accumulators are declared `u32`, so every addition in the loops
carries a proof that it stays below 2^32.

### Where the code and its description differ

The model follows the code in both cases.

- **`calc_size` and the length `write` produces.** `calc_size` counts every
  payload at its padded size (`src/nus3audio/writer.rs:37-40`). `write` packs
  only the first payload per checksum (`src/nus3audio/writer.rs:86-97`).
  - The prediction exceeds the written length by the padded sizes of the
    payloads skipped as duplicates (`Output.SizeAgainstPrediction`).
  - The two are equal exactly when every skipped payload is empty. Distinct
    checksums are sufficient for equality, but not necessary.
- **`filename` on short payloads.** A payload shorter than 4 bytes does not
  get a `.bin` extension. The slice `data[..4]`
  (`src/nus3audio/mod.rs:31`) panics instead, so `Nus3audio.Filename`
  requires at least 4 payload bytes.

## Model

| member | source | states |
|---|---|---|
| Format.U32Le | src/nus3audio/writer.rs:147-151 | A u32 is written as exactly four bytes; with `ReadU32Le` it forms the round trips below |
| Format.ReadU32Le | src/nus3audio/parser.rs:7 | nom's `le_u32`: the value of the first four bytes, least significant first; `Format.ReadWriteU32` and `Format.WriteReadU32` make it the inverse of `U32Le` |
| Format.ReadWriteU32 | src/nus3audio/parser.rs:7 | `le_u32` applied to the bytes `write_u32::<LittleEndian>` produced returns the value written |
| Format.WriteReadU32 | src/nus3audio/parser.rs:7 | Re-encoding the value `le_u32` read reproduces the four bytes it read |
| Format.Zeros | src/nus3audio/writer.rs:132 | `vec![0u8; n]` has length `n` and every byte is zero |
| Nus3audio.New | src/nus3audio/mod.rs:17-19 | `new` yields a container with no entries |
| Nus3audio.Filename | src/nus3audio/mod.rs:28-36 | The result starts with the name; the suffix is `.lopus` iff the payload starts with `OPUS`, `.idsp` iff it starts with `IDSP`, `.bin` iff neither |
| Nus3audio.FilenameDependsOnMagic | src/nus3audio/mod.rs:29-36 | Two entries with the same name and the same first four payload bytes get the same file name |
| Parser.TakeHeader | src/nus3audio/parser.rs:5-7 | Succeeds iff at least 8 bytes are available and the first four are `NUS3`; then it consumes exactly 8 bytes and the size is bytes 4..8 read little-endian. Tag mismatch iff the available bytes disagree with `NUS3`; otherwise it fails with `Incomplete(Needed::Size(4))`, the size the failing combinator needs from its own position, not the number of bytes missing |
| Parser.TakeFile | src/nus3audio/parser.rs:4-10 | Succeeds iff the header parses; the remaining input is everything after byte 8 and the container is empty; a wrong tag gives the tag error and fewer than 8 bytes never succeed |
| Parser.FromBytes | src/nus3audio/mod.rs:21-25 | Yields a container iff `take_file` succeeds, and then exactly the container `take_file` returned, which is empty |
| Layout.GetPaddingAmount | src/nus3audio/writer.rs:7-9 | The padding is below 16 and brings the offset to 8 past a 16-byte boundary |
| Layout.PredictedSize | src/nus3audio/writer.rs:12-43 | `calc_size` as a value: the PACK start plus every payload padded; `Writer.CalcSize` returns it, `Layout.PackSizeSplit` and `Output.SizeAgainstPrediction` relate it to the written length |
| Layout.NameOffsets | src/nus3audio/writer.rs:67-71 | The NMOF values the name loop pushes; `Layout.NameOffsetsLength`, `Layout.NameOffsetAt`, `Layout.NameOffsetInBlob` and `WriteProperties.NameOffsetsIncrease` state one per entry, each at the earlier names' sizes, inside the blob and strictly increasing |
| Layout.NameBlob | src/nus3audio/writer.rs:124-129 | The TNNM body: each name and a zero byte; `WriteProperties.NameBlobLength` and `WriteProperties.NameBlobAt` state its length and where each name stands |
| Layout.PaddedLen | src/nus3audio/writer.rs:94 | A payload's size in PACK; `WriteProperties.TrailPadCompletesBlock` and `Output.PaddedLenZero` state it is the least multiple of 16 not below the length, and zero iff the payload is empty |
| Layout.TrailPad | src/nus3audio/writer.rs:137 | The zeros after a payload; `WriteProperties.TrailPadCompletesBlock` states that they fill it to its padded length |
| Layout.PackStep | src/nus3audio/writer.rs:84-99 | One iteration of the payload loop: reuse the map's pair for a known checksum, or place a new pair at the PACK start plus the current size, queue the payload and grow the size; `Layout.PackLayoutInvariant` is proved step by step through it |
| Layout.PackLayout | src/nus3audio/writer.rs:80-100 | The payload loop over all entries; `Layout.PackLayoutInvariant`, `Layout.PairLocatesPayload`, `Layout.PairInPack`, `Output.SameChecksumSharesPair` and `Output.PackedUnique` state what its map, pairs, queue and size hold, and `Writer.PackPass` computes it |
| Layout.MakePlan | src/nus3audio/writer.rs:52-102 | Everything `write` computes before emitting; `Layout.PlanFits` states that all of it fits a u32 under `Fits`, and `Writer.ComputePlan` computes it |
| Layout.U32s | src/nus3audio/writer.rs:171-177 | A written `Vec<u32>`, four bytes per element; `WriteProperties.U32sAt` and `Output.U32EntryAt` state that element `i` reads back from bytes `4i..4i+4` |
| Layout.Pairs | src/nus3audio/writer.rs:198-204 | A written `Vec<(u32, u32)>`, eight bytes per pair; `WriteProperties.PairsAt` and `Output.PairEntryAt` state that pair `i` reads back from bytes `8i..8i+8` |
| Layout.PackBlob | src/nus3audio/writer.rs:135-138 | The PACK body; `WriteProperties.PackBlobLength` and `WriteProperties.PackBlobAt` state its length and where each queued payload and its zeros stand |
| Layout.Serialize | src/nus3audio/writer.rs:45-138 | `write`'s output as a value: the eight sections of `MakePlan` in emission order. `Writer.Write` appends exactly it; its properties are stated by `WriteProperties.OutputHeader`, `Output.OutputTables`, `Output.OutputNamesAndJunk`, `Output.OutputPack`, `Output.OutputNameAt`, `Output.OutputPayloadAt`, `Output.OutputDedupSharesPair`, `Output.OutputLength`, `Output.SizeAgainstPrediction` and `RoundTrip.WriteThenParse` |
| Layout.First | src/nus3audio/writer.rs:86-88 | The entry whose pair entry `i` reuses: it comes no later than `i`, has `i`'s checksum, is the first with that checksum, and is `i` itself when `i` is new |
| Layout.PackLayoutInvariant | src/nus3audio/writer.rs:80-100 | After the payload pass: one pair per entry; `files_to_pack` is exactly the payloads of the entries whose checksum is new, in order; `pack_section_size` is their padded sum; the map's keys are the checksums seen; every entry's pair is the map's pair for its checksum; a new entry's pair is the PACK start plus the padded sizes packed before it, and its payload length |
| Layout.ChecksumsMembership | src/nus3audio/writer.rs:84-92 | A checksum is among those recorded iff some entry's payload has it |
| Layout.PairOfFirst | src/nus3audio/writer.rs:86-97 | Entry `i`'s pair is the one placed for the first entry with its checksum |
| Layout.PackedSlot | src/nus3audio/writer.rs:89-93 | A new entry's payload is queued right after the payloads queued before it |
| Layout.PackedAtNew | src/nus3audio/writer.rs:93 | Reaching a new entry appends exactly its payload to `files_to_pack` |
| Layout.PackedPrefix | src/nus3audio/writer.rs:82-93 | `files_to_pack` only grows: the queue after a prefix of the entries is a prefix of the final queue |
| Layout.PaddedSumPrefix | src/nus3audio/writer.rs:94 | `pack_section_size` never decreases along the queue |
| Layout.PairLocatesPayload | src/nus3audio/writer.rs:86-99 | Entry `i`'s pair points at queued payload `m`, which is the payload of the first entry with `i`'s checksum: offset is PACK start plus the padded sizes of the payloads before it, size is its length |
| Layout.PairInPack | src/nus3audio/writer.rs:86-99 | Every pair's range lies inside the packed payloads |
| Layout.PackSizeSplit | src/nus3audio/writer.rs:37-40 | `calc_size`'s PACK sum equals `write`'s `pack_section_size` plus the padded sizes of the payloads skipped as duplicates |
| Layout.NameOffsetAt | src/nus3audio/writer.rs:67-71 | NMOF value `i` is the string section start plus the sizes of the earlier names, each plus its terminator |
| Layout.NameOffsetsLength | src/nus3audio/writer.rs:68-69 | One name offset is pushed per entry |
| Layout.NameBlobSizePrefix | src/nus3audio/writer.rs:67-71 | The running `string_section_size` after entry `i` is at most the final one |
| Layout.PackSizeAllPrefix | src/nus3audio/writer.rs:37-40 | `calc_size`'s running PACK sum after entry `i` is at most the final one |
| Layout.NameOffsetInBlob | src/nus3audio/writer.rs:64-71 | Every name offset lies inside the string section |
| Layout.PlanFits | src/nus3audio/writer.rs:64-102 | When `calc_size`'s prediction is below 2^32, every offset, length and size `write` emits as a u32 is below 2^32, and `filesize` is at most the prediction |
| WriteProperties.TrailPadCompletesBlock | src/nus3audio/writer.rs:137 | The trailing pad after a payload is its padded length minus its length; the padded length is a multiple of 16 in `[len, len + 16)` |
| WriteProperties.PaddedSumAligned | src/nus3audio/writer.rs:94 | A sum of padded payload sizes is a multiple of 16 |
| WriteProperties.PackStartAligned | src/nus3audio/writer.rs:73-78 | `pack_section_start` is a multiple of 16 |
| WriteProperties.NameBlobLength | src/nus3audio/writer.rs:124-129 | The TNNM bytes emitted are as many as the `string_section_size` declared |
| WriteProperties.NameBlobAt | src/nus3audio/writer.rs:126-129 | Inside TNNM, at the sizes of the earlier names, stand entry `i`'s name and a zero byte |
| WriteProperties.NameOffsetsIncrease | src/nus3audio/writer.rs:67-71 | Name offsets strictly increase with the entry index |
| WriteProperties.PackBlobLength | src/nus3audio/writer.rs:133-138 | The PACK bytes emitted are as many as the `pack_section_size` declared |
| WriteProperties.PackBlobAt | src/nus3audio/writer.rs:135-138 | Inside PACK, queued payload `m` starts at the padded sizes of the payloads before it and is followed by zeros up to the next 16-byte boundary |
| WriteProperties.U32sAt | src/nus3audio/writer.rs:171-177 | Element `i` of a written `Vec<u32>` is bytes `4i..4i+4` |
| WriteProperties.PairsAt | src/nus3audio/writer.rs:198-204 | Pair `i` of a written `Vec<(u32, u32)>` is bytes `8i..8i+8`, first half first |
| WriteProperties.SectionLengthReads | src/nus3audio/writer.rs:110-134 | A section's length field reads back as its body's length |
| WriteProperties.Starts | src/nus3audio/writer.rs:105-134 | Where each of the eight sections starts, given their lengths |
| WriteProperties.PartLengths | src/nus3audio/writer.rs:105-138 | The lengths of the eight sections: 8, 16, 8+4n, 8+4n, 8+8n, 8+name sizes, 8+junk pad, 8+PACK size |
| WriteProperties.SectionLengths | src/nus3audio/writer.rs:105-138 | The same lengths for the plan `write` computes, whose values all fit a u32 |
| WriteProperties.OutputLaid | src/nus3audio/writer.rs:45-138 | `write`'s output is its eight sections at those starts; it ends where PACK ends, and the pack start is the one computed |
| WriteProperties.FrontInPlace | src/nus3audio/writer.rs:105-109 | Output that begins with the NUS3 and AUDIINDX parts has the file header |
| WriteProperties.LaidHeader | src/nus3audio/writer.rs:105-109 | A laid-out output has the file header |
| WriteProperties.LaidTnid | src/nus3audio/writer.rs:110-117 | TNID declares `4n` and holds the track ids |
| WriteProperties.LaidNmof | src/nus3audio/writer.rs:118-120 | NMOF declares `4n` and holds the name offsets |
| WriteProperties.LaidAdof | src/nus3audio/writer.rs:121-123 | ADOF declares `8n` and holds the pairs |
| WriteProperties.LaidNames | src/nus3audio/writer.rs:124-129 | TNNM declares the name-blob size and holds the names with their terminators |
| WriteProperties.LaidJunk | src/nus3audio/writer.rs:130-132 | JUNK declares `junk_pad` and holds that many zero bytes |
| WriteProperties.LaidPack | src/nus3audio/writer.rs:133-138 | PACK declares its size, holds the queued payloads padded, and ends the output |
| WriteProperties.OutputHeader | src/nus3audio/writer.rs:102-109 | Bytes 0..4 are `NUS3`, bytes 4..8 the output length minus 8, then `AUDIINDX`, length 4 and the entry count |
| Output.U32EntryAt | src/nus3audio/writer.rs:171-177 | Entry `i` of a u32 table section reads back as the value written |
| Output.PairEntryAt | src/nus3audio/writer.rs:198-204 | Entry `i` of a pair table section reads back as the pair written |
| Output.LaidTrackId | src/nus3audio/writer.rs:110-117 | In a laid-out output, TNID entry `i` reads back as entry `i`'s id |
| Output.OutputTrackId | src/nus3audio/writer.rs:110-117 | TNID entry `i` of `write`'s output is entry `i`'s track id |
| Output.OutputTables | src/nus3audio/writer.rs:110-123 | TNID, NMOF and ADOF in `write`'s output each declare their body length (4n, 4n, 8n) and hold the ids, name offsets and pairs |
| Output.OutputNamesAndJunk | src/nus3audio/writer.rs:124-132 | TNNM declares and holds the name blob; JUNK declares and holds `junk_pad` zero bytes |
| Output.LaidPackBody | src/nus3audio/writer.rs:133-138 | PACK of a laid-out output holds the payloads of the new entries, padded, and declares their padded sum |
| Output.OutputPack | src/nus3audio/writer.rs:133-138 | PACK of `write`'s output declares and holds the new entries' payloads, each padded to 16 bytes |
| Output.NmofValueAt | src/nus3audio/writer.rs:118-120 | NMOF entry `i` reads as the string section start plus the sizes of the earlier names |
| Output.NameBytesAt | src/nus3audio/writer.rs:124-129 | At that offset the output holds entry `i`'s name and a zero byte |
| Output.LaidNameAt | src/nus3audio/writer.rs:64-71 | Both of the above for a laid-out output with `write`'s name offsets |
| Output.OutputNameAt | src/nus3audio/writer.rs:64-71 | NMOF entry `i` of `write`'s output points at entry `i`'s name followed by a zero byte |
| Output.OutputNameOffsetsIncrease | src/nus3audio/writer.rs:67-71 | NMOF entries of `write`'s output strictly increase |
| Output.PackedIn | src/nus3audio/writer.rs:135-138 | Queued payload `m` is in the output after the padded sizes of those before it, followed by zeros to a 16-byte boundary |
| Output.PairPointsAtPayload | src/nus3audio/writer.rs:90-94 | A pair placed for payload `m` reads back as a 16-byte aligned offset at which that payload stands, zero-padded |
| Output.PayloadAt | src/nus3audio/writer.rs:86-99 | ADOF entry `i` reads back as an aligned offset and the size of the first same-checksum entry's payload; that payload is there, followed by zeros |
| Output.LaidPayloadAt | src/nus3audio/writer.rs:86-99 | The same for a laid-out output with `write`'s PACK layout |
| Output.OutputPayloadAt | src/nus3audio/writer.rs:83-100 | ADOF entry `i` of `write`'s output points at a 16-byte aligned copy of a payload with `i`'s checksum, of the size it gives, followed by zeros to the next boundary; for a new entry the copy is its own payload |
| Output.SameChecksumSharesPair | src/nus3audio/writer.rs:86-99 | Entries with equal checksums get equal pairs |
| Output.OutputDedupSharesPair | src/nus3audio/writer.rs:86-99 | Entries with equal checksums (in particular identical payloads) have equal ADOF entries in `write`'s output |
| Output.PackedFromNew | src/nus3audio/writer.rs:89-93 | Every queued payload is the payload of an entry whose checksum was new |
| Output.PackedUnique | src/nus3audio/writer.rs:86-93 | No two queued payloads share a checksum: PACK holds one copy per checksum |
| Output.PaddedLenZero | src/nus3audio/writer.rs:39 | A payload takes no PACK space iff it is empty |
| Output.SkippedSizeZero | src/nus3audio/writer.rs:86-97 | The skipped duplicates take no space iff every one of them is empty |
| Output.OutputLength | src/nus3audio/writer.rs:102 | `write`'s output length is the PACK start plus the padded sizes of the packed payloads |
| Output.SizeAgainstPrediction | src/nus3audio/writer.rs:12-43 | `calc_size` equals the written length plus the skipped duplicates' padded sizes; equality holds iff every duplicate payload is empty, and in particular when all checksums are distinct |
| RoundTrip.TakeHeaderOfEncoded | src/nus3audio/parser.rs:5-9 | The header parser reads back any `NUS3` tag and u32 and leaves exactly the rest |
| RoundTrip.HeaderParses | src/nus3audio/parser.rs:4-10 | Any file header parses with size = length − 8, and `take_file` and `from_bytes` yield an empty container |
| RoundTrip.WriteThenParse | src/nus3audio/writer.rs:102-106 | `take_file` applied to `write`'s output succeeds, consumes 8 bytes and reads the output length minus 8; `from_bytes` yields an empty container |
| RoundTrip.ParseLosesEntries | src/nus3audio/parser.rs:8 | A written container with entries does not read back as itself |
| Writer.ByteVec.constructor | src/nus3audio/writer.rs:45 | The caller's `Vec<u8>` `f`, here starting empty; every write method appends to its `bytes` and changes nothing else |
| Writer.WriteU32 | src/nus3audio/writer.rs:147-151 | Appends the four little-endian bytes of the value |
| Writer.WriteU8 | src/nus3audio/writer.rs:153-157 | Appends the byte |
| Writer.WriteSlice | src/nus3audio/writer.rs:159-169 | Appends the slice or string bytes unchanged |
| Writer.WritePair | src/nus3audio/writer.rs:198-204 | Appends the first half, then the second |
| Writer.WriteU32Vec | src/nus3audio/writer.rs:171-177 | Appends each u32 in order |
| Writer.WritePairVec | src/nus3audio/writer.rs:171-177 | Appends each pair in order |
| Writer.WriteZeros | src/nus3audio/writer.rs:132 | Appends `n` zero bytes |
| Writer.NameOffsetPass | src/nus3audio/writer.rs:67-71 | The loop yields exactly the name offsets and the name-blob size, with `string_section_size` never leaving the u32 range |
| Writer.PackPass | src/nus3audio/writer.rs:80-100 | The loop's map, pairs, queue and u32 `pack_section_size` are exactly the payload pass of `Layout` |
| Writer.ComputePlan | src/nus3audio/writer.rs:52-102 | Everything `write` computes before emitting is the plan `Layout` defines, and it is u32-encodable |
| Writer.WriteNames | src/nus3audio/writer.rs:126-129 | Appends the name blob |
| Writer.WritePayloads | src/nus3audio/writer.rs:135-138 | Appends the PACK body |
| Writer.WriteSectionHeader | src/nus3audio/writer.rs:110-111 | Appends a tag and its declared length |
| Writer.WriteU32Section | src/nus3audio/writer.rs:110-120 | Appends a TNID/NMOF section |
| Writer.WriteAdof | src/nus3audio/writer.rs:121-123 | Appends the ADOF section |
| Writer.WriteTnnm | src/nus3audio/writer.rs:124-129 | Appends the TNNM section |
| Writer.WriteJunk | src/nus3audio/writer.rs:130-132 | Appends the JUNK section |
| Writer.WritePack | src/nus3audio/writer.rs:133-138 | Appends the PACK section |
| Writer.EmitIndex | src/nus3audio/writer.rs:105-123 | Appends the first five sections |
| Writer.Emit | src/nus3audio/writer.rs:104-138 | Appends the eight sections of the plan in order |
| Writer.Write | src/nus3audio/writer.rs:45-138 | Leaves the buffer's previous contents as a prefix and appends exactly `Serialize` |
| Writer.CalcSize | src/nus3audio/writer.rs:12-43 | Returns `PredictedSize`, with both running u32 sums in range |

## Left out

- `println!` in `take_file` (`src/nus3audio/parser.rs:8`) is a side effect on stdout and is not modelled.
- The command-line program (`src/main.rs`) and the interactive editor (`src/visual_mode.rs`) are file and terminal I/O around the codec and are not part of this model. `src/nus3audio/internal.rs` declares types nothing uses and is not part of this model either.
- CRC-32 itself (the `crc` crate) is a parameter, not an implementation.
- The `HashMap` of the payload pass is a Dafny `map`. Its hashing and iteration order play no part, because the pass only looks keys up and inserts them.
- The `WriteImpl` impls for `&mut Iterator` and `std::slice::Iter` (`src/nus3audio/writer.rs:179-196`) are not modelled. `write` does not use them; each would append its elements in order, like the `Vec` impl.
- The `map(..).collect()` that builds the TNID vector is the function `Layout.Ids`, not a loop.
- `Vec<u8>` capacity and reallocation are not modelled. `ByteVec` holds a byte sequence that every write replaces with an extension of it.
- Names are modelled as their UTF-8 bytes. UTF-8 validity of `String` is not modelled.
- Write (Writer.Write): requires `Fits`, i.e. `calc_size`'s prediction below 2^32. The source's own condition is weaker: only the deduplicated sizes and offsets must fit a u32. The model covers neither the panic (debug builds) nor the wrap-around (release builds) of the u32 additions on larger containers.
- CalcSize (Writer.CalcSize): requires both running u32 sums to fit. The overflow behaviour beyond that is not modelled.
- Filename (Nus3audio.Filename): requires at least four payload bytes. The source panics on shorter payloads, and that panic is not modelled as a value.
- FromBytes (Parser.FromBytes): the panic of `.expect` when `take_file` fails is modelled as `None`.
- TakeHeader (Parser.TakeHeader): nom's streaming `Incomplete` is modelled only for a complete input slice, as `Incomplete(Needed::Size(4))`.
