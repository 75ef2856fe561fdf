/**
 * `Nus3audioFile::write` and `calc_size` as the imperative code they are:
 * a growable byte vector that the `WriteImpl` impls append to, the two
 * offset loops with their u32 accumulators, the deduplicating payload loop
 * with its checksum map, and the emission of the eight sections. Each
 * method is proved against the functions of `Layout`: `Write` appends
 * exactly `Serialize`, and `CalcSize` returns `PredictedSize`.
 */
module Writer {
  import opened Format
  import opened Nus3audio
  import opened Layout

  /** The output `Vec<u8>` that every write appends to. */
  class ByteVec {
    var bytes: seq<u8>

    constructor ()
      ensures bytes == []
    {
      bytes := [];
    }
  }

  // ---------------------------------------------------------------------
  // The WriteImpl impls

  /** `impl WriteImpl for u32`: four bytes, least significant first. */
  method WriteU32(v: u32, f: ByteVec)
    modifies f
    ensures f.bytes == old(f.bytes) + U32Le(v)
  {
    f.bytes := f.bytes + U32Le(v);
  }

  /** `impl WriteImpl for u8`: one byte. */
  method WriteU8(b: u8, f: ByteVec)
    modifies f
    ensures f.bytes == old(f.bytes) + [b]
  {
    f.bytes := f.bytes + [b];
  }

  /** `impl WriteImpl for &[u8]` and `for &str`: the bytes as they are. */
  method WriteSlice(s: seq<u8>, f: ByteVec)
    modifies f
    ensures f.bytes == old(f.bytes) + s
  {
    f.bytes := f.bytes + s;
  }

  /** `impl WriteImpl for (T, T2)` at `(u32, u32)`: the two halves in order. */
  method WritePair(pair: (nat, nat), f: ByteVec)
    requires pair.0 < U32_LIMIT && pair.1 < U32_LIMIT
    modifies f
    ensures f.bytes == old(f.bytes) + U32Le(pair.0) + U32Le(pair.1)
  {
    WriteU32(pair.0, f);
    WriteU32(pair.1, f);
  }

  /** `impl WriteImpl for Vec<T>` at `Vec<u32>`: each element in order. */
  method WriteU32Vec(vs: seq<nat>, f: ByteVec)
    requires AllU32(vs)
    modifies f
    ensures f.bytes == old(f.bytes) + U32s(vs)
  {
    for i := 0 to |vs|
      invariant f.bytes == old(f.bytes) + U32s(vs[..i])
    {
      WriteU32(vs[i], f);
      assert vs[..i + 1][..i] == vs[..i];
    }
    assert vs[..|vs|] == vs;
  }

  /** `impl WriteImpl for Vec<T>` at `Vec<(u32, u32)>`: each pair in order. */
  method WritePairVec(ps: seq<(nat, nat)>, f: ByteVec)
    requires AllPairsU32(ps)
    modifies f
    ensures f.bytes == old(f.bytes) + Pairs(ps)
  {
    for i := 0 to |ps|
      invariant f.bytes == old(f.bytes) + Pairs(ps[..i])
    {
      WritePair(ps[i], f);
      assert ps[..i + 1][..i] == ps[..i];
    }
    assert ps[..|ps|] == ps;
  }

  /** `impl WriteImpl for Vec<T>` at `vec![0u8; n]`: `n` zero bytes. */
  method WriteZeros(n: nat, f: ByteVec)
    modifies f
    ensures f.bytes == old(f.bytes) + Zeros(n)
  {
    for i := 0 to n
      invariant f.bytes == old(f.bytes) + Zeros(i)
    {
      WriteU8(0, f);
      assert Zeros(i + 1) == Zeros(i) + [0];
    }
  }

  // ---------------------------------------------------------------------
  // Offset calculation

  /**
   * The name-offset loop of `write`: each entry's NMOF value is the string
   * section start plus the running `string_section_size`, a u32 to which
   * each name adds its length and one.
   */
  method NameOffsetPass(files: seq<AudioFile>) returns (offsets: seq<nat>, size: u32)
    requires StringSectionStart(|files|) + NameBlobSize(files) < U32_LIMIT
    ensures offsets == NameOffsets(files, StringSectionStart(|files|))
    ensures size == NameBlobSize(files)
  {
    var start: u32 := StringSectionStart(|files|);
    offsets := [];
    size := 0;
    for i := 0 to |files|
      invariant offsets == NameOffsets(files[..i], start)
      invariant size == NameBlobSize(files[..i])
    {
      NameBlobSizePrefix(files, i);
      var offset: u32 := start + size;
      offsets := offsets + [offset];
      size := size + |files[i].name| + 1;
      assert files[..i + 1][..i] == files[..i];
    }
    assert files[..|files|] == files;
  }

  /**
   * The payload loop of `write`: a payload whose checksum is already in
   * `existing_files` gets that pair; any other gets the next place in PACK
   * and its length, is remembered under its checksum, is queued in
   * `files_to_pack`, and grows the u32 `pack_section_size` by its padded
   * length.
   */
  method PackPass(files: seq<AudioFile>, crc: Crc, start: u32) returns (st: PackState)
    requires start + PackSizeAll(files) < U32_LIMIT
    ensures st == PackLayout(files, crc, start)
  {
    var existing: map<u32, (nat, nat)> := map[];
    var pairs: seq<(nat, nat)> := [];
    var toPack: seq<seq<u8>> := [];
    var size: u32 := 0;
    for i := 0 to |files|
      invariant PackState(existing, pairs, toPack, size) == PackLayout(files[..i], crc, start)
      invariant size <= PackSizeAll(files[..i])
    {
      var data := files[i].data;
      assert files[..i + 1][..i] == files[..i];
      PackSizeAllPrefix(files, i);
      var hash := crc(data);
      var pair: (nat, nat);
      if hash in existing {
        pair := existing[hash];
      } else {
        var offset: u32 := start + size;
        var len: u32 := |data|;
        pair := (offset, len);
        existing := existing[hash := pair];
        toPack := toPack + [data];
        var padded: u32 := PaddedLen(|data|);
        size := size + padded;
      }
      pairs := pairs + [pair];
    }
    assert files[..|files|] == files;
    st := PackState(existing, pairs, toPack, size);
  }

  /**
   * Everything `write` computes before it emits: the name offsets and blob
   * size, the JUNK padding, the PACK start, the payload pass and the file
   * size, all as the u32 values the source keeps.
   */
  method ComputePlan(files: seq<AudioFile>, crc: Crc) returns (p: Plan)
    requires Fits(files)
    ensures p == MakePlan(files, crc)
    ensures PlanEncodable(files, p)
  {
    var n := |files|;
    var offsets, blobSize := NameOffsetPass(files);
    var junkPad := GetPaddingAmount(StringSectionStart(n) + blobSize + |JUNK| + 4);
    var packStart: u32 := StringSectionStart(n) + blobSize + (|JUNK| + 4 + junkPad) + |PACK| + 4;
    var st := PackPass(files, crc, packStart);
    PlanFits(files, crc);
    var fileSize: u32 := packStart + st.size;
    p := Plan(offsets, blobSize, junkPad, packStart, st, fileSize);
  }

  // ---------------------------------------------------------------------
  // Emission

  /** Appending part `k` to the first `k` parts gives the first `k + 1`. */
  lemma {:induction false} ConcatSnoc(parts: seq<seq<u8>>, k: nat)
    requires k < |parts|
    ensures Concat(parts[..k + 1]) == Concat(parts[..k]) + parts[k]
  {
    assert parts[..k + 1][..k] == parts[..k];
  }

  /** The TNNM loop: each name, then a zero byte. */
  method WriteNames(files: seq<AudioFile>, f: ByteVec)
    modifies f
    ensures f.bytes == old(f.bytes) + NameBlob(files)
  {
    for i := 0 to |files|
      invariant f.bytes == old(f.bytes) + NameBlob(files[..i])
    {
      WriteSlice(files[i].name, f);
      WriteU8(0, f);
      assert files[..i + 1][..i] == files[..i];
    }
    assert files[..|files|] == files;
  }

  /** The PACK loop: each queued payload, then zeros to the next 16-byte boundary. */
  method WritePayloads(toPack: seq<seq<u8>>, f: ByteVec)
    modifies f
    ensures f.bytes == old(f.bytes) + PackBlob(toPack)
  {
    for i := 0 to |toPack|
      invariant f.bytes == old(f.bytes) + PackBlob(toPack[..i])
    {
      WriteSlice(toPack[i], f);
      WriteZeros(TrailPad(|toPack[i]|), f);
      assert toPack[..i + 1][..i] == toPack[..i];
    }
    assert toPack[..|toPack|] == toPack;
  }

  /** A section tag and the length `write` declares for it. */
  method WriteSectionHeader(tag: seq<u8>, declared: u32, f: ByteVec)
    modifies f
    ensures f.bytes == old(f.bytes) + tag + U32Le(declared)
  {
    WriteSlice(tag, f);
    WriteU32(declared, f);
  }

  /** A section whose body is a table of u32 values (TNID, NMOF). */
  method WriteU32Section(tag: seq<u8>, declared: u32, vs: seq<nat>, f: ByteVec)
    requires AllU32(vs)
    modifies f
    ensures f.bytes == old(f.bytes) + Section(tag, declared, U32s(vs))
  {
    WriteSectionHeader(tag, declared, f);
    WriteU32Vec(vs, f);
  }

  /** The ADOF section: the (offset, size) pairs. */
  method WriteAdof(declared: u32, ps: seq<(nat, nat)>, f: ByteVec)
    requires AllPairsU32(ps)
    modifies f
    ensures f.bytes == old(f.bytes) + Section(ADOF, declared, Pairs(ps))
  {
    WriteSectionHeader(ADOF, declared, f);
    WritePairVec(ps, f);
  }

  /** The TNNM section: the names and their terminators. */
  method WriteTnnm(declared: u32, files: seq<AudioFile>, f: ByteVec)
    modifies f
    ensures f.bytes == old(f.bytes) + Section(TNNM, declared, NameBlob(files))
  {
    WriteSectionHeader(TNNM, declared, f);
    WriteNames(files, f);
  }

  /** The JUNK section: `pad` zero bytes. */
  method WriteJunk(pad: u32, f: ByteVec)
    modifies f
    ensures f.bytes == old(f.bytes) + Section(JUNK, pad, Zeros(pad))
  {
    WriteSectionHeader(JUNK, pad, f);
    WriteZeros(pad, f);
  }

  /** The PACK section: the queued payloads, each padded. */
  method WritePack(declared: u32, toPack: seq<seq<u8>>, f: ByteVec)
    modifies f
    ensures f.bytes == old(f.bytes) + Section(PACK, declared, PackBlob(toPack))
  {
    WriteSectionHeader(PACK, declared, f);
    WritePayloads(toPack, f);
  }

  /** Output that holds the first `k` parts, with part `k` appended, holds `k + 1`. */
  lemma {:induction false} Extend(start: seq<u8>, mid: seq<u8>, now: seq<u8>, parts: seq<seq<u8>>, k: nat)
    requires k < |parts|
    requires mid == start + Concat(parts[..k])
    requires now == mid + parts[k]
    ensures now == start + Concat(parts[..k + 1])
  {
    ConcatSnoc(parts, k);
  }

  /** `Extend` for the last part: the output then holds all of them. */
  lemma {:induction false} Finish(start: seq<u8>, mid: seq<u8>, now: seq<u8>, parts: seq<seq<u8>>)
    requires parts != []
    requires mid == start + Concat(parts[..|parts| - 1])
    requires now == mid + parts[|parts| - 1]
    ensures now == start + Concat(parts)
  {
  }

  /** The first five sections of plan `p`: the header, AUDIINDX and the three tables. */
  method EmitIndex(files: seq<AudioFile>, p: Plan, f: ByteVec)
    requires PlanEncodable(files, p)
    modifies f
    ensures f.bytes == old(f.bytes) + Concat(Sections(files, p)[..5])
  {
    ghost var parts := Sections(files, p);
    ghost var start := f.bytes;
    ghost var mid := f.bytes;
    var n: u32 := |files|;
    assert parts[..0] == [];

    WriteSectionHeader(NUS3, p.fileSize - NUS3_SIZE, f);
    Extend(start, mid, f.bytes, parts, 0);
    mid := f.bytes;

    WriteSectionHeader(AUDIINDX, 4, f);
    WriteU32(n, f);
    Extend(start, mid, f.bytes, parts, 1);
    mid := f.bytes;

    WriteU32Section(TNID, n * 4, Ids(files), f);
    Extend(start, mid, f.bytes, parts, 2);
    mid := f.bytes;

    WriteU32Section(NMOF, n * 4, p.stringOffsets, f);
    Extend(start, mid, f.bytes, parts, 3);
    mid := f.bytes;

    WriteAdof(n * 8, p.pack.pairs, f);
    Extend(start, mid, f.bytes, parts, 4);
  }

  /** The emission half of `write`: the eight sections of plan `p`, in order. */
  method Emit(files: seq<AudioFile>, p: Plan, f: ByteVec)
    requires PlanEncodable(files, p)
    modifies f
    ensures f.bytes == old(f.bytes) + Concat(Sections(files, p))
  {
    ghost var parts := Sections(files, p);
    ghost var start := f.bytes;
    EmitIndex(files, p, f);
    ghost var mid := f.bytes;

    WriteTnnm(p.stringSectionSize, files, f);
    Extend(start, mid, f.bytes, parts, 5);
    mid := f.bytes;

    WriteJunk(p.junkPad, f);
    Extend(start, mid, f.bytes, parts, 6);
    mid := f.bytes;

    WritePack(p.pack.size, p.pack.toPack, f);
    Finish(start, mid, f.bytes, parts);
  }

  /**
   * `Nus3audioFile::write`: compute the offset plan, then append the
   * container's bytes to `f`; what it appends is `Serialize`.
   */
  method Write(file: Nus3audioFile, crc: Crc, f: ByteVec)
    requires Fits(file.files)
    modifies f
    ensures f.bytes == old(f.bytes) + Serialize(file.files, crc)
  {
    var p := ComputePlan(file.files, crc);
    Emit(file.files, p, f);
  }

  // ---------------------------------------------------------------------
  // calc_size

  /**
   * `Nus3audioFile::calc_size`: the same section arithmetic as `write`, with
   * every payload counted at its padded length, deduplicated or not. The two
   * running sums are u32 in the source, so each must stay below 2^32.
   */
  method CalcSize(file: Nus3audioFile) returns (size: nat)
    requires NameBlobSize(file.files) < U32_LIMIT
    requires PackSizeAll(file.files) < U32_LIMIT
    ensures size == PredictedSize(file.files)
  {
    var files := file.files;
    var n := |files|;
    var stringSectionStart := StringSectionStart(n);
    var stringSectionSize: u32 := 0;
    for i := 0 to n
      invariant stringSectionSize == NameBlobSize(files[..i])
    {
      NameBlobSizePrefix(files, i);
      stringSectionSize := stringSectionSize + |files[i].name| + 1;
      assert files[..i + 1][..i] == files[..i];
    }
    assert files[..n] == files;
    var junkPad := GetPaddingAmount(stringSectionStart + stringSectionSize + |JUNK| + 4);
    var junkSize := |JUNK| + 4 + junkPad;
    var packSectionStart := stringSectionStart + stringSectionSize + junkSize + |PACK| + 4;
    var packSectionSize: u32 := 0;
    for i := 0 to n
      invariant packSectionSize == PackSizeAll(files[..i])
    {
      PackSizeAllPrefix(files, i);
      packSectionSize := packSectionSize + PaddedLen(|files[i].data|);
      assert files[..i + 1][..i] == files[..i];
    }
    size := packSectionStart + packSectionSize;
  }
}
