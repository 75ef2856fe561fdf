/**
 * What a reader finds in `write`'s output at the offsets its tables give:
 * the TNID ids, NMOF offsets that point at zero-terminated names, ADOF pairs
 * that point at 16-byte aligned payloads followed by zero padding, shared
 * pairs for payloads with equal checksums, and the output length against
 * `calc_size`.
 *
 * Each property is first proved for any output laid out from a plan
 * (`Laid`), then instantiated for `Serialize`.
 */
module Output {
  import opened Format
  import opened Nus3audio
  import opened Layout
  import opened WriteProperties

  /** The u32 stored little-endian at `pos`. */
  function ReadAt(out: seq<u8>, pos: nat): u32
    requires pos + 4 <= |out|
  {
    ReadU32Le(out[pos..pos + 4])
  }

  /** Where the `i`-th entry of each table starts, for `n` entries. */
  function TnidEntry(n: nat, i: nat): nat { TnidPos(n) + 8 + 4 * i }
  function NmofEntry(n: nat, i: nat): nat { NmofPos(n) + 8 + 4 * i }
  function AdofEntry(n: nat, i: nat): nat { AdofPos(n) + 8 + 8 * i }

  // ---------------------------------------------------------------------
  // Table entries in place

  /** Element `i` of a u32 table whose section is at `pos`, read back. */
  lemma {:induction false} U32EntryAt(out: seq<u8>, pos: nat, tag: seq<u8>, vs: seq<nat>, i: nat)
    requires AllU32(vs)
    requires i < |vs|
    requires SectionAt(out, pos, tag, U32s(vs))
    ensures pos + 8 + 4 * i + 4 <= |out|
    ensures ReadAt(out, pos + 8 + 4 * i) == vs[i]
  {
    U32sAt(vs, i);
    Nested(out, pos + 8, U32s(vs), 4 * i, 4 * i + 4);
    ReadWriteU32(vs[i]);
  }

  /** Pair `i` of an (offset, size) table whose section is at `pos`, read back. */
  lemma {:induction false} PairEntryAt(out: seq<u8>, pos: nat, tag: seq<u8>, ps: seq<(nat, nat)>, i: nat)
    requires AllPairsU32(ps)
    requires i < |ps|
    requires SectionAt(out, pos, tag, Pairs(ps))
    ensures pos + 8 + 8 * i + 8 <= |out|
    ensures ReadAt(out, pos + 8 + 8 * i) == ps[i].0
    ensures ReadAt(out, pos + 8 + 8 * i + 4) == ps[i].1
  {
    PairsAt(ps, i);
    Nested(out, pos + 8, Pairs(ps), 8 * i, 8 * i + 4);
    Nested(out, pos + 8, Pairs(ps), 8 * i + 4, 8 * i + 8);
    ReadWriteU32(ps[i].0);
    ReadWriteU32(ps[i].1);
  }

  /** TNID entry `i` of a laid-out output holds entry `i`'s track id. */
  lemma {:induction false} LaidTrackId(files: seq<AudioFile>, p: Plan, out: seq<u8>, i: nat)
    requires Laid(files, p, out)
    requires i < |files|
    ensures TnidEntry(|files|, i) + 4 <= |out|
    ensures ReadAt(out, TnidEntry(|files|, i)) == files[i].id
  {
    LaidTnid(files, p, out);
    U32EntryAt(out, TnidPos(|files|), TNID, Ids(files), i);
  }

  /** TNID entry `i` of `write`'s output holds entry `i`'s track id. */
  lemma {:induction false} OutputTrackId(files: seq<AudioFile>, crc: Crc, i: nat)
    requires Fits(files)
    requires i < |files|
    ensures TnidEntry(|files|, i) + 4 <= |Serialize(files, crc)|
    ensures ReadAt(Serialize(files, crc), TnidEntry(|files|, i)) == files[i].id
  {
    OutputLaid(files, crc);
    LaidTrackId(files, MakePlan(files, crc), Serialize(files, crc), i);
  }

  /**
   * The three tables of `write`'s output: each section declares the length
   * of the body that follows it, 4n, 4n and 8n bytes, holding the track ids,
   * the name offsets and the (offset, size) pairs of the payload pass.
   */
  lemma {:induction false} OutputTables(files: seq<AudioFile>, crc: Crc)
    requires Fits(files)
    ensures var out := Serialize(files, crc);
            var n := |files|;
            var start := PackSectionStart(n, NameBlobSize(files));
            && AllU32(NameOffsets(files, StringSectionStart(n)))
            && AllPairsU32(PackLayout(files, crc, start).pairs)
            && SectionAt(out, TnidPos(n), TNID, U32s(Ids(files)))
            && SectionAt(out, NmofPos(n), NMOF, U32s(NameOffsets(files, StringSectionStart(n))))
            && SectionAt(out, AdofPos(n), ADOF, Pairs(PackLayout(files, crc, start).pairs))
            && |PackLayout(files, crc, start).pairs| == n
  {
    var p := MakePlan(files, crc);
    var out := Serialize(files, crc);
    OutputLaid(files, crc);
    LaidTnid(files, p, out);
    LaidNmof(files, p, out);
    LaidAdof(files, p, out);
  }

  /**
   * The TNNM and JUNK sections of `write`'s output: TNNM declares and holds
   * the names with their terminators, JUNK declares and holds `junk_pad`
   * zero bytes.
   */
  lemma {:induction false} OutputNamesAndJunk(files: seq<AudioFile>, crc: Crc)
    requires Fits(files)
    ensures var out := Serialize(files, crc);
            var n := |files|;
            var blob := NameBlobSize(files);
            && |NameBlob(files)| == blob
            && SectionAt(out, TnnmPos(n), TNNM, NameBlob(files))
            && SectionAt(out, JunkPos(n, blob), JUNK, Zeros(JunkPad(n, blob)))
  {
    var p := MakePlan(files, crc);
    var out := Serialize(files, crc);
    OutputLaid(files, crc);
    LaidNames(files, p, out);
    LaidJunk(files, p, out);
    NameBlobLength(files);
  }

  /** PACK in a laid-out output whose PACK layout the payload pass computed. */
  lemma {:induction false} LaidPackBody(files: seq<AudioFile>, crc: Crc, p: Plan, out: seq<u8>)
    requires Laid(files, p, out)
    requires p.pack == PackLayout(files, crc, p.packStart)
    ensures |PackBlob(Packed(files, crc))| == PaddedSum(Packed(files, crc))
    ensures p.packStart >= 8 && SectionAt(out, p.packStart - 8, PACK, PackBlob(Packed(files, crc)))
    ensures |out| == p.packStart + PaddedSum(Packed(files, crc))
  {
    LaidPack(files, p, out);
    PackLayoutInvariant(files, crc, p.packStart);
    PackBlobLength(Packed(files, crc));
  }

  /**
   * The PACK section of `write`'s output declares and holds the packed
   * payloads, each padded to 16 bytes.
   */
  lemma {:induction false} OutputPack(files: seq<AudioFile>, crc: Crc)
    requires Fits(files)
    ensures var out := Serialize(files, crc);
            var start := PackSectionStart(|files|, NameBlobSize(files));
            && |PackBlob(Packed(files, crc))| == PaddedSum(Packed(files, crc))
            && start >= 8 && SectionAt(out, start - 8, PACK, PackBlob(Packed(files, crc)))
  {
    var p := MakePlan(files, crc);
    OutputLaid(files, crc);
    assert p.pack == PackLayout(files, crc, p.packStart);
    LaidPackBody(files, crc, p, Serialize(files, crc));
  }

  // ---------------------------------------------------------------------
  // Names

  /** A window of `blob` is found at the same distance into a copy of `blob`. */
  lemma {:induction false} InnerWindow(out: seq<u8>, base: nat, blob: seq<u8>, a: nat, t: seq<u8>)
    requires base + |blob| <= |out|
    requires out[base..base + |blob|] == blob
    requires a + |t| <= |blob|
    requires blob[a..a + |t|] == t
    ensures out[base + a..base + a + |t|] == t
  {
    Nested(out, base, blob, a, a + |t|);
  }

  /**
   * With the NMOF section holding the name offsets from the string section
   * start, entry `i` reads that start plus the sizes of the earlier names.
   */
  lemma {:induction false} NmofValueAt(files: seq<AudioFile>, out: seq<u8>, i: nat)
    requires AllU32(NameOffsets(files, StringSectionStart(|files|)))
    requires SectionAt(out, NmofPos(|files|), NMOF, U32s(NameOffsets(files, StringSectionStart(|files|))))
    requires i < |files|
    ensures NmofEntry(|files|, i) + 4 <= |out|
    ensures ReadAt(out, NmofEntry(|files|, i)) == StringSectionStart(|files|) + NameBlobSize(files[..i])
  {
    var offsets := NameOffsets(files, StringSectionStart(|files|));
    NameOffsetAt(files, StringSectionStart(|files|), i);
    U32EntryAt(out, NmofPos(|files|), NMOF, offsets, i);
  }

  /**
   * With the TNNM section holding the name blob, entry `i`'s name and a zero
   * byte sit at the string section start plus the sizes of the earlier names.
   */
  lemma {:induction false} NameBytesAt(files: seq<AudioFile>, out: seq<u8>, i: nat)
    requires SectionAt(out, TnnmPos(|files|), TNNM, NameBlob(files))
    requires i < |files|
    ensures var o := StringSectionStart(|files|) + NameBlobSize(files[..i]);
            o + |files[i].name| + 1 <= |out| && out[o..o + |files[i].name| + 1] == files[i].name + [0]
  {
    var base := StringSectionStart(|files|);
    assert base == TnnmPos(|files|) + 8;
    NameBlobAt(files, i);
    InnerWindow(out, base, NameBlob(files), NameBlobSize(files[..i]), files[i].name + [0]);
  }

  /**
   * In a laid-out output, NMOF entry `i` holds the blob start plus the sizes
   * of the names before entry `i`, and the bytes there are entry `i`'s name
   * and a zero byte.
   */
  lemma {:induction false} LaidNameAt(files: seq<AudioFile>, p: Plan, out: seq<u8>, i: nat)
    requires Laid(files, p, out)
    requires p.stringOffsets == NameOffsets(files, StringSectionStart(|files|))
    requires i < |files|
    ensures NmofEntry(|files|, i) + 4 <= |out|
    ensures ReadAt(out, NmofEntry(|files|, i)) == StringSectionStart(|files|) + NameBlobSize(files[..i])
    ensures var o := StringSectionStart(|files|) + NameBlobSize(files[..i]);
            o + |files[i].name| + 1 <= |out| && out[o..o + |files[i].name| + 1] == files[i].name + [0]
  {
    LaidNmof(files, p, out);
    LaidNames(files, p, out);
    NmofValueAt(files, out, i);
    NameBytesAt(files, out, i);
  }

  /**
   * NMOF entry `i` of `write`'s output is the string section start plus the
   * sizes of the earlier names and their terminators; at that offset the
   * output holds entry `i`'s name followed by a zero byte.
   */
  lemma {:induction false} OutputNameAt(files: seq<AudioFile>, crc: Crc, i: nat)
    requires Fits(files)
    requires i < |files|
    ensures NmofEntry(|files|, i) + 4 <= |Serialize(files, crc)|
    ensures ReadAt(Serialize(files, crc), NmofEntry(|files|, i))
            == StringSectionStart(|files|) + NameBlobSize(files[..i])
    ensures var o := StringSectionStart(|files|) + NameBlobSize(files[..i]);
            && o + |files[i].name| + 1 <= |Serialize(files, crc)|
            && Serialize(files, crc)[o..o + |files[i].name| + 1] == files[i].name + [0]
  {
    OutputLaid(files, crc);
    LaidNameAt(files, MakePlan(files, crc), Serialize(files, crc), i);
  }

  /** The NMOF entries of `write`'s output strictly increase. */
  lemma {:induction false} OutputNameOffsetsIncrease(files: seq<AudioFile>, crc: Crc, i: nat, j: nat)
    requires Fits(files)
    requires i < j < |files|
    ensures NmofEntry(|files|, j) + 4 <= |Serialize(files, crc)|
    ensures ReadAt(Serialize(files, crc), NmofEntry(|files|, i)) < ReadAt(Serialize(files, crc), NmofEntry(|files|, j))
  {
    OutputNameAt(files, crc, i);
    OutputNameAt(files, crc, j);
    var start := StringSectionStart(|files|);
    NameOffsetAt(files, start, i);
    NameOffsetAt(files, start, j);
    NameOffsetsIncrease(files, start, i, j);
  }

  // ---------------------------------------------------------------------
  // Payloads

  /**
   * Payload `m` of a PACK section whose body starts at `start`: it sits
   * `PaddedSum` of the payloads before it past `start`, and zeros fill its
   * last 16-byte block.
   */
  lemma {:induction false} PackedIn(out: seq<u8>, start: nat, ps: seq<seq<u8>>, m: nat)
    requires start >= 8
    requires SectionAt(out, start - 8, PACK, PackBlob(ps))
    requires m < |ps|
    ensures var off := start + PaddedSum(ps[..m]);
            && off + PaddedLen(|ps[m]|) <= |out|
            && out[off..off + |ps[m]|] == ps[m]
            && forall k :: off + |ps[m]| <= k < off + PaddedLen(|ps[m]|) ==> out[k] == 0
  {
    var body := PackBlob(ps);
    var a := PaddedSum(ps[..m]);
    PackBlobAt(ps, m);
    assert out[start..start + |body|] == body;
    InnerWindow(out, start, body, a, ps[m]);
    forall k | start + a + |ps[m]| <= k < start + a + PaddedLen(|ps[m]|)
      ensures out[k] == 0
    {
      assert out[start..start + |body|][k - start] == out[k];
    }
  }

  /** Two multiples of 16 add up to a multiple of 16. */
  lemma {:induction false} AlignedSum(a: nat, b: nat)
    requires a % 16 == 0
    requires b % 16 == 0
    ensures (a + b) % 16 == 0
  {
    assert a + b == 16 * (a / 16 + b / 16);
  }

  /**
   * An (offset, size) pair at `e` that reads back as the place and size of
   * packed payload `m` points at that payload, aligned, with zeros after it.
   */
  lemma {:induction false} PairPointsAtPayload(out: seq<u8>, start: nat, ps: seq<seq<u8>>, m: nat, e: nat)
    requires start >= 8
    requires start % 16 == 0
    requires SectionAt(out, start - 8, PACK, PackBlob(ps))
    requires m < |ps|
    requires e + 8 <= |out|
    requires ReadAt(out, e) == start + PaddedSum(ps[..m])
    requires ReadAt(out, e + 4) == |ps[m]|
    ensures var off := ReadAt(out, e);
            var size := ReadAt(out, e + 4);
            && off % 16 == 0
            && off + PaddedLen(size) <= |out|
            && out[off..off + size] == ps[m]
            && forall k :: off + size <= k < off + PaddedLen(size) ==> out[k] == 0
  {
    PackedIn(out, start, ps, m);
    PaddedSumAligned(ps[..m]);
    AlignedSum(start, PaddedSum(ps[..m]));
  }

  /**
   * With the ADOF section holding the pairs of the payload pass and the PACK
   * body, 16-byte aligned at `start`, holding the packed payloads, pair `i`
   * reads back as an aligned offset and the size of the payload of the first
   * entry with entry `i`'s checksum; its bytes are there, then zeros up to
   * the next 16-byte boundary.
   */
  lemma {:induction false} PayloadAt(files: seq<AudioFile>, crc: Crc, out: seq<u8>, start: nat, i: nat)
    requires start >= 8
    requires start % 16 == 0
    requires AllPairsU32(PackLayout(files, crc, start).pairs)
    requires SectionAt(out, AdofPos(|files|), ADOF, Pairs(PackLayout(files, crc, start).pairs))
    requires SectionAt(out, start - 8, PACK, PackBlob(Packed(files, crc)))
    requires i < |files|
    ensures AdofEntry(|files|, i) + 8 <= |out|
    ensures var off := ReadAt(out, AdofEntry(|files|, i));
            var size := ReadAt(out, AdofEntry(|files|, i) + 4);
            var d := files[First(files, crc, i)].data;
            && off % 16 == 0
            && size == |d|
            && off + PaddedLen(size) <= |out|
            && out[off..off + size] == d
            && forall k :: off + size <= k < off + PaddedLen(size) ==> out[k] == 0
  {
    var pairs := PackLayout(files, crc, start).pairs;
    var ps := Packed(files, crc);
    var m := |Packed(files[..First(files, crc, i)], crc)|;
    PairLocatesPayload(files, crc, start, i);
    PairEntryAt(out, AdofPos(|files|), ADOF, pairs, i);
    PairPointsAtPayload(out, start, ps, m, AdofEntry(|files|, i));
  }

  /** `PayloadAt` for a laid-out output whose PACK layout the payload pass computed. */
  lemma {:induction false} LaidPayloadAt(files: seq<AudioFile>, crc: Crc, p: Plan, out: seq<u8>, i: nat)
    requires Laid(files, p, out)
    requires p.packStart == PackSectionStart(|files|, NameBlobSize(files))
    requires p.pack == PackLayout(files, crc, p.packStart)
    requires i < |files|
    ensures AdofEntry(|files|, i) + 8 <= |out|
    ensures var off := ReadAt(out, AdofEntry(|files|, i));
            var size := ReadAt(out, AdofEntry(|files|, i) + 4);
            var d := files[First(files, crc, i)].data;
            && off % 16 == 0
            && size == |d|
            && off + PaddedLen(size) <= |out|
            && out[off..off + size] == d
            && forall k :: off + size <= k < off + PaddedLen(size) ==> out[k] == 0
  {
    LaidAdof(files, p, out);
    LaidPack(files, p, out);
    PackLayoutInvariant(files, crc, p.packStart);
    PackStartAligned(|files|, NameBlobSize(files));
    PayloadAt(files, crc, out, p.packStart, i);
  }

  /**
   * ADOF entry `i` of `write`'s output points at a 16-byte aligned copy of
   * the payload of the first entry with entry `i`'s checksum (entry `i`'s
   * own payload when it is the first), of the size the entry gives, with
   * zeros after it up to the next 16-byte boundary.
   */
  lemma {:induction false} OutputPayloadAt(files: seq<AudioFile>, crc: Crc, i: nat)
    requires Fits(files)
    requires i < |files|
    ensures AdofEntry(|files|, i) + 8 <= |Serialize(files, crc)|
    ensures var out := Serialize(files, crc);
            var off := ReadAt(out, AdofEntry(|files|, i));
            var size := ReadAt(out, AdofEntry(|files|, i) + 4);
            var d := files[First(files, crc, i)].data;
            && crc(d) == crc(files[i].data)
            && off % 16 == 0
            && size == |d|
            && off + PaddedLen(size) <= |out|
            && out[off..off + size] == d
            && (IsNew(files, crc, i) ==> out[off..off + size] == files[i].data)
            && forall k :: off + size <= k < off + PaddedLen(size) ==> out[k] == 0
  {
    var p := MakePlan(files, crc);
    OutputLaid(files, crc);
    assert p.packStart == PackSectionStart(|files|, NameBlobSize(files));
    assert p.pack == PackLayout(files, crc, p.packStart);
    LaidPayloadAt(files, crc, p, Serialize(files, crc), i);
  }

  // ---------------------------------------------------------------------
  // Deduplication

  /** Entries with equal checksums get the same (offset, size) pair. */
  lemma {:induction false} SameChecksumSharesPair(files: seq<AudioFile>, crc: Crc, start: nat, i: nat, j: nat)
    requires i < |files| && j < |files|
    requires crc(files[i].data) == crc(files[j].data)
    ensures var st := PackLayout(files, crc, start);
            |st.pairs| == |files| && st.pairs[i] == st.pairs[j]
  {
    var st := PackLayout(files, crc, start);
    PackLayoutInvariant(files, crc, start);
    assert PairFromMap(files, crc, st, i) && PairFromMap(files, crc, st, j);
  }

  /**
   * In `write`'s output, entries whose payloads have equal checksums have
   * equal ADOF entries; in particular byte-identical payloads do.
   */
  lemma {:induction false} OutputDedupSharesPair(files: seq<AudioFile>, crc: Crc, i: nat, j: nat)
    requires Fits(files)
    requires i < |files| && j < |files|
    requires crc(files[i].data) == crc(files[j].data)
    ensures AdofEntry(|files|, i) + 8 <= |Serialize(files, crc)|
    ensures AdofEntry(|files|, j) + 8 <= |Serialize(files, crc)|
    ensures ReadAt(Serialize(files, crc), AdofEntry(|files|, i)) == ReadAt(Serialize(files, crc), AdofEntry(|files|, j))
    ensures ReadAt(Serialize(files, crc), AdofEntry(|files|, i) + 4) == ReadAt(Serialize(files, crc), AdofEntry(|files|, j) + 4)
  {
    OutputLaid(files, crc);
    var p := MakePlan(files, crc);
    var out := Serialize(files, crc);
    LaidAdof(files, p, out);
    SameChecksumSharesPair(files, crc, p.packStart, i, j);
    PairEntryAt(out, AdofPos(|files|), ADOF, p.pack.pairs, i);
    PairEntryAt(out, AdofPos(|files|), ADOF, p.pack.pairs, j);
  }

  /** Every packed payload is the payload of a new entry. */
  lemma {:induction false} PackedFromNew(files: seq<AudioFile>, crc: Crc, m: nat)
    requires m < |Packed(files, crc)|
    ensures exists j :: 0 <= j < |files| && IsNew(files, crc, j) && Packed(files, crc)[m] == files[j].data
    decreases |files|
  {
    var k := |files| - 1;
    var init := files[..k];
    if m < |Packed(init, crc)| {
      PackedFromNew(init, crc, m);
      var j :| 0 <= j < k && IsNew(init, crc, j) && Packed(init, crc)[m] == init[j].data;
      IsNewPrefix(files, crc, k, j);
      assert files[j] == init[j];
    } else {
      assert IsNew(files, crc, k) && Packed(files, crc)[m] == files[k].data;
    }
  }

  /** PACK holds one copy per checksum: no two packed payloads share a checksum. */
  lemma {:induction false} PackedUnique(files: seq<AudioFile>, crc: Crc, a: nat, b: nat)
    requires a < b < |Packed(files, crc)|
    ensures crc(Packed(files, crc)[a]) != crc(Packed(files, crc)[b])
    decreases |files|
  {
    var k := |files| - 1;
    var init := files[..k];
    var ps := Packed(init, crc);
    if b < |ps| {
      PackedUnique(init, crc, a, b);
    } else {
      assert IsNew(files, crc, k) && Packed(files, crc)[b] == files[k].data;
      PackedFromNew(init, crc, a);
      var j :| 0 <= j < k && IsNew(init, crc, j) && ps[a] == init[j].data;
      assert init[j] == files[j];
    }
  }

  // ---------------------------------------------------------------------
  // Output length against `calc_size`

  /** A payload takes no PACK space exactly when it is empty. */
  lemma {:induction false} PaddedLenZero(len: nat)
    ensures PaddedLen(len) == 0 <==> len == 0
  {
    TrailPadCompletesBlock(len);
  }

  /**
   * The entries that were not packed again take no space exactly when each
   * of them has an empty payload.
   */
  lemma {:induction false} SkippedSizeZero(files: seq<AudioFile>, crc: Crc)
    ensures SkippedSize(files, crc) == 0
            <==> forall i :: 0 <= i < |files| && !IsNew(files, crc, i) ==> files[i].data == []
    decreases |files|
  {
    if files != [] {
      var k := |files| - 1;
      var init := files[..k];
      SkippedSizeZero(init, crc);
      PaddedLenZero(|files[k].data|);
      forall i | 0 <= i < k
        ensures IsNew(init, crc, i) == IsNew(files, crc, i) && init[i] == files[i]
      {
        IsNewPrefix(files, crc, k, i);
      }
    }
  }

  /** The length of `write`'s output: the PACK start plus the packed payloads, padded. */
  lemma {:induction false} OutputLength(files: seq<AudioFile>, crc: Crc)
    requires Fits(files)
    ensures |Serialize(files, crc)| == PackSectionStart(|files|, NameBlobSize(files)) + PaddedSum(Packed(files, crc))
  {
    OutputLaid(files, crc);
    PackLayoutInvariant(files, crc, MakePlan(files, crc).packStart);
  }

  /**
   * `calc_size` exceeds the length `write` produces by the padded sizes of
   * the deduplicated payloads: the two agree exactly when every entry that
   * repeats an earlier checksum has an empty payload, and in particular when
   * all checksums are distinct.
   */
  lemma {:induction false} SizeAgainstPrediction(files: seq<AudioFile>, crc: Crc)
    requires Fits(files)
    ensures |Serialize(files, crc)| + SkippedSize(files, crc) == PredictedSize(files)
    ensures |Serialize(files, crc)| == PredictedSize(files)
            <==> forall i :: 0 <= i < |files| && !IsNew(files, crc, i) ==> files[i].data == []
    ensures (forall i, j :: 0 <= j < i < |files| ==> crc(files[j].data) != crc(files[i].data))
            ==> |Serialize(files, crc)| == PredictedSize(files)
  {
    OutputLength(files, crc);
    PackSizeSplit(files, crc);
    SkippedSizeZero(files, crc);
  }
}
