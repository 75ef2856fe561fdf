/**
 * What the bytes `write` produces satisfy: section tags and declared
 * lengths, name offsets that point at the names, 16-byte aligned payloads at
 * the offsets ADOF gives, checksum deduplication, and the relation between
 * the written length and `calc_size`.
 */
module WriteProperties {
  import opened Format
  import opened Nus3audio
  import opened Layout

  // ---------------------------------------------------------------------
  // Slicing helpers

  lemma {:induction false} Window(s: seq<u8>, pre: seq<u8>, mid: seq<u8>, post: seq<u8>)
    requires s == pre + mid + post
    ensures |pre| + |mid| <= |s| && s[|pre|..|pre| + |mid|] == mid
  {
  }

  lemma {:induction false} Nested(s: seq<u8>, a: nat, t: seq<u8>, x: nat, y: nat)
    requires a + |t| <= |s| && s[a..a + |t|] == t && x <= y <= |t|
    ensures s[a + x..a + y] == t[x..y]
  {
    assert forall k :: x <= k < y ==> s[a + k] == t[k];
  }

  // ---------------------------------------------------------------------
  // Padding arithmetic

  /**
   * The zeros written after a payload (`(16 - len % 16) % 16`) are exactly
   * what the PACK size counts for it beyond its length
   * (`((len + 15) / 16) * 16 - len`), and the padded size is the least
   * multiple of 16 not below `len`.
   */
  lemma {:induction false} TrailPadCompletesBlock(len: nat)
    ensures TrailPad(len) == PaddedLen(len) - len
    ensures PaddedLen(len) % 16 == 0 && len <= PaddedLen(len) < len + 16
  {
    var q := len / 16;
    var r := len % 16;
    assert len == 16 * q + r;
    if r == 0 {
      assert (len + 15) / 16 == q;
    } else {
      assert (len + 15) / 16 == q + 1;
    }
  }

  lemma {:induction false} PaddedSumAligned(ps: seq<seq<u8>>)
    ensures PaddedSum(ps) % 16 == 0
    decreases |ps|
  {
    if ps != [] {
      PaddedSumAligned(ps[..|ps| - 1]);
      TrailPadCompletesBlock(|ps[|ps| - 1]|);
    }
  }

  /** The first PACK payload byte lies on a 16-byte boundary. */
  lemma {:induction false} PackStartAligned(n: nat, blobSize: nat)
    ensures PackSectionStart(n, blobSize) % 16 == 0
  {
    var pos := StringSectionStart(n) + blobSize + |JUNK| + 4;
    assert (pos + JunkPad(n, blobSize)) % 16 == 8;
  }

  // ---------------------------------------------------------------------
  // TNNM: the name blob

  lemma {:induction false} NameBlobLength(files: seq<AudioFile>)
    ensures |NameBlob(files)| == NameBlobSize(files)
    decreases |files|
  {
    if files != [] {
      NameBlobLength(files[..|files| - 1]);
    }
  }

  /** In the blob, entry `i`'s name and its zero byte start after the names before it. */
  lemma {:induction false} NameBlobAt(files: seq<AudioFile>, i: nat)
    requires i < |files|
    ensures NameBlobSize(files[..i]) + |files[i].name| + 1 <= |NameBlob(files)|
    ensures NameBlob(files)[NameBlobSize(files[..i])..NameBlobSize(files[..i]) + |files[i].name| + 1]
            == files[i].name + [0]
    decreases |files|
  {
    var k := |files| - 1;
    var init := files[..k];
    NameBlobLength(init);
    var rest := files[k].name + [0];
    if i < k {
      NameBlobAt(init, i);
      assert init[..i] == files[..i];
      var a := NameBlobSize(files[..i]);
      assert NameBlob(files) == NameBlob(init) + rest;
      Nested(NameBlob(files), 0, NameBlob(init), a, a + |files[i].name| + 1);
    } else {
      assert init == files[..i];
      Window(NameBlob(files), NameBlob(init), rest, []);
    }
  }

  /** Name offsets strictly increase with the entry index. */
  lemma {:induction false} NameOffsetsIncrease(files: seq<AudioFile>, start: nat, i: nat, j: nat)
    requires i < j < |files|
    ensures |NameOffsets(files, start)| == |files|
    ensures NameOffsets(files, start)[i] < NameOffsets(files, start)[j]
  {
    NameOffsetAt(files, start, i);
    NameOffsetAt(files, start, j);
    NameBlobSizePrefix(files[..j], i);
    assert files[..j][..i] == files[..i];
    assert files[..j][i] == files[i];
  }

  // ---------------------------------------------------------------------
  // PACK: the payload blob

  lemma {:induction false} PackBlobLength(ps: seq<seq<u8>>)
    ensures |PackBlob(ps)| == PaddedSum(ps)
    decreases |ps|
  {
    if ps != [] {
      PackBlobLength(ps[..|ps| - 1]);
      TrailPadCompletesBlock(|ps[|ps| - 1]|);
    }
  }

  /**
   * In the PACK body, payload `m` starts after the padded sizes of the
   * payloads before it and is followed by zeros up to its padded size.
   */
  lemma {:induction false} PackBlobAt(ps: seq<seq<u8>>, m: nat)
    requires m < |ps|
    ensures var a := PaddedSum(ps[..m]);
            && a + PaddedLen(|ps[m]|) <= |PackBlob(ps)|
            && PackBlob(ps)[a..a + |ps[m]|] == ps[m]
            && forall k :: a + |ps[m]| <= k < a + PaddedLen(|ps[m]|) ==> PackBlob(ps)[k] == 0
    decreases |ps|
  {
    var k := |ps| - 1;
    var init := ps[..k];
    var p := ps[k];
    var tail := p + Zeros(TrailPad(|p|));
    PackBlobLength(init);
    TrailPadCompletesBlock(|p|);
    assert PackBlob(ps) == PackBlob(init) + tail;
    if m < k {
      PackBlobAt(init, m);
      assert init[..m] == ps[..m];
      assert init[m] == ps[m];
      var a := PaddedSum(ps[..m]);
      Nested(PackBlob(ps), 0, PackBlob(init), a, a + |ps[m]|);
      assert forall j :: 0 <= j < |PackBlob(init)| ==> PackBlob(ps)[j] == PackBlob(init)[j];
    } else {
      assert init == ps[..m];
      Window(PackBlob(ps), PackBlob(init), p, Zeros(TrailPad(|p|)));
    }
  }

  // ---------------------------------------------------------------------
  // Tables

  /** The `i`-th u32 of a written `Vec<u32>` is that element, little-endian. */
  lemma {:induction false} U32sAt(vs: seq<nat>, i: nat)
    requires AllU32(vs) && i < |vs|
    ensures U32s(vs)[4 * i..4 * i + 4] == U32Le(vs[i])
    decreases |vs|
  {
    var k := |vs| - 1;
    var init := vs[..k];
    assert U32s(vs) == U32s(init) + U32Le(vs[k]);
    if i < k {
      U32sAt(init, i);
      Nested(U32s(vs), 0, U32s(init), 4 * i, 4 * i + 4);
    } else {
      Window(U32s(vs), U32s(init), U32Le(vs[k]), []);
    }
  }

  /** The `i`-th pair of a written `Vec<(u32, u32)>`: offset then size, little-endian. */
  lemma {:induction false} PairsAt(ps: seq<(nat, nat)>, i: nat)
    requires AllPairsU32(ps) && i < |ps|
    ensures Pairs(ps)[8 * i..8 * i + 4] == U32Le(ps[i].0)
    ensures Pairs(ps)[8 * i + 4..8 * i + 8] == U32Le(ps[i].1)
    decreases |ps|
  {
    var k := |ps| - 1;
    var init := ps[..k];
    assert Pairs(ps) == Pairs(init) + U32Le(ps[k].0) + U32Le(ps[k].1);
    if i < k {
      PairsAt(init, i);
      Nested(Pairs(ps), 0, Pairs(init), 8 * i, 8 * i + 4);
      Nested(Pairs(ps), 0, Pairs(init), 8 * i + 4, 8 * i + 8);
    } else {
      Window(Pairs(ps), Pairs(init), U32Le(ps[k].0), U32Le(ps[k].1));
      Window(Pairs(ps), Pairs(init) + U32Le(ps[k].0), U32Le(ps[k].1), []);
    }
  }

  // ---------------------------------------------------------------------
  // Sections in place

  /**
   * Section `body`, with a four-byte tag, is at `pos` of `out`: the tag,
   * the body's length as a little-endian u32, then the body itself.
   */
  predicate SectionAt(out: seq<u8>, pos: nat, tag: seq<u8>, body: seq<u8>)
  {
    && |body| < U32_LIMIT && pos + 8 + |body| <= |out|
    && out[pos..pos + 4] == tag && out[pos + 4..pos + 8] == U32Le(|body|)
    && out[pos + 8..pos + 8 + |body|] == body
  }

  /** A reader that finds a section's tag at `pos` reads its length back with `le_u32`. */
  lemma {:induction false} SectionLengthReads(out: seq<u8>, pos: nat, tag: seq<u8>, body: seq<u8>)
    requires SectionAt(out, pos, tag, body)
    ensures ReadU32Le(out[pos + 4..pos + 8]) == |body|
  {
    ReadWriteU32(|body|);
  }

  /**
   * The first 24 bytes of a file with `n` entries: `NUS3` and the length of
   * everything after these 8 bytes, then AUDIINDX declaring 4 bytes that
   * hold `n`.
   */
  predicate FileHeader(out: seq<u8>, n: nat)
  {
    && 24 <= |out| < U32_LIMIT + 8 && n < U32_LIMIT
    && out[0..4] == NUS3 && out[4..8] == U32Le(|out| - 8)
    && out[8..16] == AUDIINDX && out[16..20] == U32Le(4) && out[20..24] == U32Le(n)
  }

  /** Where part `k` begins in the concatenation of `parts`. */
  function Start(parts: seq<seq<u8>>, k: nat): nat
    requires k <= |parts|
  {
    |Concat(parts[..k])|
  }

  lemma {:induction false} StartNext(parts: seq<seq<u8>>, k: nat)
    requires k < |parts|
    ensures Start(parts, k + 1) == Start(parts, k) + |parts[k]|
  {
    assert parts[..k + 1][..k] == parts[..k];
  }

  /** Every part appears whole, at its start, in the concatenation. */
  lemma {:induction false} ConcatAt(parts: seq<seq<u8>>, k: nat)
    requires k < |parts|
    ensures Start(parts, k) + |parts[k]| <= |Concat(parts)|
    ensures Concat(parts)[Start(parts, k)..Start(parts, k) + |parts[k]|] == parts[k]
    decreases |parts|
  {
    var last := |parts| - 1;
    var init := parts[..last];
    if k < last {
      ConcatAt(init, k);
      assert init[..k] == parts[..k];
      Nested(Concat(parts), 0, Concat(init), Start(parts, k), Start(parts, k) + |parts[k]|);
    } else {
      assert init == parts[..k];
      assert Concat(parts) == Concat(init) + parts[last] + [];
      Window(Concat(parts), Concat(init), parts[last], []);
    }
  }

  /** The tag, length and body of a written section, inside it. */
  lemma {:induction false} SectionFields(s: seq<u8>, tag: seq<u8>, declared: u32, body: seq<u8>)
    requires s == Section(tag, declared, body)
    ensures |s| == |tag| + 4 + |body|
    ensures s[..|tag|] == tag
    ensures s[|tag|..|tag| + 4] == U32Le(declared)
    ensures s[|tag| + 4..] == body
  {
    Window(s, tag, U32Le(declared), body);
  }

  /** Part `k`, a written section, read in place: its tag, its declared length and its body. */
  lemma {:induction false} PartFields(parts: seq<seq<u8>>, k: nat, pos: nat, tag: seq<u8>, declared: u32, body: seq<u8>)
    requires k < |parts| && pos == Start(parts, k) && parts[k] == Section(tag, declared, body)
    ensures pos + |tag| + 4 + |body| <= |Concat(parts)|
    ensures Concat(parts)[pos..pos + |tag|] == tag
    ensures Concat(parts)[pos + |tag|..pos + |tag| + 4] == U32Le(declared)
    ensures Concat(parts)[pos + |tag| + 4..pos + |tag| + 4 + |body|] == body
  {
    ConcatAt(parts, k);
    SectionFields(parts[k], tag, declared, body);
    var t := |tag|;
    Nested(Concat(parts), pos, parts[k], 0, t);
    Nested(Concat(parts), pos, parts[k], t, t + 4);
    Nested(Concat(parts), pos, parts[k], t + 4, t + 4 + |body|);
  }

  /** A part that is a section with a four-byte tag and its own length is found in place. */
  lemma {:induction false} PartIsSection(out: seq<u8>, parts: seq<seq<u8>>, k: nat, pos: nat, tag: seq<u8>, len: u32, body: seq<u8>)
    requires out == Concat(parts)
    requires k < |parts| && pos == Start(parts, k) && parts[k] == Section(tag, len, body)
    requires |tag| == 4 && len == |body|
    ensures SectionAt(out, pos, tag, body)
  {
    PartFields(parts, k, pos, tag, len, body);
  }

  /** Absolute offsets of the sections for `n` entries and a name blob of `blobSize` bytes. */
  function TnidPos(n: nat): nat { 24 }
  function NmofPos(n: nat): nat { 32 + 4 * n }
  function AdofPos(n: nat): nat { 40 + 8 * n }
  function TnnmPos(n: nat): nat { 48 + 16 * n }
  function JunkPos(n: nat, blobSize: nat): nat { TnnmPos(n) + 8 + blobSize }

  /** The eight section starts, from the section lengths. */
  lemma {:induction false} Starts(parts: seq<seq<u8>>, n: nat, blob: nat, pad: nat, size: nat)
    requires |parts| == 8
    requires |parts[0]| == 8 && |parts[1]| == 16
    requires |parts[2]| == 8 + 4 * n && |parts[3]| == 8 + 4 * n && |parts[4]| == 8 + 8 * n
    requires |parts[5]| == 8 + blob && |parts[6]| == 8 + pad && |parts[7]| == 8 + size
    ensures Start(parts, 0) == 0 && Start(parts, 1) == 8 && Start(parts, 2) == TnidPos(n)
    ensures Start(parts, 3) == NmofPos(n) && Start(parts, 4) == AdofPos(n)
    ensures Start(parts, 5) == TnnmPos(n) && Start(parts, 6) == JunkPos(n, blob)
    ensures Start(parts, 7) == JunkPos(n, blob) + 8 + pad
    ensures |Concat(parts)| == JunkPos(n, blob) + 16 + pad + size
  {
    assert parts[..0] == [];
    StartNext(parts, 0);
    StartNext(parts, 1);
    StartNext(parts, 2);
    StartNext(parts, 3);
    StartNext(parts, 4);
    StartNext(parts, 5);
    StartNext(parts, 6);
    StartNext(parts, 7);
    assert parts[..8] == parts;
  }

  /** The section lengths of a plan whose tables have one entry per file. */
  lemma {:induction false} PartLengths(files: seq<AudioFile>, p: Plan)
    requires PlanEncodable(files, p)
    requires |p.stringOffsets| == |files|
    requires |p.pack.pairs| == |files|
    requires |PackBlob(p.pack.toPack)| == p.pack.size
    ensures var parts := Sections(files, p);
            var n := |files|;
            && |parts| == 8 && |parts[0]| == 8 && |parts[1]| == 16
            && |parts[2]| == 8 + 4 * n && |parts[3]| == 8 + 4 * n && |parts[4]| == 8 + 8 * n
            && |parts[5]| == 8 + NameBlobSize(files) && |parts[6]| == 8 + p.junkPad
            && |parts[7]| == 8 + p.pack.size
  {
    NameBlobLength(files);
  }

  /** The section lengths of a plan computed by `write`. */
  lemma {:induction false} SectionLengths(files: seq<AudioFile>, crc: Crc)
    requires Fits(files)
    ensures PlanEncodable(files, MakePlan(files, crc))
    ensures var p := MakePlan(files, crc);
            var parts := Sections(files, p);
            var n := |files|;
            && |parts| == 8 && |parts[0]| == 8 && |parts[1]| == 16
            && |parts[2]| == 8 + 4 * n && |parts[3]| == 8 + 4 * n && |parts[4]| == 8 + 8 * n
            && |parts[5]| == 8 + NameBlobSize(files) && |parts[6]| == 8 + p.junkPad
            && |parts[7]| == 8 + p.pack.size
  {
    PlanFits(files, crc);
    var p := MakePlan(files, crc);
    NameOffsetsLength(files, StringSectionStart(|files|));
    PackLayoutInvariant(files, crc, p.packStart);
    PackBlobLength(p.pack.toPack);
    PartLengths(files, p);
  }

  // ---------------------------------------------------------------------
  // The whole output

  /**
   * `out` is plan `p`'s sections written one after the other: where each
   * section begins, where the output ends, and the table and blob lengths.
   */
  predicate Laid(files: seq<AudioFile>, p: Plan, out: seq<u8>)
  {
    PlanEncodable(files, p) &&
    var parts := Sections(files, p);
    var n := |files|;
    var blob := NameBlobSize(files);
    && out == Concat(parts)
    && |parts| == 8
    && Start(parts, 0) == 0 && Start(parts, 1) == 8 && Start(parts, 2) == TnidPos(n)
    && Start(parts, 3) == NmofPos(n) && Start(parts, 4) == AdofPos(n)
    && Start(parts, 5) == TnnmPos(n) && Start(parts, 6) == JunkPos(n, blob)
    && Start(parts, 7) == p.packStart - 8
    && |out| == p.fileSize == p.packStart + p.pack.size
    && p.packStart >= TnnmPos(n) + 24
    && |p.stringOffsets| == n && |p.pack.pairs| == n
    && p.stringSectionSize == blob == |NameBlob(files)|
    && p.pack.size == |PackBlob(p.pack.toPack)|
  }

  /** `write`'s output is its plan's sections, laid out one after the other. */
  lemma {:induction false} OutputLaid(files: seq<AudioFile>, crc: Crc)
    requires Fits(files)
    ensures Laid(files, MakePlan(files, crc), Serialize(files, crc))
  {
    SectionLengths(files, crc);
    var p := MakePlan(files, crc);
    NameOffsetsLength(files, StringSectionStart(|files|));
    NameBlobLength(files);
    PackLayoutInvariant(files, crc, p.packStart);
    PackBlobLength(p.pack.toPack);
    Starts(Sections(files, p), |files|, NameBlobSize(files), p.junkPad, p.pack.size);
  }

  /** The header part and the AUDIINDX part, read in place. */
  lemma {:induction false} FrontInPlace(out: seq<u8>, parts: seq<seq<u8>>, declared: u32, n: u32)
    requires out == Concat(parts)
    requires |parts| >= 2
    requires Start(parts, 1) == 8
    requires parts[0] == Section(NUS3, declared, [])
    requires declared == |out| - 8
    requires parts[1] == Section(AUDIINDX, 4, U32Le(n))
    ensures FileHeader(out, n)
  {
    assert parts[..0] == [];
    PartFields(parts, 0, 0, NUS3, declared, []);
    PartFields(parts, 1, 8, AUDIINDX, 4, U32Le(n));
  }

  /** A laid-out plan opens with the NUS3 header and the AUDIINDX entry count. */
  lemma {:induction false} LaidHeader(files: seq<AudioFile>, p: Plan, out: seq<u8>)
    requires Laid(files, p, out)
    ensures FileHeader(out, |files|)
  {
    FrontInPlace(out, Sections(files, p), p.fileSize - NUS3_SIZE, |files|);
  }

  /** TNID, right after the header, holds the track ids, one u32 each. */
  lemma {:induction false} LaidTnid(files: seq<AudioFile>, p: Plan, out: seq<u8>)
    requires Laid(files, p, out)
    ensures SectionAt(out, TnidPos(|files|), TNID, U32s(Ids(files)))
  {
    PartIsSection(out, Sections(files, p), 2, TnidPos(|files|), TNID, |files| * 4, U32s(Ids(files)));
  }

  /** NMOF follows TNID and holds the name offsets, one u32 each. */
  lemma {:induction false} LaidNmof(files: seq<AudioFile>, p: Plan, out: seq<u8>)
    requires Laid(files, p, out)
    ensures SectionAt(out, NmofPos(|files|), NMOF, U32s(p.stringOffsets))
  {
    PartIsSection(out, Sections(files, p), 3, NmofPos(|files|), NMOF, |files| * 4, U32s(p.stringOffsets));
  }

  /** ADOF follows NMOF and holds the (offset, size) pairs, two u32 each. */
  lemma {:induction false} LaidAdof(files: seq<AudioFile>, p: Plan, out: seq<u8>)
    requires Laid(files, p, out)
    ensures SectionAt(out, AdofPos(|files|), ADOF, Pairs(p.pack.pairs))
  {
    PartIsSection(out, Sections(files, p), 4, AdofPos(|files|), ADOF, |files| * 8, Pairs(p.pack.pairs));
  }

  /** TNNM follows ADOF and holds the name blob. */
  lemma {:induction false} LaidNames(files: seq<AudioFile>, p: Plan, out: seq<u8>)
    requires Laid(files, p, out)
    ensures SectionAt(out, TnnmPos(|files|), TNNM, NameBlob(files))
  {
    PartIsSection(out, Sections(files, p), 5, TnnmPos(|files|), TNNM, p.stringSectionSize, NameBlob(files));
  }

  /** JUNK follows TNNM and holds only zero bytes. */
  lemma {:induction false} LaidJunk(files: seq<AudioFile>, p: Plan, out: seq<u8>)
    requires Laid(files, p, out)
    ensures SectionAt(out, JunkPos(|files|, NameBlobSize(files)), JUNK, Zeros(p.junkPad))
  {
    PartIsSection(out, Sections(files, p), 6, JunkPos(|files|, NameBlobSize(files)), JUNK, p.junkPad, Zeros(p.junkPad));
  }

  /** PACK comes last: its body starts at `packStart` and runs to the end of the output. */
  lemma {:induction false} LaidPack(files: seq<AudioFile>, p: Plan, out: seq<u8>)
    requires Laid(files, p, out)
    ensures p.packStart >= 8 && SectionAt(out, p.packStart - 8, PACK, PackBlob(p.pack.toPack))
    ensures |out| == p.packStart + |PackBlob(p.pack.toPack)|
  {
    PartIsSection(out, Sections(files, p), 7, p.packStart - 8, PACK, p.pack.size, PackBlob(p.pack.toPack));
  }

  /** `write`'s output opens with the NUS3 header and the AUDIINDX entry count. */
  lemma {:induction false} OutputHeader(files: seq<AudioFile>, crc: Crc)
    requires Fits(files)
    ensures FileHeader(Serialize(files, crc), |files|)
  {
    OutputLaid(files, crc);
    LaidHeader(files, MakePlan(files, crc), Serialize(files, crc));
  }
}
