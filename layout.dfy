/**
 * The byte layout `Nus3audioFile::write` produces, as functions: the offset
 * plan it computes before emitting anything (name offsets, JUNK padding,
 * deduplicated payload pairs) and the bytes it then appends, section by
 * section, in the order NUS3, AUDIINDX, TNID, NMOF, ADOF, TNNM, JUNK, PACK.
 *
 * The CRC-32 of the payloads is a parameter `crc`; nothing here depends on
 * how it is computed.
 */
module Layout {
  import opened Format
  import opened Nus3audio

  type Crc = seq<u8> -> u32

  /**
   * `get_padding_amount`: the JUNK padding for a JUNK body starting at
   * `offset`; it brings the offset to 8 past a 16-byte boundary, so that the
   * 8-byte PACK header that follows ends on the boundary.
   */
  function GetPaddingAmount(offset: nat): (pad: nat)
    ensures pad < 16 && (offset + pad) % 16 == 8
  {
    (0x18 - offset % 0x10) % 0x10
  }

  // Fixed section sizes: tag, u32 length and (for the tables) 4 bytes per u32.
  const NUS3_SIZE: nat := |NUS3| + 4
  const AUDI_SIZE: nat := |AUDIINDX| + 4 * 2

  function TnidSize(n: nat): nat { |TNID| + 4 + 4 * n }

  function AdofSize(n: nat): nat { |ADOF| + 4 + 4 * n * 2 }

  /** Absolute offset of the first TNNM string for `n` entries. */
  function StringSectionStart(n: nat): nat
  {
    NUS3_SIZE + AUDI_SIZE + TnidSize(n) + TnidSize(n) + AdofSize(n) + |TNNM| + 4
  }

  /** The TNNM body size: each name and its terminating zero byte. */
  function NameBlobSize(files: seq<AudioFile>): nat
    decreases |files|
  {
    if files == [] then 0
    else NameBlobSize(files[..|files| - 1]) + |files[|files| - 1].name| + 1
  }

  /** The TNNM body: the names, each followed by a zero byte, in entry order. */
  function NameBlob(files: seq<AudioFile>): seq<u8>
    decreases |files|
  {
    if files == [] then []
    else NameBlob(files[..|files| - 1]) + files[|files| - 1].name + [0]
  }

  /** The NMOF values: each entry's name offset when the blob starts at `start`. */
  function NameOffsets(files: seq<AudioFile>, start: nat): seq<nat>
    decreases |files|
  {
    if files == [] then []
    else
      var init := files[..|files| - 1];
      NameOffsets(init, start) + [start + NameBlobSize(init)]
  }

  /** `((len + 0xF) / 0x10) * 0x10`: a payload's size in PACK. */
  function PaddedLen(len: nat): nat
  {
    ((len + 0xF) / 0x10) * 0x10
  }

  /** `(0x10 - (len % 0x10)) % 0x10`: the zero bytes emitted after a payload. */
  function TrailPad(len: nat): nat
  {
    (0x10 - len % 0x10) % 0x10
  }

  /** The PACK size `calc_size` counts: every payload, padded. */
  function PackSizeAll(files: seq<AudioFile>): nat
    decreases |files|
  {
    if files == [] then 0
    else PackSizeAll(files[..|files| - 1]) + PaddedLen(|files[|files| - 1].data|)
  }

  /** The padded size of a list of packed payloads. */
  function PaddedSum(ps: seq<seq<u8>>): nat
    decreases |ps|
  {
    if ps == [] then 0
    else PaddedSum(ps[..|ps| - 1]) + PaddedLen(|ps[|ps| - 1]|)
  }

  /** The JUNK padding for a container whose name blob has `blobSize` bytes. */
  function JunkPad(n: nat, blobSize: nat): nat
  {
    GetPaddingAmount(StringSectionStart(n) + blobSize + |JUNK| + 4)
  }

  /** Absolute offset of the first PACK payload byte. */
  function PackSectionStart(n: nat, blobSize: nat): nat
  {
    StringSectionStart(n) + blobSize + (|JUNK| + 4 + JunkPad(n, blobSize)) + |PACK| + 4
  }

  /** What `calc_size` returns. */
  function PredictedSize(files: seq<AudioFile>): nat
  {
    PackSectionStart(|files|, NameBlobSize(files)) + PackSizeAll(files)
  }

  /** Every u32 the writer computes stays below 2^32. */
  predicate Fits(files: seq<AudioFile>)
  {
    PredictedSize(files) < U32_LIMIT
  }

  // ---------------------------------------------------------------------
  // PACK layout with deduplication

  /**
   * The loop state of the payload pass: the checksum map `existing_files`,
   * the ADOF pairs `file_offsets`, the payloads still to be emitted
   * `files_to_pack`, and `pack_section_size`.
   */
  datatype PackState = PackState(
    existing: map<u32, (nat, nat)>,
    pairs: seq<(nat, nat)>,
    toPack: seq<seq<u8>>,
    size: nat)

  /** One iteration of the payload pass, for payload `data`. */
  function PackStep(st: PackState, data: seq<u8>, crc: Crc, start: nat): PackState
  {
    var hash := crc(data);
    if hash in st.existing then
      st.(pairs := st.pairs + [st.existing[hash]])
    else
      var pair := (start + st.size, |data|);
      PackState(st.existing[hash := pair], st.pairs + [pair], st.toPack + [data],
                st.size + PaddedLen(|data|))
  }

  /** The payload pass over `files`, with PACK payloads starting at `start`. */
  function PackLayout(files: seq<AudioFile>, crc: Crc, start: nat): PackState
    decreases |files|
  {
    if files == [] then PackState(map[], [], [], 0)
    else PackStep(PackLayout(files[..|files| - 1], crc, start), files[|files| - 1].data, crc, start)
  }

  /** Entry `i` is the first one with its checksum. */
  predicate IsNew(files: seq<AudioFile>, crc: Crc, i: nat)
    requires i < |files|
  {
    forall j :: 0 <= j < i ==> crc(files[j].data) != crc(files[i].data)
  }

  /** Reference definition of the PACK contents: the payloads of the entries that are new. */
  function Packed(files: seq<AudioFile>, crc: Crc): seq<seq<u8>>
    decreases |files|
  {
    if files == [] then []
    else
      var k := |files| - 1;
      Packed(files[..k], crc) + (if IsNew(files, crc, k) then [files[k].data] else [])
  }

  /** The first entry at or after `k` with the checksum of entry `i`. */
  function FirstFrom(files: seq<AudioFile>, crc: Crc, i: nat, k: nat): (j: nat)
    requires k <= i < |files|
    ensures k <= j <= i && crc(files[j].data) == crc(files[i].data)
    ensures forall m :: k <= m < j ==> crc(files[m].data) != crc(files[i].data)
    decreases i - k
  {
    if crc(files[k].data) == crc(files[i].data) then k else FirstFrom(files, crc, i, k + 1)
  }

  /** The entry whose payload entry `i` is deduplicated against (itself when it is new). */
  function First(files: seq<AudioFile>, crc: Crc, i: nat): (j: nat)
    requires i < |files|
    ensures j <= i && crc(files[j].data) == crc(files[i].data) && IsNew(files, crc, j)
    ensures IsNew(files, crc, i) ==> j == i
  {
    FirstFrom(files, crc, i, 0)
  }

  // ---------------------------------------------------------------------
  // The offset plan and the emitted bytes

  /** Everything `write` computes before it emits its first byte. */
  datatype Plan = Plan(
    stringOffsets: seq<nat>,
    stringSectionSize: nat,
    junkPad: nat,
    packStart: nat,
    pack: PackState,
    fileSize: nat)

  function MakePlan(files: seq<AudioFile>, crc: Crc): Plan
  {
    var n := |files|;
    var blobSize := NameBlobSize(files);
    var packStart := PackSectionStart(n, blobSize);
    var pack := PackLayout(files, crc, packStart);
    Plan(NameOffsets(files, StringSectionStart(n)), blobSize, JunkPad(n, blobSize),
         packStart, pack, packStart + pack.size)
  }

  predicate AllU32(vs: seq<nat>)
  {
    forall i :: 0 <= i < |vs| ==> vs[i] < U32_LIMIT
  }

  predicate AllPairsU32(ps: seq<(nat, nat)>)
  {
    forall i :: 0 <= i < |ps| ==> ps[i].0 < U32_LIMIT && ps[i].1 < U32_LIMIT
  }

  /** `Vec<u32>` written element by element. */
  function U32s(vs: seq<nat>): (r: seq<u8>)
    requires AllU32(vs)
    ensures |r| == 4 * |vs|
    decreases |vs|
  {
    if vs == [] then [] else U32s(vs[..|vs| - 1]) + U32Le(vs[|vs| - 1])
  }

  /** `Vec<(u32, u32)>` written element by element, each pair as two u32. */
  function Pairs(ps: seq<(nat, nat)>): (r: seq<u8>)
    requires AllPairsU32(ps)
    ensures |r| == 8 * |ps|
    decreases |ps|
  {
    if ps == [] then []
    else
      var p := ps[|ps| - 1];
      Pairs(ps[..|ps| - 1]) + U32Le(p.0) + U32Le(p.1)
  }

  /** The PACK body: each payload followed by zeros up to the next 16-byte boundary. */
  function PackBlob(ps: seq<seq<u8>>): seq<u8>
    decreases |ps|
  {
    if ps == [] then []
    else
      var p := ps[|ps| - 1];
      PackBlob(ps[..|ps| - 1]) + p + Zeros(TrailPad(|p|))
  }

  function Ids(files: seq<AudioFile>): seq<nat>
  {
    seq(|files|, i requires 0 <= i < |files| => files[i].id)
  }

  /** A section as written: its tag, the length the writer declares, then its body. */
  function Section(tag: seq<u8>, declared: u32, body: seq<u8>): seq<u8>
  {
    tag + U32Le(declared) + body
  }

  /** Byte strings written one after the other. */
  function Concat(parts: seq<seq<u8>>): seq<u8>
    decreases |parts|
  {
    if parts == [] then [] else Concat(parts[..|parts| - 1]) + parts[|parts| - 1]
  }

  /**
   * The eight sections in the order `write` emits them. The file header is
   * written like a section without a body: `NUS3`, then the length of
   * everything after these 8 bytes.
   */
  function Sections(files: seq<AudioFile>, p: Plan): seq<seq<u8>>
    requires PlanEncodable(files, p)
  {
    var n := |files|;
    [ Section(NUS3, p.fileSize - NUS3_SIZE, []),
      Section(AUDIINDX, 4, U32Le(n)),
      Section(TNID, n * 4, U32s(Ids(files))),
      Section(NMOF, n * 4, U32s(p.stringOffsets)),
      Section(ADOF, n * 8, Pairs(p.pack.pairs)),
      Section(TNNM, p.stringSectionSize, NameBlob(files)),
      Section(JUNK, p.junkPad, Zeros(p.junkPad)),
      Section(PACK, p.pack.size, PackBlob(p.pack.toPack)) ]
  }

  /** The checksums of the payloads of `files`. */
  function Checksums(files: seq<AudioFile>, crc: Crc): set<u32>
    decreases |files|
  {
    if files == [] then {}
    else Checksums(files[..|files| - 1], crc) + {crc(files[|files| - 1].data)}
  }

  /** Entry `j`'s ADOF pair is the map entry of its checksum. */
  ghost predicate PairFromMap(files: seq<AudioFile>, crc: Crc, st: PackState, j: nat)
    requires j < |files| && j < |st.pairs|
  {
    crc(files[j].data) in st.existing && st.pairs[j] == st.existing[crc(files[j].data)]
  }

  /** A new entry's ADOF pair points just past the payloads packed before it. */
  ghost predicate NewPairPlaced(files: seq<AudioFile>, crc: Crc, start: nat, st: PackState, i: nat)
    requires i < |files| && i < |st.pairs|
  {
    IsNew(files, crc, i) ==>
      st.pairs[i] == (start + PaddedSum(Packed(files[..i], crc)), |files[i].data|)
  }

  /** The invariant of the payload pass, against the reference definitions. */
  ghost predicate PackInvariant(files: seq<AudioFile>, crc: Crc, start: nat, st: PackState)
  {
    && |st.pairs| == |files|
    && st.toPack == Packed(files, crc)
    && st.size == PaddedSum(st.toPack)
    && st.existing.Keys == Checksums(files, crc)
    && (forall j :: 0 <= j < |files| ==> PairFromMap(files, crc, st, j))
    && (forall i :: 0 <= i < |files| ==> NewPairPlaced(files, crc, start, st, i))
  }

  /** The padded sizes of the entries whose payload was not packed again. */
  function SkippedSize(files: seq<AudioFile>, crc: Crc): nat
    decreases |files|
  {
    if files == [] then 0
    else
      var k := |files| - 1;
      SkippedSize(files[..k], crc) + (if IsNew(files, crc, k) then 0 else PaddedLen(|files[k].data|))
  }

  /** `write`'s output: the offset plan, then the sections in emission order. */
  function Serialize(files: seq<AudioFile>, crc: Crc): seq<u8>
    requires Fits(files)
  {
    var p := MakePlan(files, crc);
    PlanFits(files, crc);
    Concat(Sections(files, p))
  }

  // ---------------------------------------------------------------------
  // Lemmas the definitions above rely on

  lemma {:induction false} PackLayoutInvariant(files: seq<AudioFile>, crc: Crc, start: nat)
    ensures PackInvariant(files, crc, start, PackLayout(files, crc, start))
    decreases |files|
  {
    if files != [] {
      PackLayoutInvariant(files[..|files| - 1], crc, start);
      PackStepKeeps(files, crc, start);
    }
  }

  /** Earlier entries are new in a prefix exactly when they are new in the whole list. */
  lemma {:induction false} IsNewPrefix(files: seq<AudioFile>, crc: Crc, k: nat, i: nat)
    requires i < k <= |files|
    ensures IsNew(files[..k], crc, i) == IsNew(files, crc, i)
  {
  }

  /** One iteration of the payload pass keeps the invariant. */
  lemma {:induction false} PackStepKeeps(files: seq<AudioFile>, crc: Crc, start: nat)
    requires files != []
    requires PackInvariant(files[..|files| - 1], crc, start, PackLayout(files[..|files| - 1], crc, start))
    ensures PackInvariant(files, crc, start, PackLayout(files, crc, start))
  {
    PackStepContents(files, crc, start);
    PackStepMap(files, crc, start);
    PackStepNewPairs(files, crc, start);
  }

  lemma {:induction false} ChecksumsMembership(files: seq<AudioFile>, crc: Crc, h: u32)
    ensures h in Checksums(files, crc) <==> exists j :: 0 <= j < |files| && crc(files[j].data) == h
    decreases |files|
  {
    if files != [] {
      var k := |files| - 1;
      var init := files[..k];
      ChecksumsMembership(init, crc, h);
      assert forall j :: 0 <= j < k ==> init[j] == files[j];
      if h in Checksums(init, crc) {
        var j :| 0 <= j < k && crc(init[j].data) == h;
        assert crc(files[j].data) == h;
      }
    }
  }

  /** The entry being added is new exactly when its checksum is not yet in the map. */
  lemma {:induction false} PackStepIsNew(files: seq<AudioFile>, crc: Crc, start: nat)
    requires files != []
    requires PackInvariant(files[..|files| - 1], crc, start, PackLayout(files[..|files| - 1], crc, start))
    ensures var k := |files| - 1;
            IsNew(files, crc, k) <==> crc(files[k].data) !in PackLayout(files[..k], crc, start).existing
  {
    var k := |files| - 1;
    var init := files[..k];
    var h := crc(files[k].data);
    ChecksumsMembership(init, crc, h);
    if h in Checksums(init, crc) {
      var j :| 0 <= j < k && crc(init[j].data) == h;
      assert files[j] == init[j];
    } else {
      forall j | 0 <= j < k
        ensures crc(files[j].data) != h
      {
        assert files[j] == init[j];
      }
    }
  }

  lemma {:induction false} PackStepContents(files: seq<AudioFile>, crc: Crc, start: nat)
    requires files != []
    requires PackInvariant(files[..|files| - 1], crc, start, PackLayout(files[..|files| - 1], crc, start))
    ensures var st := PackLayout(files, crc, start);
            |st.pairs| == |files| && st.toPack == Packed(files, crc) && st.size == PaddedSum(st.toPack)
  {
    var k := |files| - 1;
    var init := files[..k];
    var st := PackLayout(init, crc, start);
    var d := files[k].data;
    PackStepIsNew(files, crc, start);
    assert PackLayout(files, crc, start) == PackStep(st, d, crc, start);
    assert Packed(files, crc) == Packed(init, crc) + (if IsNew(files, crc, k) then [d] else []);
    if IsNew(files, crc, k) {
      PaddedSumSnoc(st.toPack, d);
    } else {
      assert Packed(init, crc) + [] == Packed(init, crc);
    }
  }

  lemma {:induction false} PackStepMap(files: seq<AudioFile>, crc: Crc, start: nat)
    requires files != []
    requires PackInvariant(files[..|files| - 1], crc, start, PackLayout(files[..|files| - 1], crc, start))
    ensures var st := PackLayout(files, crc, start);
            && |st.pairs| == |files|
            && (forall j :: 0 <= j < |files| ==> PairFromMap(files, crc, st, j))
            && st.existing.Keys == Checksums(files, crc)
  {
    var k := |files| - 1;
    var st := PackLayout(files[..k], crc, start);
    assert PackLayout(files, crc, start) == PackStep(st, files[k].data, crc, start);
    forall j | 0 <= j < |files|
      ensures PairFromMap(files, crc, PackLayout(files, crc, start), j)
    {
      PackStepPairAt(files, crc, start, j);
    }
  }

  /** After one iteration, entry `j`'s pair is still the map entry of its checksum. */
  lemma {:induction false} PackStepPairAt(files: seq<AudioFile>, crc: Crc, start: nat, j: nat)
    requires j < |files|
    requires PackInvariant(files[..|files| - 1], crc, start, PackLayout(files[..|files| - 1], crc, start))
    ensures var st := PackLayout(files, crc, start);
            j < |st.pairs| && PairFromMap(files, crc, st, j)
  {
    var k := |files| - 1;
    var init := files[..k];
    var st := PackLayout(init, crc, start);
    var st' := PackLayout(files, crc, start);
    var d := files[k].data;
    assert st' == PackStep(st, d, crc, start);
    if j < k {
      assert files[j] == init[j];
      assert PairFromMap(init, crc, st, j);
    }
  }

  lemma {:induction false} PackStepNewPairs(files: seq<AudioFile>, crc: Crc, start: nat)
    requires files != []
    requires PackInvariant(files[..|files| - 1], crc, start, PackLayout(files[..|files| - 1], crc, start))
    ensures var st := PackLayout(files, crc, start);
            |st.pairs| == |files| &&
            forall i :: 0 <= i < |files| ==> NewPairPlaced(files, crc, start, st, i)
  {
    PackStepPairAt(files, crc, start, 0);
    forall i | 0 <= i < |files|
      ensures NewPairPlaced(files, crc, start, PackLayout(files, crc, start), i)
    {
      PackStepNewPairAt(files, crc, start, i);
    }
  }

  /** After one iteration, a new entry's pair still points just past the earlier packed payloads. */
  lemma {:induction false} PackStepNewPairAt(files: seq<AudioFile>, crc: Crc, start: nat, i: nat)
    requires i < |files|
    requires PackInvariant(files[..|files| - 1], crc, start, PackLayout(files[..|files| - 1], crc, start))
    ensures var st := PackLayout(files, crc, start);
            i < |st.pairs| && NewPairPlaced(files, crc, start, st, i)
  {
    var k := |files| - 1;
    var init := files[..k];
    var st := PackLayout(init, crc, start);
    PackStepIsNew(files, crc, start);
    if i < k {
      assert NewPairPlaced(init, crc, start, st, i);
      NewPairCarried(files, crc, start, st, i);
    } else {
      NewPairAppended(files, crc, start, st);
    }
  }

  lemma {:induction false} NewPairCarried(files: seq<AudioFile>, crc: Crc, start: nat, st: PackState, i: nat)
    requires i < |files| - 1 == |st.pairs|
    requires NewPairPlaced(files[..|files| - 1], crc, start, st, i)
    ensures var st' := PackStep(st, files[|files| - 1].data, crc, start);
            i < |st'.pairs| && NewPairPlaced(files, crc, start, st', i)
  {
    var k := |files| - 1;
    var init := files[..k];
    IsNewPrefix(files, crc, k, i);
    assert files[..i] == init[..i];
    assert files[i] == init[i];
  }

  lemma {:induction false} NewPairAppended(files: seq<AudioFile>, crc: Crc, start: nat, st: PackState)
    requires files != [] && |files| - 1 == |st.pairs|
    requires st.size == PaddedSum(Packed(files[..|files| - 1], crc))
    requires IsNew(files, crc, |files| - 1) <==> crc(files[|files| - 1].data) !in st.existing
    ensures var st' := PackStep(st, files[|files| - 1].data, crc, start);
            |files| - 1 < |st'.pairs| && NewPairPlaced(files, crc, start, st', |files| - 1)
  {
  }

  /** PaddedSum over a list extended by one payload. */
  lemma {:induction false} PaddedSumSnoc(ps: seq<seq<u8>>, p: seq<u8>)
    ensures PaddedSum(ps + [p]) == PaddedSum(ps) + PaddedLen(|p|)
  {
    assert (ps + [p])[..|ps|] == ps;
  }

  lemma {:induction false} PaddedSumPrefix(ps: seq<seq<u8>>, m: nat)
    requires m <= |ps|
    ensures PaddedSum(ps[..m]) <= PaddedSum(ps)
    decreases |ps|
  {
    if m < |ps| {
      var k := |ps| - 1;
      assert ps[..k][..m] == ps[..m];
      PaddedSumPrefix(ps[..k], m);
    } else {
      assert ps[..m] == ps;
    }
  }

  /** The packed payloads of a prefix of the entries are a prefix of the packed payloads. */
  lemma {:induction false} PackedPrefix(files: seq<AudioFile>, crc: Crc, a: nat)
    requires a <= |files|
    ensures Packed(files[..a], crc) <= Packed(files, crc)
    decreases |files|
  {
    if a < |files| {
      var k := |files| - 1;
      var init := files[..k];
      assert init[..a] == files[..a];
      PackedPrefix(init, crc, a);
    } else {
      assert files[..a] == files;
    }
  }

  /** A new entry's payload is packed right after those of the entries before it. */
  lemma {:induction false} PackedAtNew(files: seq<AudioFile>, crc: Crc, f: nat)
    requires f < |files| && IsNew(files, crc, f)
    ensures Packed(files[..f + 1], crc) == Packed(files[..f], crc) + [files[f].data]
  {
    var g := files[..f + 1];
    assert g[..f] == files[..f];
    assert IsNew(g, crc, f);
  }

  /**
   * Where ADOF entry `i` points: at packed payload number `m`, which is the
   * payload of the first entry sharing entry `i`'s checksum.
   */
  lemma {:induction false} PairLocatesPayload(files: seq<AudioFile>, crc: Crc, start: nat, i: nat)
    requires i < |files|
    ensures var st := PackLayout(files, crc, start);
            var f := First(files, crc, i);
            var m := |Packed(files[..f], crc)|;
            var ps := Packed(files, crc);
            |st.pairs| == |files| && m < |ps| && ps[m] == files[f].data
            && st.pairs[i] == (start + PaddedSum(ps[..m]), |ps[m]|)
  {
    var f := First(files, crc, i);
    PairOfFirst(files, crc, start, i);
    PackedSlot(files, crc, f);
  }

  /** Entry `i` shares the pair of the first entry with its checksum, which is placed. */
  lemma {:induction false} PairOfFirst(files: seq<AudioFile>, crc: Crc, start: nat, i: nat)
    requires i < |files|
    ensures var st := PackLayout(files, crc, start);
            var f := First(files, crc, i);
            && |st.pairs| == |files|
            && st.pairs[i] == (start + PaddedSum(Packed(files[..f], crc)), |files[f].data|)
  {
    var st := PackLayout(files, crc, start);
    PackLayoutInvariant(files, crc, start);
    var f := First(files, crc, i);
    assert PairFromMap(files, crc, st, i) && PairFromMap(files, crc, st, f);
    assert NewPairPlaced(files, crc, start, st, f);
    SharedPair(files, crc, start, st, i, f);
  }

  /** Two entries with one checksum read one map entry, which a new entry placed. */
  lemma {:induction false} SharedPair(files: seq<AudioFile>, crc: Crc, start: nat, st: PackState, i: nat, f: nat)
    requires i < |files|
    requires f < |files|
    requires |st.pairs| == |files|
    requires crc(files[f].data) == crc(files[i].data)
    requires IsNew(files, crc, f)
    requires PairFromMap(files, crc, st, i)
    requires PairFromMap(files, crc, st, f)
    requires NewPairPlaced(files, crc, start, st, f)
    ensures st.pairs[i] == (start + PaddedSum(Packed(files[..f], crc)), |files[f].data|)
  {
  }

  /** A new entry's payload sits in `Packed` right after those of the entries before it. */
  lemma {:induction false} PackedSlot(files: seq<AudioFile>, crc: Crc, f: nat)
    requires f < |files| && IsNew(files, crc, f)
    ensures var before := Packed(files[..f], crc);
            var ps := Packed(files, crc);
            && |before| < |ps| && ps[|before|] == files[f].data && ps[..|before|] == before
  {
    var ps := Packed(files, crc);
    var before := Packed(files[..f], crc);
    PackedAtNew(files, crc, f);
    PackedPrefix(files, crc, f + 1);
    assert before + [files[f].data] <= ps;
  }

  lemma {:induction false} PackSizeSplit(files: seq<AudioFile>, crc: Crc)
    ensures PackSizeAll(files) == PaddedSum(Packed(files, crc)) + SkippedSize(files, crc)
    decreases |files|
  {
    if files != [] {
      var k := |files| - 1;
      PackSizeSplit(files[..k], crc);
      if IsNew(files, crc, k) {
        PaddedSumSnoc(Packed(files[..k], crc), files[k].data);
      } else {
        assert Packed(files, crc) == Packed(files[..k], crc) + [];
        assert Packed(files[..k], crc) + [] == Packed(files[..k], crc);
      }
    }
  }

  /** Name offset `i` is the blob start plus the sizes of the names before it. */
  lemma {:induction false} NameOffsetAt(files: seq<AudioFile>, start: nat, i: nat)
    requires i < |files|
    ensures |NameOffsets(files, start)| == |files|
    ensures NameOffsets(files, start)[i] == start + NameBlobSize(files[..i])
    decreases |files|
  {
    var k := |files| - 1;
    var init := files[..k];
    if i < k {
      NameOffsetAt(init, start, i);
      assert init[..i] == files[..i];
    } else {
      NameOffsetsLength(init, start);
    }
  }

  lemma {:induction false} NameOffsetsLength(files: seq<AudioFile>, start: nat)
    ensures |NameOffsets(files, start)| == |files|
    decreases |files|
  {
    if files != [] {
      NameOffsetsLength(files[..|files| - 1], start);
    }
  }

  /** The names before entry `i` take fewer bytes than the whole blob. */
  lemma {:induction false} NameBlobSizePrefix(files: seq<AudioFile>, i: nat)
    requires i < |files|
    ensures NameBlobSize(files[..i]) + |files[i].name| + 1 <= NameBlobSize(files)
    decreases |files|
  {
    var k := |files| - 1;
    if i < k {
      assert files[..k][..i] == files[..i];
      NameBlobSizePrefix(files[..k], i);
    }
  }

  /** The padded payloads before entry `i` take no more than all of them. */
  lemma {:induction false} PackSizeAllPrefix(files: seq<AudioFile>, i: nat)
    requires i < |files|
    ensures PackSizeAll(files[..i]) + PaddedLen(|files[i].data|) <= PackSizeAll(files)
    decreases |files|
  {
    var k := |files| - 1;
    if i < k {
      assert files[..k][..i] == files[..i];
      PackSizeAllPrefix(files[..k], i);
    } else {
      assert files[..i] == files[..k];
    }
  }

  /** The values of plan `p` that `write` emits as u32 are all below 2^32. */
  predicate PlanEncodable(files: seq<AudioFile>, p: Plan)
  {
    && 8 <= p.fileSize < U32_LIMIT && 8 * |files| < U32_LIMIT
    && p.stringSectionSize < U32_LIMIT && p.junkPad < U32_LIMIT && p.pack.size < U32_LIMIT
    && AllU32(p.stringOffsets) && AllPairsU32(p.pack.pairs)
  }

  /** Every name offset lies inside the blob. */
  lemma {:induction false} NameOffsetInBlob(files: seq<AudioFile>, start: nat, i: nat)
    requires i < |files|
    ensures |NameOffsets(files, start)| == |files|
    ensures NameOffsets(files, start)[i] < start + NameBlobSize(files)
  {
    NameOffsetAt(files, start, i);
    NameBlobSizePrefix(files, i);
  }

  /** Every ADOF pair describes a range inside the packed payloads. */
  lemma {:induction false} PairInPack(files: seq<AudioFile>, crc: Crc, start: nat, i: nat)
    requires i < |files|
    ensures var st := PackLayout(files, crc, start);
            |st.pairs| == |files|
            && st.pairs[i].0 + st.pairs[i].1 <= start + PaddedSum(Packed(files, crc))
  {
    PairLocatesPayload(files, crc, start, i);
    var ps := Packed(files, crc);
    var m := |Packed(files[..First(files, crc, i)], crc)|;
    assert ps[..m + 1][..m] == ps[..m];
    PaddedSumPrefix(ps, m + 1);
  }

  /** Under `Fits`, every value `write` emits as a u32 is below 2^32. */
  lemma {:induction false} PlanFits(files: seq<AudioFile>, crc: Crc)
    requires Fits(files)
    ensures PlanEncodable(files, MakePlan(files, crc))
    ensures MakePlan(files, crc).fileSize <= PredictedSize(files)
  {
    var p := MakePlan(files, crc);
    var n := |files|;
    var start := StringSectionStart(n);
    PackLayoutInvariant(files, crc, p.packStart);
    PackSizeSplit(files, crc);
    NameOffsetsLength(files, start);
    forall i | 0 <= i < n
      ensures p.stringOffsets[i] < U32_LIMIT
    {
      NameOffsetInBlob(files, start, i);
    }
    forall i | 0 <= i < n
      ensures p.pack.pairs[i].0 < U32_LIMIT && p.pack.pairs[i].1 < U32_LIMIT
    {
      PairInPack(files, crc, p.packStart, i);
    }
  }
}
