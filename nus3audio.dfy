/**
 * The in-memory container: an ordered list of audio entries, each with a
 * track id, a name and an opaque payload. Names are kept as their UTF-8
 * bytes, since the writer measures and emits them byte by byte.
 */
module Nus3audio {
  import opened Format

  datatype AudioFile = AudioFile(id: u32, name: seq<u8>, data: seq<u8>)

  datatype Nus3audioFile = Nus3audioFile(files: seq<AudioFile>)

  /** `Nus3audioFile::new`: a container without entries. */
  function New(): (c: Nus3audioFile)
    ensures c.files == []
  {
    Nus3audioFile([])
  }

  // Payload magics and the file extensions they select.
  const OPUS_MAGIC: seq<u8> := [0x4F, 0x50, 0x55, 0x53]         // "OPUS"
  const IDSP_MAGIC: seq<u8> := [0x49, 0x44, 0x53, 0x50]         // "IDSP"
  const LOPUS_EXT: seq<u8> := [0x2E, 0x6C, 0x6F, 0x70, 0x75, 0x73]  // ".lopus"
  const IDSP_EXT: seq<u8> := [0x2E, 0x69, 0x64, 0x73, 0x70]       // ".idsp"
  const BIN_EXT: seq<u8> := [0x2E, 0x62, 0x69, 0x6E]              // ".bin"

  /**
   * `AudioFile::filename`: the name followed by an extension chosen by the
   * first four payload bytes. The source slices `data[..4]`, which panics on
   * a shorter payload, so such entries are outside the domain.
   */
  function Filename(f: AudioFile): (r: seq<u8>)
    requires |f.data| >= 4
    ensures |r| > |f.name| && r[..|f.name|] == f.name
    ensures r == f.name + LOPUS_EXT <==> f.data[..4] == OPUS_MAGIC
    ensures r == f.name + IDSP_EXT <==> f.data[..4] == IDSP_MAGIC
    ensures r == f.name + BIN_EXT <==> f.data[..4] != OPUS_MAGIC && f.data[..4] != IDSP_MAGIC
  {
    var magic := f.data[..4];
    f.name + (if magic == OPUS_MAGIC then LOPUS_EXT
              else if magic == IDSP_MAGIC then IDSP_EXT
              else BIN_EXT)
  }

  /** The derived name depends on nothing but the name and the four magic bytes. */
  lemma {:induction false} FilenameDependsOnMagic(a: AudioFile, b: AudioFile)
    requires |a.data| >= 4 && |b.data| >= 4
    requires a.name == b.name && a.data[..4] == b.data[..4]
    ensures Filename(a) == Filename(b)
  {
  }
}
