/**
 * `write` followed by `take_file` / `from_bytes`: the header the writer
 * emits is the one the parser accepts, and the size it reads back is the
 * number of bytes after the header. The parser keeps no entries, so a
 * written container reads back as an empty one.
 */
module RoundTrip {
  import opened Format
  import opened Nus3audio
  import opened Layout
  import opened WriteProperties
  import opened Parser

  /** The header parser reads back any tag-and-size header, leaving the rest. */
  lemma {:induction false} TakeHeaderOfEncoded(size: u32, rest: seq<u8>)
    ensures TakeHeader(NUS3 + U32Le(size) + rest) == Ok((rest, size))
  {
    var input := NUS3 + U32Le(size) + rest;
    assert input[..4] == NUS3;
    assert input[4..8] == U32Le(size);
    assert input[8..] == rest;
    ReadWriteU32(size);
  }

  /**
   * A well-formed file header parses, its size field counts the bytes after
   * it, and `take_file` and `from_bytes` yield an empty container.
   */
  lemma {:induction false} HeaderParses(out: seq<u8>, n: nat)
    requires FileHeader(out, n)
    ensures TakeHeader(out) == Ok((out[8..], |out| - 8))
    ensures TakeFile(out) == Ok((out[8..], New()))
    ensures FromBytes(out) == Some(New())
  {
    assert out[4..8] == U32Le(|out| - 8);
    ReadWriteU32(|out| - 8);
  }

  /**
   * `take_file` accepts `write`'s output: it consumes the 8-byte header,
   * whose size field is the length of everything after it, and yields an
   * empty container; `from_bytes` yields that empty container too.
   */
  lemma {:induction false} WriteThenParse(files: seq<AudioFile>, crc: Crc)
    requires Fits(files)
    ensures var out := Serialize(files, crc);
            && TakeHeader(out) == Ok((out[8..], |out| - 8))
            && TakeFile(out) == Ok((out[8..], New()))
            && FromBytes(out) == Some(New())
  {
    OutputHeader(files, crc);
    HeaderParses(Serialize(files, crc), |files|);
  }

  /**
   * Parsing does not invert writing: a container with at least one entry
   * reads back as a different, empty container.
   */
  lemma {:induction false} ParseLosesEntries(files: seq<AudioFile>, crc: Crc)
    requires Fits(files)
    requires files != []
    ensures FromBytes(Serialize(files, crc)).Some?
    ensures FromBytes(Serialize(files, crc)).value != Nus3audioFile(files)
  {
    WriteThenParse(files, crc);
  }
}
