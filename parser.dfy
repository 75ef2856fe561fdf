/**
 * The header parser `take_file`, a nom (version 4) combinator chain over a
 * byte slice: the `NUS3` tag, then one little-endian u32. It yields an empty
 * container and the unconsumed input; it does not decode any section.
 *
 * nom 4 on a complete byte slice: `tag!` compares the first min(|input|, 4)
 * bytes and fails with an error on a mismatch, or asks for more input when
 * the available bytes are a proper prefix of the tag; `le_u32` asks for more
 * input when fewer than 4 bytes remain. Both ask for `Needed::Size(4)`: the
 * size the combinator needs from its own position, not the count of missing
 * bytes.
 */
module Parser {
  import opened Format
  import opened Nus3audio

  datatype ParseError =
    | TagMismatch           // nom::Err::Error with ErrorKind::Tag
    | Incomplete(needed: nat)  // nom::Err::Incomplete(Needed::Size(needed))

  datatype Result<T> = Ok(value: T) | Err(error: ParseError)

  datatype Option<T> = None | Some(value: T)

  /** True when the available input agrees with the `NUS3` tag as far as it goes. */
  predicate TagPrefixMatches(input: seq<u8>)
  {
    forall i :: 0 <= i < |input| && i < |NUS3| ==> input[i] == NUS3[i]
  }

  /** `tag!(b"NUS3") >> size: le_u32`: the remaining input and the size read. */
  function TakeHeader(input: seq<u8>): (r: Result<(seq<u8>, u32)>)
    ensures r.Ok? <==> |input| >= 8 && input[..4] == NUS3
    ensures r.Ok? ==> r.value.0 == input[8..] && r.value.1 == ReadU32Le(input[4..8])
    ensures r == Err(TagMismatch) <==> !TagPrefixMatches(input)
    ensures r.Err? && r.error.Incomplete? ==> |input| < 8 && r.error.needed == 4
  {
    var m := if |input| < 4 then |input| else 4;
    if input[..m] != NUS3[..m] then
      Err(TagMismatch)
    else if m < 4 || |input| < 8 then
      Err(Incomplete(4))
    else
      Ok((input[8..], ReadU32Le(input[4..8])))
  }

  /**
   * `take_file`: the header parse, with the read size discarded and a fresh
   * empty container as the output.
   */
  function TakeFile(input: seq<u8>): (r: Result<(seq<u8>, Nus3audioFile)>)
    ensures r.Ok? <==> |input| >= 8 && input[..4] == NUS3
    ensures r.Ok? ==> r.value.0 == input[8..] && r.value.1.files == []
    ensures |input| >= 4 && input[..4] != NUS3 ==> r == Err(TagMismatch)
    ensures |input| < 8 ==> r.Err?
  {
    match TakeHeader(input)
    case Ok((rest, _)) => Ok((rest, New()))
    case Err(e) => Err(e)
  }

  /**
   * `Nus3audioFile::from_bytes`: the container `take_file` produces; `None`
   * stands for the panic of `.expect` when `take_file` fails.
   */
  function FromBytes(data: seq<u8>): (r: Option<Nus3audioFile>)
    ensures r.Some? <==> TakeFile(data).Ok?
    ensures r.Some? ==> r.value == TakeFile(data).value.1 && r.value.files == []
  {
    match TakeFile(data)
    case Ok((_, file)) => Some(file)
    case Err(_) => None
  }
}
