/** The attribute side of the reader as a member sees it: the input stream,
    the "unsupported" placeholder attribute and the generic reader that
    produces it. The generic reader's own code is not part of this model; its
    contract below is an assumption of this model: skip exactly the declared
    number of bytes and keep the name and length. */
module Attributes {
  import opened Wrappers
  import ClassFiles

  /** A Java `int`. */
  type Int32 = x: int | -0x8000_0000 <= x < 0x8000_0000

  /** An attribute read for a member. Only the catch-all placeholder, which
      keeps the attribute's name and declared length, is modelled. */
  datatype AttributeInfo = Unsupported(name: string, length: Int32)

  /** Why reading an attribute's body failed (the IOException path). */
  datatype ReadError =
    | TruncatedAttribute  // fewer bytes remain than the declared length
    | NegativeLength      // the declared length, read as a Java int, is negative

  /** A class-file input stream: its bytes and a read cursor. */
  class DataInput {
    const bytes: seq<bv8>
    var pos: nat

    ghost predicate Valid()
      reads this
    {
      pos <= |bytes|
    }

    constructor (bytes: seq<bv8>)
      ensures Valid() && this.bytes == bytes && pos == 0
    {
      this.bytes := bytes;
      pos := 0;
    }
  }

  /** What the generic reader does to a stream whose cursor is at `pos`:
      either the placeholder and the cursor after the skipped body, or the
      reason the body could not be skipped. */
  function SkipUnsupported(bytes: seq<bv8>, pos: nat, name: string, length: Int32)
    : (r: Result<(AttributeInfo, nat), ReadError>)
    requires pos <= |bytes|
    ensures r.Ok? <==> 0 <= length <= |bytes| - pos
    ensures r.Ok? ==> r.value.0 == Unsupported(name, length) && r.value.1 == pos + length
    ensures r.Err? ==> r.error == (if length < 0 then NegativeLength else TruncatedAttribute)
  {
    if length < 0 then Err(NegativeLength)
    else if pos + length > |bytes| then Err(TruncatedAttribute)
    else Ok((Unsupported(name, length), pos + length))
  }

  /** The generic reader for an attribute the caller does not recognise: it
      skips the body and returns a placeholder. On failure nothing is promised
      about how far the cursor moved. */
  method ReadUnsupportedAttribute(cf: ClassFiles.ClassFile, input: DataInput, name: string, length: Int32)
    returns (r: Result<AttributeInfo, ReadError>)
    requires input.Valid()
    modifies input`pos
    ensures input.Valid()
    ensures match SkipUnsupported(input.bytes, old(input.pos), name, length)
      case Ok((a, p)) => r == Ok(a) && input.pos == p
      case Err(e) => r == Err(e)
  {
    match SkipUnsupported(input.bytes, input.pos, name, length)
    case Ok((a, p)) =>
      r := Ok(a);
      input.pos := p;
    case Err(e) =>
      r := Err(e);
  }
}
