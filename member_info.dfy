/** The shared base of fields and methods read from a class file: the access
    flag word, the deprecation flag, the back-reference to the owning class
    file, and the dispatch of the attributes common to all members. */
module ClassReader {
  import opened Wrappers
  import opened Bits
  import opened AccessFlags
  import opened Attributes
  import opened ClassFiles

  /** The name of the Deprecated attribute (section 4.7.15 of the Java
      Virtual Machine Specification, Java SE 8 edition). */
  const DEPRECATED: string := "Deprecated"

  /** The member's state after one attribute has been dispatched: the
      deprecation flag, the stream cursor, and the attribute object returned
      (None for Java's null). */
  datatype Step = Step(deprecated: bool, pos: nat, attribute: Option<AttributeInfo>)

  /** One readAttribute call on a member whose flag is `deprecated`, reading
      from `bytes` at cursor `pos`. The Deprecated attribute is recognised by
      its exact name: it sets the flag, returns null and consumes nothing,
      whatever its declared length. Every other name goes to the generic
      reader, with the same name and length, and leaves the flag alone. */
  function Dispatch(deprecated: bool, bytes: seq<bv8>, pos: nat, name: string, length: Int32)
    : (r: Result<Step, ReadError>)
    requires pos <= |bytes|
    ensures name == DEPRECATED ==> r == Ok(Step(true, pos, None))
    ensures name != DEPRECATED ==> (r.Ok? <==> 0 <= length <= |bytes| - pos)
    ensures name != DEPRECATED && r.Ok? ==>
      r.value == Step(deprecated, pos + length, Some(Unsupported(name, length)))
    ensures r.Err? ==>
      name != DEPRECATED && r.error == (if length < 0 then NegativeLength else TruncatedAttribute)
    ensures r.Ok? ==>
      r.value.pos <= |bytes| && (r.value.deprecated <==> deprecated || name == DEPRECATED)
  {
    if name == DEPRECATED then Ok(Step(true, pos, None))
    else match SkipUnsupported(bytes, pos, name, length)
      case Ok((a, p)) => Ok(Step(deprecated, p, Some(a)))
      case Err(e) => Err(e)
  }

  /** The deprecation flag after a member's attributes are dispatched in
      order, stopping at the first one that fails. */
  ghost function DeprecatedAfter(deprecated: bool, bytes: seq<bv8>, pos: nat, attrs: seq<(string, Int32)>): bool
    requires pos <= |bytes|
    decreases |attrs|
  {
    if attrs == [] then deprecated
    else match Dispatch(deprecated, bytes, pos, attrs[0].0, attrs[0].1)
      case Err(_) => deprecated
      case Ok(s) => DeprecatedAfter(s.deprecated, bytes, s.pos, attrs[1..])
  }

  /** Over any sequence of attributes the flag is never reset, and it is set
      only when one of them is named Deprecated. */
  lemma {:induction false} DeprecationIsMonotone(deprecated: bool, bytes: seq<bv8>, pos: nat, attrs: seq<(string, Int32)>)
    requires pos <= |bytes|
    ensures deprecated ==> DeprecatedAfter(deprecated, bytes, pos, attrs)
    ensures DeprecatedAfter(deprecated, bytes, pos, attrs) ==>
      deprecated || exists i :: 0 <= i < |attrs| && attrs[i].0 == DEPRECATED
    decreases |attrs|
  {
    if attrs != [] {
      match Dispatch(deprecated, bytes, pos, attrs[0].0, attrs[0].1)
      case Err(_) =>
      case Ok(s) =>
        DeprecationIsMonotone(s.deprecated, bytes, s.pos, attrs[1..]);
        if DeprecatedAfter(deprecated, bytes, pos, attrs) && !deprecated {
          if s.deprecated {
            assert attrs[0].0 == DEPRECATED;
          } else {
            var i :| 0 <= i < |attrs[1..]| && attrs[1..][i].0 == DEPRECATED;
            assert attrs[i + 1].0 == DEPRECATED;
          }
        }
    }
  }

  /** Reading Deprecated a second time changes nothing. */
  lemma DeprecationIsIdempotent(deprecated: bool, bytes: seq<bv8>, pos: nat, length1: Int32, length2: Int32)
    requires pos <= |bytes|
    ensures Dispatch(deprecated, bytes, pos, DEPRECATED, length1).Ok?
    ensures Dispatch(true, bytes, pos, DEPRECATED, length2) == Dispatch(deprecated, bytes, pos, DEPRECATED, length1)
  {
  }

  /** A field or method of a class file. */
  class MemberInfo {
    /** The class file that defines this member. */
    var cf: ClassFile
    /** The access_flags item of the member's field_info or method_info. */
    var accessFlags: U2
    /** Whether a Deprecated attribute has been read for this member. */
    var deprecated: bool

    constructor (cf: ClassFile, accessFlags: U2)
      ensures GetClassFile() == cf && GetAccessFlags() == accessFlags && !IsDeprecated()
    {
      this.cf := cf;
      this.accessFlags := accessFlags;
      this.deprecated := false;
    }

    function GetAccessFlags(): (r: int)
      reads this
      ensures 0 <= r < 0x1_0000 && r == accessFlags
    {
      accessFlags
    }

    function GetClassFile(): (r: ClassFile)
      reads this
      ensures r == cf
    {
      cf
    }

    function IsDeprecated(): (r: bool)
      reads this
      ensures r == deprecated
    {
      deprecated
    }

    /** Whether the member is final: ACC_FINAL (bit 4) is set, whatever the
        other bits of the flag word are. */
    function IsFinal(): (r: bool)
      reads this
      ensures r <==> Bit(accessFlags, 4)
    {
      FinalMaskIsBit4(accessFlags);
      And(GetAccessFlags(), ACC_FINAL) > 0
    }

    /** Whether the member is static: ACC_STATIC (bit 3) is set, whatever the
        other bits of the flag word are. */
    function IsStatic(): (r: bool)
      reads this
      ensures r <==> Bit(accessFlags, 3)
    {
      StaticMaskIsBit3(accessFlags);
      And(GetAccessFlags(), ACC_STATIC) > 0
    }

    /** Reads an attribute common to all members: Deprecated sets the flag;
        any other attribute is skipped by the generic reader. Nothing but the
        flag and the stream cursor changes. */
    method ReadAttribute(input: DataInput, attrName: string, attrLength: Int32)
      returns (r: Result<Option<AttributeInfo>, ReadError>)
      requires input.Valid()
      modifies this`deprecated, input`pos
      ensures input.Valid()
      ensures cf == old(cf) && accessFlags == old(accessFlags)
      ensures deprecated <==> old(deprecated) || attrName == DEPRECATED
      ensures match Dispatch(old(deprecated), input.bytes, old(input.pos), attrName, attrLength)
        case Ok(s) => r == Ok(s.attribute) && input.pos == s.pos && deprecated == s.deprecated
        case Err(e) => r == Err(e)
    {
      r := Ok(None);
      if attrName == DEPRECATED {
        // the attribute has no body: its length is taken to be zero
        deprecated := true;
      } else {
        var ai := ReadUnsupportedAttribute(cf, input, attrName, attrLength);
        match ai
        case Ok(a) => r := Ok(Some(a));
        case Err(e) => r := Err(e);
      }
    }
  }

  /** Flipping ACC_FINAL in a flag word changes whether the member is final
      and not whether it is static. */
  lemma {:induction false} FinalBitLeavesStatic(m: MemberInfo, n: MemberInfo)
    requires n.accessFlags == Toggle(m.accessFlags, 4)
    ensures n.IsFinal() == !m.IsFinal()
    ensures n.IsStatic() == m.IsStatic()
  {
    ToggleBit(m.accessFlags, 4, 4);
    ToggleBit(m.accessFlags, 4, 3);
  }

  /** Flipping ACC_STATIC in a flag word changes whether the member is static
      and not whether it is final. */
  lemma {:induction false} StaticBitLeavesFinal(m: MemberInfo, n: MemberInfo)
    requires n.accessFlags == Toggle(m.accessFlags, 3)
    ensures n.IsStatic() == !m.IsStatic()
    ensures n.IsFinal() == m.IsFinal()
  {
    ToggleBit(m.accessFlags, 3, 3);
    ToggleBit(m.accessFlags, 3, 4);
  }
}
