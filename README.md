# MemberInfo: the shared member model of the Java class-file reader

This project models `MemberInfo`, the base class of the fields and methods
that the RSTALanguageSupport class-file reader builds while it parses a
compiled Java class. A member holds three things:

- the 16-bit `access_flags` word of its `field_info` or `method_info`
  structure (sections 4.5 and 4.6 of the Java Virtual Machine Specification);
- a deprecation flag;
- a back-reference to the owning class file.

It also holds the dispatch of the attributes common to all members. A
`Deprecated` attribute (section 4.7.15 of the Java SE 8 edition of that
specification) sets the flag. Any other attribute goes to the generic
"unsupported attribute" reader, which skips the attribute's body.

Files:

- `bits.dfy` (module `Bits`): Java's `&` on non-negative integers, defined
  bit by bit with arithmetic. Also single bits, powers of two and bit flips.
- `access_flags.dfy` (module `AccessFlags`): the u2 type, the masks
  `ACC_STATIC = 0x0008` and `ACC_FINAL = 0x0010`, and what masking with them
  yields.
- `class_file.dfy` (module `ClassFiles`): the owning class file, with no state.
- `attribute_info.dfy` (module `Attributes`): the input stream as a byte
  sequence with a cursor (a class whose cursor the readers advance), the
  `Unsupported` placeholder attribute, and the generic reader with its
  assumed contract.
- `member_info.dfy` (module `ClassReader`): the `MemberInfo` class, the
  function `Dispatch` that specifies `ReadAttribute`, and the lemmas about
  deprecation and about the flag predicates.
- `wrappers.dfy` (module `Wrappers`): `Option` stands for a Java null
  result and `Result` for a thrown `IOException`.

The stream is a parameter: a `DataInput` object holding the bytes and a cursor.
No real I/O happens.

## Model

| member | source | states |
|---|---|---|
| ClassReader.MemberInfo.constructor | src/org/fife/rsta/ac/java/classreader/MemberInfo.java:56-59 | after construction GetAccessFlags() is the flags argument and GetClassFile() is the class-file argument, and the member is not deprecated |
| ClassReader.MemberInfo.GetAccessFlags | src/org/fife/rsta/ac/java/classreader/MemberInfo.java:68-70 | returns the stored flag word, which is a u2 value (0 to 0xFFFF) |
| ClassReader.MemberInfo.GetClassFile | src/org/fife/rsta/ac/java/classreader/MemberInfo.java:78-80 | returns the owning class file the member was built with |
| ClassReader.MemberInfo.IsDeprecated | src/org/fife/rsta/ac/java/classreader/MemberInfo.java:96-98 | returns the deprecation flag |
| ClassReader.MemberInfo.IsFinal | src/org/fife/rsta/ac/java/classreader/MemberInfo.java:114-116 | true exactly when bit 4 (ACC_FINAL) of the flag word is set, whatever the other bits are |
| ClassReader.MemberInfo.IsStatic | src/org/fife/rsta/ac/java/classreader/MemberInfo.java:124-126 | true exactly when bit 3 (ACC_STATIC) of the flag word is set, whatever the other bits are |
| ClassReader.FinalBitLeavesStatic | src/org/fife/rsta/ac/java/classreader/MemberInfo.java:114-126 | flipping the ACC_FINAL bit flips IsFinal and leaves IsStatic unchanged |
| ClassReader.StaticBitLeavesFinal | src/org/fife/rsta/ac/java/classreader/MemberInfo.java:114-126 | flipping the ACC_STATIC bit flips IsStatic and leaves IsFinal unchanged |
| AccessFlags.FinalMaskIsBit4 | src/org/fife/rsta/ac/java/classreader/MemberInfo.java:115 | `flags & ACC_FINAL` is ACC_FINAL when bit 4 is set and 0 otherwise; it is never negative, so the source's `> 0` is the same test as `!= 0` |
| AccessFlags.StaticMaskIsBit3 | src/org/fife/rsta/ac/java/classreader/MemberInfo.java:125 | `flags & ACC_STATIC` is ACC_STATIC when bit 3 is set and 0 otherwise |
| Bits.And | src/org/fife/rsta/ac/java/classreader/MemberInfo.java:115 | Java's `&` on non-negative operands: the result is non-negative and at most either operand |
| Bits.AndBit | src/org/fife/rsta/ac/java/classreader/MemberInfo.java:115 | a bit of `a & b` is set exactly when it is set in both `a` and `b` |
| Bits.AndPow2 | src/org/fife/rsta/ac/java/classreader/MemberInfo.java:115 | masking with a single-bit mask yields the mask or 0, according to that one bit |
| ClassReader.MemberInfo.ReadAttribute | src/org/fife/rsta/ac/java/classreader/MemberInfo.java:140-158 | the flag afterwards is set exactly when it was set before or the name is exactly "Deprecated"; the result and the cursor are those given by Dispatch; the class file and the flag word never change |
| ClassReader.Dispatch | src/org/fife/rsta/ac/java/classreader/MemberInfo.java:143-156 | "Deprecated" returns null, sets the flag and consumes nothing, whatever the declared length. Any other name leaves the flag alone. It succeeds exactly when the length is non-negative and fits in the remaining bytes, and then returns Unsupported(name, length) with the cursor moved by exactly that length. Otherwise it fails with the generic reader's error |
| ClassReader.DeprecationIsMonotone | src/org/fife/rsta/ac/java/classreader/MemberInfo.java:145-148 | over any sequence of attributes the flag is never reset, and it ends up set only if it was set before or some attribute was named "Deprecated" |
| ClassReader.DeprecationIsIdempotent | src/org/fife/rsta/ac/java/classreader/MemberInfo.java:145-148 | reading "Deprecated" on a member that is already deprecated gives exactly the same outcome as reading it the first time |
| Attributes.SkipUnsupported | src/org/fife/rsta/ac/java/classreader/MemberInfo.java:152-153 | assumed behaviour of the generic reader: it succeeds exactly when the declared length is non-negative and fits in the remaining bytes. Then it returns Unsupported(name, length) and the cursor after the skipped body. A negative length gives NegativeLength; too few bytes give TruncatedAttribute |
| Attributes.ReadUnsupportedAttribute | src/org/fife/rsta/ac/java/classreader/MemberInfo.java:152-153 | the generic reader as a method on the stream: result and new cursor as SkipUnsupported says; the stream stays valid |

## Left out

- `AttributeInfo.readUnsupportedAttribute` is not part of this model: its code is not modelled. `Attributes.SkipUnsupported` and `Attributes.ReadUnsupportedAttribute` state an assumed contract. That contract covers exact skipping, the Unsupported(name, length) placeholder, and the errors TruncatedAttribute and NegativeLength. After a failure, the cursor position is not specified.
- Attributes.AttributeInfo: the placeholder keeps only the name and the declared length. It does not keep the skipped bytes or the class-file reference.
- ClassReader.MemberInfo.constructor: the Java constructor takes any `int`. The model takes a u2 value (0 to 0xFFFF), because the field is documented as a u2 and is read from the class file's unsigned access_flags item. Negative flag words are not modelled.
- ClassReader.MemberInfo.ReadAttribute: the attribute name is a non-null string. A null name in Java would fail the `equals` test and go to the generic reader.
- `getName` and `getDescriptor` are abstract in the source. Their results come from the constant pool, which the subclasses `FieldInfo` and `MethodInfo` look up. Neither the subclasses nor `ClassFile` is part of this model, so neither method is modelled.
- `MemberInfo` is abstract in Java. Here it is a plain class, because the subclasses are not modelled.
- `ClassFile` and `AccessFlags` are not part of this model. The class file is an object with no state. Only the two masks that the member predicates test are defined, with the values that the Java Virtual Machine Specification assigns to them.
- The source ignores the declared length of a "Deprecated" attribute and reads none of its body, since the attribute is expected to be empty. `ClassReader.Dispatch` models exactly that for every length. So a "Deprecated" attribute that has a body leaves the body unread, and the next attribute is read from inside it.
- The stream is a byte sequence with a cursor. Real I/O and any `IOException` other than the reader's own failures are not modelled.
- The commented-out debug print in the source is not modelled.
- `AbstractLanguageSupport` (the editor integration) is not part of this model.
