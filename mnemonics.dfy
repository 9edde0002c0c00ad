/**
  The text names of the class and opcode codes, as their `String` methods give
  them. Both revisions of the codec carry the same two switches.
 */
module Mnemonics {
  import opened Wire

  const ClassIN: U16 := 0x01
  const ClassCS: U16 := 0x02
  const ClassCH: U16 := 0x03
  const ClassHS: U16 := 0x04
  const ClassAny: U16 := 0xFF

  const OpCodeQuery: Byte := 0
  const OpCodeIQuery: Byte := 1
  const OpCodeStatus: Byte := 2
  const OpCodeNotify: Byte := 4
  const OpCodeUpdate: Byte := 5

  /** The classes that have a name of their own. */
  predicate KnownClass(c: U16)
  {
    c == ClassIN || c == ClassCS || c == ClassCH || c == ClassHS || c == ClassAny
  }

  /** The opcodes that have a name of their own; 3 is unassigned. */
  predicate KnownOpCode(code: Byte)
  {
    code == OpCodeQuery || code == OpCodeIQuery || code == OpCodeStatus
      || code == OpCodeNotify || code == OpCodeUpdate
  }

  /** `DNSClass.String`. */
  function ClassName(c: U16): (s: string)
    ensures s == "Unknown" <==> !KnownClass(c)
    ensures c == ClassIN <==> s == "IN"
  {
    match c
    case 0x01 => "IN"
    case 0x02 => "CS"
    case 0x03 => "CH"
    case 0x04 => "HS"
    case 0xFF => "Any"
    case _ => "Unknown"
  }

  /** `DNSOpCode.String`. */
  function OpCodeName(code: Byte): (s: string)
    ensures s == "Unknown" <==> !KnownOpCode(code)
    ensures code == OpCodeQuery <==> s == "Query"
  {
    match code
    case 0 => "Query"
    case 1 => "Inverse Query"
    case 2 => "Status"
    case 4 => "Notify"
    case 5 => "Update"
    case _ => "Unknown"
  }

  /** Distinct known classes have distinct names, so a name other than "Unknown"
      determines its class. */
  lemma ClassNamesDistinct(c: U16, d: U16)
    requires KnownClass(c) && ClassName(c) == ClassName(d)
    ensures c == d
  {
  }

  /** Distinct known opcodes have distinct names. */
  lemma OpCodeNamesDistinct(code: Byte, other: Byte)
    requires KnownOpCode(code) && OpCodeName(code) == OpCodeName(other)
    ensures code == other
  {
  }
}
