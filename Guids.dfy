/** Entity identifiers. A .NET Guid is modelled as a natural number; Guid.Empty
    (all zeros) is 0. Its text is the decimal rendering of that number, which,
    like the 36-character Guid text, is different for different identifiers. */
module Guids {
  import Text

  type Guid = nat

  const Empty: Guid := 0

  function GuidText(g: Guid): (s: string)
    ensures |s| >= 1
  {
    Text.NatToString(g)
  }

  lemma GuidTextInjective(a: Guid, b: Guid)
    ensures GuidText(a) == GuidText(b) <==> a == b
  {
    Text.NatToStringInjective(a, b);
  }
}
