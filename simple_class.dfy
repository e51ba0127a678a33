/**
 * SimpleClassProtocol: a driver whose protocol keeps one UINTN, mNumber,
 * that SetNumber stores and GetNumber hands back through a pointer.
 */
module SimpleClassProtocol {
  import opened Efi

  /** The driver's state: mNumber. */
  class SimpleClass {
    var number: u64

    /** At load mNumber is 0. */
    constructor()
      ensures number == 0
    {
      number := 0;
    }

    /** SimpleClassProtocolSetNumber: stores `n`. */
    method SetNumber(n: u64) returns (status: Status)
      modifies this
      ensures number == n && status == Success
    {
      number := n;
      status := Success;
    }

    /** SimpleClassProtocolGetNumber: `hasPointer` false stands for a NULL
        Number, which is refused; otherwise the stored number is written
        out. Nothing of the state changes either way. */
    method GetNumber(hasPointer: bool) returns (status: Status, out: Option<u64>)
      ensures !hasPointer ==> status == InvalidParameter && out == None
      ensures hasPointer ==> status == Success && out == Some(number)
    {
      if !hasPointer {
        return InvalidParameter, None;
      }
      out := Some(number);
      status := Success;
    }
  }

  /** A GetNumber after SetNumber(n) reads n back, and a second read gives
      the same value as the first. */
  method SetThenGet(c: SimpleClass, n: u64) returns (first: Option<u64>, second: Option<u64>)
    modifies c
    ensures first == Some(n) && second == first && c.number == n
  {
    var status := c.SetNumber(n);
    status, first := c.GetNumber(true);
    status, second := c.GetNumber(true);
  }
}
