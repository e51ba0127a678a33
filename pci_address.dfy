/**
 * PciConfigurationAddress of the ListPCI and DumpPCIroms lessons: the
 * address EFI_PCI_ROOT_BRIDGE_IO_PROTOCOL.Pci.Read takes for a register of
 * a function, with the bus in bits 24-31, the device in bits 16-23, the
 * function in bits 8-15 and a register below 0x100 in bits 0-7; a larger
 * register goes whole into bits 32-63 and leaves bits 0-7 zero.
 */
module PciAddress {
  import opened Efi

  /** A configuration register of one PCI function. */
  datatype Location = Location(bus: byte, device: byte, func: byte, register: u32)

  /** The register test `Register & 0xFFFFFF00` is non-zero exactly when
      the register does not fit in 8 bits. */
  function PciConfigurationAddress(bus: byte, device: byte, func: byte, register: u32): u64
  {
    var base := Fields(bus, device, func);
    if register >= 0x100 then base + register * TWO_32 else base + register
  }

  /** Bus, device and function shifted to bits 24, 16 and 8. */
  function Fields(bus: byte, device: byte, func: byte): (base: nat)
    ensures base < TWO_32 && base % 0x100 == 0
  {
    ((bus * 0x100 + device) * 0x100 + func) * 0x100
  }

  /** Where each field lands: the function, device and bus bytes at bits 8,
      16 and 24; a register below 0x100 in bits 0-7 and nothing above bit
      31, a larger one in bits 32-63 and zeros in bits 0-7. */
  lemma AddressFields(bus: byte, device: byte, func: byte, register: u32)
    ensures var a := PciConfigurationAddress(bus, device, func, register);
      && a / 0x100 % 0x100 == func && a / 0x1_0000 % 0x100 == device
      && a / 0x100_0000 % 0x100 == bus
      && (register < 0x100 ==> a % 0x100 == register && a / TWO_32 == 0)
      && (register >= 0x100 ==> a % 0x100 == 0 && a / TWO_32 == register)
  {
    var base := Fields(bus, device, func);
    var low := if register >= 0x100 then 0 else register;
    var high := if register >= 0x100 then register else 0;
    var a := PciConfigurationAddress(bus, device, func, register);
    assert a == base + low + high * TWO_32;
    FieldsOf(bus, device, func, low);
    HighPart(base + low, high);
  }

  /** The address of a location. */
  function AddressOf(l: Location): u64
  {
    PciConfigurationAddress(l.bus, l.device, l.func, l.register)
  }

  /** The location an address names: the inverse of PciConfigurationAddress. */
  function LocationOf(a: u64): Location
  {
    Location(a / 0x100_0000 % 0x100, a / 0x1_0000 % 0x100, a / 0x100 % 0x100,
             if a / TWO_32 != 0 then a / TWO_32 else a % 0x100)
  }

  /** The fields never overlap: every location is read back from its address,
      so two different locations never share an address. */
  lemma AddressRoundTrip(l: Location)
    ensures LocationOf(AddressOf(l)) == l
  {
    AddressFields(l.bus, l.device, l.func, l.register);
  }

  /** Two different locations have different addresses. */
  lemma AddressInjective(l: Location, m: Location)
    requires AddressOf(l) == AddressOf(m)
    ensures l == m
  {
    AddressRoundTrip(l);
    AddressRoundTrip(m);
  }

  /** With register 0, addresses grow with bus, then device, then function:
      the order in which the enumeration loops visit them. */
  lemma AddressOrder(l: Location, m: Location)
    requires l.register == 0 && m.register == 0
    ensures AddressOf(l) < AddressOf(m) <==>
      (l.bus < m.bus || (l.bus == m.bus && (l.device < m.device ||
        (l.device == m.device && l.func < m.func))))
  {
    var x := (l.bus * 0x100 + l.device) * 0x100 + l.func;
    var y := (m.bus * 0x100 + m.device) * 0x100 + m.func;
    assert AddressOf(l) == x * 0x100 && AddressOf(m) == y * 0x100;
    Lex(l.bus * 0x100 + l.device, l.func, m.bus * 0x100 + m.device, m.func);
    Lex(l.bus, l.device, m.bus, m.device);
  }

  /** Comparing two-digit numbers in base 256 is comparing their digits in order. */
  lemma Lex(p: nat, q: nat, r: nat, s: nat)
    requires q < 0x100 && s < 0x100
    ensures p * 0x100 + q < r * 0x100 + s <==> p < r || (p == r && q < s)
  {
  }

  /** The three byte fields and a low register read back from the sum. */
  lemma FieldsOf(bus: byte, device: byte, func: byte, low: nat)
    requires low < 0x100
    ensures var a := Fields(bus, device, func) + low;
      && a % 0x100 == low && a / 0x100 % 0x100 == func
      && a / 0x1_0000 % 0x100 == device && a / 0x100_0000 % 0x100 == bus
  {
    var a1 := bus * 0x100 + device;
    var a2 := a1 * 0x100 + func;
    var a := a2 * 0x100 + low;
    Digit(a2, low);
    Digit(a1, func);
    Digit(bus, device);
    DivDiv(a);
    DivDiv(a / 0x100);
  }

  /** Base-256 digits of a two-digit number. */
  lemma Digit(p: nat, q: nat)
    requires q < 0x100
    ensures (p * 0x100 + q) / 0x100 == p && (p * 0x100 + q) % 0x100 == q
  {
  }

  lemma DivDiv(x: nat)
    ensures x / 0x100 / 0x100 == x / 0x1_0000
    ensures x / 0x100 / 0x1_0000 == x / 0x100_0000
  {
  }

  /** Adding a multiple of 2^32 leaves the low 32 bits alone. */
  lemma HighPart(low: nat, high: nat)
    requires low < TWO_32
    ensures (low + high * TWO_32) / TWO_32 == high
    ensures (low + high * TWO_32) % 0x100 == low % 0x100
    ensures (low + high * TWO_32) / 0x100 % 0x100 == low / 0x100 % 0x100
    ensures (low + high * TWO_32) / 0x1_0000 % 0x100 == low / 0x1_0000 % 0x100
    ensures (low + high * TWO_32) / 0x100_0000 % 0x100 == low / 0x100_0000 % 0x100
  {
    var y := low + high * TWO_32;
    assert y == low + (high * 0x100_0000) * 0x100;
    Add256(low, high * 0x100_0000);
    Add256(low / 0x100, high * 0x1_0000);
    Add256(low / 0x100 / 0x100, high * 0x100);
    Add256(low / 0x100 / 0x100 / 0x100, high);
    DivDiv(y);
    DivDiv(low);
    assert y / 0x100 == low / 0x100 + (high * 0x1_0000) * 0x100;
    assert y / 0x100 / 0x100 == low / 0x100 / 0x100 + (high * 0x100) * 0x100;
    assert y / 0x100 / 0x100 / 0x100 == low / 0x100 / 0x100 / 0x100 + high * 0x100;
  }

  /** Adding `h` times 256 moves the quotient by `h` and keeps the remainder. */
  lemma Add256(x: nat, h: nat)
    ensures (x + h * 0x100) / 0x100 == x / 0x100 + h && (x + h * 0x100) % 0x100 == x % 0x100
  {
  }
}
