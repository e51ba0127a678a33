/**
 * The variable attributes SetVariable takes: single bits of a UINT32.
 */
module VariableAttributes {
  import opened Efi

  const EFI_VARIABLE_NON_VOLATILE: u32 := 0x1
  const EFI_VARIABLE_BOOTSERVICE_ACCESS: u32 := 0x2
  const EFI_VARIABLE_RUNTIME_ACCESS: u32 := 0x4

  /** `x | bit` for an attribute `bit`: the bit is added unless it is
      already set, and no other bit changes. */
  function OrBit(x: u32, bit: u32): (r: u32)
    requires bit == EFI_VARIABLE_NON_VOLATILE || bit == EFI_VARIABLE_BOOTSERVICE_ACCESS
             || bit == EFI_VARIABLE_RUNTIME_ACCESS
    ensures (r / bit) % 2 == 1
    ensures r == x || r == x + bit
  {
    if (x / bit) % 2 == 1 then x else (x + bit) % TWO_32
  }
}
