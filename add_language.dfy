/**
 * AddNewLanguage: an application that appends ";ru-RU" to the
 * PlatformLangCodes variable, then disables the variable policy.
 *
 * GetEfiGlobalVariable2's answer, AllocatePool's answer, SetVariable,
 * LocateProtocol and DisableVariablePolicy are parameters, and so is the
 * text "%r" prints for a status.
 */
module AddNewLanguage {
  import opened Efi
  import opened VariableAttributes

  /** ";ru-RU" in ASCII, without its terminator. */
  const RU_RU: seq<byte> := [0x3B, 0x72, 0x75, 0x2D, 0x52, 0x55]

  /** AsciiStrSize(";ru-RU"): the six characters and the NUL. */
  const RU_RU_SIZE: nat := 7

  /** The SetVariable call on "PlatformLangCodes" under
      gEfiGlobalVariableGuid: attributes, DataSize, and the data. */
  datatype SetCall = SetCall(attributes: u32, size: nat, data: seq<byte>)

  /** What the firmware and the pool answer: GetEfiGlobalVariable2's
      status and buffer, whether AllocatePool succeeds, SetVariable's answer
      to a call, then LocateProtocol's and DisableVariablePolicy's
      statuses. */
  datatype Firmware = Firmware(getStatus: Status, codes: seq<byte>, alloc: bool, setVariable: SetCall -> Status,
                               locate: Status, disable: Status)

  /** The new value: the old language codes, ";ru-RU", then the NUL. */
  function Added(codes: seq<byte>): (r: seq<byte>)
    requires 0 !in codes
    ensures |r| == |codes| + RU_RU_SIZE
    ensures r[..|codes|] == codes && r[|codes|..|codes| + |RU_RU|] == RU_RU && r[|r| - 1] == 0
    ensures CBytes(r) == codes + RU_RU
  {
    CBytesOfTerminated(codes + RU_RU, []);
    codes + RU_RU + [0]
  }

  /** Nothing stops a second run from appending ";ru-RU" again: the
      language list grows by six characters each time. */
  lemma AddedTwice(codes: seq<byte>)
    requires 0 !in codes
    ensures 0 !in codes + RU_RU
    ensures CBytes(Added(codes + RU_RU)) == codes + RU_RU + RU_RU
    ensures Added(codes + RU_RU) != Added(codes)
  {
    assert RU_RU[0] == 0x3B;
    assert |Added(codes + RU_RU)| != |Added(codes)|;
  }

  const GET_ERROR := "Error! Can't perform GetEfiGlobalVariable2, status="
  const ALLOC_ERROR := "Error! Can't allocate size for new PlatformLangCodes variable\n"
  const SET_ERROR := "Error! Can't set PlatformLangCodes variable, status="
  const LOCATE_ERROR := "Error! Could not find Variable Policy protocol: "
  const DISABLE_ERROR := "Error! Can't disable VariablePolicy: "

  /** What is printed, and returned, once the variable is set. */
  function PolicyTail(fw: Firmware, setStatus: Status, statusText: Status -> string): (r: (Status, string))
    ensures r.0 == (if IsError(fw.locate) then fw.locate else fw.disable)
  {
    var setText := if IsError(setStatus) then SET_ERROR + statusText(setStatus) + "\n" else "";
    if IsError(fw.locate) then (fw.locate, setText + LOCATE_ERROR + statusText(fw.locate) + "\n")
    else if IsError(fw.disable) then (fw.disable, setText + DISABLE_ERROR + statusText(fw.disable) + "\n")
    else (Success, setText)
  }

  /** The new buffer, AsciiStrLen(old) + AsciiStrSize(";ru-RU") bytes,
      filled by the two CopyMem calls. */
  method NewLanguageString(languageString: seq<byte>, length: nat) returns (buffer: array<byte>)
    requires 0 in languageString && length == |CBytes(languageString)|
    ensures fresh(buffer) && buffer[..] == Added(CBytes(languageString))
  {
    buffer := new byte[length + RU_RU_SIZE];
    forall i | 0 <= i < length {
      buffer[i] := languageString[i];
    }
    forall i | 0 <= i < RU_RU_SIZE {
      buffer[length + i] := (RU_RU + [0])[i];
    }
  }

  /** UefiMain. A failed read returns its status; a refused allocation
      frees the old string and returns EFI_OUT_OF_RESOURCES without a call;
      otherwise the new value is set with BOOTSERVICE_ACCESS |
      RUNTIME_ACCESS and AsciiStrSize of it as its size, a failure of that
      call is only printed, and the policy protocol's status is returned.
      `freed` says whether the old string was handed back to the pool. */
  method UefiMain(fw: Firmware, statusText: Status -> string)
    returns (status: Status, call: Option<SetCall>, freed: bool, text: string)
    requires !IsError(fw.getStatus) ==> 0 in fw.codes
    ensures IsError(fw.getStatus) ==>
      status == fw.getStatus && call == None && !freed && text == GET_ERROR + statusText(fw.getStatus) + "\n"
    ensures !IsError(fw.getStatus) && !fw.alloc ==>
      status == OutOfResources && call == None && freed
    ensures !IsError(fw.getStatus) && fw.alloc ==>
      var codes := CBytes(fw.codes);
      && call == Some(SetCall(OrBit(EFI_VARIABLE_BOOTSERVICE_ACCESS, EFI_VARIABLE_RUNTIME_ACCESS),
                              |codes| + RU_RU_SIZE, Added(codes)))
      && !freed
      && status == PolicyTail(fw, fw.setVariable(call.value), statusText).0
    ensures !IsError(fw.getStatus) ==>
      var codes := CBytes(fw.codes);
      var shown := "Current value of the 'PlatformLangCodes' variable is '" + Widen(codes) + "'\n";
      if fw.alloc then
        text == shown + "Set 'PlatformLangCodes' variable to '" + Widen(codes + RU_RU) + "'\n"
                + PolicyTail(fw, fw.setVariable(call.value), statusText).1
      else text == shown + ALLOC_ERROR
  {
    freed := false;
    call := None;
    if IsError(fw.getStatus) {
      return fw.getStatus, None, false, GET_ERROR + statusText(fw.getStatus) + "\n";
    }
    var languageString := fw.codes;
    var length := |CBytes(languageString)|;
    text := "Current value of the 'PlatformLangCodes' variable is '" + Widen(CBytes(languageString)) + "'\n";

    if !fw.alloc {
      text := text + ALLOC_ERROR;
      freed := true;
      return OutOfResources, None, freed, text;
    }
    var newLanguageString := NewLanguageString(languageString, length);
    var value := newLanguageString[..];
    assert CBytes(value) == CBytes(languageString) + RU_RU;
    var size := |CBytes(value)| + 1;

    text := text + "Set 'PlatformLangCodes' variable to '" + Widen(CBytes(value)) + "'\n";
    var c := SetCall(OrBit(EFI_VARIABLE_BOOTSERVICE_ACCESS, EFI_VARIABLE_RUNTIME_ACCESS), size, value);
    call := Some(c);
    var setStatus := fw.setVariable(c);
    var log := "";
    if IsError(setStatus) {
      log := SET_ERROR + statusText(setStatus) + "\n";
    }

    if IsError(fw.locate) {
      return fw.locate, call, freed, text + (log + LOCATE_ERROR + statusText(fw.locate) + "\n");
    }
    if IsError(fw.disable) {
      return fw.disable, call, freed, text + (log + DISABLE_ERROR + statusText(fw.disable) + "\n");
    }
    text := text + log;
    status := Success;
  }
}
