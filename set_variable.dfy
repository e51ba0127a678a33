/**
 * SetVariableExample: a shell application that deletes a variable of its
 * own GUID (one argument) or sets it to a CHAR16 string with attributes
 * spelled as letters (three arguments).
 *
 * SetVariable is a parameter: the call the program makes is returned, and
 * the status the firmware answers is `setVariable` of that call.
 */
module SetVariableExample {
  import opened Efi
  import opened VariableAttributes

  /** A SetVariable call under gEfiCallerIdGuid: the variable name, the
      attributes, DataSize in bytes, and the CHAR16 data with its
      terminator (None for a NULL Data). */
  datatype SetCall = SetCall(name: CString, attributes: u32, size: nat, data: Option<string>)

  const USAGE :=
    "Delete variable\n"
    + "   SetVariableExample <variable name>\n"
    + "\n"
    + "Set variable\n"
    + "   SetVariableExample <variable name> <attributes> <value>\n"
    + "\n"
    + "<attributes> can be <n|b|r>\n"
    + "n - NON_VOLATILE\n"
    + "b - BOOTSERVICE_ACCESS\n"
    + "r - RUNTIME_ACCESS\n"

  const UNKNOWN_ATTRIBUTE := "Error! Unknown attribute!"

  predicate AttributeLetter(c: char)
  {
    c == 'n' || c == 'b' || c == 'r'
  }

  /** The attributes the letters of `s` ask for: 'n' sets NON_VOLATILE, 'b'
      BOOTSERVICE_ACCESS and 'r' RUNTIME_ACCESS, whatever their order and
      however often they appear, and no other bit is set. */
  function Requested(s: string): (r: u32)
    ensures r % 2 == 1 <==> 'n' in s
    ensures (r / 2) % 2 == 1 <==> 'b' in s
    ensures (r / 4) % 2 == 1 <==> 'r' in s
    ensures r < 8
  {
    (if 'n' in s then EFI_VARIABLE_NON_VOLATILE else 0)
    + (if 'b' in s then EFI_VARIABLE_BOOTSERVICE_ACCESS else 0)
    + (if 'r' in s then EFI_VARIABLE_RUNTIME_ACCESS else 0)
  }

  /** Two attribute strings with the same letters ask for the same
      attributes. */
  lemma SameLettersSameAttributes(s: string, t: string)
    requires forall c :: c in s <==> c in t
    ensures Requested(s) == Requested(t)
  {
  }

  /** StrSize: the bytes of a CHAR16 string with its terminator. */
  function StrSize(s: CString): (r: nat)
    ensures r == 2 * |s + "\0"|
  {
    2 * (|s| + 1)
  }

  /** The character loop: the OR of the letters' bits, or `known` false at
      the first character that is not a letter. */
  method ParseAttributes(s: CString) returns (attributes: u32, known: bool)
    ensures known <==> forall c | c in s :: AttributeLetter(c)
    ensures known ==> attributes == Requested(s)
  {
    attributes := 0;
    var i := 0;
    while i < |s|
      invariant i <= |s|
      invariant forall c | c in s[..i] :: AttributeLetter(c)
      invariant attributes == Requested(s[..i])
    {
      assert s[..i + 1] == s[..i] + [s[i]];
      match s[i] {
        case 'n' => attributes := OrBit(attributes, EFI_VARIABLE_NON_VOLATILE);
        case 'b' => attributes := OrBit(attributes, EFI_VARIABLE_BOOTSERVICE_ACCESS);
        case 'r' => attributes := OrBit(attributes, EFI_VARIABLE_RUNTIME_ACCESS);
        case _ =>
          assert s[i] in s;
          return attributes, false;
      }
      i := i + 1;
    }
    assert s[..i] == s;
    known := true;
  }

  /** What is printed after a SetVariable call. */
  function Reported(status: Status, name: CString, done: string, statusText: Status -> string): string
  {
    if IsError(status) then statusText(status) + "\n" else "Variable " + name + " was successfully " + done + "\n"
  }

  /** ShellAppMain. `argv` holds Argv[0] .. Argv[Argc-1]. One argument
      deletes the variable: attributes 0, size 0, NULL data. Three set it:
      the letters must all be n, b or r, else nothing is called; the data
      is the value with its terminator and the size counts both. Any other
      count prints the usage and succeeds. */
  method ShellAppMain(argv: seq<CString>, setVariable: SetCall -> Status, statusText: Status -> string)
    returns (status: Status, call: Option<SetCall>, text: string)
    ensures |argv| == 2 ==>
      && call == Some(SetCall(argv[1], 0, 0, None))
      && status == setVariable(call.value)
      && text == Reported(status, argv[1], "deleted", statusText)
    ensures |argv| == 4 && (exists c | c in argv[2] :: !AttributeLetter(c)) ==>
      status == InvalidParameter && call == None && text == UNKNOWN_ATTRIBUTE
    ensures |argv| == 4 && (forall c | c in argv[2] :: AttributeLetter(c)) ==>
      && call == Some(SetCall(argv[1], Requested(argv[2]), 2 * (|argv[3]| + 1), Some(argv[3] + "\0")))
      && call.value.size == 2 * |call.value.data.value|
      && status == setVariable(call.value)
      && text == Reported(status, argv[1], "changed", statusText)
    ensures |argv| != 2 && |argv| != 4 ==> status == Success && call == None && text == USAGE
  {
    if |argv| == 2 {
      var name := argv[1];
      var c := SetCall(name, 0, 0, None);
      status := setVariable(c);
      call := Some(c);
      if IsError(status) {
        text := statusText(status) + "\n";
      } else {
        text := "Variable " + name + " was successfully deleted\n";
      }
      return;
    } else if |argv| == 4 {
      var name, attributesStr, value := argv[1], argv[2], argv[3];
      var attributes, known := ParseAttributes(attributesStr);
      if !known {
        return InvalidParameter, None, UNKNOWN_ATTRIBUTE;
      }
      var c := SetCall(name, attributes, StrSize(value), Some(value + "\0"));
      status := setVariable(c);
      call := Some(c);
      if IsError(status) {
        text := statusText(status) + "\n";
      } else {
        text := "Variable " + name + " was successfully changed\n";
      }
      return;
    } else {
      text := USAGE;
    }
    call := None;
    status := Success;
  }
}
