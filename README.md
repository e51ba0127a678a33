# UEFI-Lessons core, modelled in Dafny

This project models the logic of the UEFI shell applications and drivers of
the UEFI-Lessons repository, together with its `replace_guids.py` script. Each
program is modelled in its own module. Firmware services are parameters:
boot services, protocol calls, HII database calls, Hash2, CRC32, GetVariable
and shell file I/O. Physical memory is an input byte map. What a program
prints becomes a returned string, alongside the `EFI_STATUS` it returns.

| module | what it models |
|---|---|
| `Efi` | shared types: `byte`/`u16`/`u32`/`u64`, `EFI_STATUS` values, GUIDs, little-endian fields, CHAR16 strings, hex and decimal text |
| `Buffers` | byte and CHAR16 buffers filled in place (`array`) |
| `Acpi`, `AcpiSave` | AcpiInfo: finding the RSDP in the configuration table, checking the signatures, walking the XSDT, and naming and saving each table to a file |
| `SaveBgrt` | SaveBGRT: the first BGRT in the XSDT, its BMP image checks, and the saved file |
| `Smbios` | SmbiosInfo: the SMBIOS string-set lookup and the Type 0 / Type 1 report |
| `MemoryMap` | MemoryInfo (Lessons 11 and 29): memory types, attribute text, the full listing, and the merged listing with its run coalescing |
| `BootVariables` | ShowBootVariables: GetNvramVariable, EFI_LOAD_OPTION layout, and the BootOrder listing that marks BootCurrent |
| `SetVariableExample`, `VariableAttributes` | SetVariableExample: the attribute-letter parsing and the SetVariable call |
| `DmpstoreDump` | UpdateDmpstoreDump: rewriting the CRC32 of every variable record of a dmpstore dump in place |
| `FfsFile` | FfsFile: the walk over the sections of a firmware file, with 24-bit sizes and 4-byte alignment |
| `CfgDecode`, `CfgPrint`, `HiiConfig` | HIIConfig: the `&`-separated configuration strings, their hex decoders, the device-path decoder, the hex dump, the piece-by-piece printer, and the dump / extract / route commands |
| `HiiKeyword` | HIIKeyword: keyword requests, progress errors and responses |
| `HiiPackages` | ShowHII and ShowHIIext: walking the HII database's package lists and packages, and saving lists to files |
| `HiiStrings` | HIIStringsC: a string package built by hand, and its UCS-2 string blocks |
| `HiiFont` | HIIAddRussianFont: the simple-font package laid out in one allocation |
| `AddNewLanguage` | AddNewLanguage: appending ";ru-RU" to the PlatformLangCodes variable, then disabling the variable policy |
| `FormCallback`, `VarstoreCallback` | the HII form Callback functions: action and type names, the value text, and the popup or debug text |
| `PasswordForm` | PasswordFormWithHash: the stored password hash, the verify-then-change protocol, and the browser Callback |
| `PciAddress`, `PciScan`, `PciIds` | ListPCI (Lessons 30 and 31): configuration addresses, the bus / device / function scan over root-bridge descriptors, and the pci.ids vendor and device lookup |
| `PciRom` | DumpPCIroms: walking the images of an option ROM |
| `SimpleClassProtocol` | SimpleClassProtocol: the number a protocol instance stores |
| `ReplaceGuids` | scripts/replace_guids.py: building the GUID-to-name map from Guid.xref files and replacing GUIDs in a boot log |

Where the code does work in place, the model does too. Buffers the code
fills become `array`s. Objects whose fields the code updates become classes:
`PasswordStorage`, `SimpleClass`, `DumpFile`, `ShowHiiExt` and the script's
file system. Each walk becomes a method with a loop, proved equal to a
recursive specification function. Lemmas then state what the code promises
about that function: round trips (font package, string package, configuration
address, boot option name, SMBIOS strings), bounds, orderings, and what stays
unchanged.

## Model

| member | source | states |
|---|---|---|
| Acpi.LastRsdpIsLast | UefiLessonsPkg/AcpiInfo/AcpiInfo.c:13-20 | the loop keeps going after a match: RSDP is the table of the last ACPI 2.0 entry, NULL when there is none |
| Acpi.NoneIsNull | UefiLessonsPkg/AcpiInfo/AcpiInfo.c:13-20 | with no ACPI 2.0 entry the RSDP stays NULL |
| Acpi.LastIsFound | UefiLessonsPkg/AcpiInfo/AcpiInfo.c:15-19 | the last matching entry's table is the RSDP |
| Acpi.FindRsdp | UefiLessonsPkg/AcpiInfo/AcpiInfo.c:13-20 | the loop over the configuration table yields the last ACPI 2.0 table and one "RSDP table is placed at" line per match |
| Acpi.RsdpSignature | UefiLessonsPkg/AcpiInfo/AcpiInfo.c:27-37 | the eight shifted-byte tests pass exactly when the bytes spell "RSD PTR " |
| Acpi.XsdtSignature | UefiLessonsPkg/AcpiInfo/AcpiInfo.c:45-51 | the four shifted-byte tests pass exactly when the bytes spell "XSDT" |
| Acpi.ShiftByteRead | UefiLessonsPkg/AcpiInfo/AcpiInfo.c:27-34 | `(Signature >> 8k) & 0xFF` of a little-endian field is the byte stored k places in |
| Acpi.ReadShifted | UefiLessonsPkg/AcpiInfo/AcpiInfo.c:56-57 | memory holding a value's bytes least significant first reads back as that value |
| Acpi.EntryCountBounds | UefiLessonsPkg/AcpiInfo/AcpiInfo.c:54-66 | every entry the offset loop visits starts below Length and the next one would not |
| Acpi.EntryCountExact | UefiLessonsPkg/AcpiInfo/AcpiInfo.c:55 | the first offset at or past Length fixes the number of entries |
| Acpi.EntryAt | UefiLessonsPkg/AcpiInfo/AcpiInfo.c:56-57 | the address read at offset 36 + 8k is entry k |
| Acpi.WalkXsdt | UefiLessonsPkg/AcpiInfo/AcpiInfo.c:53-66 | the offset loop visits entries 36, 44, 52, ... below the XSDT's Length, in order |
| Acpi.XsdtRoundTrip | UefiLessonsPkg/AcpiInfo/AcpiInfo.c:54-66 | an XSDT of Length 36 + 8n holding n addresses is walked over exactly those addresses |
| Acpi.SignatureBytesAt | UefiLessonsPkg/AcpiInfo/AcpiInfo.c:58-62 | the four `%c` of a table's Signature are its first four bytes |
| Acpi.ListTables | UefiLessonsPkg/AcpiInfo/AcpiInfo.c:39-66 | after a good RSDP: the system-table lines, then the XSDT check and the table list |
| Acpi.Tables | UefiLessonsPkg/AcpiInfo/AcpiInfo.c:13-68 | the whole walk equals the AcpiTables definition |
| Acpi.NoAcpi | UefiLessonsPkg/AcpiInfo/AcpiInfo.c:22-25 | without an ACPI 2.0 entry the program prints "No ACPI2.0 table was found" and stops |
| Acpi.BadRsdp | UefiLessonsPkg/AcpiInfo/AcpiInfo.c:27-37 | a found RSDP not spelling "RSD PTR " prints the error line and stops |
| Acpi.XsdtOutcome | UefiLessonsPkg/AcpiInfo/AcpiInfo.c:39-66 | a bad XSDT stops after the system tables; a good one is followed by its table list |
| Acpi.GoodRsdp | UefiLessonsPkg/AcpiInfo/AcpiInfo.c:22-44 | a good RSDP goes on to the XSDT after the RSDP lines |
| Acpi.UefiMain | UefiLessonsPkg/AcpiInfo/AcpiInfo.c:6-69 | the report printed equals AcpiInfo of the configuration table and memory |
| Acpi.EntriesWrites | Lesson_28/UefiLessonsPkg/AcpiInfo/AcpiInfo.c:55-105 | the files a walk saves are those of its entries, in XSDT order |
| Acpi.FilesUpToExactly | Lesson_28/UefiLessonsPkg/AcpiInfo/AcpiInfo.c:55-105 | a file is saved exactly when some entry asks for it, at most one per entry |
| AcpiSave.NameBuffer | Lesson_28/UefiLessonsPkg/AcpiInfo/AcpiInfo.c:71-76 | TableName[5] holds the four widened Signature bytes and a NUL |
| AcpiSave.TableName | Lesson_28/UefiLessonsPkg/AcpiInfo/AcpiInfo.c:78-79 | "%s" of TableName is at most four characters and stops at the first NUL |
| AcpiSave.TableFileShape | Lesson_28/UefiLessonsPkg/AcpiInfo/AcpiInfo.c:82-91 | a saved file holds the whole table (Length bytes from its address) under "<signature>.aml", which fits FileName[9] |
| AcpiSave.StrCpyS | Lesson_28/UefiLessonsPkg/AcpiInfo/AcpiInfo.c:83 | StrCpyS copies the C string and its NUL to the front of FileName |
| AcpiSave.StrCatS | Lesson_28/UefiLessonsPkg/AcpiInfo/AcpiInfo.c:84 | StrCatS appends ".aml" to the C string in FileName |
| AcpiSave.NameTable | Lesson_28/UefiLessonsPkg/AcpiInfo/AcpiInfo.c:71-84 | the C strings in TableName and FileName are the name and the name + ".aml" |
| AcpiSave.SaveOne | Lesson_28/UefiLessonsPkg/AcpiInfo/AcpiInfo.c:69-102 | one entry: its line, then open/write/close with their error lines, as SaveTable defines |
| AcpiSave.UefiMain | Lesson_28/UefiLessonsPkg/AcpiInfo/AcpiInfo.c:9-106 | every way out returns EFI_SUCCESS; the text and the written files are those of AcpiSave |
| AcpiSave.Saved | Lesson_28/UefiLessonsPkg/AcpiInfo/AcpiInfo.c:86-101 | a table gives one file when its name opens and none otherwise |
| AcpiSave.SavedFiles | Lesson_28/UefiLessonsPkg/AcpiInfo/AcpiInfo.c:66-103 | the files written are exactly the tables whose file opened, at most one per XSDT entry |
| AcpiSave.NameWithoutNul | Lesson_28/UefiLessonsPkg/AcpiInfo/AcpiInfo.c:72-81 | with no NUL in the Signature, "%s" of TableName prints what AcpiInfo's four "%c" print |
| AcpiSave.NameWithNul | Lesson_28/UefiLessonsPkg/AcpiInfo/AcpiInfo.c:72-81 | a NUL inside the Signature makes "%s" stop early where "%c" would go on |
| AddNewLanguage.Added | Lessons/Lesson_55/UefiLessonsPkg/AddNewLanguage/AddNewLanguage.c:33-43 | the new value is the old codes, ";ru-RU" and a NUL, so its C string is the old codes followed by ";ru-RU" |
| AddNewLanguage.AddedTwice | Lessons/Lesson_55/UefiLessonsPkg/AddNewLanguage/AddNewLanguage.c:26-51 | nothing checks for an earlier ";ru-RU": a second run appends it again |
| AddNewLanguage.PolicyTail | Lessons/Lesson_55/UefiLessonsPkg/AddNewLanguage/AddNewLanguage.c:52-70 | after SetVariable (whose failure is only printed) the status is LocateProtocol's error, else DisableVariablePolicy's |
| AddNewLanguage.NewLanguageString | Lessons/Lesson_55/UefiLessonsPkg/AddNewLanguage/AddNewLanguage.c:33-41 | the two CopyMem calls fill a fresh buffer with exactly Added of the old codes |
| AddNewLanguage.UefiMain | Lessons/Lesson_55/UefiLessonsPkg/AddNewLanguage/AddNewLanguage.c:18-71 | per branch: a GetEfiGlobalVariable2 error is returned with nothing set; a refused allocation frees the old string and returns OUT_OF_RESOURCES; otherwise SetVariable gets BS+RT attributes, AsciiStrSize bytes and Added(codes), and the printed lines and status follow |
| BootVariables.NvramRead | Lesson_20/UefiLessonsPkg/ShowBootVariables/ShowBootVariables.c:12-41 | the intended read: success iff the variable is stored and the allocation succeeds; a missing variable, a refused allocation and a failing second read each give their status and line |
| BootVariables.NvramReadAsWritten | Lesson_20/UefiLessonsPkg/ShowBootVariables/ShowBootVariables.c:12-41 | the read as written: never OUT_OF_RESOURCES; a refused allocation reaches the second GetVariable with a NULL buffer and yields INVALID_PARAMETER silently |
| BootVariables.NullBufferCheck | Lesson_20/UefiLessonsPkg/ShowBootVariables/ShowBootVariables.c:26-30 | `!Buffer` tests the out-parameter, never NULL: the two reads differ exactly on a refused allocation |
| BootVariables.GetNvramVariable | Lesson_20/UefiLessonsPkg/ShowBootVariables/ShowBootVariables.c:12-41 | the status, buffer, size and printed text are those of NvramReadAsWritten |
| BootVariables.BeforeNul | Lesson_20/UefiLessonsPkg/ShowBootVariables/ShowBootVariables.c:52-55 | the description is the code units up to the first NUL |
| BootVariables.OptionLayout | Lesson_20/UefiLessonsPkg/ShowBootVariables/ShowBootVariables.c:51-57 | the description starts after the 6-byte EFI_LOAD_OPTION, ends at a NUL unit, and FilePathList follows StrSize(Description) bytes later |
| BootVariables.BootOptionShown | Lesson_20/UefiLessonsPkg/ShowBootVariables/ShowBootVariables.c:44-64 | a read option prints its description, and a device-path line exactly when FilePathListLength is not 0; a failed read prints "Can't get <name> variable" |
| BootVariables.PrintBootOption | Lesson_20/UefiLessonsPkg/ShowBootVariables/ShowBootVariables.c:44-64 | the printed text is BootOptionText of the option |
| BootVariables.BootName | Lesson_20/UefiLessonsPkg/ShowBootVariables/ShowBootVariables.c:82-83 | "Boot%04x" is eight characters starting "Boot" |
| BootVariables.BootNameRoundTrip | Lesson_20/UefiLessonsPkg/ShowBootVariables/ShowBootVariables.c:82-83 | the last four characters are hex digits that read back as the option number |
| BootVariables.MarkedIffCurrent | Lesson_20/UefiLessonsPkg/ShowBootVariables/ShowBootVariables.c:84 | "*" is printed exactly for the option equal to BootCurrent |
| BootVariables.EntriesInOrder | Lesson_20/UefiLessonsPkg/ShowBootVariables/ShowBootVariables.c:81-87 | the options are printed in BootOrder's order: the text of the first k entries begins the text of the first n |
| BootVariables.PrintEntries | Lesson_20/UefiLessonsPkg/ShowBootVariables/ShowBootVariables.c:81-87 | the loop over BootOrder prints name, mark, option and blank line per entry |
| BootVariables.PrintOrder | Lesson_20/UefiLessonsPkg/ShowBootVariables/ShowBootVariables.c:78-90 | a failed BootOrder read prints "Can't get BootOrder variable"; a successful one prints the entries of BootOrder, marking the one equal to BootCurrent's first UINT16 |
| BootVariables.ShellAppMain | Lesson_20/UefiLessonsPkg/ShowBootVariables/ShowBootVariables.c:67-93 | always returns EFI_SUCCESS, and the text is Listing of the variable store |
| CfgDecode.Nibble | Lessons_uncategorized/Lesson_Configuration_Language_5/UefiLessonsPkg/HIIConfig/HIIConfig.c:60-61 | a character that is not a hex digit reads as 0; a digit reads as its value |
| CfgDecode.DigitOf | Lessons_uncategorized/Lesson_Configuration_Language_5/UefiLessonsPkg/HIIConfig/HIIConfig.c:58-61 | `(UINT8)StrHexToUint64(TempStr)` on a one-character TempStr is the digit's Nibble |
| CfgDecode.HexBytes | Lessons_uncategorized/Lesson_Configuration_Language_5/UefiLessonsPkg/HIIConfig/HIIConfig.c:53-68 | the forward decoder yields (len+1)/2 bytes |
| CfgDecode.HexBytesReversed | Lessons_uncategorized/Lesson_Configuration_Language_5/UefiLessonsPkg/HIIConfig/HIIConfig.c:70-85 | the reversed decoder yields (len+1)/2 bytes |
| CfgDecode.ByteCfgStringToBuffer | Lessons_uncategorized/Lesson_Configuration_Language_5/UefiLessonsPkg/HIIConfig/HIIConfig.c:53-68 | the buffer holds HexBytes: byte k from digits 2k (high) and 2k+1 (low), an odd last digit alone |
| CfgDecode.ByteCfgStringToBufferReversed | Lessons_uncategorized/Lesson_Configuration_Language_5/UefiLessonsPkg/HIIConfig/HIIConfig.c:70-85 | the buffer holds HexBytesReversed: the digits taken from the right |
| CfgDecode.GuidFromCfgString | Lessons_uncategorized/Lesson_Configuration_Language_5/UefiLessonsPkg/HIIConfig/HIIConfig.c:87-94 | the payload is always decoded; success exactly for 31 or 32 digits (16 bytes), NOT_FOUND otherwise |
| CfgDecode.HexBytesOfHexText | Lessons_uncategorized/Lesson_Configuration_Language_5/UefiLessonsPkg/HIIConfig/HIIConfig.c:53-68 | decoding the "%02x" text of a buffer gives the buffer back |
| CfgDecode.ReversedIsReverse | Lessons_uncategorized/Lesson_Configuration_Language_5/UefiLessonsPkg/HIIConfig/HIIConfig.c:70-85 | for an even number of digits the reversed decoder gives the forward bytes back to front |
| CfgDecode.ReversedIsLittleEndian | Lessons_uncategorized/Lesson_Configuration_Language_5/UefiLessonsPkg/HIIConfig/HIIConfig.c:70-85 | the reversed bytes read little-endian are the hex number the digits spell |
| CfgDecode.ReversedDropsLastPair | Lessons_uncategorized/Lesson_Configuration_Language_5/UefiLessonsPkg/HIIConfig/HIIConfig.c:76-83 | byte 0 of the reversed decoding comes from the last two digits, the rest from the others |
| CfgDecode.StrnCpySWrites | Lessons_uncategorized/Lesson_Configuration_Language_5/UefiLessonsPkg/HIIConfig/HIIConfig.c:116 | StrnCpyS stores at most Length characters and a NUL, and no more than the source holds |
| CfgDecode.StrnCpyS | Lessons_uncategorized/Lesson_Configuration_Language_5/UefiLessonsPkg/HIIConfig/HIIConfig.c:116 | a copy within the limits stores the characters and a NUL and nothing beyond; a refused one changes nothing |
| CfgDecode.NameTempStrOverrun | Lessons_uncategorized/Lesson_Configuration_Language_5/UefiLessonsPkg/HIIConfig/HIIConfig.c:114-116 | TempStr[4] is passed with DestMax sizeof(TempStr) = 8, so four digits make StrnCpyS store 5 CHAR16 |
| CfgDecode.NameTempStrFits | Lessons_uncategorized/Lesson_Configuration_Language_5/UefiLessonsPkg/HIIConfig/HIIConfig.c:114-117 | with a 5-character TempStr and 5 as DestMax, the copy stores min(remaining, 4) digits and a NUL, within the buffer |
| CfgDecode.NameCharOf | Lessons_uncategorized/Lesson_Configuration_Language_5/UefiLessonsPkg/HIIConfig/HIIConfig.c:115-117 | character k of the name is StrHexToUint64 of the k-th group of four digits, cut to CHAR16 |
| CfgDecode.NameText | Lessons_uncategorized/Lesson_Configuration_Language_5/UefiLessonsPkg/HIIConfig/HIIConfig.c:111-120 | the NAME= text of a name has four digits per CHAR16 |
| CfgDecode.NameTextGroup | Lessons_uncategorized/Lesson_Configuration_Language_5/UefiLessonsPkg/HIIConfig/HIIConfig.c:111-120 | group k of the NAME= text is "%04x" of character k |
| CfgDecode.NameRoundTrip | Lessons_uncategorized/Lesson_Configuration_Language_5/UefiLessonsPkg/HIIConfig/HIIConfig.c:111-120 | decoding the NAME= text of a name gives the name back |
| CfgDecode.GroupValue | Lessons_uncategorized/Lesson_Configuration_Language_5/UefiLessonsPkg/HIIConfig/HIIConfig.c:117 | a group worth less than 0x10000 converts to its value |
| CfgDecode.NameRoundTripAt | Lessons_uncategorized/Lesson_Configuration_Language_5/UefiLessonsPkg/HIIConfig/HIIConfig.c:117 | decoding group k of a NAME= text gives character k |
| CfgDecode.NameChars | Lessons_uncategorized/Lesson_Configuration_Language_5/UefiLessonsPkg/HIIConfig/HIIConfig.c:115-118 | one CHAR16 per group of four digits, (len+3)/4 of them |
| CfgDecode.NameBuffer | Lessons_uncategorized/Lesson_Configuration_Language_5/UefiLessonsPkg/HIIConfig/HIIConfig.c:113-118 | the allocation holds Size CHAR16: the decoded characters, then zeros |
| CfgDecode.NameBufferTerminated | Lessons_uncategorized/Lesson_Configuration_Language_5/UefiLessonsPkg/HIIConfig/HIIConfig.c:113-118 | a payload of two or more digits leaves a NUL in the name; an empty one leaves no buffer to end in |
| CfgDecode.NameFromCfgString | Lessons_uncategorized/Lesson_Configuration_Language_5/UefiLessonsPkg/HIIConfig/HIIConfig.c:111-120 | the name buffer equals NameBuffer of the payload (with a 5-character TempStr) |
| CfgDecode.NameDigits | Lessons_uncategorized/Lesson_Configuration_Language_5/UefiLessonsPkg/HIIConfig/HIIConfig.c:115-117 | one step copies up to four digits into TempStr and converts them to character k |
| CfgDecode.DevicePathFromCfgString | Lessons_uncategorized/Lesson_Configuration_Language_5/UefiLessonsPkg/HIIConfig/HIIConfig.c:96-109 | the path bytes are HexBytes of the payload and the status is the node walk's: NOT_FOUND at a node with Type 0, SubType 0 or Length < 4 |
| CfgDecode.WalkPath | Lessons_uncategorized/Lesson_Configuration_Language_5/UefiLessonsPkg/HIIConfig/HIIConfig.c:101-106 | the node loop returns the status of the node walk from offset 0: SUCCESS at the end node, NOT_FOUND at the first node with Type 0, SubType 0 or Length < 4 |
| CfgDecode.EncodeNode | Lessons_uncategorized/Lesson_Configuration_Language_5/UefiLessonsPkg/HIIConfig/HIIConfig.c:102-105 | an encoded node is its data behind a 4-byte header |
| CfgDecode.PathShift | Lessons_uncategorized/Lesson_Configuration_Language_5/UefiLessonsPkg/HIIConfig/HIIConfig.c:102-105 | the node walk depends only on the bytes from where it starts |
| CfgDecode.EncodedPathStatus | Lessons_uncategorized/Lesson_Configuration_Language_5/UefiLessonsPkg/HIIConfig/HIIConfig.c:96-109 | a well-built path is accepted exactly when none of its nodes has a zero Type or SubType |
| CfgPrint.Cells | Lessons_uncategorized/Lesson_Configuration_Language_5/UefiLessonsPkg/HIIConfig/HIIConfig.c:20-22 | "%02x " per byte: three characters per byte |
| CfgPrint.Blanks | Lessons_uncategorized/Lesson_Configuration_Language_5/UefiLessonsPkg/HIIConfig/HIIConfig.c:35-40 | the padding of a short last row is three blanks per missing cell |
| CfgPrint.Shows | Lessons_uncategorized/Lesson_Configuration_Language_5/UefiLessonsPkg/HIIConfig/HIIConfig.c:25-29 | one character per byte: the byte when 0x20 <= b < 0x7E, else "." |
| CfgPrint.HexdumpSplit | Lessons_uncategorized/Lesson_Configuration_Language_5/UefiLessonsPkg/HIIConfig/HIIConfig.c:17-51 | the dump of a buffer is the dump of its first 16k bytes followed by the dump of the rest |
| CfgPrint.HexdumpRow | Lessons_uncategorized/Lesson_Configuration_Language_5/UefiLessonsPkg/HIIConfig/HIIConfig.c:17-51 | the dump up to i is the dump up to the row start plus that row |
| CfgPrint.CloseRow | Lessons_uncategorized/Lesson_Configuration_Language_5/UefiLessonsPkg/HIIConfig/HIIConfig.c:34-50 | padding, " \| ", the characters and a newline complete a short last row |
| CfgPrint.CloseFullRow | Lessons_uncategorized/Lesson_Configuration_Language_5/UefiLessonsPkg/HIIConfig/HIIConfig.c:23-31 | at every sixteenth byte " \| ", the characters and a newline complete the row |
| CfgPrint.RowEnd | Lessons_uncategorized/Lesson_Configuration_Language_5/UefiLessonsPkg/HIIConfig/HIIConfig.c:23 | with rows starting at multiples of 16, `!(i%16)` holds exactly where a row closes |
| CfgPrint.ShowChars | Lessons_uncategorized/Lesson_Configuration_Language_5/UefiLessonsPkg/HIIConfig/HIIConfig.c:25-29 | the character loop prints Shows of the row's bytes |
| CfgPrint.PadCells | Lessons_uncategorized/Lesson_Configuration_Language_5/UefiLessonsPkg/HIIConfig/HIIConfig.c:35-40 | the padding loop prints 16 - i%16 blank cells |
| CfgPrint.FinishRow | Lessons_uncategorized/Lesson_Configuration_Language_5/UefiLessonsPkg/HIIConfig/HIIConfig.c:34-50 | the end of a short last row is its RowTail |
| CfgPrint.PrintBuffer | Lessons_uncategorized/Lesson_Configuration_Language_5/UefiLessonsPkg/HIIConfig/HIIConfig.c:17-51 | the printed text is Hexdump of the buffer |
| CfgPrint.CellsAt | Lessons_uncategorized/Lesson_Configuration_Language_5/UefiLessonsPkg/HIIConfig/HIIConfig.c:21 | cell k of a row is "%02x" of byte k and a blank |
| CfgPrint.DumpRowShape | Lessons_uncategorized/Lesson_Configuration_Language_5/UefiLessonsPkg/HIIConfig/HIIConfig.c:17-51 | a row of n bytes prints 52 + n characters, " \| " at column 48, and cell k reads back to byte k |
| CfgPrint.PrintLongString | Lessons_uncategorized/Lesson_Configuration_Language_5/UefiLessonsPkg/HIIConfig/HIIConfig.c:122-139 | the text shown is LongText: whole when it fits PcdUefiLibMaxPrintBufferSize, else cut and ended with "<...>" |
| CfgPrint.LongTextFits | Lessons_uncategorized/Lesson_Configuration_Language_5/UefiLessonsPkg/HIIConfig/HIIConfig.c:122-139 | what is shown always fits Print's buffer; a long string keeps its first max-6 characters and ends "<...>" |
| CfgPrint.Pieces | Lessons_uncategorized/Lesson_Configuration_Language_5/UefiLessonsPkg/HIIConfig/HIIConfig.c:183-196 | there is always at least one '&'-separated piece |
| CfgPrint.PiecesJoin | Lessons_uncategorized/Lesson_Configuration_Language_5/UefiLessonsPkg/HIIConfig/HIIConfig.c:183-196 | joining the pieces back with '&' gives the string |
| CfgPrint.PiecesCount | Lessons_uncategorized/Lesson_Configuration_Language_5/UefiLessonsPkg/HIIConfig/HIIConfig.c:183-196 | there is one piece more than there are '&' |
| CfgPrint.PiecesNoAmp | Lessons_uncategorized/Lesson_Configuration_Language_5/UefiLessonsPkg/HIIConfig/HIIConfig.c:183-196 | no piece holds an '&' |
| CfgPrint.PiecesSingle | Lessons_uncategorized/Lesson_Configuration_Language_5/UefiLessonsPkg/HIIConfig/HIIConfig.c:183-196 | a string without '&' is one piece |
| CfgPrint.PiecesAppend | Lessons_uncategorized/Lesson_Configuration_Language_5/UefiLessonsPkg/HIIConfig/HIIConfig.c:183-196 | appending "&" and a piece without '&' adds exactly that piece |
| CfgPrint.NulAt | Lessons_uncategorized/Lesson_Configuration_Language_5/UefiLessonsPkg/HIIConfig/HIIConfig.c:188 | the loop stops at the first NUL |
| CfgPrint.PiecesStep | Lessons_uncategorized/Lesson_Configuration_Language_5/UefiLessonsPkg/HIIConfig/HIIConfig.c:188-194 | an '&' closes the current piece, any other character extends it |
| CfgPrint.PiecesGrow | Lessons_uncategorized/Lesson_Configuration_Language_5/UefiLessonsPkg/HIIConfig/HIIConfig.c:188-194 | the pieces of a prefix, but for the last, are the first pieces of the string |
| CfgPrint.PieceAt | Lessons_uncategorized/Lesson_Configuration_Language_5/UefiLessonsPkg/HIIConfig/HIIConfig.c:190-191 | the piece printed from StartIndex ends at the NUL written over the '&' |
| CfgPrint.Cut | Lessons_uncategorized/Lesson_Configuration_Language_5/UefiLessonsPkg/HIIConfig/HIIConfig.c:190 | overwriting the '&' before i with NUL keeps the length |
| CfgPrint.EmitPiece | Lessons_uncategorized/Lesson_Configuration_Language_5/UefiLessonsPkg/HIIConfig/HIIConfig.c:191 | printing the piece ending at a NUL adds its output |
| CfgPrint.SplitGuard | Lessons_uncategorized/Lesson_Configuration_Language_5/UefiLessonsPkg/HIIConfig/HIIConfig.c:188 | the loop reads the original character at i and stops exactly at the terminating NUL |
| CfgPrint.SplitKeep | Lessons_uncategorized/Lesson_Configuration_Language_5/UefiLessonsPkg/HIIConfig/HIIConfig.c:188-189 | an ordinary character keeps the loop state |
| CfgPrint.CutPiece | Lessons_uncategorized/Lesson_Configuration_Language_5/UefiLessonsPkg/HIIConfig/HIIConfig.c:189-193 | the '&' branch writes NUL over the '&', prints the piece from StartIndex and moves StartIndex past it |
| CfgPrint.SplitCut | Lessons_uncategorized/Lesson_Configuration_Language_5/UefiLessonsPkg/HIIConfig/HIIConfig.c:189-193 | cutting at the '&' closes and prints the piece from StartIndex |
| CfgPrint.PrintConfigString | Lessons_uncategorized/Lesson_Configuration_Language_5/UefiLessonsPkg/HIIConfig/HIIConfig.c:183-196 | the output is PrintConfigSubString of every '&'-piece in order, and the string is left with every '&' replaced by NUL |
| CfgPrint.SplitEnd | Lessons_uncategorized/Lesson_Configuration_Language_5/UefiLessonsPkg/HIIConfig/HIIConfig.c:195 | the last piece is printed at the NUL, completing the output of all pieces |
| DmpstoreDump.AsEfi | UefiLessonsPkg/UpdateDmpstoreDump/UpdateDmpstoreDump.c:54-84 | the EFI_STATUS a SHELL_STATUS code is named after: it is an error exactly when the loop did not end with success |
| DmpstoreDump.DumpFile.Read | UefiLessonsPkg/UpdateDmpstoreDump/UpdateDmpstoreDump.c:52-82 | ShellReadFile returns fewer bytes at the end of the file, and the position moves past what was read |
| DmpstoreDump.WrittenSize | UefiLessonsPkg/UpdateDmpstoreDump/UpdateDmpstoreDump.c:98-104 | the size ShellWriteFile hands back is at most the size asked for, and equals it exactly when the call wrote all of it |
| DmpstoreDump.DumpFile.Write | UefiLessonsPkg/UpdateDmpstoreDump/UpdateDmpstoreDump.c:98-104 | each ShellWriteFile call answers its own status and may write fewer bytes than asked, whatever the status; the bytes it did write replace those at the position (growing the file past its end), and the position moves past them |
| DmpstoreDump.ShortWrite | UefiLessonsPkg/UpdateDmpstoreDump/UpdateDmpstoreDump.c:104-108 | a CRC write that returns an EFI error or writes fewer than four bytes ends the loop with that write's status, which may be EFI_SUCCESS, and "Not all data was written" |
| DmpstoreDump.Chunk | UefiLessonsPkg/UpdateDmpstoreDump/UpdateDmpstoreDump.c:51-53 | a read of n bytes returns n exactly when they are all in the file, and returns the file's bytes |
| DmpstoreDump.Overwrite | UefiLessonsPkg/UpdateDmpstoreDump/UpdateDmpstoreDump.c:99-103 | the written bytes land at the position and no other byte changes |
| DmpstoreDump.CrcField | UefiLessonsPkg/UpdateDmpstoreDump/UpdateDmpstoreDump.c:91-103 | the field written is the four little-endian bytes of the record's CRC-32 |
| DmpstoreDump.SpansChain | UefiLessonsPkg/UpdateDmpstoreDump/UpdateDmpstoreDump.c:48-111 | the records the loop visits start at the position, follow one another with the CRC between them, and lie in the file |
| DmpstoreDump.StopPos | UefiLessonsPkg/UpdateDmpstoreDump/UpdateDmpstoreDump.c:48-111 | the loop stops at or after where it starts |
| DmpstoreDump.WalkEnds | UefiLessonsPkg/UpdateDmpstoreDump/UpdateDmpstoreDump.c:48-111 | while no CRC write fails or falls short, the loop prints nothing, ends with the status of where it stops, and the file grows only past its end |
| DmpstoreDump.EndsOnward | UefiLessonsPkg/UpdateDmpstoreDump/UpdateDmpstoreDump.c:98-111 | a round whose CRC write succeeds in full leaves the outcome WalkEnds states to the rest of the loop |
| DmpstoreDump.StoppedHere | UefiLessonsPkg/UpdateDmpstoreDump/UpdateDmpstoreDump.c:48-88 | past FileSize, or at a record that stops it, the loop ends there with the file unchanged and no failed write |
| DmpstoreDump.WalkKeepsBefore | UefiLessonsPkg/UpdateDmpstoreDump/UpdateDmpstoreDump.c:48-111 | the loop leaves the bytes before its start alone |
| DmpstoreDump.WalkKeepsRest | UefiLessonsPkg/UpdateDmpstoreDump/UpdateDmpstoreDump.c:48-111 | only CRC fields change: every other byte keeps its value |
| DmpstoreDump.FirstFailure | UefiLessonsPkg/UpdateDmpstoreDump/UpdateDmpstoreDump.c:98-108 | the record whose CRC write the loop does not accept is a whole record the loop reaches, and its write failed or fell short |
| DmpstoreDump.DoneSpans | UefiLessonsPkg/UpdateDmpstoreDump/UpdateDmpstoreDump.c:98-111 | the records whose CRC is written in full are the first records the loop meets, all of them when no write fails, and the failing record comes right after them |
| DmpstoreDump.WalkWritesCrcs | UefiLessonsPkg/UpdateDmpstoreDump/UpdateDmpstoreDump.c:68-109 | every record before the first failing write gets, right after its body, the CRC-32 of NameSize, DataSize and body, whatever the later writes answer |
| DmpstoreDump.WritesCrcsCons | UefiLessonsPkg/UpdateDmpstoreDump/UpdateDmpstoreDump.c:98-109 | a record whose CRC is in place joins the records before it |
| DmpstoreDump.WalkWriteFails | UefiLessonsPkg/UpdateDmpstoreDump/UpdateDmpstoreDump.c:98-108 | at the first CRC write that returns an EFI error or writes fewer than four bytes, the loop ends with that write's status and "Not all data was written"; the bytes it wrote are the first bytes of the record's CRC, and every later byte of the file is unchanged |
| DmpstoreDump.FailsOnward | UefiLessonsPkg/UpdateDmpstoreDump/UpdateDmpstoreDump.c:98-111 | a round whose CRC write succeeds in full keeps what WalkWriteFails states about a later failing write |
| DmpstoreDump.FailureOn | UefiLessonsPkg/UpdateDmpstoreDump/UpdateDmpstoreDump.c:98-111 | past a record whose CRC is written in full, the first failing write is further on |
| DmpstoreDump.FailedHere | UefiLessonsPkg/UpdateDmpstoreDump/UpdateDmpstoreDump.c:98-108 | a record whose CRC write fails or falls short is the first failure, and the loop ends there as WalkWriteFails states |
| DmpstoreDump.FailedEarlier | UefiLessonsPkg/UpdateDmpstoreDump/UpdateDmpstoreDump.c:98-109 | a CRC written in full before the failing record lies before the bytes WalkWriteFails keeps unchanged, so what it states of the later file holds of the earlier one |
| DmpstoreDump.ChunkFrom | UefiLessonsPkg/UpdateDmpstoreDump/UpdateDmpstoreDump.c:52-88 | reading where the file still holds its original bytes reads those |
| DmpstoreDump.OverwriteFrom | UefiLessonsPkg/UpdateDmpstoreDump/UpdateDmpstoreDump.c:99-109 | a write keeps the file's agreement with the original past the written bytes |
| DmpstoreDump.HeaderRead | UefiLessonsPkg/UpdateDmpstoreDump/UpdateDmpstoreDump.c:50-71 | NameSize and DataSize read as two UINT32 give the record's header and body end |
| DmpstoreDump.WalkHalts | UefiLessonsPkg/UpdateDmpstoreDump/UpdateDmpstoreDump.c:48-108 | the three ways the loop ends: past FileSize, a record that stops it, a CRC write that fails or falls short |
| DmpstoreDump.WalkRound | UefiLessonsPkg/UpdateDmpstoreDump/UpdateDmpstoreDump.c:48-111 | one round at a whole record whose CRC write succeeds in full writes the CRC and moves on to the next record |
| DmpstoreDump.WalkStep | UefiLessonsPkg/UpdateDmpstoreDump/UpdateDmpstoreDump.c:48-111 | a round that wrote the CRC hands the loop on to the next record |
| DmpstoreDump.ReadRecord | UefiLessonsPkg/UpdateDmpstoreDump/UpdateDmpstoreDump.c:50-88 | the reads stop with SHELL_VOLUME_CORRUPTED on a short read or SHELL_OUT_OF_RESOURCES on a refused buffer; otherwise the buffer holds the whole record but its CRC |
| DmpstoreDump.Round | UefiLessonsPkg/UpdateDmpstoreDump/UpdateDmpstoreDump.c:48-111 | one round: the stop status and an unchanged file; or, when the CRC write returns an EFI error or writes fewer than four bytes, that write's status with "Not all data was written" and only the bytes written; or the CRC written in full and the position past it |
| DmpstoreDump.UpdateCrcs | UefiLessonsPkg/UpdateDmpstoreDump/UpdateDmpstoreDump.c:47-111 | the loop's file, status and printed text are those of Walk over the original bytes |
| DmpstoreDump.WalkReport | UefiLessonsPkg/UpdateDmpstoreDump/UpdateDmpstoreDump.c:113-115 | as written: the "Error! %r" line follows the loop's text exactly when the loop ended with an EFI error, that is a failed write |
| DmpstoreDump.WalkReportIntended | UefiLessonsPkg/UpdateDmpstoreDump/UpdateDmpstoreDump.c:113-115 | as intended: every way the loop stops short of the file size is reported |
| DmpstoreDump.TruncatedSilent | UefiLessonsPkg/UpdateDmpstoreDump/UpdateDmpstoreDump.c:53-115 | a file shorter than a record header ends with SHELL_VOLUME_CORRUPTED and, as written, prints nothing; the intended report names the corruption |
| DmpstoreDump.ReportOnlyOnWrite | UefiLessonsPkg/UpdateDmpstoreDump/UpdateDmpstoreDump.c:104-115 | as written, "Error! %r" follows exactly when a CRC write returned an EFI error; a write that returns EFI_SUCCESS but writes fewer than four bytes prints only "Not all data was written" |
| DmpstoreDump.EndNotEfiError | UefiLessonsPkg/UpdateDmpstoreDump/UpdateDmpstoreDump.c:54-84 | the SHELL_STATUS codes a stopped loop ends with are never EFI errors |
| DmpstoreDump.ShellAppMain | UefiLessonsPkg/UpdateDmpstoreDump/UpdateDmpstoreDump.c:19-123 | a wrong argument count prints the usage and returns INVALID_PARAMETER; a failed open prints and returns its status; a failed size returns DEVICE_ERROR; otherwise the file holds the rewritten CRCs, the report and the close error are printed, and SUCCESS is returned |
| FfsFile.SectionTypeString | UefiLessonsPkg/FfsFile/FfsFile.c:61-97 | "UNKNOWN" exactly for the section types without a name |
| FfsFile.SectionTypeOfName | UefiLessonsPkg/FfsFile/FfsFile.c:301-336 | a <SectionType> argument selects a named section type, or none |
| FfsFile.SectionNamesRoundTrip | UefiLessonsPkg/FfsFile/FfsFile.c:61-336 | every section type can be asked for by the argument spelling of its printed name |
| FfsFile.SectionArgumentsRoundTrip | UefiLessonsPkg/FfsFile/FfsFile.c:61-336 | an accepted argument is the spelling of the name printed for the type it selects |
| FfsFile.FileTypeString | UefiLessonsPkg/FfsFile/FfsFile.c:100-142 | "UNKNOWN" for 0x00 and 0x10-0xBF, "OEM", "DEBUG", "FFS_PAD" and "FFS" for their ranges |
| FfsFile.FileTypeNamesDistinct | UefiLessonsPkg/FfsFile/FfsFile.c:100-142 | the fifteen defined file types get fifteen different names |
| FfsFile.Align4 | UefiLessonsPkg/FfsFile/FfsFile.c:220-221 | `if (i%4) i += 4-(i%4)` gives a multiple of 4 within 3 bytes |
| FfsFile.Align4Least | UefiLessonsPkg/FfsFile/FfsFile.c:220-221 | and the least one at or after the offset |
| FfsFile.SectionsLayout | UefiLessonsPkg/FfsFile/FfsFile.c:212-223 | the sections start at the walk's start, lie in the buffer at 4-byte offsets, each follows the previous one rounded up, and the last reaches the end |
| FfsFile.SectionsInside | UefiLessonsPkg/FfsFile/FfsFile.c:212-223 | every section lies in the buffer at a multiple of 4 |
| FfsFile.SectionsChain | UefiLessonsPkg/FfsFile/FfsFile.c:212-223 | each section starts where the previous one ends, rounded up to 4 |
| FfsFile.SectionsLast | UefiLessonsPkg/FfsFile/FfsFile.c:212-223 | the walk is empty exactly when it starts past the buffer, and ends past it |
| FfsFile.OffsetText | UefiLessonsPkg/FfsFile/FfsFile.c:20-21 | "0x%08x: " is twelve characters |
| FfsFile.Line | UefiLessonsPkg/FfsFile/FfsFile.c:20-27 | a row's offset and its "%02x" bytes with one blank between two |
| FfsFile.PrintBuffer | UefiLessonsPkg/FfsFile/FfsFile.c:15-58 | the printed text is Dump of the buffer |
| FfsFile.Finish | UefiLessonsPkg/FfsFile/FfsFile.c:40-57 | the padding, the characters of a short last row and the closing empty line complete the dump |
| FfsFile.RowTextOf | UefiLessonsPkg/FfsFile/FfsFile.c:40-56 | the pieces printed for a short last row make up its line |
| FfsFile.Cell | UefiLessonsPkg/FfsFile/FfsFile.c:19-23 | a new row starts with its offset, then the byte's two digits |
| FfsFile.PadRow | UefiLessonsPkg/FfsFile/FfsFile.c:41-44 | `while (i%16)` prints blanks up to the row end |
| FfsFile.RowEnd | UefiLessonsPkg/FfsFile/FfsFile.c:19-24 | inside a row, `i%16 == 0` holds exactly at its start or end |
| FfsFile.ShowChars | UefiLessonsPkg/FfsFile/FfsFile.c:30-54 | the characters of the row's existing bytes (0x20 < b < 0x7E, else ".") |
| FfsFile.RowStep | UefiLessonsPkg/FfsFile/FfsFile.c:19-27 | a byte extends the row: after the offset at a row start, after a blank otherwise |
| FfsFile.LastShort | UefiLessonsPkg/FfsFile/FfsFile.c:40-57 | a walk ending inside a row ends with that short row and an empty line |
| FfsFile.LastFull | UefiLessonsPkg/FfsFile/FfsFile.c:40-57 | a walk ending on a row boundary ends with the empty line |
| FfsFile.RowStart | UefiLessonsPkg/FfsFile/FfsFile.c:19 | the row holding position i starts at i - i%16 |
| FfsFile.RowShape | UefiLessonsPkg/FfsFile/FfsFile.c:15-58 | each line is 64 characters plus one per byte, "0x" and eight offset digits first, byte j's digits at column 12 + 3j |
| FfsFile.LineStart | UefiLessonsPkg/FfsFile/FfsFile.c:20-21 | a line starts with its offset text |
| FfsFile.LineAt | UefiLessonsPkg/FfsFile/FfsFile.c:22 | byte j's digits sit at column 12 + 3j |
| FfsFile.WalkSections | UefiLessonsPkg/FfsFile/FfsFile.c:212-223 | the section loop prints WalkText of the buffer |
| FfsFile.WalkStart | UefiLessonsPkg/FfsFile/FfsFile.c:212 | the walk starts at offset 0 with the first section, when there is one |
| FfsFile.WalkTurn | UefiLessonsPkg/FfsFile/FfsFile.c:213-222 | one turn prints section k and moves to the next section's offset, or past the end after the last |
| FfsFile.TurnAdvance | UefiLessonsPkg/FfsFile/FfsFile.c:218-222 | past section k to where section k + 1 starts |
| FfsFile.TurnSection | UefiLessonsPkg/FfsFile/FfsFile.c:214-215 | the header at i is read as section k: its 24-bit Size and its Type |
| FfsFile.TurnShow | UefiLessonsPkg/FfsFile/FfsFile.c:216-218 | section k's text is added to the text of those before it |
| FfsFile.TurnStart | UefiLessonsPkg/FfsFile/FfsFile.c:214-215 | the header at i lies in the buffer |
| FfsFile.TurnText | UefiLessonsPkg/FfsFile/FfsFile.c:216-218 | after section k the text covers one more section |
| FfsFile.TurnNext | UefiLessonsPkg/FfsFile/FfsFile.c:218-222 | the walk moves to the next section, or past the end after the last |
| FfsFile.NextSection | UefiLessonsPkg/FfsFile/FfsFile.c:218-221 | the next offset is Align4(i + size) |
| FfsFile.TextStep | UefiLessonsPkg/FfsFile/FfsFile.c:216-218 | the text of k + 1 sections extends the text of k |
| FfsFile.ShowSection | UefiLessonsPkg/FfsFile/FfsFile.c:216-218 | "Section <type>, size 0x%08x", "Data:" and the dump of the data after the header |
| FfsFile.WalkCovers | UefiLessonsPkg/FfsFile/FfsFile.c:212-223 | the sections of a non-empty file start at 0 and follow each other with gaps smaller than the alignment |
| FfsFile.ReadFile | UefiLessonsPkg/FfsFile/FfsFile.c:176-225 | the file's type, attributes, raw dump, and for a non-RAW file the parsed sections, as ReadFileRun defines |
| FfsFile.PrintFiles | UefiLessonsPkg/FfsFile/FfsFile.c:146-172 | the files GetNextFile returns are printed and the loop ends with success at its first failure |
| FfsFile.ReadSection | UefiLessonsPkg/FfsFile/FfsFile.c:229-257 | the section's heading, then its dump or the error line with ReadSection's status |
| FfsFile.ShellAppMain | UefiLessonsPkg/FfsFile/FfsFile.c:278-364 | the run is MainRun of the arguments and the volume |
| FfsFile.MainRefusals | UefiLessonsPkg/FfsFile/FfsFile.c:285-337 | a wrong argument count, an unreadable GUID and an unknown <SectionType> return INVALID_PARAMETER before the volume is looked for |
| FfsFile.MainStatus | UefiLessonsPkg/FfsFile/FfsFile.c:349-363 | one argument lists the files with success; two return ReadFile's status; four return ReadSection's |
| FormCallback.ActionToStr | UefiLessonsPkg/HIIFormCallbackDebug/HIIFormCallbackDebug.c:147-177 | a name other than "Unknown" exactly for the browser actions the switch lists, and that action's name |
| FormCallback.TypeToStr | UefiLessonsPkg/HIIFormCallbackDebug/HIIFormCallbackDebug.c:179-211 | the name of each EFI_IFR_TYPE_* code up to EFI_IFR_TYPE_REF, "Unknown" past it |
| FormCallback.ActionNamesDistinct | UefiLessonsPkg/HIIFormCallbackDebug/HIIFormCallbackDebug.c:147-177 | two actions with the same known name are the same action |
| FormCallback.TypeNamesDistinct | UefiLessonsPkg/HIIFormCallbackDebug/HIIFormCallbackDebug.c:179-211 | two types with the same known name are the same type |
| FormCallback.ValueText | UefiLessonsPkg/HIIFormCallbackDebug/HIIFormCallbackDebug.c:213-247 | "%d" of a 32- or 64-bit value starts with "-" exactly when its top bit is set; 8-, 16-bit and boolean values never do; string id 0 gives "NO STRING!"; types past STRING give "Unknown" |
| FormCallback.TimeLayout | UefiLessonsPkg/HIIFormCallbackDebug/HIIFormCallbackDebug.c:231-233 | "%02d:%02d:%02d" of fields below 100 is eight characters with colons at 2 and 5, each field reading back as its value |
| FormCallback.DateLayout | UefiLessonsPkg/HIIFormCallbackDebug/HIIFormCallbackDebug.c:234-236 | "%04d/%02d/%02d" is ten characters with slashes at 4 and 7, each field reading back as its value |
| FormCallback.DecTextBound | UefiLessonsPkg/HIIFormCallbackDebug/HIIFormCallbackDebug.c:232-235 | a value below 10^k has at most k decimal digits |
| FormCallback.PadDigits | UefiLessonsPkg/HIIFormCallbackDebug/HIIFormCallbackDebug.c:232-235 | "%0kd" of a value below 10^k is k digits that read back as the value |
| FormCallback.PadValue | UefiLessonsPkg/HIIFormCallbackDebug/HIIFormCallbackDebug.c:232-235 | zero padding keeps the value |
| FormCallback.ZerosThenDigits | UefiLessonsPkg/HIIFormCallbackDebug/HIIFormCallbackDebug.c:232-235 | zeros on the left do not change a decimal number |
| FormCallback.CallbackValueToStr | UefiLessonsPkg/HIIFormCallbackDebug/HIIFormCallbackDebug.c:213-300 | UnicodeSPrint keeps at most size/2 - 1 characters, and the whole value text when it fits |
| FormCallback.PopupText | UefiLessonsPkg/HIIFormCallbackDebug/HIIFormCallbackDebug.c:301-302 | the popup message cut to the 300-byte buffer: a prefix of the full message, all of it when it fits |
| FormCallback.QuestionIdShown | UefiLessonsPkg/HIIFormCallbackDebug/HIIFormCallbackDebug.c:302 | the question id sits in the message as four hex digits that read back as it |
| FormCallback.HiiPopupCallbackInfo | UefiLessonsPkg/HIIFormCallbackDebug/HIIFormCallbackDebug.c:285-317 | without the popup protocol only an error is logged; otherwise PopupText is shown and a failed CreatePopup is logged with its status |
| FormCallback.Callback | UefiLessonsPkg/HIIFormCallbackDebug/HIIFormCallbackDebug.c:349-365 | the popup is shown when the protocol is found, the debug log names a missing protocol or a failed CreatePopup, and EFI_UNSUPPORTED is always returned |
| VarstoreCallback.DebugCallbackValue | Lessons_uncategorized/Lesson_Varstore_5/UefiLessonsPkg/HIIFormDataElementsVarstore/HIIFormDataElementsVarstore.c:202-236 | the logged value ends in a newline; types past STRING log "Unknown", string id 0 logs "NO STRING!" |
| VarstoreCallback.Callback | Lessons_uncategorized/Lesson_Varstore_5/UefiLessonsPkg/HIIFormDataElementsVarstore/HIIFormDataElementsVarstore.c:238-254 | the log line starts "Callback: Action=<name>, QuestionId=0x", ends in a newline, and the callback returns EFI_UNSUPPORTED |
| VarstoreCallback.CallbackUnknownValue | Lessons_uncategorized/Lesson_Varstore_5/UefiLessonsPkg/HIIFormDataElementsVarstore/HIIFormDataElementsVarstore.c:238-254 | a value of a type past STRING is logged as ", Value=Unknown" |
| VarstoreCallback.CallbackNamesQuestion | Lessons_uncategorized/Lesson_Varstore_5/UefiLessonsPkg/HIIFormDataElementsVarstore/HIIFormDataElementsVarstore.c:238-254 | the log line reads back as the question id, for every action |
| HiiConfig.Classify | Lessons_uncategorized/Lesson_Configuration_Language_5/UefiLessonsPkg/HIIConfig/HIIConfig.c:146-180 | the branch of a piece is the first of GUID=, NAME=, PATH=, VALUE=, OFFSET=/WIDTH= found anywhere in it (StrStr), and a keyword branch implies the piece is long enough to hold it |
| HiiConfig.ClassifyKeyword | Lessons_uncategorized/Lesson_Configuration_Language_5/UefiLessonsPkg/HIIConfig/HIIConfig.c:146-180 | each piece of a <ConfigHdr> and <ConfigBody>, a keyword and a hex payload, takes its own branch |
| HiiConfig.ClassifyName | Lessons_uncategorized/Lesson_Configuration_Language_5/UefiLessonsPkg/HIIConfig/HIIConfig.c:155 | a NAME= piece with a hex payload takes the NAME branch |
| HiiConfig.ClassifyPath | Lessons_uncategorized/Lesson_Configuration_Language_5/UefiLessonsPkg/HIIConfig/HIIConfig.c:160 | a PATH= piece with a hex payload takes the PATH branch |
| HiiConfig.ClassifyValue | Lessons_uncategorized/Lesson_Configuration_Language_5/UefiLessonsPkg/HIIConfig/HIIConfig.c:168 | a VALUE= piece with a hex payload takes the VALUE branch |
| HiiConfig.ClassifyOffset | Lessons_uncategorized/Lesson_Configuration_Language_5/UefiLessonsPkg/HIIConfig/HIIConfig.c:176 | an OFFSET= piece takes the OFFSET/WIDTH branch |
| HiiConfig.ClassifyWidth | Lessons_uncategorized/Lesson_Configuration_Language_5/UefiLessonsPkg/HIIConfig/HIIConfig.c:176 | a WIDTH= piece takes the OFFSET/WIDTH branch |
| HiiConfig.NameShown | Lessons_uncategorized/Lesson_Configuration_Language_5/UefiLessonsPkg/HIIConfig/HIIConfig.c:156-158 | "%s" of the decoded name stops at its first zero, before the end of the payload |
| HiiConfig.GuidPiece | Lessons_uncategorized/Lesson_Configuration_Language_5/UefiLessonsPkg/HIIConfig/HIIConfig.c:146-154 | a GUID= piece carrying a GUID's bytes prints an empty line, then the piece and the GUID in "%g" form |
| HiiConfig.NamePiece | Lessons_uncategorized/Lesson_Configuration_Language_5/UefiLessonsPkg/HIIConfig/HIIConfig.c:155-159 | a NAME= piece carrying a name's "%04x" text prints the piece and the name |
| HiiConfig.NameShownOf | Lessons_uncategorized/Lesson_Configuration_Language_5/UefiLessonsPkg/HIIConfig/HIIConfig.c:155-159 | the name decoded from its own NAME= text and shown up to its first zero is the name |
| HiiConfig.NameString | Lessons_uncategorized/Lesson_Configuration_Language_5/UefiLessonsPkg/HIIConfig/HIIConfig.c:158 | the characters of a name, one per CHAR16 |
| HiiConfig.PathPiece | Lessons_uncategorized/Lesson_Configuration_Language_5/UefiLessonsPkg/HIIConfig/HIIConfig.c:160-167 | a PATH= piece prints the device-path text exactly when no node has Type or SubType 0, and the bare piece otherwise |
| HiiConfig.ValuePiece | Lessons_uncategorized/Lesson_Configuration_Language_5/UefiLessonsPkg/HIIConfig/HIIConfig.c:168-175 | a VALUE= piece prints the (possibly shortened) piece and the hexdump of its payload read from the right, which is the payload's number little-endian |
| HiiConfig.HdrLines | Lessons_uncategorized/Lesson_Configuration_Language_5/UefiLessonsPkg/HIIConfig/HIIConfig.c:141-196 | a <ConfigHdr> prints three lines: the GUID, the name and the device path, each decoded |
| HiiConfig.ThreePieces | Lessons_uncategorized/Lesson_Configuration_Language_5/UefiLessonsPkg/HIIConfig/HIIConfig.c:183-196 | the text of a three-piece string is the three pieces' texts |
| HiiConfig.HdrPieces | Lessons_uncategorized/Lesson_Configuration_Language_5/UefiLessonsPkg/HIIConfig/HIIConfig.c:183-221 | a header splits into its GUID=, NAME= and PATH= pieces |
| HiiConfig.ExtractRequest | Lessons_uncategorized/Lesson_Configuration_Language_5/UefiLessonsPkg/HIIConfig/HIIConfig.c:274-282 | extract with seven arguments sends the header with "&OFFSET=" and "&WIDTH=" appended |
| HiiConfig.RouteRequest | Lessons_uncategorized/Lesson_Configuration_Language_5/UefiLessonsPkg/HIIConfig/HIIConfig.c:336-344 | route with eight arguments also appends "&VALUE=" |
| HiiConfig.ExtractRequestPieces | Lessons_uncategorized/Lesson_Configuration_Language_5/UefiLessonsPkg/HIIConfig/HIIConfig.c:274-282 | a built extract request splits back into the header's pieces and one piece per argument |
| HiiConfig.RouteRequestPieces | Lessons_uncategorized/Lesson_Configuration_Language_5/UefiLessonsPkg/HIIConfig/HIIConfig.c:336-344 | a built route request splits back the same way, with the VALUE= piece last |
| HiiConfig.CreateCfgHeader | Lessons_uncategorized/Lesson_Configuration_Language_5/UefiLessonsPkg/HIIConfig/HIIConfig.c:198-223 | a header is built exactly when the GUID text converts and the device path leads to a driver handle |
| HiiConfig.RouteWarningsMeaning | Lessons_uncategorized/Lesson_Configuration_Language_5/UefiLessonsPkg/HIIConfig/HIIConfig.c:355-360 | no warning exactly when Progress reaches the end; Progress at the start prints "Part of string was unparsed"; Progress inside adds "IMPORTANT: part of the data was written!" |
| HiiConfig.ExtractCounts | Lessons_uncategorized/Lesson_Configuration_Language_5/UefiLessonsPkg/HIIConfig/HIIConfig.c:266-293 | extract sends a request exactly for 3 arguments, or for 5 or 7 with a header; other counts print "Wrong arguments" and the usage and return INVALID_PARAMETER |
| HiiConfig.RouteCounts | Lessons_uncategorized/Lesson_Configuration_Language_5/UefiLessonsPkg/HIIConfig/HIIConfig.c:328-354 | route sends a request exactly for 3 arguments, or 8 with a header; other counts are refused the same way |
| HiiConfig.OtherCommands | Lessons_uncategorized/Lesson_Configuration_Language_5/UefiLessonsPkg/HIIConfig/HIIConfig.c:252-373 | no arguments print the usage and succeed; an unknown command is refused like a wrong count |
| HiiConfig.SentRequests | Lessons_uncategorized/Lesson_Configuration_Language_5/UefiLessonsPkg/HIIConfig/HIIConfig.c:266-354 | the request sent is the argument itself, or the header with the offset, width (and value) pieces appended, never cut short |
| HiiConfig.ExtractSent | Lessons_uncategorized/Lesson_Configuration_Language_5/UefiLessonsPkg/HIIConfig/HIIConfig.c:266-293 | extract with three arguments sends the argument itself; with seven it sends the created header followed by "&OFFSET=" and "&WIDTH=" pieces |
| HiiConfig.RouteSent | Lessons_uncategorized/Lesson_Configuration_Language_5/UefiLessonsPkg/HIIConfig/HIIConfig.c:328-354 | route with three arguments sends the argument itself; with eight it sends the created header followed by the offset, width and value pieces |
| HiiKeyword.Classify | Lessons_uncategorized/Lesson_Configuration_Language_7/UefiLessonsPkg/HIIKeyword/HIIKeyword.c:122-144 | the branch of a piece is the first of NAMESPACE=, PATH=, VALUE= found anywhere in it, and a keyword branch implies the piece is long enough to hold it |
| HiiKeyword.ClassifyKeyword | Lessons_uncategorized/Lesson_Configuration_Language_7/UefiLessonsPkg/HIIKeyword/HIIKeyword.c:122-144 | a NAMESPACE=, PATH= or VALUE= piece takes its own branch |
| HiiKeyword.ValuePiece | Lessons_uncategorized/Lesson_Configuration_Language_7/UefiLessonsPkg/HIIKeyword/HIIKeyword.c:134-141 | a VALUE= piece prints the (possibly shortened) piece and the hexdump of its payload read from the right, which is the payload's number little-endian |
| HiiKeyword.NamespacePiece | Lessons_uncategorized/Lesson_Configuration_Language_7/UefiLessonsPkg/HIIKeyword/HIIKeyword.c:122-124 | a NAMESPACE= piece prints an empty line and then the piece |
| HiiKeyword.ProgressErrorStr | Lessons_uncategorized/Lesson_Configuration_Language_7/UefiLessonsPkg/HIIKeyword/HIIKeyword.c:162-178 | every message ends with a newline, and "Unknown error" is the message exactly for codes other than the five keyword-handler codes |
| HiiKeyword.ProgressErrorStrDistinct | Lessons_uncategorized/Lesson_Configuration_Language_7/UefiLessonsPkg/HIIKeyword/HIIKeyword.c:164-174 | the five known codes have five different messages |
| HiiKeyword.NullIfEmpty | Lessons_uncategorized/Lesson_Configuration_Language_7/UefiLessonsPkg/HIIKeyword/HIIKeyword.c:218-223 | an empty argument becomes NULL, any other is passed unchanged |
| HiiKeyword.ArgumentRules | Lessons_uncategorized/Lesson_Configuration_Language_7/UefiLessonsPkg/HIIKeyword/HIIKeyword.c:203-271 | get calls GetData exactly with 4 arguments and set calls SetData exactly with 3, an empty namespace or keyword is passed as NULL, and anything else prints "Wrong argument!" and the usage and returns INVALID_PARAMETER |
| HiiKeyword.ProgressErrReported | Lessons_uncategorized/Lesson_Configuration_Language_7/UefiLessonsPkg/HIIKeyword/HIIKeyword.c:235-262 | a non-zero ProgressErr always prints "Error! ProgressErr=" with its message |
| HiiFont.FontHeader | UefiLessonsPkg/HIIAddRussianFont/HIIAddRussianFont.c:26-35 | the length prefix and the Simple Fonts header take the first twelve bytes |
| HiiFont.FontPackage | UefiLessonsPkg/HIIAddRussianFont/HIIAddRussianFont.c:21-42 | the allocation is exactly PackageLen bytes: header, glyph arrays and the 4-byte prefix |
| HiiFont.CreateSimpleFontPkg | UefiLessonsPkg/HIIAddRussianFont/HIIAddRussianFont.c:21-42 | the fresh zeroed buffer, after the field stores and the two CopyMem calls, holds exactly the font package |
| HiiFont.HeaderWrites | UefiLessonsPkg/HIIAddRussianFont/HIIAddRussianFont.c:28-35 | the five header stores leave the header at the start of the buffer and the rest untouched |
| HiiFont.GlyphWrites | UefiLessonsPkg/HIIAddRussianFont/HIIAddRussianFont.c:37-39 | the two CopyMem calls, narrow glyphs first, fill the rest of the buffer exactly |
| HiiFont.ParseSimpleFont | UefiLessonsPkg/HIIAddRussianFont/HIIAddRussianFont.c:30-35 | a package is read only when its 24-bit Length is its size, its Type is Simple Fonts and the glyph arrays its counts describe fill it |
| HiiFont.SimpleFontPackage | UefiLessonsPkg/HIIAddRussianFont/HIIAddRussianFont.c:29-39 | the package behind the prefix is PackageLen - 4 bytes long |
| HiiFont.PrefixedPackage | UefiLessonsPkg/HIIAddRussianFont/HIIAddRussianFont.c:28-29 | the allocation is the UINT32 length prefix followed by the package |
| HiiFont.FontRoundTrip | UefiLessonsPkg/HIIAddRussianFont/HIIAddRussianFont.c:21-42 | reading back the package built from whole glyph arrays whose counts fit 16 bits and whose length fits 24 bits gives the same narrow and wide glyphs |
| HiiFont.ParseParts | UefiLessonsPkg/HIIAddRussianFont/HIIAddRussianFont.c:30-39 | a package laid out field by field as the function lays it out reads back to its glyph arrays |
| HiiFont.FontFields | UefiLessonsPkg/HIIAddRussianFont/HIIAddRussianFont.c:26-39 | every stored field reads back: PackageLen, Length = PackageLen - 4 cut to 24 bits, the type, both UINT16 counts and both glyph arrays in place |
| HiiPackages.PackageType | UefiLessonsPkg/ShowHII/ShowHII.c:14-45 | "UNKNOWN" is the name exactly of a type outside the thirteen named package types |
| HiiPackages.PackageTypeInjective | UefiLessonsPkg/ShowHII/ShowHII.c:16-43 | the thirteen named types have thirteen different names |
| HiiPackages.PackagesChain | UefiLessonsPkg/ShowHII/ShowHII.c:59-66 | the inner walk starts just after the list header, each package starts where the previous one ends, every visited package starts before the list's end and has the Length and Type of its header, and the walk goes on to the list's end |
| HiiPackages.ListsStop | UefiLessonsPkg/ShowHII/ShowHII.c:53-69 | the outer walk starts at the buffer and stops at its end or at a list whose PackageLength is 0 |
| HiiPackages.ListsEach | UefiLessonsPkg/ShowHII/ShowHII.c:53-57 | every list the walk visits has a non-zero PackageLength and the GUID of its header |
| HiiPackages.InnerEach | UefiLessonsPkg/ShowHII/ShowHII.c:59-61 | the packages of every visited list can be walked from just after its header to its end |
| HiiPackages.ListsAdjacent | UefiLessonsPkg/ShowHII/ShowHII.c:69 | each list starts where the previous one ends |
| HiiPackages.PackageNumbering | UefiLessonsPkg/ShowHII/ShowHII.c:60-62 | one "Package[j]" line per package, numbered 0, 1, ... in order, with its type name and length |
| HiiPackages.ListNumbering | UefiLessonsPkg/ShowHII/ShowHII.c:52-57 | the "PackageList[i]" lines are numbered 0, 1, ... once per visited list |
| HiiPackages.Range | UefiLessonsPkg/ShowHII/ShowHII.c:52-57 | the numbers i .. i + n - 1 in order |
| HiiPackages.PrintPackages | UefiLessonsPkg/ShowHII/ShowHII.c:59-66 | the inner loop prints exactly the package lines of the list |
| HiiPackages.ShowPackageLists | UefiLessonsPkg/ShowHII/ShowHII.c:47-71 | the two nested loops print, for each list the walk visits, its line followed by its packages' lines |
| HiiPackages.UefiMainOutcome | UefiLessonsPkg/ShowHII/ShowHII.c:80-126 | the lists are printed only when every protocol call succeeds; any failure prints a message and nothing else; a size probe that does not answer BUFFER_TOO_SMALL prints an error yet returns EFI_SUCCESS when the probe itself succeeded |
| HiiPackages.InsideEach | UefiLessonsPkg/ShowHIIext/ShowHIIext.c:103-104 | in save mode every list written lies inside the exported buffer |
| HiiPackages.SaveAll | UefiLessonsPkg/ShowHIIext/ShowHIIext.c:99-108 | with no index every visited list is written, in order, under its own number |
| HiiPackages.SaveOne | UefiLessonsPkg/ShowHIIext/ShowHIIext.c:100 | with an index only the list with that number is written, and nothing when the walk visits fewer lists |
| HiiPackages.FileNameWhole | UefiLessonsPkg/ShowHIIext/ShowHIIext.c:101-102 | a list numbered below 10000 is written to "%04d_%g": four digits, an underscore and the 36-character GUID |
| HiiPackages.SaveLists | UefiLessonsPkg/ShowHIIext/ShowHIIext.c:89-127 | the save-mode walk writes exactly the selected lists |
| HiiPackages.ShowHiiExt.constructor | UefiLessonsPkg/ShowHIIext/ShowHIIext.c:18-19 | the program starts with saving off and the index 0xFFFFFFFF, meaning every list |
| HiiPackages.ShowHiiExt.ParseHiiPackageLists | UefiLessonsPkg/ShowHIIext/ShowHIIext.c:89-127 | save mode prints nothing and writes the selected lists; otherwise it prints what ShowHII prints and writes nothing |
| HiiPackages.ShowHiiExt.ShellAppMain | UefiLessonsPkg/ShowHIIext/ShowHIIext.c:136-216 | refused arguments return INVALID_PARAMETER before any protocol call; otherwise the HII export runs as in ShowHII and then lists are printed or saved as the arguments chose |
| HiiPackages.ShowHiiExt.ParseArguments | UefiLessonsPkg/ShowHIIext/ShowHIIext.c:140-169 | the page break is on exactly when some argument is "-b"; arguments are accepted exactly when the scan accepts them, and then saving and the index are what the scan chose |
| HiiPackages.FindOptions | UefiLessonsPkg/ShowHIIext/ShowHIIext.c:140-149 | the option indices are the last "-b" and the last "-?", or Argc when absent |
| HiiPackages.LastAt | UefiLessonsPkg/ShowHIIext/ShowHIIext.c:142-149 | the result is Argc or a position holding the word, and no later position before the bound holds it |
| HiiPackages.ArgumentExamples | UefiLessonsPkg/ShowHIIext/ShowHIIext.c:151-169 | "-?" alone is accepted, "save" turns saving on for every list, "save N" selects list N when N is decimal and is refused otherwise, and a repeated "-b" leaves the first one as an unknown argument |
| HiiStrings.Block | UefiLessonsPkg/HIIStringsC/HIIStringsC.c:55-58 | a UCS2 block is one type byte, the string's CHAR16 characters and a CHAR16 NUL: sizeof(block) + 2·StrLen bytes |
| HiiStrings.Blocks | UefiLessonsPkg/HIIStringsC/HIIStringsC.c:53-59 | the blocks of the strings, one after another, take the sum of their sizes |
| HiiStrings.HeaderTail | UefiLessonsPkg/HIIStringsC/HIIStringsC.c:43-50 | the header after Length takes HdrSize - 3 bytes: Type, HdrSize, StringInfoOffset, the untouched LanguageWindow, LanguageName and the language |
| HiiStrings.StringPackage | UefiLessonsPkg/HIIStringsC/HIIStringsC.c:39-68 | the package is exactly the size InitStringPackage returns: the header, the blocks and the END block |
| HiiStrings.BlocksSnoc | UefiLessonsPkg/HIIStringsC/HIIStringsC.c:53-59 | one more string appends its block |
| HiiStrings.BlocksSplit | UefiLessonsPkg/HIIStringsC/HIIStringsC.c:53-59 | the blocks of a list are the blocks of its front followed by those of its back |
| HiiStrings.InitStringPackage | UefiLessonsPkg/HIIStringsC/HIIStringsC.c:39-68 | the returned size is header + blocks + END block, and the buffer holds the package there and is unchanged elsewhere |
| HiiStrings.WriteBlocks | UefiLessonsPkg/HIIStringsC/HIIStringsC.c:53-59 | the loop writes each string's block right after the one before and nothing else |
| HiiStrings.BlockWrite | UefiLessonsPkg/HIIStringsC/HIIStringsC.c:55-58 | one pass of the loop adds block i after the blocks before it |
| HiiStrings.PackageWrites | UefiLessonsPkg/HIIStringsC/HIIStringsC.c:43-65 | the header stores, the block loop, the END block and the final Length store make up the package |
| HiiStrings.PackageParts | UefiLessonsPkg/HIIStringsC/HIIStringsC.c:65 | the package is its 24-bit Length followed by the rest of what was written |
| HiiStrings.ReadUcs2 | UefiLessonsPkg/HIIStringsC/HIIStringsC.c:57 | a CHAR16 string read up to its NUL lies inside the bytes |
| HiiStrings.ReadUcs2Bytes | UefiLessonsPkg/HIIStringsC/HIIStringsC.c:57 | a string copied with its NUL reads back as itself |
| HiiStrings.ReadBlocksCons | UefiLessonsPkg/HIIStringsC/HIIStringsC.c:55-58 | a block followed by more reads as its string before the others |
| HiiStrings.ReadBlocksRoundTrip | UefiLessonsPkg/HIIStringsC/HIIStringsC.c:53-63 | the blocks and the END block read back as the strings, in order |
| HiiStrings.StringPackageFields | UefiLessonsPkg/HIIStringsC/HIIStringsC.c:43-67 | every field reads back: Length, Type STRINGS, HdrSize = StringInfoOffset = header size, LanguageName 1, the NUL-terminated language and, at StringInfoOffset, the strings |
| HiiStrings.HeaderFields | UefiLessonsPkg/HIIStringsC/HIIStringsC.c:43-65 | Length, Type, HdrSize, StringInfoOffset and LanguageName read back as stored |
| HiiStrings.BodyFields | UefiLessonsPkg/HIIStringsC/HIIStringsC.c:48-63 | the language and the strings read back as stored |
| HiiStrings.PackageList | UefiLessonsPkg/HIIStringsC/HIIStringsC.c:78-101 | the package list takes exactly the list header, both String packages and the END header |
| HiiStrings.BuildPackageList | UefiLessonsPkg/HIIStringsC/HIIStringsC.c:78-101 | the fresh 200-byte zeroed buffer holds the package list followed by zeros, and offset is its size |
| HiiStrings.WriteList | UefiLessonsPkg/HIIStringsC/HIIStringsC.c:80-101 | the writes of UefiMain turn a zeroed buffer into the package list followed by zeros |
| HiiStrings.ListWrites | UefiLessonsPkg/HIIStringsC/HIIStringsC.c:81-101 | the GUID, both packages, the END header and then PackageLength make up the package list |
| HiiStrings.ZeroWindows | UefiLessonsPkg/HIIStringsC/HIIStringsC.c:42-78 | the LanguageWindow of each package is still zero when it is skipped |
| HiiStrings.ListBytes | UefiLessonsPkg/HIIStringsC/HIIStringsC.c:80-101 | the same writes with the packages as byte strings lay them out one after another |
| HiiStrings.HeaderAt | UefiLessonsPkg/HIIStringsC/HIIStringsC.c:43-65 | a package header placed in a buffer reads back with its Length and Type |
| HiiStrings.StringPackageHeader | UefiLessonsPkg/HIIStringsC/HIIStringsC.c:43-65 | a package shorter than 2^24 bytes starts with its own size and the STRINGS type |
| HiiStrings.PackageListWalk | UefiLessonsPkg/HIIStringsC/HIIStringsC.c:78-101 | the list UefiMain builds is read by the ShowHII walk as one list with the GUID, whose packages are the two String packages and the END package |
| HiiStrings.ThreePackages | UefiLessonsPkg/HIIStringsC/HIIStringsC.c:88-99 | three package headers whose lengths fill the list are walked as three packages |
| HiiStrings.OneList | UefiLessonsPkg/HIIStringsC/HIIStringsC.c:80-101 | a buffer that is one package list whose PackageLength is its size is walked as that one list |
| MemoryMap.Lookup | Lesson_29/UefiLessonsPkg/MemoryInfo/MemoryInfo.c:49-56 | the intended lookup: the table's entry below its size and "Unknown" from there on |
| MemoryMap.LookupAsWrittenOffByOne | Lesson_29/UefiLessonsPkg/MemoryInfo/MemoryInfo.c:49-56 | the source's test type > 16 agrees with the intended lookup for every type but 16, and for 16 it reads past the table |
| MemoryMap.MemoryTypeNames | Lesson_29/UefiLessonsPkg/MemoryInfo/MemoryInfo.c:9-56 | each of the 16 types has its own name and every other type is "Unknown" |
| MemoryMap.OsViewClasses | Lesson_29/UefiLessonsPkg/MemoryInfo/MemoryInfo.c:29-65 | the OS view: types 1-4, 7, 14 and 15 are usable, 9 is ACPI data, 10 is ACPI NVS, 0, 5, 6, 8 and 11-13 are reserved, and the rest Unknown |
| MemoryMap.LastSpace | Lesson_29/UefiLessonsPkg/MemoryInfo/MemoryInfo.c:69-72 | the last space before a position, and no space after it |
| MemoryMap.AttrsWords | Lesson_29/UefiLessonsPkg/MemoryInfo/MemoryInfo.c:74-96 | the attribute text reads back as the names of exactly the set flags, in the order of the checks |
| MemoryMap.WordsStep | Lesson_29/UefiLessonsPkg/MemoryInfo/MemoryInfo.c:69-72 | one check appends its name exactly when its flag is set |
| MemoryMap.AttrsNone | Lesson_29/UefiLessonsPkg/MemoryInfo/MemoryInfo.c:74-96 | no flag set gives the empty string |
| MemoryMap.MaxValue | Lesson_29/UefiLessonsPkg/MemoryInfo/MemoryInfo.c:80-93 | all fourteen names with their spaces take 67 characters |
| MemoryMap.AttrsBoundUpTo | Lesson_29/UefiLessonsPkg/MemoryInfo/MemoryInfo.c:80-93 | the text after k checks is at most as long as all k names |
| MemoryMap.AttrsBound | Lesson_29/UefiLessonsPkg/MemoryInfo/MemoryInfo.c:74-96 | every attribute text is at most 67 characters |
| MemoryMap.AttrsOverflow | Lesson_29/UefiLessonsPkg/MemoryInfo/MemoryInfo.c:67-93 | all flags at once give the 67-character text, which does not fit ATTRIBUTE_STR_SIZE (50) |
| MemoryMap.AttrsGrow | Lesson_29/UefiLessonsPkg/MemoryInfo/MemoryInfo.c:80-93 | the text only grows check by check |
| MemoryMap.MemoryAttrsToStr | Lesson_29/UefiLessonsPkg/MemoryInfo/MemoryInfo.c:74-96 | the buffer holds the attribute text and a NUL, provided the text fits the buffer |
| MemoryMap.CheckAttribute | Lesson_29/UefiLessonsPkg/MemoryInfo/MemoryInfo.c:69-72 | one check copies " NAME" at position i and advances i by its length exactly when the flag is set |
| MemoryMap.StrCpy | Lesson_29/UefiLessonsPkg/MemoryInfo/MemoryInfo.c:70 | StrCpyS puts the characters and a NUL at the position |
| MemoryMap.Slot | Lesson_29/UefiLessonsPkg/MemoryInfo/MemoryInfo.c:165 | the walk's pointer is inside the map exactly for the descriptors counted |
| MemoryMap.Decode | Lesson_29/UefiLessonsPkg/MemoryInfo/MemoryInfo.c:162-171 | the map is read as MemoryMapSize / DescriptorSize descriptors, one every DescriptorSize bytes |
| MemoryMap.Prefix | Lesson_29/UefiLessonsPkg/MemoryInfo/MemoryInfo.c:162-171 | the first n descriptors |
| MemoryMap.PrefixAt | Lesson_29/UefiLessonsPkg/MemoryInfo/MemoryInfo.c:162-171 | the k-th of the first n descriptors is descriptor k |
| MemoryMap.OffsetIsProduct | Lesson_29/UefiLessonsPkg/MemoryInfo/MemoryInfo.c:171 | the k-th descriptor lies k·DescriptorSize bytes in |
| MemoryMap.At | Lesson_29/UefiLessonsPkg/MemoryInfo/MemoryInfo.c:165-171 | one DescriptorSize step moves the pointer to the next descriptor, and the pointer is inside the map exactly while descriptors remain |
| MemoryMap.Read | Lesson_29/UefiLessonsPkg/MemoryInfo/MemoryInfo.c:162-169 | the descriptor read at the pointer is the decoded one |
| MemoryMap.WalkFull | Lesson_11/UefiLessonsPkg/MemoryInfo/MemoryInfo.c:108-122 | the loop prints one "[#NN] Type ... Attr ..." and one "Phys ..." pair per descriptor, in order |
| MemoryMap.RunEnd | Lesson_29/UefiLessonsPkg/MemoryInfo/MemoryInfo.c:173-188 | the inner loop stops at a descriptor of the map at or after where it started |
| MemoryMap.RunMaximal | Lesson_29/UefiLessonsPkg/MemoryInfo/MemoryInfo.c:173-188 | a run is maximal: each descriptor continues the one before, contiguous and of the same OS view, and the next one does not |
| MemoryMap.RunCovered | Lesson_29/UefiLessonsPkg/MemoryInfo/MemoryInfo.c:175 | each descriptor of a run starts where the ones before it end, modulo 2^64 |
| MemoryMap.RunBytesSnoc | Lesson_29/UefiLessonsPkg/MemoryInfo/MemoryInfo.c:167-174 | one descriptor more adds its pages times 4096 |
| MemoryMap.RunLastSpan | Lesson_29/UefiLessonsPkg/MemoryInfo/MemoryInfo.c:198 | the intended end of a run is its start plus the sizes of all its descriptors, minus one |
| MemoryMap.RunLineAgrees | Lesson_29/UefiLessonsPkg/MemoryInfo/MemoryInfo.c:173-198 | the printed line and the intended one agree unless the run merges into the last descriptor of the map |
| MemoryMap.StaleSizeExample | Lesson_29/UefiLessonsPkg/MemoryInfo/MemoryInfo.c:173-198 | two contiguous conventional descriptors of 1 and 2 pages print the end 0x1fff where the run reaches 0x2fff |
| MemoryMap.LinesDiffer | Lesson_29/UefiLessonsPkg/MemoryInfo/MemoryInfo.c:198 | range lines with different ends differ |
| MemoryMap.Hex16Differs | Lesson_29/UefiLessonsPkg/MemoryInfo/MemoryInfo.c:198 | "%016llx" of different values differ |
| MemoryMap.MergedAgrees | Lesson_29/UefiLessonsPkg/MemoryInfo/MemoryInfo.c:165-203 | when the last two descriptors of the map do not merge, the printed ranges are the intended ones |
| MemoryMap.LastAgrees | Lesson_29/UefiLessonsPkg/MemoryInfo/MemoryInfo.c:173-198 | a run that does not merge into the last descriptor ends where it should |
| MemoryMap.MergedDiffers | Lesson_29/UefiLessonsPkg/MemoryInfo/MemoryInfo.c:165-203 | for the map of StaleSizeExample the printed text is not the intended one |
| MemoryMap.MergedLines | Lesson_29/UefiLessonsPkg/MemoryInfo/MemoryInfo.c:165-203 | the intended text is one line per maximal run, in order |
| MemoryMap.FollowRun | Lesson_29/UefiLessonsPkg/MemoryInfo/MemoryInfo.c:171-188 | the inner loop leaves desc at the run's last descriptor, next_desc after it, and mapping_size as the stale value the source computes |
| MemoryMap.WalkMerged | Lesson_29/UefiLessonsPkg/MemoryInfo/MemoryInfo.c:162-203 | the outer loop without "full" prints one line per run, with the end the stale mapping_size gives |
| MemoryMap.VisitRun | Lesson_29/UefiLessonsPkg/MemoryInfo/MemoryInfo.c:165-202 | one pass of the outer loop follows a run and appends its line |
| MemoryMap.MergedStep | Lesson_29/UefiLessonsPkg/MemoryInfo/MemoryInfo.c:165-202 | the text from a run on is its line followed by the text from the next run |
| MemoryMap.MapReportStatus | Lesson_29/UefiLessonsPkg/MemoryInfo/MemoryInfo.c:132-213 | the map is printed only when the probe answers BUFFER_TOO_SMALL and both later calls succeed; any failure returns an error, except a probe that succeeds, which prints its error line and returns EFI_SUCCESS |
| MemoryMap.MapCalls | Lesson_29/UefiLessonsPkg/MemoryInfo/MemoryInfo.c:132-211 | the map is walked exactly when the three calls behave, and otherwise the error line of the failing call is printed |
| MemoryMap.MemoryInfoMain11 | Lesson_11/UefiLessonsPkg/MemoryInfo/MemoryInfo.c:66-133 | Lesson 11 prints every descriptor in full after the two GetMemoryMap calls |
| MemoryMap.MemoryInfoMain29 | Lesson_29/UefiLessonsPkg/MemoryInfo/MemoryInfo.c:98-214 | Lesson 29 prints in full when the only argument is "full", and otherwise one line per run as the source computes it |
| PasswordForm.StringHash | UefiLessonsPkg/PasswordFormWithHash/PasswordFormWithHash.c:138-152 | hashing fails exactly when the Hash2 call fails, and otherwise yields HASHED_PASSWORD_SIZE bytes of the SHA-512 of the string's CHAR16 bytes |
| PasswordForm.PasswordInput | UefiLessonsPkg/PasswordFormWithHash/PasswordFormWithHash.c:154-196 | as written: an empty string asks whether a password exists, judged by the first stored byte; the first password is stored, the failing hash ignored, and the uninitialised Status returned; an unverified password is verified by comparing with the stored hash, the uninitialised TempHash standing in when hashing fails; a verified password is replaced and the verification cleared |
| PasswordForm.PasswordInputIntended | UefiLessonsPkg/PasswordFormWithHash/PasswordFormWithHash.c:154-196 | with every hash status checked, a failing hash is reported and changes nothing, and verification needs a hash equal to the stored one |
| PasswordForm.IntendedAgrees | UefiLessonsPkg/PasswordFormWithHash/PasswordFormWithHash.c:169-195 | when hashing succeeds and the uninitialised Status happens to be EFI_SUCCESS, the as-written and intended versions agree |
| PasswordForm.FailedHashVerifies | UefiLessonsPkg/PasswordFormWithHash/PasswordFormWithHash.c:178-186 | as written, a failing hash whose leftover TempHash equals the stored hash verifies any input; the intended version reports the failure |
| PasswordForm.ChangeNeedsVerify | UefiLessonsPkg/PasswordFormWithHash/PasswordFormWithHash.c:169-195 | the stored hash changes only when no password exists or the old one was verified, and verifying never changes it |
| PasswordForm.MismatchChangesNothing | UefiLessonsPkg/PasswordFormWithHash/PasswordFormWithHash.c:181-183 | a typed password whose hash differs from the stored one gets EFI_NOT_READY and changes nothing |
| PasswordForm.SetVerifyChange | UefiLessonsPkg/PasswordFormWithHash/PasswordFormWithHash.c:154-196 | setting a password, typing it again and then a new one stores the first hash, verifies it, stores the second and clears the verification, after which the browser is told a password exists |
| PasswordForm.ZeroFirstByteHides | UefiLessonsPkg/PasswordFormWithHash/PasswordFormWithHash.c:160-169 | a stored hash whose first byte is 0 reads as no password: the browser is told none exists and the next input replaces it unchecked |
| PasswordForm.PasswordStorage.constructor | UefiLessonsPkg/PasswordFormWithHash/PasswordFormWithHash.c:136 | the storage starts zeroed, so there is no password and nothing is verified |
| PasswordForm.PasswordStorage.HandlePasswordInput | UefiLessonsPkg/PasswordFormWithHash/PasswordFormWithHash.c:154-196 | the status and the new stored hash and verification flag are those of the as-written transition |
| PasswordForm.PasswordStorage.Callback | UefiLessonsPkg/PasswordFormWithHash/PasswordFormWithHash.c:202-224 | only a CHANGING action on the password question with a non-zero string id is handled, through HandlePasswordInput on the string it names; anything else returns EFI_UNSUPPORTED and changes nothing |
| PciAddress.Fields | Lessons/Lesson_31/UefiLessonsPkg/ListPCI/ListPCI.c:153 | bus, device and function shifted to bits 24, 16 and 8 stay below 2^32 and leave bits 0-7 clear |
| PciAddress.AddressFields | Lessons/Lesson_31/UefiLessonsPkg/ListPCI/ListPCI.c:148-160 | the address holds the function in bits 8-15, the device in 16-23, the bus in 24-31, and a register below 0x100 in bits 0-7 with nothing above bit 31, or a larger register in bits 32-63 with bits 0-7 zero |
| PciAddress.AddressRoundTrip | Lessons/Lesson_31/UefiLessonsPkg/ListPCI/ListPCI.c:148-160 | bus, device, function and register read back from the address |
| PciAddress.AddressInjective | Lessons/Lesson_31/UefiLessonsPkg/ListPCI/ListPCI.c:148-160 | two different registers never share an address |
| PciAddress.AddressOrder | Lessons/Lesson_31/UefiLessonsPkg/ListPCI/ListPCI.c:148-178 | with register 0, addresses grow with bus, then device, then function |
| PciAddress.FieldsOf | Lessons/Lesson_31/UefiLessonsPkg/ListPCI/ListPCI.c:153-157 | the three fields and a low register read back from their sum |
| PciAddress.HighPart | Lessons/Lesson_31/UefiLessonsPkg/ListPCI/ListPCI.c:155 | a register shifted to bit 32 leaves the low 32 bits alone |
| PciIds.Lower | Lessons/Lesson_31/UefiLessonsPkg/ListPCI/ListPCI.c:17-19 | a byte changes exactly when it is 'A'..'Z', and then by 32 to its lower-case letter |
| PciIds.LowerAll | Lessons/Lesson_31/UefiLessonsPkg/ListPCI/ListPCI.c:14-21 | lowering keeps the length |
| PciIds.LowerAllAt | Lessons/Lesson_31/UefiLessonsPkg/ListPCI/ListPCI.c:14-21 | each byte is lowered on its own: 'A'..'Z' become 'a'..'z' and nothing else changes |
| PciIds.LowerAllIdempotent | Lessons/Lesson_31/UefiLessonsPkg/ListPCI/ListPCI.c:14-21 | lowering twice is lowering once |
| PciIds.ToLowerASCII | Lessons/Lesson_31/UefiLessonsPkg/ListPCI/ListPCI.c:14-21 | the first Size bytes are lowered in place and the rest left alone, for sizes the UINT8 counter can reach |
| PciIds.LowerPrefix | Lessons/Lesson_31/UefiLessonsPkg/ListPCI/ListPCI.c:16-20 | a buffer lowered byte by byte below n is the lowered prefix followed by the rest |
| PciIds.HexBytesUpper | Lessons/Lesson_31/UefiLessonsPkg/ListPCI/ListPCI.c:60-69 | AsciiValueToStringS writes exactly the requested number of digits |
| PciIds.LowerHex | Lessons/Lesson_31/UefiLessonsPkg/ListPCI/ListPCI.c:60-71 | the lowered upper-case digits are the lower-case digits pci.ids uses |
| PciIds.IdString | Lessons/Lesson_31/UefiLessonsPkg/ListPCI/ListPCI.c:58-71 | VendorStr and DeviceStr hold the id's four lower-case hex digits and a NUL |
| PciIds.LineStart | Lessons/Lesson_31/UefiLessonsPkg/ListPCI/ListPCI.c:85-119 | StrStart is the last newline before the line's end, or 0, and no newline lies between |
| PciIds.FirstVendor | Lessons/Lesson_31/UefiLessonsPkg/ListPCI/ListPCI.c:88-102 | the first line ending at or after a position that is a vendor line of the id, and none before it |
| PciIds.FirstDevice | Lessons/Lesson_31/UefiLessonsPkg/ListPCI/ListPCI.c:104-117 | the first line ending at or after a position that is a tab-indented device line of the id, and none before it |
| PciIds.Scan | Lessons/Lesson_31/UefiLessonsPkg/ListPCI/ListPCI.c:87-121 | a device is found only after its vendor |
| PciIds.ScanBlock | Lessons/Lesson_31/UefiLessonsPkg/ListPCI/ListPCI.c:87-121 | the for loop over one block finds what Scan describes: the first vendor line of the id, then the first device line after it |
| PciIds.AtNewline | Lessons/Lesson_31/UefiLessonsPkg/ListPCI/ListPCI.c:88-119 | the line ending at each newline is tested for the vendor or, once the vendor is found, for the device, and a device ends the scan |
| PciIds.VendorAt | Lessons/Lesson_31/UefiLessonsPkg/ListPCI/ListPCI.c:90-102 | the vendor test on a line keeps the scan's invariant |
| PciIds.DeviceAt | Lessons/Lesson_31/UefiLessonsPkg/ListPCI/ListPCI.c:103-118 | the device test on a line keeps the invariant or completes what Scan finds |
| PciIds.DeviceFound | Lessons/Lesson_31/UefiLessonsPkg/ListPCI/ListPCI.c:106-115 | the first device line after the vendor's completes the scan with both names |
| PciIds.OtherByte | Lessons/Lesson_31/UefiLessonsPkg/ListPCI/ListPCI.c:87-88 | a byte other than a newline ends no line |
| PciIds.ScanEnd | Lessons/Lesson_31/UefiLessonsPkg/ListPCI/ListPCI.c:87-121 | at the end of the block without a device, the scan has found what Scan describes |
| PciIds.NoVendorBefore | Lessons/Lesson_31/UefiLessonsPkg/ListPCI/ListPCI.c:88-102 | with no vendor line in a stretch, the first one is after it |
| PciIds.NoDeviceBefore | Lessons/Lesson_31/UefiLessonsPkg/ListPCI/ListPCI.c:104-117 | with no device line in a stretch, the first one is after it |
| PciIds.DescText | Lessons/Lesson_31/UefiLessonsPkg/ListPCI/ListPCI.c:99-141 | a description is the name as UnicodeSPrint stores it in DescBufferSize, or "Undefined" |
| PciIds.FindPCIDevDescription | Lessons/Lesson_31/UefiLessonsPkg/ListPCI/ListPCI.c:23-145 | an error status comes back exactly when pci.ids is missing or cannot be opened, sized or read, and then its error line is printed and the names are "Undefined"; names fit the 200-byte buffers |
| PciIds.LookupNames | Lessons/Lesson_31/UefiLessonsPkg/ListPCI/ListPCI.c:87-141 | a file read without error names the vendor and the device exactly as the scan finds them, and "Undefined" for what it does not find |
| PciIds.ScanFinds | Lessons/Lesson_31/UefiLessonsPkg/ListPCI/ListPCI.c:87-121 | the vendor is found exactly when some line is the vendor's, and the device exactly when a device line follows a vendor line |
| PciScan.Walked | Lessons/Lesson_31/UefiLessonsPkg/ListPCI/ListPCI.c:174-217 | the descriptors walked are those before the first end tag, in order |
| PciScan.DeviceProbes | Lessons/Lesson_31/UefiLessonsPkg/ListPCI/ListPCI.c:178 | one probe per function of a device |
| PciScan.BusProbes | Lessons/Lesson_31/UefiLessonsPkg/ListPCI/ListPCI.c:177-178 | eight probes per device of a bus |
| PciScan.RangeProbes | Lessons/Lesson_31/UefiLessonsPkg/ListPCI/ListPCI.c:176-178 | 256 probes per bus of the range |
| PciScan.RangeProbeAt | Lessons/Lesson_31/UefiLessonsPkg/ListPCI/ListPCI.c:176-179 | probe k of a range is bus lo + k/256, device k mod 256 / 8, function k mod 8, register 0 |
| PciScan.BusProbeAt | Lessons/Lesson_31/UefiLessonsPkg/ListPCI/ListPCI.c:177-179 | probe k of a bus is device k/8, function k mod 8 |
| PciScan.DeviceProbeAt | Lesson_30/UefiLessonsPkg/ListPCI/ListPCI.c:39-40 | probe f of a device is function f |
| PciScan.RangeProbesCover | Lessons/Lesson_31/UefiLessonsPkg/ListPCI/ListPCI.c:176-179 | every function of every device of every bus in the range is probed |
| PciScan.RangeProbesOrdered | Lessons/Lesson_31/UefiLessonsPkg/ListPCI/ListPCI.c:176-179 | later probes have higher configuration addresses |
| PciScan.ProbeReport | Lessons/Lesson_31/UefiLessonsPkg/ListPCI/ListPCI.c:181-212 | a failed read reports its status, an absent function (VendorId 0xFFFF) prints nothing, and Lesson 30 passes the read's status on |
| PciScan.ListedFunctions | Lesson_30/UefiLessonsPkg/ListPCI/ListPCI.c:49-60 | a line is printed exactly for a failed read or a present function, and the status is an error exactly when the read failed or, in Lesson 31, pci.ids could not be used for a present function |
| PciScan.ScanTextAppend | Lessons/Lesson_31/UefiLessonsPkg/ListPCI/ListPCI.c:176-215 | the text of two runs of probes is the text of each, in order |
| PciScan.ScanAppend | Lessons/Lesson_31/UefiLessonsPkg/ListPCI/ListPCI.c:176-215 | text and status of two runs of probes compose |
| PciScan.ScanDevice | Lessons/Lesson_31/UefiLessonsPkg/ListPCI/ListPCI.c:178-213 | the Func loop prints and returns what the probes of the device give |
| PciScan.ScanBus | Lessons/Lesson_31/UefiLessonsPkg/ListPCI/ListPCI.c:177-214 | the Device loop prints and returns what the probes of the bus give |
| PciScan.BusStep | Lessons/Lesson_31/UefiLessonsPkg/ListPCI/ListPCI.c:177 | one more device's probes follow those of the devices before |
| PciScan.ScanRange | Lessons/Lesson_31/UefiLessonsPkg/ListPCI/ListPCI.c:176-215 | the Bus loop prints and returns what the probes of the range give, for a range whose AddrRangeMax the UINT8 counter can pass |
| PciScan.RangeStep | Lessons/Lesson_31/UefiLessonsPkg/ListPCI/ListPCI.c:176 | one more bus's probes follow those of the buses before |
| PciScan.WalkStep | Lessons/Lesson_31/UefiLessonsPkg/ListPCI/ListPCI.c:174-218 | one more descriptor's probes follow those of the descriptors before |
| PciScan.WalkBridge | Lessons/Lesson_31/UefiLessonsPkg/ListPCI/ListPCI.c:163-220 | PrintRootBridge: a failed Configuration call prints its error and returns it; otherwise every bus descriptor before the end tag is scanned |
| PciScan.RunStatus | Lessons/Lesson_31/UefiLessonsPkg/ListPCI/ListPCI.c:246-267 | the run fails exactly when a handle cannot be opened; a bridge whose printing fails does not change the status returned |
| PciScan.BridgeTurn | Lessons/Lesson_31/UefiLessonsPkg/ListPCI/ListPCI.c:259-263 | one opened bridge prints its header and its scan, and "Error in PCI Root Bridge printing" when that fails |
| PciScan.OpenFailure | Lesson_30/UefiLessonsPkg/ListPCI/ListPCI.c:94-106 | a handle that cannot be opened ends the run with its status |
| PciScan.VisitBridges | Lessons/Lesson_31/UefiLessonsPkg/ListPCI/ListPCI.c:228-268 | UefiMain prints the handle count and then each bridge, or the locate error |
| PciScan.RunBridges | Lessons/Lesson_31/UefiLessonsPkg/ListPCI/ListPCI.c:246-264 | the handle loop gives the text and status of the run of bridges |
| PciRom.PcirAt | Lesson_32/UefiLessonsPkg/DumpPCIroms/DumpPCIroms.c:221-228 | the PCI data structure is read with its four signature bytes |
| PciRom.PcirRejectedIff | Lesson_32/UefiLessonsPkg/DumpPCIroms/DumpPCIroms.c:222-228 | the intended check refuses exactly the signatures that differ from "PCIR" in some byte |
| PciRom.PcirAsWrittenAccepts | Lesson_32/UefiLessonsPkg/DumpPCIroms/DumpPCIroms.c:222-228 | the check as written, four inequalities joined by &&, refuses only what the intended one refuses, and lets "PCIX" and "XXXR" through |
| PciRom.CodeTypeName | Lesson_32/UefiLessonsPkg/DumpPCIroms/DumpPCIroms.c:232-249 | "Unknown" is printed exactly for a CodeType above 3 |
| PciRom.SubsystemName | Lesson_32/UefiLessonsPkg/DumpPCIroms/DumpPCIroms.c:253-270 | "Unknown" is printed exactly for a subsystem outside 10-13 |
| PciRom.MachineName | Lesson_32/UefiLessonsPkg/DumpPCIroms/DumpPCIroms.c:271-303 | "Unknown" is printed exactly for a machine type outside the nine known ones |
| PciRom.MachineNamesDistinct | Lesson_32/UefiLessonsPkg/DumpPCIroms/DumpPCIroms.c:272-300 | the nine known machine types have nine different names |
| PciRom.CompressionName | Lesson_32/UefiLessonsPkg/DumpPCIroms/DumpPCIroms.c:304-314 | "Unknown compression type" is printed exactly for a CompressionType above 1 |
| PciRom.ImageStep | Lesson_32/UefiLessonsPkg/DumpPCIroms/DumpPCIroms.c:215-323 | one pass of the image loop either stops or moves forward to an image that can be read, and always prints at least as much as the closing line |
| PciRom.PcixImagePrinted | Lesson_32/UefiLessonsPkg/DumpPCIroms/DumpPCIroms.c:222-229 | as written, an image whose data structure is signed "PCIX" is printed as a code image, although the intended check refuses it |
| PciRom.ClosingLine | Lesson_32/UefiLessonsPkg/DumpPCIroms/DumpPCIroms.c:215-325 | the closing line is printed exactly when the walk reaches the image whose Indicator marks it last; a signature error ends the walk without it |
| PciRom.StepEnds | Lesson_32/UefiLessonsPkg/DumpPCIroms/DumpPCIroms.c:215-325 | the walk's text is the first image's text followed by the rest, and the closing line comes at the end exactly when the accepted image was the last |
| PciRom.WalkRom | Lesson_32/UefiLessonsPkg/DumpPCIroms/DumpPCIroms.c:214-325 | the loop prints exactly the text of the image walk from the first image |
| PciRom.PrintPCI | Lesson_32/UefiLessonsPkg/DumpPCIroms/DumpPCIroms.c:164-328 | a failed location or configuration read returns its status; otherwise the status is the pci.ids lookup's, or the configuration read's when there is no option ROM |
| PciRom.PrintPci | Lesson_32/UefiLessonsPkg/DumpPCIroms/DumpPCIroms.c:164-328 | PrintPCI with its image loop prints and returns what PrintPCI describes |
| PciRom.RunStatus | Lesson_32/UefiLessonsPkg/DumpPCIroms/DumpPCIroms.c:354-375 | the run fails exactly when a handle cannot be opened; a device whose printing fails does not change the status returned |
| PciRom.HandleTurn | Lesson_32/UefiLessonsPkg/DumpPCIroms/DumpPCIroms.c:367-370 | one opened device prints its text, and "Error in PCI printing" when that fails |
| PciRom.OpenFailure | Lesson_32/UefiLessonsPkg/DumpPCIroms/DumpPCIroms.c:363-366 | a handle that cannot be opened ends the run with its status |
| PciRom.DumpPciRoms | Lesson_32/UefiLessonsPkg/DumpPCIroms/DumpPCIroms.c:332-376 | UefiMain prints each device in turn, or the locate error |
| ReplaceGuids.Upper | scripts/replace_guids.py:32 | upper() keeps the length, leaves no lower-case letter, and changes exactly the lower-case letters |
| ReplaceGuids.Split | scripts/replace_guids.py:30 | split(" ") gives one piece more than there are spaces, none holding a space |
| ReplaceGuids.SplitJoin | scripts/replace_guids.py:30 | the pieces joined by single spaces give the line back |
| ReplaceGuids.DropLast | scripts/replace_guids.py:32 | [:-1] drops exactly the last character, and leaves "" as it is |
| ReplaceGuids.ReplaceAbsent | scripts/replace_guids.py:49 | a key that does not occur leaves the text alone |
| ReplaceGuids.ReplaceSelf | scripts/replace_guids.py:49 | replacing a key by itself changes nothing |
| ReplaceGuids.Lines | scripts/replace_guids.py:29 | the lines of a file are empty exactly when the file is |
| ReplaceGuids.LinesRoundTrip | scripts/replace_guids.py:29 | the lines put back together give the file; each holds a newline only at its end and only the last may lack one |
| ReplaceGuids.ParseLine | scripts/replace_guids.py:30-32 | a line yields an entry exactly when it holds one space: the key upper-cased and the name without its last character |
| ReplaceGuids.LineEntry | scripts/replace_guids.py:30-32 | "key name" yields the upper-cased key and the name minus its last character, and nothing else |
| ReplaceGuids.SplitTwo | scripts/replace_guids.py:30-31 | a line with one space splits into the two pieces around it |
| ReplaceGuids.SplitAtSpace | scripts/replace_guids.py:30 | two space-free pieces around one space are those pieces |
| ReplaceGuids.ParseLineIntended | scripts/replace_guids.py:30-32 | the intended parse drops only a final newline, and agrees with the script on every line that ends in one |
| ReplaceGuids.LastLineCut | scripts/replace_guids.py:32 | a last line "ab Name" without a newline gives the name "Nam" as written, and "Name" as intended |
| ReplaceGuids.Get | scripts/replace_guids.py:32-48 | a key is found exactly when the dictionary holds it |
| ReplaceGuids.Put | scripts/replace_guids.py:32 | assignment gives the key its new name and leaves every other key alone; an existing key keeps its place and a new one goes last |
| ReplaceGuids.PutDistinct | scripts/replace_guids.py:32 | assignment never duplicates a key |
| ReplaceGuids.LoadedDistinct | scripts/replace_guids.py:28-39 | the dictionary holds each key once, however often the lines repeat it |
| ReplaceGuids.LaterWins | scripts/replace_guids.py:34-39 | a later file overrides: a key it defines takes the name it gives last, and any other key keeps its name |
| ReplaceGuids.OrderKept | scripts/replace_guids.py:34-39 | reading more lines keeps the keys already there in their order |
| ReplaceGuids.KeysUpper | scripts/replace_guids.py:32-39 | every key of the dictionary is upper-case |
| ReplaceGuids.PutUpper | scripts/replace_guids.py:32 | assigning an upper-case key keeps every key upper-case |
| ReplaceGuids.LoadGuids | scripts/replace_guids.py:28-32 | the loop over one xref file adds the entries of its lines, in order, to the dictionary |
| ReplaceGuids.ReplaceLoop | scripts/replace_guids.py:48-49 | the loop replaces every key by its name, one key at a time in insertion order |
| ReplaceGuids.LowerCaseKept | scripts/replace_guids.py:32-49 | a log without upper-case letters is left as it is when every key holds a letter |
| ReplaceGuids.Files.constructor | scripts/replace_guids.py:28 | the file system as given |
| ReplaceGuids.Files.Read | scripts/replace_guids.py:28-46 | reading gives a file's text, or nothing when it does not exist |
| ReplaceGuids.Files.CopyFile | scripts/replace_guids.py:41-42 | copyfile makes the destination a copy of the source and changes nothing else |
| ReplaceGuids.Files.Write | scripts/replace_guids.py:51-53 | writing replaces the file's text and changes nothing else |
| ReplaceGuids.RunScript | scripts/replace_guids.py:17-53 | the script stops having changed nothing when a file it reads is missing; otherwise the output file, the input itself without -o, holds the log with every GUID replaced, and nothing else changes |
| ReplaceGuids.OutputChoice | scripts/replace_guids.py:21-42 | with -o naming another file the input log is left as it was; without -o it is rewritten in place |
| ReplaceGuids.ExtraOverrides | scripts/replace_guids.py:26-39 | the extra file wins: a key it defines takes its name, any other key keeps the base file's name, and the base file's keys come first in their order |
| SaveBgrt.BgrtSignature | Lessons/Lesson_29/UefiLessonsPkg/SaveBGRT/SaveBGRT.c:80-83 | the signature test compares the table's first four bytes with "BGRT" |
| SaveBgrt.FirstBgrt | Lessons/Lesson_29/UefiLessonsPkg/SaveBGRT/SaveBGRT.c:71-88 | the search stops at a BGRT among the tables GetAcpiTable returns |
| SaveBgrt.FirstBgrtIsFirst | Lessons/Lesson_29/UefiLessonsPkg/SaveBGRT/SaveBGRT.c:71-88 | the search selects the first BGRT, and finds none exactly when there is none |
| SaveBgrt.FindBgrt | Lessons/Lesson_29/UefiLessonsPkg/SaveBGRT/SaveBGRT.c:66-88 | the Index loop breaks at the first BGRT, or ends without one at the first failing GetAcpiTable |
| SaveBgrt.WriteFile | Lessons/Lesson_29/UefiLessonsPkg/SaveBGRT/SaveBGRT.c:14-47 | the write helper prints and returns what WriteFileRun describes |
| SaveBgrt.WriteFileStatus | Lessons/Lesson_29/UefiLessonsPkg/SaveBGRT/SaveBGRT.c:14-47 | a file that does not open returns the open error and writes nothing; once it opened, the data is written and the status is the close's: a failed or short write is printed but not returned |
| SaveBgrt.SaveFound | Lessons/Lesson_29/UefiLessonsPkg/SaveBGRT/SaveBGRT.c:94-108 | the BGRT's image is checked and saved as SaveImage describes |
| SaveBgrt.UefiMain | Lessons/Lesson_29/UefiLessonsPkg/SaveBGRT/SaveBGRT.c:51-110 | the program prints, writes and returns what SaveBgrtRun describes |
| SaveBgrt.SavedImage | Lessons/Lesson_29/UefiLessonsPkg/SaveBGRT/SaveBGRT.c:89-108 | at most one file is written, BGRT.bmp with the size the BMP header gives, and exactly when the protocol is there, a BGRT exists, its image type is 0, the image starts with "BM" and the file opens |
| SaveBgrt.FailedWriteReturnsSuccess | Lessons/Lesson_29/UefiLessonsPkg/SaveBGRT/SaveBGRT.c:26-107 | a write that fails while the close succeeds prints "Can't write file" and returns EFI_SUCCESS, so "Can't write BGRT.bmp file" is not printed |
| SaveBgrt.SaveBgrtStatus | Lessons/Lesson_29/UefiLessonsPkg/SaveBGRT/SaveBGRT.c:62-109 | the program returns the locate error, EFI_UNSUPPORTED without a BGRT, and otherwise what the first BGRT's image gives |
| SetVariableExample.Requested | Lessons/Lesson_60/UefiLessonsPkg/SetVariableExample/SetVariableExample.c:49-65 | the attributes hold NON_VOLATILE, BOOTSERVICE_ACCESS and RUNTIME_ACCESS exactly when 'n', 'b' and 'r' occur, however often, and no other bit |
| SetVariableExample.SameLettersSameAttributes | Lessons/Lesson_60/UefiLessonsPkg/SetVariableExample/SetVariableExample.c:50-65 | strings with the same letters ask for the same attributes |
| SetVariableExample.StrSize | Lessons/Lesson_60/UefiLessonsPkg/SetVariableExample/SetVariableExample.c:70 | StrSize counts the CHAR16 characters and the terminator, two bytes each |
| SetVariableExample.ParseAttributes | Lessons/Lesson_60/UefiLessonsPkg/SetVariableExample/SetVariableExample.c:50-65 | the character loop accepts exactly strings of the three letters, and then gives the OR of their bits |
| SetVariableExample.ShellAppMain | Lessons/Lesson_60/UefiLessonsPkg/SetVariableExample/SetVariableExample.c:26-84 | one argument deletes the variable; three arguments set it with the requested attributes and the value with its terminator, unless a letter is unknown, which prints "Error! Unknown attribute!" and returns INVALID_PARAMETER; any other count prints the usage and succeeds |
| SimpleClassProtocol.SimpleClass.constructor | UefiLessonsPkg/SimpleClassProtocol/SimpleClassProtocol.c:15 | at load the number is 0 |
| SimpleClassProtocol.SimpleClass.SetNumber | UefiLessonsPkg/SimpleClassProtocol/SimpleClassProtocol.c:17-26 | SetNumber stores the number and succeeds |
| SimpleClassProtocol.SimpleClass.GetNumber | UefiLessonsPkg/SimpleClassProtocol/SimpleClassProtocol.c:29-42 | a NULL pointer gets INVALID_PARAMETER and nothing; otherwise the stored number comes back; the state never changes |
| SimpleClassProtocol.SetThenGet | UefiLessonsPkg/SimpleClassProtocol/SimpleClassProtocol.c:17-42 | a GetNumber after SetNumber(n) reads n back, and a second read gives the same |
| Smbios.Next | UefiLessonsPkg/SmbiosInfo/SmbiosInfo.c:21 | String + AsciiStrSize(String) points just past the first string's NUL |
| Smbios.NthNext | UefiLessonsPkg/SmbiosInfo/SmbiosInfo.c:18-23 | skipping the first string moves every later one up by one place |
| Smbios.GetRecordString | UefiLessonsPkg/SmbiosInfo/SmbiosInfo.c:13-25 | the loop returns the string the number names: "" for 0, otherwise the number-th string after the formatted area |
| Smbios.RecordStringRoundTrip | UefiLessonsPkg/SmbiosInfo/SmbiosInfo.c:13-25 | in a structure laid out as its formatted area followed by its strings, every string number reads back its string |
| Smbios.TerminatedStrings | UefiLessonsPkg/SmbiosInfo/SmbiosInfo.c:18-23 | strings laid out one after another with their NULs are found in order |
| Smbios.PrintTables | UefiLessonsPkg/SmbiosInfo/SmbiosInfo.c:34-38 | the configuration-table loop prints one line per SMBIOS entry, in order |
| Smbios.TableLinesCount | UefiLessonsPkg/SmbiosInfo/SmbiosInfo.c:34-38 | nothing is printed exactly when no entry carries the SMBIOS GUID |
| Smbios.StringFieldNamed | UefiLessonsPkg/SmbiosInfo/SmbiosInfo.c:62-79 | a string field shows the string its number names |
| Smbios.BiosInformation | UefiLessonsPkg/SmbiosInfo/SmbiosInfo.c:60-69 | a Type 0 structure shows its vendor, version and release-date strings, its segment and its two release numbers |
| Smbios.SystemInformation | UefiLessonsPkg/SmbiosInfo/SmbiosInfo.c:70-81 | a Type 1 structure shows its six strings, its UUID and its wake-up type |
| Smbios.OtherTypes | UefiLessonsPkg/SmbiosInfo/SmbiosInfo.c:82-85 | any other type shows its number and the "TODO" line |
| Smbios.PrintRecords | UefiLessonsPkg/SmbiosInfo/SmbiosInfo.c:51-92 | the GetNext loop prints each structure in turn |
| Smbios.SmbiosInfoOutcome | UefiLessonsPkg/SmbiosInfo/SmbiosInfo.c:40-93 | the status is LocateProtocol's: nothing the structures hold makes the program fail |
| Smbios.UefiMain | UefiLessonsPkg/SmbiosInfo/SmbiosInfo.c:29-94 | the program prints and returns what SmbiosInfo describes |
| VariableAttributes.OrBit | Lessons/Lesson_60/UefiLessonsPkg/SetVariableExample/SetVariableExample.c:53-59 | OR-ing an attribute bit sets that bit and changes nothing else |

## Left out

Walks the source never bounds. The code trusts lengths read from the data it walks. Where a bad length would make it read past its buffer or loop forever, the model takes a precondition that excludes that input instead of modelling the undefined behaviour:

- FfsFile.WalkSections: requires `WalkSafe`, which says every section header and section body lies in the file buffer and every section size is at least its header. ReadFile and the walk check none of this (UefiLessonsPkg/FfsFile/FfsFile.c). With a size below the header, the data length underflows and the walk never ends.
- PciRom.WalkRom: requires `RomSafe`, which says every ROM and PCIR header read lies inside the ROM and every image before the last has a non-zero length. The source never compares offsets with RomSize, and an image length of 0 loops forever.
- HiiPackages.ShowHiiExt.ParseHiiPackageLists: requires `Walkable`, which says every package list and package header lies in the database and no length is 0. When saving, it also requires `ListsInside`, so that saving a list reads no byte beyond the database. The same holds for HiiPackages.ShowPackageLists and HiiPackages.SaveLists.
- PciScan.WalkBridge: requires `Walkable`, which says the descriptor list has an end tag and every bus range before it has AddrRangeMax below 255. The source's UINT8 Bus counter wraps after 255, so a range ending at 255 never ends.
- CfgDecode.DevicePathFromCfgString: requires `PathReadable`, which says every node header the walk reads lies inside the decoded buffer.
- MemoryMap.WalkFull: requires `Shaped`, which says DescriptorSize is at least sizeof(EFI_MEMORY_DESCRIPTOR) and divides MemoryMapSize. The same holds for MemoryMap.WalkMerged, MemoryMap.MemoryInfoMain11 and MemoryMap.MemoryInfoMain29. The firmware promises this, and the code never checks it.
- BootVariables.ShellAppMain: requires `CurrentReadable`, which says that when BootOrder has an entry, BootCurrent can be read as a UINT16. It also requires `OptionsReadable`, which says every Boot#### option holds the NUL of its description. BootVariables.PrintBootOption requires `Readable` for the one option it prints. The source reads these fields without checking their sizes.
- Smbios.UefiMain: requires `Readable` of each record, which says the Type 0 and Type 1 fields and the strings they name are inside the record.
- ReplaceGuids.RunScript: the script's failure on a missing xref or log file is modelled only as `ok == false` with nothing changed. Python's exception and traceback are not modelled.
- HiiFont.CreateSimpleFontPkg: requires `FontPackageSize < 2^32`. PackageLen is a UINT32, and a wrapped sum would give a short allocation that the CopyMem calls overrun. The glyph tables linked into the lesson are small.

Undefined behaviour in the source that the model does not reproduce (see also "## Findings"):

- CfgDecode.NameFromCfgString: the model's temporary holds 5 CHAR16 (four digits and the NUL). The source declares `TempStr[4]` and passes DestMax 8, so StrnCpyS writes 5 CHAR16 into 4 (HIIConfig.c:114-116). CfgDecode.NameTempStrOverrun exhibits the overrun. The model computes the intended name.
- MemoryMap.WalkFull: the attribute text buffer holds ATTRIBUTE_TEXT_MAX + 1 = 68 characters. The source's buffer is ATTRIBUTE_STR_SIZE = 50, which MemoryMap.AttrsOverflow shows the text can exceed (67 characters with every flag set). What the source prints past the buffer is undefined and is not modelled.
- MemoryMap.MemoryTypeName: memory type 16 is named "Unknown", as intended. The source's bound test reads one entry past its 16-entry table, and MemoryMap.LookupAsWrittenOffByOne exhibits this. The same holds for MemoryMap.OsView.
- HiiConfig.Route: after a successful `route`, the source calls `FreePool(Result)` on a pointer it never initialised (HIIConfig.c:368). The model ends the command normally.
- PasswordForm.PasswordInput: the uninitialised Status that the source tests after an unchecked hash is a parameter (`Garbage`). No value for it is assumed.

Abstractions:

- PciIds.FindPCIDevDescription: handles a pci.ids that fits the one 4096-byte block it reads, and requires `|ids.data| <= BLOCK_READ_SIZE`. The source reads the file block by block (ListPCI.c:76-133). It moves the file position back to the last newline of each block and reads on from there. That re-reading and seek logic is not modelled. A block without a newline would make it read the same block forever. The four error lines for the shell calls are modelled, along with the returned status and the "Undefined" names.
- HiiPackages.ShowHiiExt.ParseHiiPackageLists: the source tests savePackageLists inside its loop. The flag never changes during the walk, so the model tests it once and runs either the listing walk or the saving walk.
- HiiPackages.SaveLists: the Writer is given the list's index and its offset and length. The link to the bytes it writes, the PackageLength bytes of the list from its header on, and to the file name FileName(i, guid), is stated in the Writer's documentation, not in a contract. The same holds for AcpiSave.UefiMain and SaveBgrt.UefiMain, whose `Write` records name the file, the address and the size of the bytes written.
- Efi.Status: holds only the EFI_STATUS error codes the lessons use and EFI_SUCCESS. It has no warning codes, so `EFI_ERROR` is "not Success". The SHELL_STATUS values UpdateDmpstoreDump's loop ends on are the `LoopStatus` constructors `ShellOutOfResources` and `ShellVolumeCorrupted`, which `EFI_ERROR` treats as success.
- DmpstoreDump.DumpFile.Write: the answer of a ShellWriteFile call is a function of the file position it writes at. The loop writes each CRC at a position past every earlier write, so no two calls share an answer, and this is as general as one answer per call.
- DmpstoreDump.DumpFile.Read: a ShellReadFile that returns an EFI error is not modelled; a read returns the file's bytes, fewer at its end. The loop treats an error like a short read (SHELL_VOLUME_CORRUPTED), but a read that fails in the middle of the file is not covered.
- HiiConfig.RouteWarningsMeaning: HIIConfig.c:295 and :355 test `StrCmp(Progress, L'\0')`. `L'\0'` is a CHAR16 zero passed where a string is expected, so StrCmp compares against a NULL pointer, which is undefined. The model takes the intended reading: Progress does not point at the end of the string. The same holds for the extract run that HiiConfig.ExtractSent models.
- DmpstoreDump.ShellAppMain: SHELL_DEVICE_ERROR after a failed ShellGetFileSize is returned as the Status DeviceError. The ShellCloseFile call before it is not modelled.
- HiiStrings: PrintStringFromHiiHandle (HIIStringsC.c:14-36) only prints what HiiGetString answers, and is not modelled.
- HiiFont: the HiiGetString prints of HIIAddRussianFont's UefiMain, after the package is added, are not modelled. They only echo what the HII database answers.
- FormCallback: PopupCallbackInfo, and the DebugCallbackValue of HIIFormCallbackDebug.c, are not modelled. Callback calls neither (their calls are commented out).
- PasswordForm.PasswordStorage.Callback: HiiGetString's answer is a parameter. A NULL answer is not modelled.
- ExtractConfig, RouteConfig, and the entry and unload functions of the HII form drivers are not modelled. They only forward to HII library calls (BlockToConfig, ConfigToBlock, HiiConstructConfigHdr, HiiAddPackages, protocol install and uninstall). This includes SimpleClassProtocol's entry and unload.
- Firmware services are parameters, with no model of their internals: GetMemoryMap, GetVariable, SetVariable, LocateProtocol, the root-bridge and PCI I/O reads, FV2 ReadFile/ReadSection, GetAcpiTable, SMBIOS GetNext, HiiGetString/NewString, the Hash2 SHA-512 service, CalculateCrc32, StrToGuid, StrHexToUint64 and ConvertDevicePathToText. So is the text `%r` prints for a status.
- Physical memory reached through table, image and ROM pointers is an input byte map.
- ReplaceGuids: the following are not modelled:
  - `str.upper()` beyond ASCII letters;
  - text encodings and newline translation;
  - argparse's own usage errors and `-h`.

  The file system is a map from path to contents. The `-o` copy and the write are updates of that map.
- Console output is returned text. DEBUG output, popups and the browser's handling of a Callback's answer are modelled only as returned values.
- The declarations-only headers (the Data.h files) are not part of this model.

## Findings

| source | as written | input that shows it | evidently intended | confidence | as-written member | corrected member |
|---|---|---|---|---|---|---|
| Lesson_32/UefiLessonsPkg/DumpPCIroms/DumpPCIroms.c:222-228 | the four PCIR signature byte tests are joined with `&&`, so an image is refused only when all four bytes differ | an image signed 0xAA55 whose PCI data structure is signed "PCIX" is printed as a code image | refuse an image when any byte differs from "PCIR" (`\|\|`) | high, not executed | PciRom.PcixImagePrinted | PciRom.PcirRejectedIff |
| Lesson_29/UefiLessonsPkg/MemoryInfo/MemoryInfo.c:49-65 | memory_type_to_str and memory_type_to_str_OS_view refuse only `type > 16`, which lets 16 through | memory type 16 reads one entry past the 16-entry table | `type >= 16` gives "Unknown" | high, not executed | MemoryMap.LookupAsWrittenOffByOne | MemoryMap.MemoryTypeNames |
| Lesson_29/UefiLessonsPkg/MemoryInfo/MemoryInfo.c:165-203 | when a run of mergeable descriptors reaches the last descriptor, the end address uses a mapping_size that was not updated for the last one | one page of free memory at 0 and two pages at 0x1000: the merged line ends at 0x1fff instead of 0x2fff | the end address covers every descriptor of the run | high, not executed | MemoryMap.MergedDiffers | MemoryMap.RunLastSpan |
| Lesson_20/UefiLessonsPkg/ShowBootVariables/ShowBootVariables.c:26-30 | the allocation check tests `!Buffer`, the caller's pointer, which is never NULL | AllocateZeroPool refuses the variable's size: no allocation error is printed, and GetVariable is called with a NULL buffer and answers EFI_INVALID_PARAMETER | test `!*Buffer` and return EFI_OUT_OF_RESOURCES | high, not executed | BootVariables.NullBufferCheck | BootVariables.NvramRead |
| Lessons_uncategorized/Lesson_Configuration_Language_5/UefiLessonsPkg/HIIConfig/HIIConfig.c:114-117 | `CHAR16 TempStr[4]` is passed to StrnCpyS with DestMax `sizeof(TempStr)`, which is 8 | a name of four or more hex digits: StrnCpyS stores four digits and a NUL, 5 CHAR16 in a 4-element array | room for four digits and the NUL, with the element count as DestMax | high, not executed | CfgDecode.NameTempStrOverrun | CfgDecode.NameTempStrFits |
| Lesson_29/UefiLessonsPkg/MemoryInfo/MemoryInfo.c:16-96 | the attribute text is built in a 50-character buffer (ATTRIBUTE_STR_SIZE) | a descriptor with every attribute flag set gives 67 characters of text | a buffer of at least 68 characters | medium, not executed | MemoryMap.AttrsOverflow | MemoryMap.AttrsBound |
| UefiLessonsPkg/UpdateDmpstoreDump/UpdateDmpstoreDump.c:52-115 | the loop stops with SHELL_VOLUME_CORRUPTED or SHELL_OUT_OF_RESOURCES, which `EFI_ERROR` does not count as errors, so the "Error! %r" line is skipped | a dump file shorter than a record header: nothing is printed and EFI_SUCCESS is returned | report the corrupted or short file | medium, not executed | DmpstoreDump.TruncatedSilent | DmpstoreDump.WalkReportIntended |
| UefiLessonsPkg/PasswordFormWithHash/PasswordFormWithHash.c:169-186 | when the first password is set and when the old one is checked, the hash call's status is discarded; the first of them tests the uninitialised Status instead | a failing Hash2 call while checking the old password: the leftover TempHash is compared with the stored hash, and when they match the old password counts as verified | a failing hash is reported and changes nothing | medium, not executed | PasswordForm.FailedHashVerifies | PasswordForm.PasswordInputIntended |
| scripts/replace_guids.py:30-32 | `l[1][:-1]` drops the last character of the name whatever it is | a last xref line "ab Name" with no newline gives the name "Nam" | drop only a final newline | low, not executed | ReplaceGuids.LastLineCut | ReplaceGuids.ParseLineIntended |
