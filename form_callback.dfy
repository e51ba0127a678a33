/**
 * HIIFormCallbackDebug: a form driver whose Callback shows, in a popup,
 * the browser action, the question, the value's type and the value, and
 * then declines the callback.
 *
 * Values of EFI_BROWSER_ACTION and of the EFI_IFR_TYPE_* codes are those
 * of the UEFI specification (EFI_HII_CONFIG_ACCESS_PROTOCOL.CallBack and
 * EFI_IFR_TYPE_VALUE). HiiGetString, the popup protocol and the text "%r"
 * prints are parameters.
 */
module FormCallback {
  import opened Efi

  const EFI_BROWSER_ACTION_CHANGING: nat := 0
  const EFI_BROWSER_ACTION_CHANGED: nat := 1
  const EFI_BROWSER_ACTION_RETRIEVE: nat := 2
  const EFI_BROWSER_ACTION_FORM_OPEN: nat := 3
  const EFI_BROWSER_ACTION_FORM_CLOSE: nat := 4
  const EFI_BROWSER_ACTION_SUBMITTED: nat := 5
  const EFI_BROWSER_ACTION_DEFAULT_STANDARD: nat := 0x1000
  const EFI_BROWSER_ACTION_DEFAULT_MANUFACTURING: nat := 0x1001
  const EFI_BROWSER_ACTION_DEFAULT_SAFE: nat := 0x2000
  const EFI_BROWSER_ACTION_DEFAULT_PLATFORM: nat := 0x3000
  const EFI_BROWSER_ACTION_DEFAULT_HARDWARE: nat := 0x4000
  const EFI_BROWSER_ACTION_DEFAULT_FIRMWARE: nat := 0x5000

  /** The twelve actions the browser defines, with their names. */
  const ACTIONS: seq<(nat, string)> := [
    (EFI_BROWSER_ACTION_CHANGING, "EFI_BROWSER_ACTION_CHANGING"),
    (EFI_BROWSER_ACTION_CHANGED, "EFI_BROWSER_ACTION_CHANGED"),
    (EFI_BROWSER_ACTION_RETRIEVE, "EFI_BROWSER_ACTION_RETRIEVE"),
    (EFI_BROWSER_ACTION_FORM_OPEN, "EFI_BROWSER_ACTION_FORM_OPEN"),
    (EFI_BROWSER_ACTION_FORM_CLOSE, "EFI_BROWSER_ACTION_FORM_CLOSE"),
    (EFI_BROWSER_ACTION_SUBMITTED, "EFI_BROWSER_ACTION_SUBMITTED"),
    (EFI_BROWSER_ACTION_DEFAULT_STANDARD, "EFI_BROWSER_ACTION_DEFAULT_STANDARD"),
    (EFI_BROWSER_ACTION_DEFAULT_MANUFACTURING, "EFI_BROWSER_ACTION_DEFAULT_MANUFACTURING"),
    (EFI_BROWSER_ACTION_DEFAULT_SAFE, "EFI_BROWSER_ACTION_DEFAULT_SAFE"),
    (EFI_BROWSER_ACTION_DEFAULT_PLATFORM, "EFI_BROWSER_ACTION_DEFAULT_PLATFORM"),
    (EFI_BROWSER_ACTION_DEFAULT_HARDWARE, "EFI_BROWSER_ACTION_DEFAULT_HARDWARE"),
    (EFI_BROWSER_ACTION_DEFAULT_FIRMWARE, "EFI_BROWSER_ACTION_DEFAULT_FIRMWARE")
  ]

  /** The codes of the twelve actions. */
  const ACTION_CODES: set<nat> := {
    EFI_BROWSER_ACTION_CHANGING, EFI_BROWSER_ACTION_CHANGED, EFI_BROWSER_ACTION_RETRIEVE,
    EFI_BROWSER_ACTION_FORM_OPEN, EFI_BROWSER_ACTION_FORM_CLOSE, EFI_BROWSER_ACTION_SUBMITTED,
    EFI_BROWSER_ACTION_DEFAULT_STANDARD, EFI_BROWSER_ACTION_DEFAULT_MANUFACTURING,
    EFI_BROWSER_ACTION_DEFAULT_SAFE, EFI_BROWSER_ACTION_DEFAULT_PLATFORM,
    EFI_BROWSER_ACTION_DEFAULT_HARDWARE, EFI_BROWSER_ACTION_DEFAULT_FIRMWARE
  }

  const EFI_IFR_TYPE_NUM_SIZE_8: byte := 0x00
  const EFI_IFR_TYPE_NUM_SIZE_16: byte := 0x01
  const EFI_IFR_TYPE_NUM_SIZE_32: byte := 0x02
  const EFI_IFR_TYPE_NUM_SIZE_64: byte := 0x03
  const EFI_IFR_TYPE_BOOLEAN: byte := 0x04
  const EFI_IFR_TYPE_TIME: byte := 0x05
  const EFI_IFR_TYPE_DATE: byte := 0x06
  const EFI_IFR_TYPE_STRING: byte := 0x07
  const EFI_IFR_TYPE_OTHER: byte := 0x08
  const EFI_IFR_TYPE_UNDEFINED: byte := 0x09
  const EFI_IFR_TYPE_ACTION: byte := 0x0A
  const EFI_IFR_TYPE_BUFFER: byte := 0x0B
  const EFI_IFR_TYPE_REF: byte := 0x0C

  /** The thirteen value types, with their names; a type's code is its
      index. */
  const TYPES: seq<string> := [
    "EFI_IFR_TYPE_NUM_SIZE_8", "EFI_IFR_TYPE_NUM_SIZE_16", "EFI_IFR_TYPE_NUM_SIZE_32",
    "EFI_IFR_TYPE_NUM_SIZE_64", "EFI_IFR_TYPE_BOOLEAN", "EFI_IFR_TYPE_TIME", "EFI_IFR_TYPE_DATE",
    "EFI_IFR_TYPE_STRING", "EFI_IFR_TYPE_OTHER", "EFI_IFR_TYPE_UNDEFINED", "EFI_IFR_TYPE_ACTION",
    "EFI_IFR_TYPE_BUFFER", "EFI_IFR_TYPE_REF"
  ]

  const UNKNOWN := "Unknown"

  /** ActionToStr: the switch over the browser actions. */
  function ActionToStr(action: nat): (r: string)
    ensures r != UNKNOWN <==> action in ACTION_CODES
    ensures forall k | 0 <= k < |ACTIONS| :: ACTIONS[k].0 == action ==> r == ACTIONS[k].1
  {
    if action == EFI_BROWSER_ACTION_CHANGING then "EFI_BROWSER_ACTION_CHANGING"
    else if action == EFI_BROWSER_ACTION_CHANGED then "EFI_BROWSER_ACTION_CHANGED"
    else if action == EFI_BROWSER_ACTION_RETRIEVE then "EFI_BROWSER_ACTION_RETRIEVE"
    else if action == EFI_BROWSER_ACTION_FORM_OPEN then "EFI_BROWSER_ACTION_FORM_OPEN"
    else if action == EFI_BROWSER_ACTION_FORM_CLOSE then "EFI_BROWSER_ACTION_FORM_CLOSE"
    else if action == EFI_BROWSER_ACTION_SUBMITTED then "EFI_BROWSER_ACTION_SUBMITTED"
    else if action == EFI_BROWSER_ACTION_DEFAULT_STANDARD then "EFI_BROWSER_ACTION_DEFAULT_STANDARD"
    else if action == EFI_BROWSER_ACTION_DEFAULT_MANUFACTURING then "EFI_BROWSER_ACTION_DEFAULT_MANUFACTURING"
    else if action == EFI_BROWSER_ACTION_DEFAULT_SAFE then "EFI_BROWSER_ACTION_DEFAULT_SAFE"
    else if action == EFI_BROWSER_ACTION_DEFAULT_PLATFORM then "EFI_BROWSER_ACTION_DEFAULT_PLATFORM"
    else if action == EFI_BROWSER_ACTION_DEFAULT_HARDWARE then "EFI_BROWSER_ACTION_DEFAULT_HARDWARE"
    else if action == EFI_BROWSER_ACTION_DEFAULT_FIRMWARE then "EFI_BROWSER_ACTION_DEFAULT_FIRMWARE"
    else UNKNOWN
  }

  /** TypeToStr: the switch over the value types. */
  function TypeToStr(t: byte): (r: string)
    ensures t as int < |TYPES| ==> r == TYPES[t]
    ensures t as int >= |TYPES| ==> r == UNKNOWN
  {
    if t == EFI_IFR_TYPE_NUM_SIZE_8 then "EFI_IFR_TYPE_NUM_SIZE_8"
    else if t == EFI_IFR_TYPE_NUM_SIZE_16 then "EFI_IFR_TYPE_NUM_SIZE_16"
    else if t == EFI_IFR_TYPE_NUM_SIZE_32 then "EFI_IFR_TYPE_NUM_SIZE_32"
    else if t == EFI_IFR_TYPE_NUM_SIZE_64 then "EFI_IFR_TYPE_NUM_SIZE_64"
    else if t == EFI_IFR_TYPE_BOOLEAN then "EFI_IFR_TYPE_BOOLEAN"
    else if t == EFI_IFR_TYPE_TIME then "EFI_IFR_TYPE_TIME"
    else if t == EFI_IFR_TYPE_DATE then "EFI_IFR_TYPE_DATE"
    else if t == EFI_IFR_TYPE_STRING then "EFI_IFR_TYPE_STRING"
    else if t == EFI_IFR_TYPE_OTHER then "EFI_IFR_TYPE_OTHER"
    else if t == EFI_IFR_TYPE_UNDEFINED then "EFI_IFR_TYPE_UNDEFINED"
    else if t == EFI_IFR_TYPE_ACTION then "EFI_IFR_TYPE_ACTION"
    else if t == EFI_IFR_TYPE_BUFFER then "EFI_IFR_TYPE_BUFFER"
    else if t == EFI_IFR_TYPE_REF then "EFI_IFR_TYPE_REF"
    else UNKNOWN
  }

  /** The names tell the known actions apart, and no name is "Unknown". */
  lemma ActionNamesDistinct(a: nat, b: nat)
    requires ActionToStr(a) == ActionToStr(b) != UNKNOWN
    ensures a == b
  {
  }

  /** The names tell the value types apart. */
  lemma TypeNamesDistinct(s: byte, t: byte)
    requires TypeToStr(s) == TypeToStr(t) != UNKNOWN
    ensures s == t
  {
  }

  // ---------------------------------------------------------------------
  // EFI_IFR_TYPE_VALUE is a union: every member starts at byte 0. The
  // bytes up to the largest member the formatting reads are kept.

  const VALUE_SIZE: nat := 8

  /** The union's bytes. */
  type IfrValue = v: seq<byte> | |v| == VALUE_SIZE witness [0, 0, 0, 0, 0, 0, 0, 0]

  /** The time member: Hour, Minute, Second. */
  function TimeText(v: IfrValue): string
  {
    PadDec(v[0], 2) + ":" + PadDec(v[1], 2) + ":" + PadDec(v[2], 2)
  }

  /** The date member: Year (UINT16), Month, Day. */
  function DateText(v: IfrValue): string
  {
    PadDec(U16At(v, 0), 4) + "/" + PadDec(v[2], 2) + "/" + PadDec(v[3], 2)
  }

  /** What "%s" prints for a HiiGetString result; PrintLib shows a NULL
      string as "<null string>". */
  function StringArg(s: Option<CString>): string
  {
    if s.Some? then s.value else "<null string>"
  }

  /** The text of a value of type `t`: "%d" for the 8-, 16- and 32-bit
      numbers and the boolean (an INT32 argument), "%ld" for the 64-bit one
      (INT64), "%02d:%02d:%02d" for a time, "%04d/%02d/%02d" for a date, the
      string for a non-zero string id, "NO STRING!" for id 0, and "Unknown"
      for every other type. */
  function ValueText(t: byte, v: IfrValue, getString: u16 -> Option<CString>): (r: string)
    ensures t == EFI_IFR_TYPE_NUM_SIZE_32 ==> |r| >= 1 && (r[0] == '-' <==> U32At(v, 0) >= 0x8000_0000)
    ensures t == EFI_IFR_TYPE_NUM_SIZE_64 ==> |r| >= 1 && (r[0] == '-' <==> U64At(v, 0) >= 0x8000_0000_0000_0000)
    ensures t == EFI_IFR_TYPE_NUM_SIZE_8 || t == EFI_IFR_TYPE_NUM_SIZE_16 || t == EFI_IFR_TYPE_BOOLEAN ==>
      |r| >= 1 && r[0] != '-'
    ensures t == EFI_IFR_TYPE_STRING && U16At(v, 0) == 0 ==> r == "NO STRING!"
    ensures t > EFI_IFR_TYPE_STRING ==> r == UNKNOWN
  {
    if t == EFI_IFR_TYPE_NUM_SIZE_8 then Dec32(v[0])
    else if t == EFI_IFR_TYPE_NUM_SIZE_16 then Dec32(U16At(v, 0))
    else if t == EFI_IFR_TYPE_NUM_SIZE_32 then Dec32(U32At(v, 0))
    else if t == EFI_IFR_TYPE_NUM_SIZE_64 then SignedDecText(AsInt64(U64At(v, 0)))
    else if t == EFI_IFR_TYPE_BOOLEAN then Dec32(v[0])
    else if t == EFI_IFR_TYPE_TIME then TimeText(v)
    else if t == EFI_IFR_TYPE_DATE then DateText(v)
    else if t == EFI_IFR_TYPE_STRING then
      if U16At(v, 0) != 0 then StringArg(getString(U16At(v, 0))) else "NO STRING!"
    else UNKNOWN
  }

  /** A time whose fields are below 100 reads "HH:MM:SS": two digits each,
      colons at 2 and 5, and each field reads back as its value. */
  lemma TimeLayout(v: IfrValue)
    requires v[0] < 100 && v[1] < 100 && v[2] < 100
    ensures var r := TimeText(v);
      && |r| == 8 && r[2] == ':' && r[5] == ':'
      && DecNumber(r[0..2]) == v[0] && DecNumber(r[3..5]) == v[1] && DecNumber(r[6..8]) == v[2]
  {
    assert Pow10(2) == 100;
    PadDigits(v[0], 2);
    PadDigits(v[1], 2);
    PadDigits(v[2], 2);
    var r := TimeText(v);
    assert r[0..2] == PadDec(v[0], 2);
    assert r[3..5] == PadDec(v[1], 2);
    assert r[6..8] == PadDec(v[2], 2);
  }

  /** A date whose year is below 10000 and whose month and day are below
      100 reads "YYYY/MM/DD", each field reading back as its value. */
  lemma DateLayout(v: IfrValue)
    requires U16At(v, 0) < 10000 && v[2] < 100 && v[3] < 100
    ensures var r := DateText(v);
      && |r| == 10 && r[4] == '/' && r[7] == '/'
      && DecNumber(r[0..4]) == U16At(v, 0) && DecNumber(r[5..7]) == v[2] && DecNumber(r[8..10]) == v[3]
  {
    assert Pow10(2) == 100 && Pow10(4) == 10000;
    PadDigits(U16At(v, 0), 4);
    PadDigits(v[2], 2);
    PadDigits(v[3], 2);
    var r := DateText(v);
    assert r[0..4] == PadDec(U16At(v, 0), 4);
    assert r[5..7] == PadDec(v[2], 2);
    assert r[8..10] == PadDec(v[3], 2);
  }

  function Pow10(k: nat): (r: nat)
    ensures r >= 1
  {
    if k == 0 then 1 else 10 * Pow10(k - 1)
  }

  /** A value below 10^k has at most k decimal digits. */
  lemma {:induction false} DecTextBound(x: nat, k: nat)
    requires k >= 1 && x < Pow10(k)
    ensures |DecText(x)| <= k
    decreases k
  {
    if x >= 10 {
      assert Pow10(k) == 10 * Pow10(k - 1);
      assert x / 10 < Pow10(k - 1);
      DecTextBound(x / 10, k - 1);
    }
  }

  /** "%0kd" of a value below 10^k: k digits that read back as it. */
  lemma PadDigits(x: nat, k: nat)
    requires k >= 1 && x < Pow10(k)
    ensures |PadDec(x, k)| == k && (forall i :: 0 <= i < k ==> '0' <= PadDec(x, k)[i] <= '9')
    ensures DecNumber(PadDec(x, k)) == x
  {
    DecTextBound(x, k);
    PadValue(x, k);
  }

  /** Zero padding keeps the value. */
  lemma PadValue(x: nat, k: nat)
    ensures DecNumber(PadDec(x, k)) == x
  {
    var t := DecText(x);
    DecTextRoundTrip(x);
    PadShape(x, k, t);
    if |t| < k {
      ZerosThenDigits(k - |t|, t);
    }
  }

  /** "%0kd" is the decimal text, with zeros in front when it is short. */
  lemma PadShape(x: nat, k: nat, t: string)
    requires t == DecText(x)
    ensures |t| < k ==> PadDec(x, k) == Zeros(k - |t|) + t
    ensures |t| >= k ==> PadDec(x, k) == t
  {
  }

  /** Zeros on the left do not change a decimal number. */
  lemma {:induction false} ZerosThenDigits(n: nat, t: string)
    requires forall i :: 0 <= i < |t| ==> '0' <= t[i] <= '9'
    ensures forall i :: 0 <= i < |Zeros(n) + t| ==> '0' <= (Zeros(n) + t)[i] <= '9'
    ensures DecNumber(Zeros(n) + t) == DecNumber(t)
    decreases |t|
  {
    if |t| == 0 {
      assert Zeros(n) + t == Zeros(n);
      ZerosValue(n);
    } else {
      var s := Zeros(n) + t;
      assert s[..|s| - 1] == Zeros(n) + t[..|t| - 1];
      ZerosThenDigits(n, t[..|t| - 1]);
    }
  }

  lemma {:induction false} ZerosValue(n: nat)
    ensures DecNumber(Zeros(n)) == 0
  {
    if n > 0 {
      assert Zeros(n)[..n - 1] == Zeros(n - 1) by {
        ZerosPrefix(n);
      }
      ZerosValue(n - 1);
    }
  }

  lemma ZerosPrefix(n: nat)
    requires n > 0
    ensures Zeros(n)[..n - 1] == Zeros(n - 1)
  {
  }

  // ---------------------------------------------------------------------
  // The popup.

  /** The buffers HIIPopupCallbackInfo allocates, in bytes. */
  const POPUP_BUFFER_SIZE: nat := 300

  /** CallbackValueToStr into a buffer of `size` bytes: UnicodeSPrint keeps
      what fits before the terminator. */
  function CallbackValueToStr(t: byte, v: IfrValue, getString: u16 -> Option<CString>, size: nat): (r: string)
    requires size >= 2
    ensures |r| <= size / 2 - 1
    ensures |ValueText(t, v, getString)| <= size / 2 - 1 ==> r == ValueText(t, v, getString)
  {
    SPrintKeep(ValueText(t, v, getString), size)
  }

  /** The popup message before it is cut to the buffer. */
  function PopupMessage(action: nat, questionId: u16, t: byte, valueStr: string): string
  {
    "Callback:\nAction=" + ActionToStr(action) + "\nQuestionId=0x" + HexFixed(questionId, 4)
    + "\nType=" + TypeToStr(t) + "\nValue=" + valueStr
  }

  /** What the popup shows: the message, cut to 149 characters and the
      terminator, the value itself first cut to the same buffer size. */
  function PopupText(action: nat, questionId: u16, t: byte, v: IfrValue, getString: u16 -> Option<CString>): (r: string)
    ensures |r| <= POPUP_BUFFER_SIZE / 2 - 1
    ensures var m := PopupMessage(action, questionId, t, CallbackValueToStr(t, v, getString, POPUP_BUFFER_SIZE));
      |r| <= |m| && r == m[..|r|] && (|m| <= POPUP_BUFFER_SIZE / 2 - 1 ==> r == m)
  {
    SPrintKeep(PopupMessage(action, questionId, t, CallbackValueToStr(t, v, getString, POPUP_BUFFER_SIZE)),
               POPUP_BUFFER_SIZE)
  }

  /** The question id sits in the message as four lower-case hex digits
      that read back as it. */
  lemma QuestionIdShown(action: nat, questionId: u16, t: byte, valueStr: string)
    ensures var m := PopupMessage(action, questionId, t, valueStr);
      var at := |"Callback:\nAction=" + ActionToStr(action) + "\nQuestionId=0x"|;
      at + 4 <= |m| && HexNumber(m[at..at + 4]) == questionId
  {
    var head := "Callback:\nAction=" + ActionToStr(action) + "\nQuestionId=0x";
    var m := PopupMessage(action, questionId, t, valueStr);
    assert m[|head|..|head| + 4] == HexFixed(questionId, 4);
    assert Pow16(4) == 0x1_0000;
    HexFixedRoundTrip(questionId, 4);
  }

  /** What the popup protocol answers: LocateProtocol's status, then
      CreatePopup's. */
  datatype Popup = Popup(locate: Status, create: Status)

  /** HIIPopupCallbackInfo: without the popup protocol only an error is
      logged; otherwise the message is set as the POPUP_MESSAGE string and
      shown, a CreatePopup failure being logged. Returns the string shown
      and the debug log. */
  method HiiPopupCallbackInfo(action: nat, questionId: u16, t: byte, v: IfrValue,
                              getString: u16 -> Option<CString>, popup: Popup, statusText: Status -> string)
    returns (shown: Option<string>, log: string)
    ensures IsError(popup.locate) ==> shown == None && log == "Error! Can't find EFI_HII_POPUP_PROTOCOL\n"
    ensures !IsError(popup.locate) ==> shown == Some(PopupText(action, questionId, t, v, getString))
    ensures !IsError(popup.locate) ==>
      log == (if IsError(popup.create) then "Error! Can't create popup, " + statusText(popup.create) + "\n" else "")
  {
    if IsError(popup.locate) {
      return None, "Error! Can't find EFI_HII_POPUP_PROTOCOL\n";
    }
    var size := POPUP_BUFFER_SIZE;
    var valueStr := CallbackValueToStr(t, v, getString, size);
    var popupStr := SPrintKeep(PopupMessage(action, questionId, t, valueStr), size);
    shown := Some(popupStr);
    log := "";
    if IsError(popup.create) {
      log := "Error! Can't create popup, " + statusText(popup.create) + "\n";
    }
  }

  /** Callback: shows the popup and always declines. */
  method Callback(action: nat, questionId: u16, t: byte, v: IfrValue,
                  getString: u16 -> Option<CString>, popup: Popup, statusText: Status -> string)
    returns (status: Status, shown: Option<string>, log: string)
    ensures status == Unsupported
    ensures shown == (if IsError(popup.locate) then None else Some(PopupText(action, questionId, t, v, getString)))
    ensures log == if IsError(popup.locate) then "Error! Can't find EFI_HII_POPUP_PROTOCOL\n"
                   else if IsError(popup.create) then "Error! Can't create popup, " + statusText(popup.create) + "\n"
                   else ""
  {
    shown, log := HiiPopupCallbackInfo(action, questionId, t, v, getString, popup, statusText);
    status := Unsupported;
  }
}
