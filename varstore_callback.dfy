/**
 * The HIIFormDataElementsVarstore form driver of the varstore lesson: its
 * Callback logs the action, the question, the type and the value, and then
 * declines the callback. The action, type and value texts are those of
 * HIIFormCallbackDebug, each log line ending in a newline.
 */
module VarstoreCallback {
  import opened Efi
  import opened FormCallback

  /** DebugCallbackValue: the value's text and a newline. */
  function DebugCallbackValue(t: byte, v: IfrValue, getString: u16 -> Option<CString>): (r: string)
    ensures |r| >= 1 && r[|r| - 1] == '\n'
    ensures t > EFI_IFR_TYPE_STRING ==> r == UNKNOWN + "\n"
    ensures t == EFI_IFR_TYPE_STRING && U16At(v, 0) == 0 ==> r == "NO STRING!\n"
  {
    ValueText(t, v, getString) + "\n"
  }

  /** The start of the log line, up to the question id's hex digits. */
  function CallbackHead(action: nat): string
  {
    "Callback: Action=" + ActionToStr(action) + ", QuestionId=0x"
  }

  /** Callback: whatever the action, one debug line is logged, naming the
      action and the question, and the callback is declined with
      EFI_UNSUPPORTED. The value and the requested browser action are
      inputs only: nothing is written back through them. */
  function Callback(action: nat, questionId: u16, t: byte, v: IfrValue, getString: u16 -> Option<CString>)
    : (r: Report)
    ensures r.status == Unsupported
    ensures |CallbackHead(action)| + 4 < |r.text| && r.text[..|CallbackHead(action)|] == CallbackHead(action)
    ensures r.text[|r.text| - 1] == '\n'
  {
    Report(CallbackHead(action) + HexFixed(questionId, 4) + ", Type=" + TypeToStr(t) + ", Value="
           + DebugCallbackValue(t, v, getString), Unsupported)
  }

  /** `s` ends with `suffix`. */
  predicate EndsWith(s: string, suffix: string)
  {
    |suffix| <= |s| && s[|s| - |suffix|..] == suffix
  }

  /** A value of a type past EFI_IFR_TYPE_STRING is logged as "Unknown". */
  lemma CallbackUnknownValue(action: nat, questionId: u16, t: byte, v: IfrValue, getString: u16 -> Option<CString>)
    requires t > EFI_IFR_TYPE_STRING
    ensures EndsWith(Callback(action, questionId, t, v, getString).text, ", Value=" + (UNKNOWN + "\n"))
  {
    var head := CallbackHead(action) + HexFixed(questionId, 4) + ", Type=" + TypeToStr(t);
    var value := DebugCallbackValue(t, v, getString);
    Joined(Callback(action, questionId, t, v, getString).text, head, ", Value=", value);
  }

  lemma Joined(s: string, head: string, mid: string, tail: string)
    requires s == head + mid + tail
    ensures EndsWith(s, mid + tail)
  {
    assert s[|head|..] == mid + tail;
  }

  /** The question id a log line names: the four hex digits after the
      head for `action`, if they are there. */
  function LoggedQuestion(text: string, action: nat): Option<nat>
  {
    var at := |CallbackHead(action)|;
    if at + 4 <= |text| && forall i | at <= i < at + 4 :: IsHexDigit(text[i]) then Some(HexNumber(text[at..at + 4]))
    else None
  }

  /** The log line reads back as the question id, so it identifies the
      question for every action. */
  lemma CallbackNamesQuestion(action: nat, questionId: u16, t: byte, v: IfrValue, getString: u16 -> Option<CString>)
    ensures LoggedQuestion(Callback(action, questionId, t, v, getString).text, action) == Some(questionId as nat)
  {
    var text := Callback(action, questionId, t, v, getString).text;
    var digits := HexFixed(questionId as nat, 4);
    QuestionDigits(text, action, digits);
    QuestionValue(questionId);
  }

  /** The four characters after the head are the question id's digits. */
  lemma QuestionDigits(text: string, action: nat, digits: string)
    requires |CallbackHead(action) + digits| <= |text| && text[..|CallbackHead(action) + digits|] == CallbackHead(action) + digits
    requires |digits| == 4
    ensures var at := |CallbackHead(action)|; at + 4 <= |text| && text[at..at + 4] == digits
  {
    Within(text, CallbackHead(action), digits);
  }

  /** Four hex digits read back as the 16-bit id. */
  lemma QuestionValue(q: u16)
    ensures HexNumber(HexFixed(q as nat, 4)) == q as nat
  {
    assert Pow16(4) == 0x1_0000 by {
      assert Pow16(2) == 0x100;
    }
    HexFixedRoundTrip(q as nat, 4);
  }

  lemma Within(s: string, head: string, mid: string)
    requires |head + mid| <= |s| && s[..|head + mid|] == head + mid
    ensures s[|head|..|head| + |mid|] == mid
  {
    assert (head + mid)[|head|..] == mid;
  }
}
