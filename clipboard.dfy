/** `paste_text`: inject text through the clipboard. The system clipboard and the
    keyboard are a `Desktop` object whose clipboard the program overwrites and whose
    input log records every clipboard write and simulated key press. */
module Clipboard {

  /** What the program does to the desktop, in order. */
  datatype Input =
    | SetClipboard(text: string)   // pyperclip.copy
    | PasteKeys(pasted: string)    // Ctrl+V, pasting what the clipboard held
    | EnterKey                     // pyautogui.press('enter')

  /** The call of `paste_text` that raises, if any; each is caught at line 56. */
  datatype PasteFault = NoPasteFault | OnSave | OnCopy | OnPasteKeys | OnRestore

  /** The clipboard after a transfer and the inputs it issued. */
  datatype Transfer = Transfer(clipboard: string, inputs: seq<Input>)

  /** The effect of `paste_text(text)` on a clipboard holding `clip`: an empty text is
      refused; otherwise save, overwrite, paste, restore, stopping at the first call that
      raises (the restore is not in a `finally`). */
  function PasteEffect(clip: string, text: string, fault: PasteFault): Transfer
  {
    if text == [] then Transfer(clip, [])
    else match fault
      case OnSave => Transfer(clip, [])
      case OnCopy => Transfer(clip, [])
      case OnPasteKeys => Transfer(text, [SetClipboard(text)])
      case OnRestore => Transfer(text, [SetClipboard(text), PasteKeys(text)])
      case NoPasteFault => Transfer(clip, [SetClipboard(text), PasteKeys(text), SetClipboard(clip)])
  }

  /** Number of Ctrl+V presses in an input log. */
  function PasteCount(inputs: seq<Input>): nat
  {
    if inputs == [] then 0 else (if inputs[0].PasteKeys? then 1 else 0) + PasteCount(inputs[1..])
  }

  /** The texts pasted, in order. */
  function Pasted(inputs: seq<Input>): (r: seq<string>)
    ensures |r| == PasteCount(inputs)
  {
    if inputs == [] then []
    else (if inputs[0].PasteKeys? then [inputs[0].pasted] else []) + Pasted(inputs[1..])
  }

  /** Number of Enter presses in an input log. */
  function EnterCount(inputs: seq<Input>): nat
  {
    if inputs == [] then 0 else (if inputs[0].EnterKey? then 1 else 0) + EnterCount(inputs[1..])
  }

  lemma {:induction false} InputCountsAppend(a: seq<Input>, b: seq<Input>)
    ensures Pasted(a + b) == Pasted(a) + Pasted(b)
    ensures EnterCount(a + b) == EnterCount(a) + EnterCount(b)
  {
    if a == [] {
      assert a + b == b;
    } else {
      assert (a + b)[1..] == a[1..] + b;
      InputCountsAppend(a[1..], b);
    }
  }

  /** An empty text writes nothing and pastes nothing. */
  lemma PasteEmptyText(clip: string, fault: PasteFault)
    ensures PasteEffect(clip, "", fault) == Transfer(clip, [])
  {
  }

  /** Without a fault, exactly one Ctrl+V is issued, while the clipboard holds the
      text, no Enter is pressed, and the clipboard ends as it began. */
  lemma PasteWithoutFault(clip: string, text: string)
    requires text != []
    ensures var t := PasteEffect(clip, text, NoPasteFault);
      t.clipboard == clip && Pasted(t.inputs) == [text] && EnterCount(t.inputs) == 0
  {
    PasteShape(clip, text, NoPasteFault);
  }

  /** Every transfer pastes at most once and only the text itself, never presses Enter,
      and leaves the clipboard with either its old content or the text. */
  lemma PasteShape(clip: string, text: string, fault: PasteFault)
    ensures var t := PasteEffect(clip, text, fault);
      && (Pasted(t.inputs) == [] || Pasted(t.inputs) == [text])
      && EnterCount(t.inputs) == 0
      && (t.clipboard == clip || t.clipboard == text)
      && (Pasted(t.inputs) == [text] <==> text != [] && (fault == NoPasteFault || fault == OnRestore))
  {
    var set1, keys, set2 := [SetClipboard(text)], [PasteKeys(text)], [SetClipboard(clip)];
    assert Pasted(set1) == [] && Pasted(keys) == [text] && Pasted(set2) == [];
    InputCountsAppend(set1, keys);
    InputCountsAppend(set1 + keys, set2);
    var t := PasteEffect(clip, text, fault);
    assert set1 + keys == [SetClipboard(text), PasteKeys(text)];
    assert set1 + keys + set2 == [SetClipboard(text), PasteKeys(text), SetClipboard(clip)];
  }

  /** A fault after the overwrite (at the paste keys or at the restore) leaves the
      text on the clipboard: the old content is lost. */
  lemma FaultAfterCopySkipsRestore(clip: string, text: string, fault: PasteFault)
    requires text != [] && (fault == OnPasteKeys || fault == OnRestore)
    ensures PasteEffect(clip, text, fault).clipboard == text
    ensures text != clip ==> PasteEffect(clip, text, fault).clipboard != clip
  {
  }

  /** The system clipboard, as the text pyperclip reads and writes, and the keyboard. */
  class Desktop {
    var clipboard: string
    var inputs: seq<Input>

    constructor (initial: string)
      ensures clipboard == initial && inputs == []
    {
      clipboard := initial;
      inputs := [];
    }

    /** `pyperclip.paste()`. */
    method ReadClipboard() returns (s: string)
      ensures s == clipboard
    {
      s := clipboard;
    }

    /** `pyperclip.copy(text)`. */
    method WriteClipboard(text: string)
      modifies this
      ensures clipboard == text && inputs == old(inputs) + [SetClipboard(text)]
    {
      clipboard := text;
      inputs := inputs + [SetClipboard(text)];
    }

    /** `pyautogui.hotkey('ctrl', 'v')`. */
    method PressPaste()
      modifies this
      ensures clipboard == old(clipboard) && inputs == old(inputs) + [PasteKeys(clipboard)]
    {
      inputs := inputs + [PasteKeys(clipboard)];
    }

    /** `pyautogui.press('enter')`. */
    method PressEnter()
      modifies this
      ensures clipboard == old(clipboard) && inputs == old(inputs) + [EnterKey]
    {
      inputs := inputs + [EnterKey];
    }
  }

  /** `paste_text` (lines 33-57). `fault` names the call that raises, if any. */
  method PasteText(desktop: Desktop, text: string, fault: PasteFault)
    modifies desktop
    ensures var t := PasteEffect(old(desktop.clipboard), text, fault);
      desktop.clipboard == t.clipboard && desktop.inputs == old(desktop.inputs) + t.inputs
  {
    if text == [] {
      return;
    }
    if fault == OnSave {
      return;
    }
    var original := desktop.ReadClipboard();
    if fault == OnCopy {
      return;
    }
    desktop.WriteClipboard(text);
    if fault == OnPasteKeys {
      return;
    }
    desktop.PressPaste();
    if fault == OnRestore {
      return;
    }
    desktop.WriteClipboard(original);
  }
}
