/**
 * The terminal panel's line-input buffer. Key presses edit a buffer of typed
 * characters that is sent to the attached process as one line on Enter;
 * Ctrl+C and Ctrl+D send control characters, Ctrl+Z and Ctrl+Y are swallowed.
 */
module Terminal {
  import opened Wrappers
  import opened Text

  datatype Key = KeyZ | KeyY | KeyC | KeyD | KeyReturn | KeyEnter | KeyBackspace | OtherKey(code: int)

  /** A key press: the key, whether Control is held, and the text it produces. */
  datatype KeyEvent = KeyEvent(key: Key, ctrl: bool, text: string)

  /** `text and text.isprintable()` */
  predicate IsPrintableText(text: string) {
    text != [] && forall i :: 0 <= i < |text| ==> IsPrintableChar(text[i])
  }

  /**
   * The effect of one key press on the input buffer: the new buffer and what
   * is sent to the process (`input_submitted`), if anything.
   */
  function KeyStep(buffer: string, e: KeyEvent): (string, Option<string>) {
    if e.ctrl && (e.key == KeyZ || e.key == KeyY) then (buffer, None)
    else if e.key == KeyReturn || e.key == KeyEnter then ("", Some(buffer + "\n"))
    else if e.key == KeyC && e.ctrl then (buffer, Some("\U{03}"))
    else if e.key == KeyD && e.ctrl then (buffer, Some("\U{04}"))
    else if e.key == KeyBackspace then
      (if buffer != [] then buffer[..|buffer| - 1] else buffer, None)
    else if IsPrintableText(e.text) then (buffer + e.text, None)
    else (buffer, None)
  }

  class TerminalTextEdit {
    var inputBuffer: string
    /** Every string emitted through `input_submitted`, oldest first. */
    var submitted: seq<string>

    constructor ()
      ensures inputBuffer == [] && submitted == []
    {
      inputBuffer := [];
      submitted := [];
    }

    method KeyPressEvent(e: KeyEvent)
      modifies this
      ensures inputBuffer == KeyStep(old(inputBuffer), e).0
      ensures submitted == old(submitted) + match KeyStep(old(inputBuffer), e).1
        case None => []
        case Some(s) => [s]
    {
      if e.ctrl && (e.key == KeyZ || e.key == KeyY) {
        return;
      }
      if e.key == KeyReturn || e.key == KeyEnter {
        var textToSend := inputBuffer + "\n";
        inputBuffer := "";
        submitted := submitted + [textToSend];
        return;
      }
      if e.key == KeyC && e.ctrl {
        submitted := submitted + ["\U{03}"];
        return;
      }
      if e.key == KeyD && e.ctrl {
        submitted := submitted + ["\U{04}"];
        return;
      }
      if e.key == KeyBackspace {
        if inputBuffer != [] {
          inputBuffer := inputBuffer[..|inputBuffer| - 1];
        }
        return;
      }
      if IsPrintableText(e.text) {
        inputBuffer := inputBuffer + e.text;
        return;
      }
    }

    method ClearInputBuffer()
      modifies this
      ensures inputBuffer == [] && submitted == old(submitted)
    {
      inputBuffer := "";
    }
  }

  /** Control keys never touch the buffer; only Ctrl+Z and Ctrl+Y are swallowed entirely. */
  lemma ControlKeys(buffer: string, text: string)
    ensures KeyStep(buffer, KeyEvent(KeyZ, true, text)) == (buffer, None)
    ensures KeyStep(buffer, KeyEvent(KeyY, true, text)) == (buffer, None)
    ensures KeyStep(buffer, KeyEvent(KeyC, true, text)) == (buffer, Some("\U{03}"))
    ensures KeyStep(buffer, KeyEvent(KeyD, true, text)) == (buffer, Some("\U{04}"))
  {
  }

  /**
   * Text with a character `isprintable` rejects, such as the full-width space
   * an input method produces, is not typed into the buffer.
   */
  lemma NonPrintableNotTyped(buffer: string, code: int, text: string)
    requires exists i :: 0 <= i < |text| && !IsPrintableChar(text[i])
    ensures KeyStep(buffer, KeyEvent(OtherKey(code), false, text)) == (buffer, None)
    ensures KeyStep(buffer, KeyEvent(OtherKey(code), false, "\U{3000}")) == (buffer, None)
  {
    assert !IsPrintableChar("\U{3000}"[0]);
  }

  /** Typing a character and then Backspace restores the buffer. */
  lemma BackspaceUndoesTyping(buffer: string, c: char, code: int)
    requires IsPrintableChar(c)
    ensures var typed := KeyStep(buffer, KeyEvent(OtherKey(code), false, [c])).0;
      KeyStep(typed, KeyEvent(KeyBackspace, false, [])) == (buffer, None)
  {
    assert (buffer + [c])[..|buffer|] == buffer;
  }

  /** The buffer after typing each character of `s` as its own key press. */
  function TypeChars(buffer: string, s: string): string
    decreases |s|
  {
    if s == [] then buffer
    else TypeChars(KeyStep(buffer, KeyEvent(OtherKey(0), false, [s[0]])).0, s[1..])
  }

  /**
   * Typing a printable line character by character appends it to the buffer,
   * so Enter then sends exactly the typed line and a newline.
   */
  lemma {:induction false} TypedLineIsSent(buffer: string, s: string)
    requires forall i :: 0 <= i < |s| ==> IsPrintableChar(s[i])
    ensures TypeChars(buffer, s) == buffer + s
    ensures KeyStep(TypeChars(buffer, s), KeyEvent(KeyReturn, false, [])) == ("", Some(buffer + s + "\n"))
    decreases |s|
  {
    if s != [] {
      TypedLineIsSent(buffer + [s[0]], s[1..]);
      assert buffer + [s[0]] + s[1..] == buffer + s;
    }
  }

  /** The terminal panel: which process it is attached to, and its input editor. */
  class TerminalWidget {
    const outputText: TerminalTextEdit
    /** The attached process id, if any. */
    var process: Option<int>
    /** The pseudo-terminal descriptor when the process runs under a PTY. */
    var ptyMasterFd: Option<int>
    var isRunning: bool

    constructor ()
      ensures fresh(outputText) && outputText.inputBuffer == [] && outputText.submitted == []
      ensures process == None && ptyMasterFd == None && !isRunning
    {
      outputText := new TerminalTextEdit();
      process := None;
      ptyMasterFd := None;
      isRunning := false;
    }

    method SetExternalProcess(pid: int)
      modifies this, outputText
      ensures process == Some(pid) && ptyMasterFd == None && isRunning
      ensures outputText.inputBuffer == [] && outputText.submitted == old(outputText.submitted)
    {
      process := Some(pid);
      ptyMasterFd := None;
      isRunning := true;
      outputText.ClearInputBuffer();
    }

    method SetPtyProcess(pid: int, masterFd: int)
      modifies this, outputText
      ensures process == Some(pid) && ptyMasterFd == Some(masterFd) && isRunning
      ensures outputText.inputBuffer == [] && outputText.submitted == old(outputText.submitted)
    {
      process := Some(pid);
      ptyMasterFd := Some(masterFd);
      isRunning := true;
      outputText.ClearInputBuffer();
    }

    method ClearExternalProcess()
      modifies this, outputText
      ensures process == None && ptyMasterFd == None && !isRunning
      ensures outputText.inputBuffer == [] && outputText.submitted == old(outputText.submitted)
    {
      process := None;
      ptyMasterFd := None;
      isRunning := false;
      outputText.ClearInputBuffer();
    }
  }
}
