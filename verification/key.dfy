/** event/key.rs and event/key/crossterm_key.rs: the application's key type, the text it is shown as, and
    its translation from terminal key events. */
module Key {
  import opened Wrappers

  /** `Key`. */
  datatype Key =
    | Enter | Tab | BackSpace | Esc
    | Up | Down | Left | Right
    | Char(c: char) | Ctrl(c: char) | Alt(c: char)
    | Unknown

  /** The `Debug` name of a key without a payload. */
  function Name(k: Key): string
    requires !k.Char? && !k.Ctrl? && !k.Alt?
  {
    match k
    case Enter => "Enter"
    case Tab => "Tab"
    case BackSpace => "BackSpace"
    case Esc => "Esc"
    case Up => "Up"
    case Down => "Down"
    case Left => "Left"
    case Right => "Right"
    case Unknown => "Unknown"
  }

  /** `Display for Key`. The space arms come first, so a space never shows as itself. */
  function Display(k: Key): string {
    match k
    case Char(' ') => "<Space>"
    case Ctrl(' ') => "<Ctrl+Space>"
    case Alt(' ') => "<Alt+Space>"
    case Char(c) => [c]
    case Ctrl(c) => "<Ctrl+" + [c] + ">"
    case Alt(c) => "<Alt+" + [c] + ">"
    case Unknown => Name(k)
    case _ => "<" + Name(k) + ">"
  }

  /** The key a displayed text stands for, if any. */
  function ParseDisplay(s: string): Option<Key> {
    if s == "<Space>" then Some(Char(' '))
    else if s == "<Ctrl+Space>" then Some(Ctrl(' '))
    else if s == "<Alt+Space>" then Some(Alt(' '))
    else if |s| == 1 then Some(Char(s[0]))
    else if |s| == 8 && s[..6] == "<Ctrl+" && s[7] == '>' then Some(Ctrl(s[6]))
    else if |s| == 7 && s[..5] == "<Alt+" && s[6] == '>' then Some(Alt(s[5]))
    else if s == "Unknown" then Some(Unknown)
    else if s == "<Enter>" then Some(Enter)
    else if s == "<Tab>" then Some(Tab)
    else if s == "<BackSpace>" then Some(BackSpace)
    else if s == "<Esc>" then Some(Esc)
    else if s == "<Up>" then Some(Up)
    else if s == "<Down>" then Some(Down)
    else if s == "<Left>" then Some(Left)
    else if s == "<Right>" then Some(Right)
    else None
  }

  /** The displayed text determines the key, so no two keys show alike. */
  lemma DisplayRoundTrip(k: Key)
    ensures ParseDisplay(Display(k)) == Some(k)
  {
    match k
    case Char(c) => CharRoundTrip(c);
    case Ctrl(c) => CtrlRoundTrip(c);
    case Alt(c) => AltRoundTrip(c);
    case _ => NamedRoundTrip(k);
  }

  lemma CharRoundTrip(c: char)
    ensures ParseDisplay(Display(Char(c))) == Some(Char(c))
  {
    if c != ' ' {
      assert |Display(Char(c))| == 1;
    }
  }

  lemma CtrlRoundTrip(c: char)
    ensures ParseDisplay(Display(Ctrl(c))) == Some(Ctrl(c))
  {
    if c != ' ' {
      var s := Display(Ctrl(c));
      assert |s| == 8 && s[..6] == "<Ctrl+" && s[6] == c && s[7] == '>';
      assert s != "<Space>" && s != "<Ctrl+Space>" && s != "<Alt+Space>";
    }
  }

  lemma AltRoundTrip(c: char)
    ensures ParseDisplay(Display(Alt(c))) == Some(Alt(c))
  {
    if c != ' ' {
      var s := Display(Alt(c));
      assert |s| == 7 && s[..5] == "<Alt+" && s[5] == c && s[6] == '>';
      assert s[1] == 'A' && "<Space>"[1] == 'S';
      assert s != "<Space>" && s != "<Ctrl+Space>" && s != "<Alt+Space>";
    }
  }

  /** The keys shown by name. */
  lemma NamedRoundTrip(k: Key)
    requires !k.Char? && !k.Ctrl? && !k.Alt?
    ensures ParseDisplay(Display(k)) == Some(k)
  {
    if k == Unknown {
      assert Display(k)[0] == 'U';
    } else if k == Up || k == Down || k == Left || k == Right {
      ArrowKeysRoundTrip(k);
    } else {
      ControlKeysRoundTrip(k);
    }
  }

  /** The four arrow keys. */
  lemma ArrowKeysRoundTrip(k: Key)
    requires k == Up || k == Down || k == Left || k == Right
    ensures ParseDisplay(Display(k)) == Some(k)
  {
    match k
    case Up => assert Display(k)[1] == 'U';
    case Down => assert Display(k)[1] == 'D';
    case Left => assert Display(k)[1] == 'L';
    case Right => assert Display(k)[1] == 'R';
  }

  /** `Enter`, `Tab`, `BackSpace` and `Esc`. */
  lemma ControlKeysRoundTrip(k: Key)
    requires k == Enter || k == Tab || k == BackSpace || k == Esc
    ensures ParseDisplay(Display(k)) == Some(k)
  {
    match k
    case Enter => assert Display(k)[1] == 'E';
    case Tab => assert Display(k)[1] == 'T';
    case BackSpace => assert Display(k)[1] == 'B';
    case Esc => assert Display(k)[1] == 'E';
  }

  lemma DisplayInjective(a: Key, b: Key)
    ensures Display(a) == Display(b) ==> a == b
  {
    DisplayRoundTrip(a);
    DisplayRoundTrip(b);
  }

  /** The shapes of the displayed text: a plain character shows as itself, a space and a modified
      character in angle brackets, a named key as its name in angle brackets, and `Unknown` bare. */
  lemma DisplayShapes(c: char)
    ensures Display(Char(' ')) == "<Space>" && Display(Ctrl(' ')) == "<Ctrl+Space>" && Display(Alt(' ')) == "<Alt+Space>"
    ensures c != ' ' ==> Display(Char(c)) == [c] && Display(Ctrl(c)) == "<Ctrl+" + [c] + ">" && Display(Alt(c)) == "<Alt+" + [c] + ">"
    ensures Display(Unknown) == "Unknown" && Display(Enter) == "<Enter>" && Display(BackSpace) == "<BackSpace>"
  {
  }

  /** crossterm's `KeyCode`, mirrored. */
  datatype KeyCode =
    | CtBackspace | CtEnter | CtLeft | CtRight | CtUp | CtDown
    | CtHome | CtEnd | CtPageUp | CtPageDown | CtTab | CtBackTab | CtDelete | CtInsert
    | CtF(n: nat) | CtChar(ch: char) | CtNull | CtEsc

  /** crossterm's `KeyModifiers` bit set. */
  datatype KeyModifiers = KeyModifiers(shift: bool, control: bool, alt: bool)

  const CONTROL: KeyModifiers := KeyModifiers(false, true, false)
  const ALT: KeyModifiers := KeyModifiers(false, false, true)
  const NONE: KeyModifiers := KeyModifiers(false, false, false)

  /** crossterm's `KeyEvent`. */
  datatype KeyEvent = KeyEvent(code: KeyCode, modifiers: KeyModifiers)

  /** `From<KeyEvent> for Key`: a character with exactly CONTROL or exactly ALT becomes a modified key,
      with any other modifier set a plain character. */
  function FromKeyEvent(e: KeyEvent): Key {
    match e.code
    case CtEnter => Enter
    case CtTab => Tab
    case CtBackspace => BackSpace
    case CtEsc => Esc
    case CtUp => Up
    case CtDown => Down
    case CtLeft => Left
    case CtRight => Right
    case CtChar(c) =>
      if e.modifiers == CONTROL then Ctrl(c)
      else if e.modifiers == ALT then Alt(c)
      else Char(c)
    case _ => Unknown
  }

  /** A terminal event producing each key. */
  function EventFor(k: Key): KeyEvent {
    match k
    case Enter => KeyEvent(CtEnter, NONE)
    case Tab => KeyEvent(CtTab, NONE)
    case BackSpace => KeyEvent(CtBackspace, NONE)
    case Esc => KeyEvent(CtEsc, NONE)
    case Up => KeyEvent(CtUp, NONE)
    case Down => KeyEvent(CtDown, NONE)
    case Left => KeyEvent(CtLeft, NONE)
    case Right => KeyEvent(CtRight, NONE)
    case Char(c) => KeyEvent(CtChar(c), NONE)
    case Ctrl(c) => KeyEvent(CtChar(c), CONTROL)
    case Alt(c) => KeyEvent(CtChar(c), ALT)
    case Unknown => KeyEvent(CtNull, NONE)
  }

  /** Every key is produced by some terminal event. */
  lemma FromKeyEventOnto(k: Key)
    ensures FromKeyEvent(EventFor(k)) == k
  {
  }

  /** The translation of a character depends only on whether the modifiers are exactly CONTROL or exactly
      ALT; shift, or any combination, leaves a plain character; every code without an arm is unknown. */
  lemma FromKeyEventSpec(e: KeyEvent)
    ensures e.code.CtChar? ==>
              (FromKeyEvent(e).Ctrl? <==> e.modifiers == CONTROL)
              && (FromKeyEvent(e).Alt? <==> e.modifiers == ALT)
              && (FromKeyEvent(e).Char? <==> e.modifiers != CONTROL && e.modifiers != ALT)
              && FromKeyEvent(e).c == e.code.ch
    ensures FromKeyEvent(e) == Unknown <==>
              !(e.code.CtEnter? || e.code.CtTab? || e.code.CtBackspace? || e.code.CtEsc? || e.code.CtUp?
                || e.code.CtDown? || e.code.CtLeft? || e.code.CtRight? || e.code.CtChar?)
  {
  }
}
