/** The input encoder: what the main loop writes to the PTY for a key press or a
    text-input event. Both go through `TerminalEmulator_writeStr`, which writes a
    C string, so only the bytes before the first NUL are ever sent. */
module InputEncoder {
  import opened Types

  /** An SDL key code (`SDL_Keycode`). The named codes are SDL2's values. */
  type KeyCode = int

  const KeyEscape: KeyCode := 0x1B
  const KeyBackspace: KeyCode := 0x08
  const KeyReturn: KeyCode := 0x0D
  const KeyReturn2: KeyCode := 0x4000_009E
  const KeyRight: KeyCode := 0x4000_004F
  const KeyLeft: KeyCode := 0x4000_0050
  const KeyDown: KeyCode := 0x4000_0051
  const KeyUp: KeyCode := 0x4000_0052

  const Esc: byte := 0x1B
  const Del: byte := 0x7F
  const Cr: byte := 0x0D
  const LeftBracket: byte := 0x5B

  /** The key codes the switch has a case for. */
  predicate IsHandled(k: KeyCode) {
    k == KeyEscape || k == KeyBackspace || k == KeyUp || k == KeyDown ||
    k == KeyLeft || k == KeyRight || k == KeyReturn || k == KeyReturn2
  }

  /** `ESC [ final`: a control sequence with no parameter. */
  function ControlSequence(final: byte): seq<byte> {
    [Esc, LeftBracket, final]
  }

  /** The string literal the key switch passes to `writeStr`, or None when no
      case matches. LEFT and RIGHT are transposed with respect to ECMA-48 (see
      ArrowKeysTransposed); this is what the program sends and is kept. */
  function KeyLiteral(k: KeyCode): (lit: Option<seq<byte>>)
    ensures lit.Some? <==> IsHandled(k)
    ensures lit.Some? ==> 1 <= |lit.value| <= 3 && forall i :: 0 <= i < |lit.value| ==> lit.value[i] != 0
  {
    if k == KeyEscape then Some([Esc])
    else if k == KeyBackspace then Some([Del])
    else if k == KeyUp then Some(ControlSequence(0x41))     // "\e[A"
    else if k == KeyDown then Some(ControlSequence(0x42))   // "\e[B"
    else if k == KeyLeft then Some(ControlSequence(0x43))   // "\e[C", not "\e[D"
    else if k == KeyRight then Some(ControlSequence(0x44))  // "\e[D", not "\e[C"
    else if k == KeyReturn || k == KeyReturn2 then Some([Cr])
    else None
  }

  /** What `writeStr` sends for the C string stored in `s`: `strlen` stops at
      the first NUL, so the result is the longest NUL-free prefix of `s`. */
  function CString(s: seq<byte>): (r: seq<byte>)
    ensures |r| <= |s| && r == s[..|r|]
    ensures forall i :: 0 <= i < |r| ==> r[i] != 0
    ensures |r| < |s| ==> s[|r|] == 0
  {
    if s == [] || s[0] == 0 then [] else [s[0]] + CString(s[1..])
  }

  /** The bytes written to the PTY for a key-down event with code `k`: the
      whole literal, since none contains a NUL (KeyWritesWholeLiteral). A key
      writes something exactly when the switch handles it, at most three
      bytes and never a NUL. */
  function KeyBytes(k: KeyCode): (r: seq<byte>)
    ensures r != [] <==> IsHandled(k)
    ensures |r| <= 3 && forall i :: 0 <= i < |r| ==> r[i] != 0
  {
    match KeyLiteral(k)
    case None => []
    case Some(lit) => lit
  }

  /** `writeStr` sends each key literal in full: what `KeyBytes` gives is what
      `strlen` lets through. */
  lemma KeyWritesWholeLiteral(k: KeyCode)
    requires KeyLiteral(k).Some?
    ensures CString(KeyLiteral(k).value) == KeyBytes(k)
  {
    CStringOfNulFree(KeyLiteral(k).value);
  }

  /** The whole key table: eight handled codes, each with one fixed string,
      and nothing at all for every other code. */
  lemma KeyTable(k: KeyCode)
    ensures KeyBytes(KeyEscape) == [0x1B]
    ensures KeyBytes(KeyBackspace) == [0x7F]
    ensures KeyBytes(KeyUp) == [0x1B, 0x5B, 0x41]
    ensures KeyBytes(KeyDown) == [0x1B, 0x5B, 0x42]
    ensures KeyBytes(KeyLeft) == [0x1B, 0x5B, 0x43]
    ensures KeyBytes(KeyRight) == [0x1B, 0x5B, 0x44]
    ensures KeyBytes(KeyReturn) == [0x0D] && KeyBytes(KeyReturn2) == [0x0D]
    ensures !IsHandled(k) ==> KeyBytes(k) == []
    ensures IsHandled(k) ==> 1 <= |KeyBytes(k)| <= 3
  {
  }

  /** A string without a NUL is written in full. */
  lemma {:induction false} CStringOfNulFree(s: seq<byte>)
    requires forall i :: 0 <= i < |s| ==> s[i] != 0
    ensures CString(s) == s
  {
    if s != [] {
      CStringOfNulFree(s[1..]);
    }
  }

  /** Two handled keys write the same bytes only if they are the same key or
      the two Return keys. */
  lemma KeyBytesInjective(a: KeyCode, b: KeyCode)
    requires IsHandled(a) && IsHandled(b)
    requires KeyBytes(a) == KeyBytes(b)
    ensures a == b || ({a, b} <= {KeyReturn, KeyReturn2})
  {
    KeyTable(a);
    KeyTable(b);
  }

  /** The cursor movements of ECMA-48: CUU (section 8.3.22) is `ESC [ A`, CUD
      (section 8.3.19) `ESC [ B`, CUF, forward/right (section 8.3.20) `ESC [ C`,
      and CUB, backward/left (section 8.3.18) `ESC [ D`. */
  datatype Cursor = CursorUp | CursorDown | CursorForward | CursorBackward

  function Ecma48(c: Cursor): seq<byte> {
    match c
    case CursorUp => ControlSequence(0x41)
    case CursorDown => ControlSequence(0x42)
    case CursorForward => ControlSequence(0x43)
    case CursorBackward => ControlSequence(0x44)
  }

  /** Up and Down send the standard sequences, but LEFT sends cursor-forward and
      RIGHT sends cursor-backward: the two horizontal arrows are swapped. */
  lemma ArrowKeysTransposed()
    ensures KeyBytes(KeyUp) == Ecma48(CursorUp)
    ensures KeyBytes(KeyDown) == Ecma48(CursorDown)
    ensures KeyBytes(KeyLeft) == Ecma48(CursorForward) != Ecma48(CursorBackward)
    ensures KeyBytes(KeyRight) == Ecma48(CursorBackward) != Ecma48(CursorForward)
  {
    KeyTable(0);
  }
}
