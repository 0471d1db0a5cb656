/**
 * ASCII-to-Linux conversion: the static table that assigns each 7-bit
 * character a Linux key code and the shift key to hold with it, and the
 * encoder that turns one character into press events (in key order)
 * followed by release events (in reverse key order), written into a
 * caller-supplied buffer of bounded size.
 */
module Ascii2Linux {
  import opened LinuxInput

  const MaxAsciiChar := 127

  /** Buffer bounds of the interface of `ascii_char`. */
  const MaxKeysPerAsciiChar := 2
  const MaxEventsPerAsciiChar := MaxKeysPerAsciiChar * 2

  datatype ShiftStatus = NoShift | LeftShift | RightShift

  /** A key combination: the base key and the shift key held with it. */
  datatype KeyComb = KeyComb(key: Key, shift: ShiftStatus)

  /** The number of designated initializers of `linux_codes`. */
  const Rows := 97

  /**
   * The designated initializers of `linux_codes` in source order: row `k`
   * gives a character code (the comment shows the character) and its
   * combination.
   */
  function Row(k: nat): (int, KeyComb)
    requires k < Rows
  {
    match k
    case 0 => (10, KeyComb(KeyEnter, NoShift))  // '\n'
    case 1 => (27, KeyComb(KeyBackspace, NoShift))  // escape
    case 2 => (32, KeyComb(KeySpace, NoShift))  // ' '
    case 3 => (33, KeyComb(Key1, RightShift))  // '!'
    case 4 => (34, KeyComb(KeyApostrophe, LeftShift))  // '"'
    case 5 => (35, KeyComb(Key3, RightShift))  // '#'
    case 6 => (36, KeyComb(Key4, RightShift))  // '$'
    case 7 => (37, KeyComb(Key5, RightShift))  // '%'
    case 8 => (38, KeyComb(Key7, LeftShift))  // '&'
    case 9 => (39, KeyComb(KeyApostrophe, NoShift))  // '\''
    case 10 => (40, KeyComb(Key9, LeftShift))  // '('
    case 11 => (41, KeyComb(Key0, LeftShift))  // ')'
    case 12 => (42, KeyComb(Key8, LeftShift))  // '*'
    case 13 => (43, KeyComb(KeyEqual, LeftShift))  // '+'
    case 14 => (44, KeyComb(KeyComma, NoShift))  // ','
    case 15 => (45, KeyComb(KeyMinus, NoShift))  // '-'
    case 16 => (46, KeyComb(KeyDot, NoShift))  // '.'
    case 17 => (47, KeyComb(KeySlash, NoShift))  // '/'
    case 18 => (48, KeyComb(Key0, NoShift))  // '0'
    case 19 => (49, KeyComb(Key1, NoShift))  // '1'
    case 20 => (50, KeyComb(Key2, NoShift))  // '2'
    case 21 => (51, KeyComb(Key3, NoShift))  // '3'
    case 22 => (52, KeyComb(Key4, NoShift))  // '4'
    case 23 => (53, KeyComb(Key5, NoShift))  // '5'
    case 24 => (54, KeyComb(Key6, NoShift))  // '6'
    case 25 => (55, KeyComb(Key7, NoShift))  // '7'
    case 26 => (56, KeyComb(Key8, NoShift))  // '8'
    case 27 => (57, KeyComb(Key9, NoShift))  // '9'
    case 28 => (58, KeyComb(KeySemicolon, LeftShift))  // ':'
    case 29 => (59, KeyComb(KeySemicolon, NoShift))  // ';'
    case 30 => (60, KeyComb(KeyComma, LeftShift))  // '<'
    case 31 => (61, KeyComb(KeyEqual, NoShift))  // '='
    case 32 => (62, KeyComb(KeyDot, LeftShift))  // '>'
    case 33 => (63, KeyComb(KeySlash, LeftShift))  // '?'
    case 34 => (64, KeyComb(Key2, RightShift))  // '@'
    case 35 => (65, KeyComb(KeyA, RightShift))  // 'A'
    case 36 => (66, KeyComb(KeyB, RightShift))  // 'B'
    case 37 => (67, KeyComb(KeyC, RightShift))  // 'C'
    case 38 => (68, KeyComb(KeyD, RightShift))  // 'D'
    case 39 => (69, KeyComb(KeyE, RightShift))  // 'E'
    case 40 => (70, KeyComb(KeyF, RightShift))  // 'F'
    case 41 => (71, KeyComb(KeyG, RightShift))  // 'G'
    case 42 => (72, KeyComb(KeyH, LeftShift))  // 'H'
    case 43 => (73, KeyComb(KeyI, LeftShift))  // 'I'
    case 44 => (74, KeyComb(KeyJ, LeftShift))  // 'J'
    case 45 => (75, KeyComb(KeyK, LeftShift))  // 'K'
    case 46 => (76, KeyComb(KeyL, LeftShift))  // 'L'
    case 47 => (77, KeyComb(KeyM, LeftShift))  // 'M'
    case 48 => (78, KeyComb(KeyN, LeftShift))  // 'N'
    case 49 => (79, KeyComb(KeyO, LeftShift))  // 'O'
    case 50 => (80, KeyComb(KeyP, LeftShift))  // 'P'
    case 51 => (81, KeyComb(KeyQ, RightShift))  // 'Q'
    case 52 => (82, KeyComb(KeyR, RightShift))  // 'R'
    case 53 => (83, KeyComb(KeyS, RightShift))  // 'S'
    case 54 => (84, KeyComb(KeyT, RightShift))  // 'T'
    case 55 => (85, KeyComb(KeyU, LeftShift))  // 'U'
    case 56 => (86, KeyComb(KeyV, RightShift))  // 'V'
    case 57 => (87, KeyComb(KeyW, RightShift))  // 'W'
    case 58 => (88, KeyComb(KeyX, RightShift))  // 'X'
    case 59 => (89, KeyComb(KeyY, LeftShift))  // 'Y'
    case 60 => (90, KeyComb(KeyZ, RightShift))  // 'Z'
    case 61 => (91, KeyComb(KeyLeftBrace, NoShift))  // '['
    case 62 => (92, KeyComb(KeyBackslash, NoShift))  // '\\'
    case 63 => (93, KeyComb(KeyRightBrace, NoShift))  // ']'
    case 64 => (94, KeyComb(Key6, LeftShift))  // '^'
    case 65 => (95, KeyComb(KeyMinus, LeftShift))  // '_'
    case 66 => (96, KeyComb(KeyGrave, NoShift))  // '`'
    case 67 => (97, KeyComb(KeyA, NoShift))  // 'a'
    case 68 => (98, KeyComb(KeyB, NoShift))  // 'b'
    case 69 => (99, KeyComb(KeyC, NoShift))  // 'c'
    case 70 => (100, KeyComb(KeyD, NoShift))  // 'd'
    case 71 => (101, KeyComb(KeyE, NoShift))  // 'e'
    case 72 => (102, KeyComb(KeyF, NoShift))  // 'f'
    case 73 => (103, KeyComb(KeyG, NoShift))  // 'g'
    case 74 => (104, KeyComb(KeyH, NoShift))  // 'h'
    case 75 => (105, KeyComb(KeyI, NoShift))  // 'i'
    case 76 => (106, KeyComb(KeyJ, NoShift))  // 'j'
    case 77 => (107, KeyComb(KeyK, NoShift))  // 'k'
    case 78 => (108, KeyComb(KeyL, NoShift))  // 'l'
    case 79 => (109, KeyComb(KeyM, NoShift))  // 'm'
    case 80 => (110, KeyComb(KeyN, NoShift))  // 'n'
    case 81 => (111, KeyComb(KeyO, NoShift))  // 'o'
    case 82 => (112, KeyComb(KeyP, NoShift))  // 'p'
    case 83 => (113, KeyComb(KeyQ, NoShift))  // 'q'
    case 84 => (114, KeyComb(KeyR, NoShift))  // 'r'
    case 85 => (115, KeyComb(KeyS, NoShift))  // 's'
    case 86 => (116, KeyComb(KeyT, NoShift))  // 't'
    case 87 => (117, KeyComb(KeyU, NoShift))  // 'u'
    case 88 => (118, KeyComb(KeyV, NoShift))  // 'v'
    case 89 => (119, KeyComb(KeyW, NoShift))  // 'w'
    case 90 => (120, KeyComb(KeyX, NoShift))  // 'x'
    case 91 => (121, KeyComb(KeyY, NoShift))  // 'y'
    case 92 => (122, KeyComb(KeyZ, NoShift))  // 'z'
    case 93 => (123, KeyComb(KeyLeftBrace, LeftShift))  // '{'
    case 94 => (124, KeyComb(KeyBackslash, LeftShift))  // '|'
    case 95 => (125, KeyComb(KeyRightBrace, LeftShift))  // '}'
    case 96 => (126, KeyComb(KeyGrave, LeftShift))  // '~'
  }

  /**
   * The entry of `linux_codes` for `c`, looking from row `k` on: the first
   * designated row for `c`, else the default `[0 ... MAX_ASCII_CHAR]` entry,
   * `KeyReserved` without shift.
   */
  function Lookup(c: int, k: nat): KeyComb
    requires k <= Rows
    decreases Rows - k
  {
    if k == Rows then KeyComb(KeyReserved, NoShift)
    else if Row(k).0 == c then Row(k).1
    else Lookup(c, k + 1)
  }

  /** The `linux_codes` table, indexed by character code. */
  function LinuxCodes(c: int): KeyComb
    requires 0 <= c <= MaxAsciiChar
  {
    Lookup(c, 0)
  }

  /** A character translates when it is 7-bit and the table has a key for it. */
  predicate Translatable(input: int) {
    0 <= input <= MaxAsciiChar && LinuxCodes(input).key != KeyReserved
  }

  /** The keys to press for a combination: the shift key (if any), then the base key. */
  function KeysOf(comb: KeyComb): seq<Key> {
    match comb.shift
    case NoShift => [comb.key]
    case LeftShift => [KeyLeftShift, comb.key]
    case RightShift => [KeyRightShift, comb.key]
  }

  function KeyEvent(key: Key, value: S32): InputEvent {
    InputEvent(EvKey, key, value)
  }

  /** Press events for `keys`, in key order. */
  function PressEvents(keys: seq<Key>): seq<InputEvent> {
    seq(|keys|, j requires 0 <= j < |keys| => KeyEvent(keys[j], Pressed))
  }

  /** Release events for `keys`, in reverse key order. */
  function ReleaseEvents(keys: seq<Key>): seq<InputEvent> {
    seq(|keys|, j requires 0 <= j < |keys| => KeyEvent(keys[|keys| - 1 - j], Released))
  }

  /** The full event sequence of one character; empty when it does not translate. */
  function CharEvents(input: int): seq<InputEvent> {
    if Translatable(input) then
      var keys := KeysOf(LinuxCodes(input));
      PressEvents(keys) + ReleaseEvents(keys)
    else []
  }

  /** How many of `n` events fit when `room` slots are left. */
  function Fit(n: nat, room: int): nat {
    if room <= 0 then 0 else if n < room then n else room
  }

  /** What `ascii_char` returns: the number of events, or -1. */
  function AsciiCharCount(input: int, maxEvents: int): int {
    if !Translatable(input) then -1
    else
      var n := |CharEvents(input)|;
      if Fit(n, maxEvents) == n then n else -1
  }

  /** `fill_event`: one key event stored at `idx`. */
  method FillEvent(events: array<InputEvent>, idx: int, key: Key, value: S32)
    requires 0 <= idx < events.Length
    modifies events
    ensures events[..] == old(events[..])[idx := KeyEvent(key, value)]
  {
    events[idx] := InputEvent(EvKey, key, value);
  }

  /** `gen_keys`: stores the keys of `comb` at the front of `keys` and returns how many. */
  method GenKeys(comb: KeyComb, keys: array<Key>) returns (numOfKeys: int)
    requires keys.Length >= MaxKeysPerAsciiChar
    modifies keys
    ensures 0 <= numOfKeys <= MaxKeysPerAsciiChar
    ensures keys[..numOfKeys] == KeysOf(comb)
    ensures keys[numOfKeys..] == old(keys[numOfKeys..])
  {
    numOfKeys := 0;
    match comb.shift {
      case LeftShift => keys[numOfKeys] := KeyLeftShift;
      case RightShift => keys[numOfKeys] := KeyRightShift;
      case NoShift =>
    }
    if comb.shift != NoShift {
      numOfKeys := numOfKeys + 1;
    }
    keys[numOfKeys] := comb.key;
    numOfKeys := numOfKeys + 1;
  }

  /**
   * `fill_key_presses`: press events for the first `numOfKeys` keys, stored
   * from index `evIdx` on while the index stays below `maxEvents`. Returns
   * whether all presses fitted, and the advanced index.
   */
  method FillKeyPresses(keys: array<Key>, numOfKeys: int, events: array<InputEvent>,
                        maxEvents: int, evIdx: int)
    returns (ok: bool, newIdx: int)
    requires 0 <= numOfKeys <= keys.Length
    requires 0 <= evIdx && maxEvents <= events.Length
    modifies events
    ensures newIdx == evIdx + Fit(numOfKeys, maxEvents - evIdx)
    ensures ok <==> newIdx - evIdx == numOfKeys
    ensures forall k :: evIdx <= k < newIdx ==> events[k] == PressEvents(keys[..numOfKeys])[k - evIdx]
    ensures forall j :: 0 <= j < events.Length && !(evIdx <= j < newIdx) ==> events[j] == old(events[j])
  {
    var keyIdx := 0;
    newIdx := evIdx;
    while keyIdx < numOfKeys && newIdx < maxEvents
      invariant 0 <= keyIdx <= numOfKeys
      invariant newIdx == evIdx + keyIdx
      invariant keyIdx == 0 || newIdx <= maxEvents
      invariant forall k :: evIdx <= k < newIdx ==> events[k] == KeyEvent(keys[k - evIdx], Pressed)
      invariant forall j :: 0 <= j < events.Length && !(evIdx <= j < newIdx) ==> events[j] == old(events[j])
    {
      FillEvent(events, newIdx, keys[keyIdx], Pressed);
      keyIdx, newIdx := keyIdx + 1, newIdx + 1;
    }
    ok := keyIdx == numOfKeys;
  }

  /**
   * `fill_key_releases`: release events for the first `numOfKeys` keys, last
   * key first, stored from index `evIdx` on while the index stays below
   * `maxEvents`. Returns whether all releases fitted, and the advanced index.
   */
  method FillKeyReleases(keys: array<Key>, numOfKeys: int, events: array<InputEvent>,
                         maxEvents: int, evIdx: int)
    returns (ok: bool, newIdx: int)
    requires 0 <= numOfKeys <= keys.Length
    requires 0 <= evIdx && maxEvents <= events.Length
    modifies events
    ensures newIdx == evIdx + Fit(numOfKeys, maxEvents - evIdx)
    ensures ok <==> newIdx - evIdx == numOfKeys
    ensures forall k :: evIdx <= k < newIdx ==> events[k] == ReleaseEvents(keys[..numOfKeys])[k - evIdx]
    ensures forall j :: 0 <= j < events.Length && !(evIdx <= j < newIdx) ==> events[j] == old(events[j])
  {
    var keyIdx := numOfKeys - 1;
    newIdx := evIdx;
    while keyIdx >= 0 && newIdx < maxEvents
      invariant -1 <= keyIdx < numOfKeys
      invariant newIdx == evIdx + (numOfKeys - 1 - keyIdx)
      invariant keyIdx == numOfKeys - 1 || newIdx <= maxEvents
      invariant forall k :: evIdx <= k < newIdx ==> events[k] == KeyEvent(keys[numOfKeys - 1 - (k - evIdx)], Released)
      invariant forall j :: 0 <= j < events.Length && !(evIdx <= j < newIdx) ==> events[j] == old(events[j])
    {
      FillEvent(events, newIdx, keys[keyIdx], Released);
      keyIdx, newIdx := keyIdx - 1, newIdx + 1;
    }
    ok := keyIdx < 0;
  }

  /**
   * `ascii_char`: the events of one character, stored at the front of
   * `events`, writing no slot at or beyond `maxEvents`. Returns the number
   * of events, or -1 when the character does not translate (nothing is
   * written) or the events do not all fit (the prefix that fitted is written).
   */
  method AsciiChar(events: array<InputEvent>, maxEvents: int, input: int) returns (count: int)
    requires maxEvents <= events.Length
    modifies events
    ensures count == AsciiCharCount(input, maxEvents)
    ensures !Translatable(input) ==> events[..] == old(events[..])
    ensures Translatable(input) ==>
              var w := Fit(|CharEvents(input)|, maxEvents);
              events[..w] == CharEvents(input)[..w] && events[w..] == old(events[w..])
  {
    var evIdx := 0;
    var keys := new Key[MaxKeysPerAsciiChar];
    if !Translatable(input) {
      return -1;
    }
    var numOfKeys := GenKeys(LinuxCodes(input), keys);
    ghost var ks := keys[..numOfKeys];
    var ok;
    ok, evIdx := FillKeyPresses(keys, numOfKeys, events, maxEvents, evIdx);
    ghost var afterPresses := evIdx;
    if ok {
      ok, evIdx := FillKeyReleases(keys, numOfKeys, events, maxEvents, evIdx);
    }
    count := if ok then evIdx else -1;
    ghost var full := PressEvents(ks) + ReleaseEvents(ks);
    assert evIdx == Fit(|full|, maxEvents);
    forall j | 0 <= j < evIdx
      ensures events[j] == full[j]
    {
    }
    assert events[..evIdx] == full[..evIdx];
  }

  // ---- Properties of the table and of the event layout ----

  /** The row of a character the table lists: newline, 27, then 32..126 in order. */
  function RowOf(c: int): (k: nat)
    requires c == 10 || c == 27 || 32 <= c <= 126
    ensures k < Rows
  {
    if c == 10 then 0 else if c == 27 then 1 else c - 30
  }

  /** The rows list newline, 27 and 32..126 in increasing order, each with a real key. */
  lemma RowChars(k: nat)
    requires k < Rows
    ensures Row(k).0 == (if k == 0 then 10 else if k == 1 then 27 else k + 30)
    ensures Row(k).1.key != KeyReserved
  {
  }

  /** Looking from a row at or before the one for `c` finds that row. */
  lemma {:induction false} LookupFinds(c: int, k: nat)
    requires c == 10 || c == 27 || 32 <= c <= 126
    requires k <= RowOf(c)
    ensures Lookup(c, k) == Row(RowOf(c)).1
    decreases Rows - k
  {
    RowChars(k);
    if k < RowOf(c) {
      RowChars(RowOf(c));
      LookupFinds(c, k + 1);
    }
  }

  /** A character no row lists gets the default entry. */
  lemma {:induction false} LookupMisses(c: int, k: nat)
    requires !(c == 10 || c == 27 || 32 <= c <= 126)
    requires k <= Rows
    ensures Lookup(c, k) == KeyComb(KeyReserved, NoShift)
    decreases Rows - k
  {
    if k < Rows {
      RowChars(k);
      LookupMisses(c, k + 1);
    }
  }

  /**
   * Each listed character gets the combination of its own row; every other
   * 7-bit character gets `KeyReserved` without shift.
   */
  lemma TableEntry(c: int)
    requires 0 <= c <= MaxAsciiChar
    ensures c == 10 || c == 27 || 32 <= c <= 126 ==> LinuxCodes(c) == Row(RowOf(c)).1
    ensures !(c == 10 || c == 27 || 32 <= c <= 126) ==> LinuxCodes(c) == KeyComb(KeyReserved, NoShift)
  {
    if c == 10 || c == 27 || 32 <= c <= 126 {
      LookupFinds(c, 0);
    } else {
      LookupMisses(c, 0);
    }
  }

  /** The translatable characters are exactly newline, 27 and 32..126. */
  lemma TranslatableIff(c: int)
    ensures Translatable(c) <==> c == 10 || c == 27 || 32 <= c <= 126
  {
    if 0 <= c <= MaxAsciiChar {
      TableEntry(c);
      if c == 10 || c == 27 || 32 <= c <= 126 {
        RowChars(RowOf(c));
      }
    }
  }

  /** The rows of an upper-case letter and of its lower-case letter. */
  lemma LetterRows(k: nat)
    requires 35 <= k <= 60
    ensures Row(k).1.key == Row(k + 32).1.key
    ensures Row(k).1.shift != NoShift && Row(k + 32).1.shift == NoShift
  {
  }

  /** A letter's entry and its lower-case letter's entry are rows `c - 30` and `c + 2`. */
  lemma LetterEntries(c: int)
    requires 'A' as int <= c <= 'Z' as int
    ensures LinuxCodes(c) == Row(c - 30).1 && LinuxCodes(c + 32) == Row(c + 2).1
  {
    LookupFinds(c, 0);
    LookupFinds(c + 32, 0);
  }

  /** Upper-case letters use their lower-case letter's key with a shift; lower-case letters use none. */
  lemma LetterCase(c: int)
    requires 'A' as int <= c <= 'Z' as int
    ensures LinuxCodes(c).key == LinuxCodes(c + 32).key
    ensures LinuxCodes(c).shift != NoShift && LinuxCodes(c + 32).shift == NoShift
  {
    LetterEntries(c);
    LetterRows(c - 30);
  }

  /** Character 27 types Backspace without shift (not Escape). */
  lemma EscapeTypesBackspace()
    ensures LinuxCodes(27) == KeyComb(KeyBackspace, NoShift)
    ensures LinuxCodes(27).key != KeyEsc
  {
  }

  /** The key list holds one key without shift, else the matching shift key first; the base key is last. */
  lemma KeysOfShape(comb: KeyComb)
    ensures |KeysOf(comb)| == if comb.shift == NoShift then 1 else 2
    ensures |KeysOf(comb)| <= MaxKeysPerAsciiChar
    ensures KeysOf(comb)[|KeysOf(comb)| - 1] == comb.key
    ensures comb.shift == LeftShift ==> KeysOf(comb)[0] == KeyLeftShift
    ensures comb.shift == RightShift ==> KeysOf(comb)[0] == KeyRightShift
  {
  }

  /**
   * A translatable character gives 2 events unshifted and 4 shifted: the
   * first half presses its keys in order, the second half releases them in
   * exactly the reverse order, and every event is a key event.
   */
  lemma CharEventsLayout(c: int)
    requires Translatable(c)
    ensures |CharEvents(c)| == 2 * |KeysOf(LinuxCodes(c))|
    ensures |CharEvents(c)| == (if LinuxCodes(c).shift == NoShift then 2 else 4)
    ensures |CharEvents(c)| <= MaxEventsPerAsciiChar
    ensures forall j :: 0 <= j < |CharEvents(c)| ==> CharEvents(c)[j].evType == EvKey
    ensures var keys := KeysOf(LinuxCodes(c)); var n := |keys|;
      forall j :: 0 <= j < n ==> CharEvents(c)[j] == KeyEvent(keys[j], Pressed)
    ensures var keys := KeysOf(LinuxCodes(c)); var n := |keys|;
      forall k :: n <= k < 2 * n ==> CharEvents(c)[k] == KeyEvent(keys[2 * n - 1 - k], Released)
    ensures var n := |KeysOf(LinuxCodes(c))|;
      forall k :: n <= k < 2 * n ==> CharEvents(c)[k].code == CharEvents(c)[2 * n - 1 - k].code
  {
    var keys := KeysOf(LinuxCodes(c));
    var n := |keys|;
    KeysOfShape(LinuxCodes(c));
    assert CharEvents(c) == PressEvents(keys) + ReleaseEvents(keys);
    forall j | 0 <= j < 2 * n
      ensures CharEvents(c)[j].evType == EvKey
    {
      if j < n {
        assert CharEvents(c)[j] == PressEvents(keys)[j] == KeyEvent(keys[j], Pressed);
      } else {
        assert CharEvents(c)[j] == ReleaseEvents(keys)[j - n] == KeyEvent(keys[n - 1 - (j - n)], Released);
      }
    }
  }

  /** With room for four events a translatable character always encodes, giving 2 or 4 events. */
  lemma AsciiCharCountFits(c: int, maxEvents: int)
    requires maxEvents >= MaxEventsPerAsciiChar
    ensures AsciiCharCount(c, maxEvents) == -1 <==> !Translatable(c)
    ensures Translatable(c) ==>
              AsciiCharCount(c, maxEvents) == (if LinuxCodes(c).shift == NoShift then 2 else 4)
  {
    if Translatable(c) {
      CharEventsLayout(c);
    }
  }

  /** Too little room for all events makes an encodable character fail with -1. */
  lemma AsciiCharCountTooSmall(c: int, maxEvents: int)
    requires Translatable(c) && maxEvents < |CharEvents(c)|
    ensures AsciiCharCount(c, maxEvents) == -1
  {
  }
}
