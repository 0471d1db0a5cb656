/**
 * The parts of the Linux input-event interface (linux/input.h) that the
 * keyboard daemon uses: the key-event type, the key codes of its ASCII table
 * and of the eight modifier keys, and the `struct input_event` record.
 * The values are those of the Linux kernel's stable user-space ABI.
 */
module LinuxInput {

  /** Width of the fields of `struct input_event`. */
  type U16 = x: int | 0 <= x < 0x1_0000
  type S32 = x: int | -0x8000_0000 <= x < 0x8000_0000

  /** A key code as the ASCII table stores it (an `unsigned char`). */
  type Key = x: int | 0 <= x < 0x100

  /** `struct input_event` without its time stamp, which nothing here reads. */
  datatype InputEvent = InputEvent(evType: U16, code: U16, value: S32)

  /** Event type of key presses and releases. */
  const EvKey: U16 := 1

  /** Event values: a release is 0, a press 1 (any non-zero value counts as pressed). */
  const Released: S32 := 0
  const Pressed: S32 := 1

  const KeyReserved: Key := 0
  const KeyEsc: Key := 1
  const Key1: Key := 2
  const Key2: Key := 3
  const Key3: Key := 4
  const Key4: Key := 5
  const Key5: Key := 6
  const Key6: Key := 7
  const Key7: Key := 8
  const Key8: Key := 9
  const Key9: Key := 10
  const Key0: Key := 11
  const KeyMinus: Key := 12
  const KeyEqual: Key := 13
  const KeyBackspace: Key := 14
  const KeyQ: Key := 16
  const KeyW: Key := 17
  const KeyE: Key := 18
  const KeyR: Key := 19
  const KeyT: Key := 20
  const KeyY: Key := 21
  const KeyU: Key := 22
  const KeyI: Key := 23
  const KeyO: Key := 24
  const KeyP: Key := 25
  const KeyLeftBrace: Key := 26
  const KeyRightBrace: Key := 27
  const KeyEnter: Key := 28
  const KeyLeftCtrl: Key := 29
  const KeyA: Key := 30
  const KeyS: Key := 31
  const KeyD: Key := 32
  const KeyF: Key := 33
  const KeyG: Key := 34
  const KeyH: Key := 35
  const KeyJ: Key := 36
  const KeyK: Key := 37
  const KeyL: Key := 38
  const KeySemicolon: Key := 39
  const KeyApostrophe: Key := 40
  const KeyGrave: Key := 41
  const KeyLeftShift: Key := 42
  const KeyBackslash: Key := 43
  const KeyZ: Key := 44
  const KeyX: Key := 45
  const KeyC: Key := 46
  const KeyV: Key := 47
  const KeyB: Key := 48
  const KeyN: Key := 49
  const KeyM: Key := 50
  const KeyComma: Key := 51
  const KeyDot: Key := 52
  const KeySlash: Key := 53
  const KeyRightShift: Key := 54
  const KeyLeftAlt: Key := 56
  const KeySpace: Key := 57
  const KeyRightCtrl: Key := 97
  const KeyRightAlt: Key := 100
  const KeyLeftMeta: Key := 125
  const KeyRightMeta: Key := 126
}
