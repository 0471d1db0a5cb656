/**
 * The keyboard state machine: the packed input report the daemon sends to
 * the host, and the update of its modifier byte and of its six key slots
 * (the boot-keyboard input report of USB HID 1.11, Appendix B.1) when a key
 * event arrives.
 */
module Keyboard {
  import opened LinuxInput

  /** Number of key slots of the boot-keyboard input report. */
  const KeySlots := 6

  /** Size of the packed report: type, report id, modifiers, reserved, six keys. */
  const ReportSize := 4 + KeySlots

  /** The report id the session stores in every report. */
  const ReportId: bv8 := 0x01

  /**
   * Definitions of headers that are not part of this model, kept abstract:
   * `linux2hid` maps each Linux key code 0..255 to a HID Keyboard/Keypad
   * usage; `modBits[r]` is the HIDP_* bit of modifier role r, in the order
   * left Ctrl, left Shift, left Alt, left GUI, right Ctrl, right Shift,
   * right Alt, right GUI; `reportType` is the report's first byte
   * (HIDP_TRANS_DATA | HIDP_DATA_RTYPE_INPUT).
   */
  datatype HidTables = HidTables(linux2hid: seq<bv8>, modBits: seq<bv8>, reportType: bv8)

  predicate SingleBit(b: bv8) {
    b != 0 && b & (b - 1) == 0
  }

  /** A full table and eight modifier bits. */
  predicate TablesShaped(t: HidTables) {
    |t.linux2hid| == 256 && |t.modBits| == 8
  }

  /** What the model assumes of those headers: a full table and eight distinct single bits. */
  predicate ValidTables(t: HidTables) {
    && TablesShaped(t)
    && (forall r :: 0 <= r < 8 ==> SingleBit(t.modBits[r]))
    && (forall r, q :: 0 <= r < q < 8 ==> t.modBits[r] != t.modBits[q])
  }

  /** The modifier role of a Linux key code, or -1 for every other key. */
  function ModifierRole(code: int): (r: int)
    ensures -1 <= r < 8
  {
    if code == KeyLeftCtrl then 0
    else if code == KeyLeftShift then 1
    else if code == KeyLeftAlt then 2
    else if code == KeyLeftMeta then 3
    else if code == KeyRightCtrl then 4
    else if code == KeyRightShift then 5
    else if code == KeyRightAlt then 6
    else if code == KeyRightMeta then 7
    else -1
  }

  /** The `mod` value the switch of `input_event` picks: the role's bit, or 0. */
  function ModBit(t: HidTables, code: int): bv8
    requires TablesShaped(t)
  {
    var r := ModifierRole(code);
    if r < 0 then 0 else t.modBits[r]
  }

  // ---- The key slots ----

  /**
   * One iteration `i` of the loop of `input_event` over the key slots:
   * clear a slot holding `code`; on a press store `code` in an empty slot
   * and stop; otherwise pull the next slot into an empty one.
   */
  function Step(s: seq<bv8>, code: bv8, press: bool, i: nat): (bool, seq<bv8>)
    requires |s| == KeySlots && i < KeySlots
  {
    var s1 := if s[i] == code then s[i := 0] else s;
    if press && s1[i] == 0 then (true, s1[i := code])
    else if i < KeySlots - 1 && s1[i] == 0 then (false, s1[i := s1[i + 1]][i + 1 := 0])
    else (false, s1)
  }

  /** The loop from iteration `i` on. */
  function Pass(s: seq<bv8>, code: bv8, press: bool, i: nat): (r: seq<bv8>)
    requires |s| == KeySlots && i <= KeySlots
    ensures |r| == KeySlots
    decreases KeySlots - i, 1
  {
    if i == KeySlots then s else PassAt(s, code, press, i)
  }

  /** Iteration `i`, then the rest of the loop unless it breaks. */
  function PassAt(s: seq<bv8>, code: bv8, press: bool, i: nat): (r: seq<bv8>)
    requires |s| == KeySlots && i < KeySlots
    ensures |r| == KeySlots
    decreases KeySlots - i, 0
  {
    var (stop, s') := Step(s, code, press, i);
    if stop then s' else Pass(s', code, press, i + 1)
  }

  /** Occupied slots form a prefix, and no usage is held twice. */
  predicate SlotsValid(s: seq<bv8>) {
    && |s| == KeySlots
    && (forall i, j :: 0 <= i < j < |s| && s[i] == 0 ==> s[j] == 0)
    && (forall i, j :: 0 <= i < j < |s| && s[i] != 0 ==> s[i] != s[j])
  }

  /** The number of leading occupied slots. */
  function Occupied(s: seq<bv8>): (k: nat)
    ensures k <= |s|
    ensures forall i :: 0 <= i < k ==> s[i] != 0
    ensures k < |s| ==> s[k] == 0
  {
    if s == [] || s[0] == 0 then 0 else 1 + Occupied(s[1..])
  }

  /** The first slot holding `x`, or -1. */
  function IndexOf(s: seq<bv8>, x: bv8): (i: int)
    ensures -1 <= i < |s|
    ensures 0 <= i ==> s[i] == x && forall j :: 0 <= j < i ==> s[j] != x
    ensures i < 0 <==> x !in s
  {
    if s == [] then -1
    else if s[0] == x then 0
    else
      var j := IndexOf(s[1..], x);
      if j < 0 then -1 else j + 1
  }

  /**
   * The intended effect of a key event on the slots: a press of a usage
   * already held, or with every slot taken, changes nothing, any other press
   * takes the first free slot; a release of a held usage removes it and
   * moves every later usage one slot down, any other release changes nothing.
   */
  function Reconciled(s: seq<bv8>, code: bv8, press: bool): seq<bv8>
    requires |s| == KeySlots
  {
    if press then
      if code in s || Occupied(s) == KeySlots then s else s[Occupied(s) := code]
    else
      if code == 0 || code !in s then s
      else
        var j := IndexOf(s, code);
        s[..j] + s[j + 1..] + [0]
  }

  /** No step changes slots that hold neither 0 nor `code`. */
  lemma {:induction false} PassSkip(s: seq<bv8>, code: bv8, press: bool, i: nat, k: nat)
    requires |s| == KeySlots && i <= k <= KeySlots
    requires forall m :: i <= m < k ==> s[m] != 0 && s[m] != code
    ensures Pass(s, code, press, i) == Pass(s, code, press, k)
    decreases k - i
  {
    if i < k {
      assert Step(s, code, press, i) == (false, s);
      PassSkip(s, code, press, i + 1, k);
    }
  }

  /** A release leaves a run of empty slots as it is. */
  lemma {:induction false} ReleaseZeroTail(s: seq<bv8>, code: bv8, i: nat)
    requires |s| == KeySlots && i <= KeySlots
    requires forall m :: i <= m < KeySlots ==> s[m] == 0
    ensures Pass(s, code, false, i) == s
    decreases KeySlots - i
  {
    if i < KeySlots {
      assert s[i := 0] == s;
      assert i < KeySlots - 1 ==> s[i := s[i + 1]][i + 1 := 0] == s;
      assert Step(s, code, false, i) == (false, s);
      ReleaseZeroTail(s, code, i + 1);
    }
  }

  /**
   * A release that meets an empty slot, or one holding `code`, at `i`,
   * followed by occupied slots without `code` and then empty ones, removes
   * slot `i` and moves everything after it down one.
   */
  lemma {:induction false} ReleaseShift(s: seq<bv8>, code: bv8, i: nat)
    requires |s| == KeySlots && i < KeySlots && (s[i] == 0 || s[i] == code)
    requires forall m, m' :: i < m < m' < KeySlots && s[m] == 0 ==> s[m'] == 0
    requires forall m :: i < m < KeySlots && s[m] != 0 ==> s[m] != code
    ensures Pass(s, code, false, i) == s[..i] + s[i + 1..] + [0]
    decreases KeySlots - i
  {
    var s1 := s[i := 0];
    if s[i] != code {
      assert s1 == s;
    }
    if i == KeySlots - 1 {
      assert Step(s, code, false, i) == (false, s1);
      assert Pass(s1, code, false, i + 1) == s1;
      assert s[..i] + s[i + 1..] + [0] == s1;
    } else {
      var s2 := s1[i := s1[i + 1]][i + 1 := 0];
      assert Step(s, code, false, i) == (false, s2);
      ReleaseShift(s2, code, i + 1);
      assert s2[..i + 1] == s[..i] + [s[i + 1]];
      assert s2[i + 2..] == s[i + 2..];
      assert s[i + 1..] == [s[i + 1]] + s[i + 2..];
    }
  }

  /** Pressing a usage already held leaves the slots as they are. */
  lemma PressHeld(s: seq<bv8>, code: bv8)
    requires SlotsValid(s) && code != 0 && code in s
    ensures Pass(s, code, true, 0) == s
  {
    var k, j := Occupied(s), IndexOf(s, code);
    assert j < k;
    PassSkip(s, code, true, 0, j);
    assert s[j := 0][j := code] == s;
    assert Step(s, code, true, j) == (true, s);
  }

  /** Pressing a new usage with a free slot stores it in the first free slot. */
  lemma PressFree(s: seq<bv8>, code: bv8)
    requires SlotsValid(s) && code !in s && Occupied(s) < KeySlots
    ensures Pass(s, code, true, 0) == s[Occupied(s) := code]
  {
    var k := Occupied(s);
    PassSkip(s, code, true, 0, k);
    assert Step(s, code, true, k) == (true, s[k := code]);
  }

  /** Pressing anything with all six slots taken, or the empty usage, changes nothing. */
  lemma PressNoRoom(s: seq<bv8>, code: bv8)
    requires SlotsValid(s) && (Occupied(s) == KeySlots || code == 0)
    ensures Pass(s, code, true, 0) == s
  {
    var k := Occupied(s);
    if code == 0 && k < KeySlots {
      PassSkip(s, code, true, 0, k);
      assert s[k := 0] == s;
      assert Step(s, code, true, k) == (true, s);
    } else if code == 0 {
      PassSkip(s, code, true, 0, k);
    } else if code in s {
      PressHeld(s, code);
    } else {
      PassSkip(s, code, true, 0, k);
    }
  }

  /** Releasing a usage that is not held (or the empty usage) changes nothing. */
  lemma ReleaseAbsent(s: seq<bv8>, code: bv8)
    requires SlotsValid(s) && (code == 0 || code !in s)
    ensures Pass(s, code, false, 0) == s
  {
    var k := Occupied(s);
    PassSkip(s, code, false, 0, k);
    ReleaseZeroTail(s, code, k);
  }

  /** Releasing a held usage removes it and moves every later slot down one. */
  lemma ReleaseHeld(s: seq<bv8>, code: bv8)
    requires SlotsValid(s) && code != 0 && code in s
    ensures var j := IndexOf(s, code); Pass(s, code, false, 0) == s[..j] + s[j + 1..] + [0]
  {
    var k, j := Occupied(s), IndexOf(s, code);
    assert j < k;
    PassSkip(s, code, false, 0, j);
    forall m | j < m < KeySlots && s[m] != 0
      ensures s[m] != code
    {
      assert s[j] != s[m];
    }
    ReleaseShift(s, code, j);
  }

  /** The single pass of `input_event` achieves the intended update on valid slots. */
  lemma PassMatchesReconciled(s: seq<bv8>, code: bv8, press: bool)
    requires SlotsValid(s)
    ensures Pass(s, code, press, 0) == Reconciled(s, code, press)
  {
    if press {
      if code in s && code != 0 {
        PressHeld(s, code);
      } else if Occupied(s) == KeySlots || code == 0 {
        PressNoRoom(s, code);
        // with a free slot the empty usage is among the slots
        assert code == 0 && Occupied(s) < KeySlots ==> s[Occupied(s)] == code;
      } else {
        PressFree(s, code);
      }
    } else if code == 0 || code !in s {
      ReleaseAbsent(s, code);
    } else {
      ReleaseHeld(s, code);
    }
  }

  /** Storing a new usage in the first free slot keeps the slots valid. */
  lemma InsertValid(s: seq<bv8>, code: bv8)
    requires SlotsValid(s) && code != 0 && code !in s && Occupied(s) < KeySlots
    ensures SlotsValid(s[Occupied(s) := code])
  {
    var k := Occupied(s);
    var r := s[k := code];
    forall a, b | 0 <= a < b < KeySlots && r[a] == 0
      ensures r[b] == 0
    {
      assert a != k && s[a] == 0;
      assert k < a;
    }
    forall a, b | 0 <= a < b < KeySlots && r[a] != 0
      ensures r[a] != r[b]
    {
      if a == k {
        assert r[b] == s[b] == 0;
      } else if b == k {
        assert r[a] == s[a];
      } else {
        assert r[a] == s[a] && r[b] == s[b];
      }
    }
  }

  /** Removing slot `j` and appending an empty slot keeps the slots valid. */
  lemma RemoveValid(s: seq<bv8>, j: nat)
    requires SlotsValid(s) && j < KeySlots
    ensures SlotsValid(s[..j] + s[j + 1..] + [0])
  {
    var r := s[..j] + s[j + 1..] + [0];
    assert |r| == KeySlots && r[KeySlots - 1] == 0;
    assert forall m :: 0 <= m < KeySlots - 1 ==> r[m] == s[if m < j then m else m + 1];
    forall a, b | 0 <= a < b < KeySlots && r[a] == 0
      ensures r[b] == 0
    {
      if b < KeySlots - 1 {
        assert s[if a < j then a else a + 1] == 0;
      }
    }
    forall a, b | 0 <= a < b < KeySlots && r[a] != 0
      ensures r[a] != r[b]
    {
      if b < KeySlots - 1 {
        assert s[if a < j then a else a + 1] != s[if b < j then b else b + 1];
      }
    }
  }

  /** The intended update keeps the slots contiguous from slot 0 and free of duplicates. */
  lemma ReconciledValid(s: seq<bv8>, code: bv8, press: bool)
    requires SlotsValid(s)
    ensures SlotsValid(Reconciled(s, code, press))
  {
    if press {
      if code !in s && Occupied(s) < KeySlots {
        assert s[Occupied(s)] == 0;
        InsertValid(s, code);
      }
    } else if code != 0 && code in s {
      RemoveValid(s, IndexOf(s, code));
    }
  }

  /** Pressing a usage twice is the same as pressing it once; afterwards it is held at most once. */
  lemma PressIdempotent(s: seq<bv8>, code: bv8)
    requires SlotsValid(s)
    ensures var r := Pass(s, code, true, 0);
      && Pass(r, code, true, 0) == r
      && SlotsValid(r)
      && (code != 0 && Occupied(s) < KeySlots ==> code in r)
      && (forall i, j :: 0 <= i < j < KeySlots && r[i] == code && code != 0 ==> r[j] != code)
  {
    PassMatchesReconciled(s, code, true);
    ReconciledValid(s, code, true);
    var r := Reconciled(s, code, true);
    PassMatchesReconciled(r, code, true);
    if code != 0 && code !in s && Occupied(s) < KeySlots {
      assert r[Occupied(s)] == code;
    }
  }

  /** The usages `h` in order, followed by empty slots up to six. */
  function Pad(h: seq<bv8>): (s: seq<bv8>)
    requires |h| <= KeySlots
    ensures |s| == KeySlots
  {
    h + seq(KeySlots - |h|, _ => 0)
  }

  predicate DistinctUsages(h: seq<bv8>) {
    && (forall i :: 0 <= i < |h| ==> h[i] != 0)
    && (forall i, j :: 0 <= i < j < |h| ==> h[i] != h[j])
  }

  lemma PadValid(h: seq<bv8>)
    requires |h| <= KeySlots && DistinctUsages(h)
    ensures SlotsValid(Pad(h)) && Occupied(Pad(h)) == |h|
    ensures forall x :: x != 0 && x !in h ==> x !in Pad(h)
  {
    var s := Pad(h);
    assert forall i :: 0 <= i < |h| ==> s[i] == h[i];
    assert forall i :: |h| <= i < KeySlots ==> s[i] == 0;
    OccupiedIsFirstFree(s, |h|);
  }

  lemma OccupiedIsFirstFree(s: seq<bv8>, k: nat)
    requires k <= |s|
    requires forall i :: 0 <= i < k ==> s[i] != 0
    requires k < |s| ==> s[k] == 0
    ensures Occupied(s) == k
  {
  }

  /** Pressing `codes` one after another without releases. */
  function PressAll(s: seq<bv8>, codes: seq<bv8>): seq<bv8>
    requires |s| == KeySlots
    decreases |codes|
  {
    if codes == [] then s else PressAll(Pass(s, codes[0], true, 0), codes[1..])
  }

  /** The front of a list of distinct usages is distinct, and the next usage is new to it. */
  lemma DistinctSplit(h: seq<bv8>, codes: seq<bv8>)
    requires DistinctUsages(h + codes)
    ensures DistinctUsages(h)
    ensures codes != [] ==> codes[0] != 0 && codes[0] !in h
  {
    assert forall i :: 0 <= i < |h| ==> h[i] == (h + codes)[i];
    if codes != [] {
      assert codes[0] == (h + codes)[|h|];
    }
  }

  /** Dropping one usage from a list of distinct usages leaves them distinct. */
  lemma DistinctDrop(u: seq<bv8>, k: nat)
    requires DistinctUsages(u) && k < |u|
    ensures DistinctUsages(u[..k] + u[k + 1..])
  {
    var v := u[..k] + u[k + 1..];
    assert forall i :: 0 <= i < |v| ==> v[i] == u[if i < k then i else i + 1];
  }

  /** One press of a new usage on padded distinct usages: appended while there is room, else dropped. */
  lemma PressPadded(h: seq<bv8>, c: bv8)
    requires |h| <= KeySlots && DistinctUsages(h) && c != 0 && c !in h
    ensures Pass(Pad(h), c, true, 0) == Pad(if |h| < KeySlots then h + [c] else h)
  {
    PadValid(h);
    if |h| < KeySlots {
      PressFree(Pad(h), c);
      assert Pad(h)[|h| := c] == Pad(h + [c]);
    } else {
      PressNoRoom(Pad(h), c);
    }
  }

  /**
   * Rollover: pressing distinct usages one after another keeps the usages
   * already held and adds new ones in press order until all six slots are
   * taken; every further press is dropped without overwriting a slot.
   */
  lemma {:induction false} RolloverKeepsFirstSix(h: seq<bv8>, codes: seq<bv8>)
    requires |h| <= KeySlots && DistinctUsages(h + codes)
    ensures var n := if |h + codes| < KeySlots then |h + codes| else KeySlots;
      PressAll(Pad(h), codes) == Pad((h + codes)[..n])
    decreases |codes|
  {
    var u := h + codes;
    DistinctSplit(h, codes);
    if codes == [] {
      assert u[..|h|] == h;
    } else {
      var c := codes[0];
      PressPadded(h, c);
      var h' := if |h| < KeySlots then h + [c] else h;
      if |h| < KeySlots {
        assert h' + codes[1..] == u;
      } else {
        assert h' + codes[1..] == u[..|h|] + u[|h| + 1..];
        DistinctDrop(u, |h|);
        assert (h' + codes[1..])[..KeySlots] == h == u[..KeySlots];
      }
      RolloverKeepsFirstSix(h', codes[1..]);
    }
  }

  // ---- The report ----

  /** The report fields `input_event` may change. */
  datatype Outcome = Outcome(ret: int, mods: bv8, key: seq<bv8>)

  /** Setting (`on`) or clearing the bits `mod` of the modifier byte. */
  function ModifierUpdate(mods: bv8, mod: bv8, on: bool): bv8 {
    if on then mods | mod else mods & !mod
  }

  /** The effect of `input_event` on the modifier byte and the key slots, and what it returns. */
  function InputEventEffect(t: HidTables, mods: bv8, key: seq<bv8>, ev: InputEvent): (o: Outcome)
    requires TablesShaped(t) && |key| == KeySlots
  {
    if ev.evType != EvKey || ev.code >= 256 then Outcome(0, mods, key)
    else
      var mod := ModBit(t, ev.code);
      if mod != 0 then
        Outcome(1, ModifierUpdate(mods, mod, ev.value != 0), key)
      else
        Outcome(1, mods, Pass(key, t.linux2hid[ev.code], ev.value != 0, 0))
  }

  /** Events other than key events with a code below 256 are ignored. */
  lemma IgnoredEvents(t: HidTables, mods: bv8, key: seq<bv8>, ev: InputEvent)
    requires TablesShaped(t) && |key| == KeySlots
    requires ev.evType != EvKey || ev.code >= 256
    ensures InputEventEffect(t, mods, key, ev) == Outcome(0, mods, key)
  {
  }

  /** Setting or clearing one single bit `b` of `mods` keeps every other single bit `c`. */
  lemma OtherBitKept(mods: bv8, b: bv8, c: bv8, press: bool)
    requires SingleBit(b) && SingleBit(c) && b != c
    ensures ModifierUpdate(mods, b, press) & c == mods & c
  {
    assert b & c == 0;
  }

  /** Setting or clearing `b` gives `b` the new value and keeps the bits outside it. */
  lemma OwnBitSet(mods: bv8, b: bv8, press: bool)
    ensures ModifierUpdate(mods, b, press) & b == (if press then b else 0)
    ensures ModifierUpdate(mods, b, press) & !b == mods & !b
  {
  }

  /**
   * `after` is `before` with modifier bit `r` of `bits` set (or cleared)
   * and every other bit, of the other modifiers included, unchanged.
   */
  predicate BitUpdated(before: bv8, after: bv8, bits: seq<bv8>, r: nat, on: bool)
    requires r < |bits|
  {
    && after & bits[r] == (if on then bits[r] else 0)
    && after & !bits[r] == before & !bits[r]
    && (forall q :: 0 <= q < |bits| && q != r ==> after & bits[q] == before & bits[q])
  }

  /** Updating the bit of role `r` keeps the bit of every other role `q`. */
  lemma OtherModifierKept(t: HidTables, mods: bv8, r: nat, q: nat, press: bool)
    requires ValidTables(t) && r < 8 && q < 8 && q != r
    ensures ModifierUpdate(mods, t.modBits[r], press) & t.modBits[q] == mods & t.modBits[q]
  {
    var b, c := t.modBits[r], t.modBits[q];
    assert SingleBit(b) && SingleBit(c);
    assert b != c by {
      if q < r {
        assert t.modBits[q] != t.modBits[r];
      } else {
        assert t.modBits[r] != t.modBits[q];
      }
    }
    OtherBitKept(mods, b, c, press);
  }

  lemma ModifierBitUpdate(t: HidTables, mods: bv8, r: nat, press: bool)
    requires ValidTables(t) && r < 8
    ensures BitUpdated(mods, ModifierUpdate(mods, t.modBits[r], press), t.modBits, r, press)
  {
    OwnBitSet(mods, t.modBits[r], press);
    forall q | 0 <= q < 8 && q != r
      ensures ModifierUpdate(mods, t.modBits[r], press) & t.modBits[q] == mods & t.modBits[q]
    {
      OtherModifierKept(t, mods, r, q, press);
    }
  }

  /**
   * A modifier key sets its bit on a press and clears it on a release,
   * leaves every other modifier bit and the key slots as they are, and
   * returns 1.
   */
  lemma ModifierKeyEffect(t: HidTables, mods: bv8, key: seq<bv8>, ev: InputEvent)
    requires ValidTables(t) && |key| == KeySlots
    requires ev.evType == EvKey && 0 <= ModifierRole(ev.code)
    ensures var o := InputEventEffect(t, mods, key, ev);
      && o.ret == 1 && o.key == key
      && BitUpdated(mods, o.mods, t.modBits, ModifierRole(ev.code), ev.value != 0)
  {
    var r := ModifierRole(ev.code);
    ModifierOutcome(t, mods, key, ev);
    ModifierBitUpdate(t, mods, r, ev.value != 0);
  }

  lemma ModifierOutcome(t: HidTables, mods: bv8, key: seq<bv8>, ev: InputEvent)
    requires ValidTables(t) && |key| == KeySlots
    requires ev.evType == EvKey && 0 <= ModifierRole(ev.code)
    ensures var b := t.modBits[ModifierRole(ev.code)];
      InputEventEffect(t, mods, key, ev) == Outcome(1, ModifierUpdate(mods, b, ev.value != 0), key)
  {
    assert ModBit(t, ev.code) == t.modBits[ModifierRole(ev.code)] != 0;
  }

  /**
   * Any other key in range returns 1, leaves the modifier byte alone and
   * performs the intended slot update, which keeps the slots valid.
   */
  lemma OtherKeyEffect(t: HidTables, mods: bv8, key: seq<bv8>, ev: InputEvent)
    requires TablesShaped(t) && SlotsValid(key)
    requires ev.evType == EvKey && ev.code < 256 && ModifierRole(ev.code) < 0
    ensures var o := InputEventEffect(t, mods, key, ev);
      && o.ret == 1 && o.mods == mods
      && o.key == Reconciled(key, t.linux2hid[ev.code], ev.value != 0)
      && SlotsValid(o.key)
  {
    PassMatchesReconciled(key, t.linux2hid[ev.code], ev.value != 0);
    ReconciledValid(key, t.linux2hid[ev.code], ev.value != 0);
  }

  /** The packed report as it goes on the wire. */
  function ReportBytes(reportType: bv8, mods: bv8, key: seq<bv8>): seq<bv8> {
    [reportType, ReportId, mods, 0] + key
  }

  /** `struct key_report` (inside `struct status`), updated in place. */
  class KeyReport {
    var reportType: bv8
    var reportId: bv8
    var mods: bv8
    var reserved: bv8
    const key: array<bv8>

    ghost predicate Valid()
      reads this
    {
      key.Length == KeySlots
    }

    /** The initialisation `session` performs. */
    constructor (reportType: bv8)
      ensures Valid() && fresh(key)
      ensures this.reportType == reportType && reportId == ReportId && mods == 0 && reserved == 0
      ensures key[..] == [0, 0, 0, 0, 0, 0]
    {
      this.reportType := reportType;
      reportId := ReportId;
      mods := 0;
      reserved := 0;
      key := new bv8[KeySlots](_ => 0);
    }

    /** The report's bytes in struct order. */
    function Bytes(): seq<bv8>
      reads this, key
    {
      [reportType, reportId, mods, reserved] + key[..]
    }

    /**
     * The loop of `input_event` over the key slots for a non-modifier key
     * with HID usage `code`: one left-to-right pass that clears a slot
     * holding `code`, stores `code` in the first empty slot on a press, and
     * on a release pulls each later slot into an empty one.
     */
    method ReconcileKeys(code: bv8, press: bool)
      requires Valid()
      modifies key
      ensures key[..] == Pass(old(key[..]), code, press, 0)
      ensures old(SlotsValid(key[..])) ==> key[..] == Reconciled(old(key[..]), code, press)
      ensures old(SlotsValid(key[..])) ==> SlotsValid(key[..])
    {
      var i := 0;
      while i < KeySlots
        invariant 0 <= i <= KeySlots
        invariant Pass(key[..], code, press, i) == Pass(old(key[..]), code, press, 0)
      {
        ghost var before := key[..];
        if key[i] == code {
          key[i] := 0;
        }
        if press && key[i] == 0 {
          key[i] := code;
          assert Step(before, code, press, i) == (true, key[..]);
          break;
        }
        if i < KeySlots - 1 && key[i] == 0 {
          key[i] := key[i + 1];
          key[i + 1] := 0;
        }
        assert Step(before, code, press, i) == (false, key[..]);
        i := i + 1;
      }
      if SlotsValid(old(key[..])) {
        PassMatchesReconciled(old(key[..]), code, press);
        ReconciledValid(old(key[..]), code, press);
      }
    }

    /**
     * `input_event`: applies one event to the report. Everything except a
     * key event with a code below 256 is ignored with result 0; a modifier
     * key sets or clears its bit; any other key is reconciled against the
     * key slots in one left-to-right pass. The type, report id and reserved
     * byte are never written.
     */
    method ApplyEvent(t: HidTables, ev: InputEvent) returns (ret: int)
      requires Valid() && TablesShaped(t)
      modifies this`mods, key
      ensures Valid()
      ensures Outcome(ret, mods, key[..]) == InputEventEffect(t, old(mods), old(key[..]), ev)
      ensures old(SlotsValid(key[..])) ==> SlotsValid(key[..])
    {
      if ev.evType != EvKey {
        return 0;
      }
      if ev.code >= 256 {
        return 0;
      }
      var mod := ModBit(t, ev.code);
      if mod != 0 {
        mods := ModifierUpdate(mods, mod, ev.value != 0);
      } else {
        ReconcileKeys(t.linux2hid[ev.code], ev.value != 0);
      }
      ret := 1;
    }
  }
}
