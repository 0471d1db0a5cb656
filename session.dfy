/**
 * The session of the keyboard daemon (`session` and `hello` in
 * btkbdd/keyb.c): it types an activation sequence, the input string and a
 * newline. Each key event updates the HID report; the first event that
 * changes the report links to the host (control and interrupt channels plus
 * a handshake), and every changed report goes to the interrupt channel,
 * paced by a short pause.
 *
 * The Bluetooth sockets are abstract: a `Transport` gives the result of each
 * connect and write as a function of everything done so far, and the
 * session is described by the trace of actions it performs.
 */
module Session {
  import opened LinuxInput
  import opened Ascii2Linux
  import opened Keyboard

  // ---- Environment and actions ----

  /** One call the session makes on the outside world, with its result. */
  datatype Action =
    | Connect(psm: int, fd: int)            // `l2cap_connect`; -1 is failure
    | Write(fd: int, data: seq<bv8>, ret: int)
    | Sleep(us: nat)
    | Close(fd: int)

  /** Results of connecting and writing, given the actions performed so far. */
  datatype Transport = Transport(
    connect: (seq<Action>, int) -> int,
    write: (seq<Action>, int, seq<bv8>) -> int)

  /** The target address, the two L2CAP PSMs and the HID constants. */
  datatype Env = Env(tables: HidTables, psmCtrl: int, psmIntr: int, tgt: seq<bv8>, net: Transport)

  predicate ValidEnv(env: Env) {
    ValidTables(env.tables)
  }

  /** `BDADDR_ANY`: no target was given. */
  const BdAddrAny: seq<bv8> := [0, 0, 0, 0, 0, 0]

  /** The two handshake packets `hello` sends on the control channel. */
  const Handshake1: seq<bv8> := [0xa1, 0x13, 0x03]
  const Handshake2: seq<bv8> := [0xa1, 0x13, 0x02]

  /** `sleep (1)` after the handshake and `usleep (200000)` before a report. */
  const HelloPauseUs: nat := 1_000_000
  const PacingUs: nat := 200_000

  /** `activation`: eleven zero chars whose first ten are set to 27 (escape). */
  const Activation: seq<int> := Escapes + [0]

  /** The ten escape characters of the activation sequence. */
  const Escapes: seq<int> := [27, 27, 27, 27, 27, 27, 27, 27, 27, 27]

  /** The three C strings the session types, in order. */
  function Tokens(input: seq<int>): (toks: seq<seq<int>>)
    ensures |toks| == 3 && toks[1] == input
  {
    [Activation, input, [10, 0]]
  }

  /** The part of a C string before its terminating NUL. */
  function CStr(s: seq<int>): (r: seq<int>)
    ensures |r| <= |s| && r == s[..|r|]
    ensures forall k :: 0 <= k < |r| ==> r[k] != 0
    ensures |r| < |s| ==> s[|r|] == 0
  {
    if s == [] || s[0] == 0 then [] else [s[0]] + CStr(s[1..])
  }

  // ---- Session state and one step ----

  /** The local state of `session`: both sockets, the report's mods and key slots, and the trace. */
  datatype Conn = Conn(control: int, intr: int, mods: bv8, key: seq<bv8>, trace: seq<Action>)

  const Init: Conn := Conn(-1, -1, 0, [0, 0, 0, 0, 0, 0], [])

  datatype Wire = Wire(trace: seq<Action>, ok: bool)
  datatype Link = Link(control: int, intr: int, trace: seq<Action>, ok: bool)
  datatype Progress = Progress(st: Conn, go: bool)

  /** `hello`: both handshake packets must be written in full, then the session pauses. */
  function Greet(env: Env, control: int, trace: seq<Action>): Wire {
    var r1 := env.net.write(trace, control, Handshake1);
    var t1 := trace + [Write(control, Handshake1, r1)];
    if r1 != |Handshake1| then Wire(t1, false)
    else
      var r2 := env.net.write(t1, control, Handshake2);
      var t2 := t1 + [Write(control, Handshake2, r2)];
      if r2 != |Handshake2| then Wire(t2, false)
      else Wire(t2 + [Sleep(HelloPauseUs)], true)
  }

  /**
   * The block run while no control channel is open: stop when there is no
   * target or the control channel cannot be opened; close the control
   * channel when the interrupt channel cannot be opened; then say hello.
   */
  function Reach(env: Env, intr: int, trace: seq<Action>): Link {
    if env.tgt == BdAddrAny then Link(-1, intr, trace, false)
    else
      var c := env.net.connect(trace, env.psmCtrl);
      var t1 := trace + [Connect(env.psmCtrl, c)];
      if c == -1 then Link(-1, intr, t1, false)
      else
        var i := env.net.connect(t1, env.psmIntr);
        var t2 := t1 + [Connect(env.psmIntr, i)];
        if i == -1 then Link(-1, -1, t2 + [Close(c)], false)
        else
          var w := Greet(env, c, t2);
          Link(c, i, w.trace, w.ok)
  }

  /** The report as it is written to the interrupt channel. */
  function Report(env: Env, st: Conn): seq<bv8> {
    ReportBytes(env.tables.reportType, st.mods, st.key)
  }

  /** Pause if `paced`, then write the report to the interrupt channel; a write of 0 or less stops the character. */
  function Send(env: Env, st: Conn, paced: bool): (p: Progress)
    ensures p.st.key == st.key
  {
    var t := if paced then st.trace + [Sleep(PacingUs)] else st.trace;
    var data := Report(env, st);
    var r := env.net.write(t, st.intr, data);
    Progress(st.(trace := t + [Write(st.intr, data, r)]), r > 0)
  }

  /**
   * One iteration of the event loop of `session`; `go` is false where the
   * source breaks out of the events of the current character.
   */
  function EventStep(env: Env, st: Conn, ev: InputEvent, paced: bool): (p: Progress)
    requires ValidEnv(env) && |st.key| == KeySlots
    ensures |p.st.key| == KeySlots
  {
    var o := InputEventEffect(env.tables, st.mods, st.key, ev);
    var st1 := st.(mods := o.mods, key := o.key);
    if o.ret == 0 then Progress(st1, true)
    else if st1.control != -1 then Send(env, st1, paced)
    else
      var l := Reach(env, st1.intr, st1.trace);
      var st2 := st1.(control := l.control, intr := l.intr, trace := l.trace);
      if l.ok then Send(env, st2, paced) else Progress(st2, false)
  }

  /** The events of one character from index `i` on; only the very first event of the session is not paced. */
  function EventsFrom(env: Env, st: Conn, evs: seq<InputEvent>, first: bool, i: nat): (r: Conn)
    requires ValidEnv(env) && |st.key| == KeySlots
    ensures |r.key| == KeySlots
    decreases |evs| - i, 1
  {
    if i >= |evs| then st
    else EventAt(env, st, evs, first, i)
  }

  /** The step of event `i`, then the remaining events, or a stop where the source breaks. */
  function EventAt(env: Env, st: Conn, evs: seq<InputEvent>, first: bool, i: nat): (r: Conn)
    requires ValidEnv(env) && |st.key| == KeySlots && i < |evs|
    ensures |r.key| == KeySlots
    decreases |evs| - i, 0
  {
    var p := EventStep(env, st, evs[i], !(first && i == 0));
    if p.go then EventsFrom(env, p.st, evs, first, i + 1) else p.st
  }

  /** The characters of one token from index `j` up to its NUL. */
  function CharsFrom(env: Env, st: Conn, tok: seq<int>, firstToken: bool, j: nat): (r: Conn)
    requires ValidEnv(env) && |st.key| == KeySlots
    ensures |r.key| == KeySlots
    decreases |tok| - j, 1
  {
    if j >= |tok| || tok[j] == 0 then st else CharAt(env, st, tok, firstToken, j)
  }

  /** Character `j` of a token, then the rest of the token. */
  function CharAt(env: Env, st: Conn, tok: seq<int>, firstToken: bool, j: nat): (r: Conn)
    requires ValidEnv(env) && |st.key| == KeySlots && j < |tok|
    ensures |r.key| == KeySlots
    decreases |tok| - j, 0
  {
    CharsFrom(env, EventsFrom(env, st, CharEvents(tok[j]), firstToken && j == 0, 0), tok, firstToken, j + 1)
  }

  /** The tokens from index `k` on. */
  function TokensFrom(env: Env, st: Conn, toks: seq<seq<int>>, k: nat): (r: Conn)
    requires ValidEnv(env) && |st.key| == KeySlots
    ensures |r.key| == KeySlots
    decreases |toks| - k
  {
    if k >= |toks| then st
    else TokensFrom(env, CharsFrom(env, st, toks[k], k == 0, 0), toks, k + 1)
  }

  /** Closing whatever channel is still open. */
  function Finish(st: Conn): Conn {
    var t1 := if st.control != -1 then st.trace + [Close(st.control)] else st.trace;
    var t2 := if st.intr != -1 then t1 + [Close(st.intr)] else t1;
    st.(trace := t2)
  }

  function SessionRun(env: Env, input: seq<int>): Conn
    requires ValidEnv(env)
  {
    Finish(TokensFrom(env, Init, Tokens(input), 0))
  }

  /** Everything `session` does to the outside world, in order. */
  function SessionTrace(env: Env, input: seq<int>): seq<Action>
    requires ValidEnv(env)
  {
    SessionRun(env, input).trace
  }

  // ---- Properties of traces ----

  /** The actions before the last one, and the last one. */
  function Front(t: seq<Action>): seq<Action>
    requires t != []
  {
    t[..|t| - 1]
  }

  function LastOf(t: seq<Action>): Action
    requires t != []
  {
    t[|t| - 1]
  }

  /** `s` without the first occurrence of `x`. */
  function Remove(s: seq<int>, x: int): (r: seq<int>)
    ensures x in s ==> |r| == |s| - 1
    ensures x !in s ==> r == s
  {
    if s == [] then []
    else if s[0] == x then s[1..]
    else [s[0]] + Remove(s[1..], x)
  }

  /** The open sockets, oldest first, after action `a`. */
  function After(open: seq<int>, a: Action): seq<int> {
    match a
    case Connect(_, fd) => if fd == -1 then open else open + [fd]
    case Close(fd) => Remove(open, fd)
    case _ => open
  }

  /** Writes and closes only touch open sockets. */
  predicate Allowed(open: seq<int>, a: Action) {
    match a
    case Write(fd, _, _) => fd in open
    case Close(fd) => fd in open
    case _ => true
  }

  /** A write of a full report (the handshake packets are shorter). */
  predicate ReportWrite(a: Action) {
    a.Write? && |a.data| == ReportSize
  }

  /**
   * A summary of a trace: the sockets it leaves open in the order they were
   * opened (a socket returned twice is listed twice), whether every action
   * so far was well placed, and whether a report was written.
   */
  datatype Audit = Audit(open: seq<int>, ok: bool, reported: bool)

  /**
   * Whether `a` is well placed after the trace `f` summarised by `s`: it is
   * allowed by the open sockets, and a report carries valid key slots and
   * follows the 200 ms pause, or the handshake pause while nothing has
   * been reported.
   */
  predicate WellPlaced(s: Audit, f: seq<Action>, a: Action) {
    && Allowed(s.open, a)
    && (ReportWrite(a) ==>
          && SlotsValid(a.data[4..])
          && f != []
          && (LastOf(f) == Sleep(PacingUs) || (LastOf(f) == Sleep(HelloPauseUs) && !s.reported)))
  }

  function AuditOf(t: seq<Action>): Audit
    decreases |t|
  {
    if t == [] then Audit([], true, false)
    else
      var s := AuditOf(Front(t));
      var a := LastOf(t);
      Audit(After(s.open, a), s.ok && WellPlaced(s, Front(t), a), s.reported || ReportWrite(a))
  }

  /** The sockets a trace leaves open. */
  function OpenFds(t: seq<Action>): seq<int> {
    AuditOf(t).open
  }

  function Holding(control: int, intr: int): seq<int> {
    if control == -1 then [] else [control, intr]
  }

  /** The invariant of the sockets and the trace. */
  predicate HostOk(control: int, intr: int, t: seq<Action>) {
    && (control == -1 <==> intr == -1)
    && AuditOf(t).ok && AuditOf(t).open == Holding(control, intr)
  }

  /** The invariant of the whole session state. */
  predicate Good(env: Env, st: Conn) {
    && |st.key| == KeySlots && SlotsValid(st.key)
    && HostOk(st.control, st.intr, st.trace)
    && (env.tgt == BdAddrAny ==> st.trace == [] && st.control == -1)
  }

  lemma Snoc(t: seq<Action>, a: Action)
    ensures Front(t + [a]) == t && LastOf(t + [a]) == a
  {
  }

  // ---- What the audit means, index by index ----

  lemma {:induction false} DisciplinedMeans(t: seq<Action>)
    requires AuditOf(t).ok
    ensures forall k :: 0 <= k < |t| ==> Allowed(OpenFds(t[..k]), t[k])
    decreases |t|
  {
    if t != [] {
      var f := Front(t);
      DisciplinedMeans(f);
      forall k | 0 <= k < |t|
        ensures Allowed(OpenFds(t[..k]), t[k])
      {
        if k < |f| {
          assert t[..k] == f[..k] && t[k] == f[k];
        } else {
          assert t[..k] == f;
        }
      }
    }
  }

  /** No report among the first `k` actions. */
  predicate NoReportBefore(t: seq<Action>, k: int)
    requires k <= |t|
  {
    forall q :: 0 <= q < k ==> !ReportWrite(t[q])
  }

  lemma {:induction false} ReportedMeans(t: seq<Action>)
    ensures !AuditOf(t).reported <==> NoReportBefore(t, |t|)
    decreases |t|
  {
    if t != [] {
      var f := Front(t);
      ReportedMeans(f);
      assert forall k :: 0 <= k < |f| ==> f[k] == t[k];
    }
  }

  /** The action before a report: the pause of `us` microseconds. */
  predicate PauseOf(a: Action, us: nat) {
    a.Sleep? && a.us == us
  }

  /**
   * Every report in `t` comes right after the 200 ms pause, or right after
   * the handshake pause when no report came before it.
   */
  predicate Paced(t: seq<Action>) {
    forall k :: 0 <= k < |t| && ReportWrite(t[k]) ==>
      0 < k && (PauseOf(t[k - 1], PacingUs) || (PauseOf(t[k - 1], HelloPauseUs) && NoReportBefore(t, k)))
  }

  /** Every report in `t` carries valid key slots. */
  predicate ReportsValid(t: seq<Action>) {
    forall k :: 0 <= k < |t| && ReportWrite(t[k]) ==> SlotsValid(t[k].data[4..])
  }

  lemma {:induction false} PacedMeans(t: seq<Action>)
    requires AuditOf(t).ok
    ensures Paced(t)
    decreases |t|
  {
    if t != [] {
      var f := Front(t);
      PacedMeans(f);
      forall k | 0 <= k < |t| && ReportWrite(t[k])
        ensures 0 < k && (PauseOf(t[k - 1], PacingUs) || (PauseOf(t[k - 1], HelloPauseUs) && NoReportBefore(t, k)))
      {
        assert forall q :: 0 <= q < |f| ==> t[q] == f[q];
        if k < |f| {
          assert t[k] == f[k] && t[k - 1] == f[k - 1];
          assert NoReportBefore(f, k) ==> NoReportBefore(t, k);
        } else {
          ReportedMeans(f);
          assert t[k - 1] == LastOf(f);
        }
      }
    }
  }

  lemma {:induction false} ReportsValidMeans(t: seq<Action>)
    requires AuditOf(t).ok
    ensures ReportsValid(t)
    decreases |t|
  {
    if t != [] {
      var f := Front(t);
      ReportsValidMeans(f);
      assert forall k :: 0 <= k < |f| ==> f[k] == t[k];
      assert t[|t| - 1] == LastOf(t);
    }
  }

  // ---- The invariant through one step ----

  /** Appending an allowed action that is not a report. */
  lemma Quiet(t: seq<Action>, a: Action)
    requires AuditOf(t).ok && Allowed(OpenFds(t), a) && !ReportWrite(a)
    ensures AuditOf(t + [a]) == AuditOf(t).(open := After(OpenFds(t), a))
  {
    Snoc(t, a);
  }

  /** Appending an allowed report with valid slots right after a pause that allows it. */
  lemma Reported(t: seq<Action>, a: Action)
    requires AuditOf(t).ok && Allowed(OpenFds(t), a) && ReportWrite(a) && SlotsValid(a.data[4..])
    requires t != [] && (LastOf(t) == Sleep(PacingUs) || (LastOf(t) == Sleep(HelloPauseUs) && !AuditOf(t).reported))
    ensures AuditOf(t + [a]) == AuditOf(t).(reported := true)
  {
    Snoc(t, a);
  }

  /** `hello` writes only on the open control channel, sends no report and ends with its pause when it succeeds. */
  lemma GreetKeeps(env: Env, c: int, t: seq<Action>)
    requires AuditOf(t).ok && c in OpenFds(t)
    ensures var w := Greet(env, c, t);
      && AuditOf(w.trace).ok && OpenFds(w.trace) == OpenFds(t)
      && AuditOf(w.trace).reported == AuditOf(t).reported
      && (w.ok ==> w.trace != [] && LastOf(w.trace) == Sleep(HelloPauseUs))
      && t <= w.trace && |w.trace| <= |t| + 3
      && (forall k :: |t| <= k < |w.trace| ==>
            (w.trace[k].Write? && w.trace[k].fd == c && !ReportWrite(w.trace[k])) || w.trace[k] == Sleep(HelloPauseUs))
  {
    var r1 := env.net.write(t, c, Handshake1);
    var a1 := Write(c, Handshake1, r1);
    Quiet(t, a1);
    var t1 := t + [a1];
    if r1 != |Handshake1| {
      assert Greet(env, c, t) == Wire(t1, false);
    } else {
      var r2 := env.net.write(t1, c, Handshake2);
      var a2 := Write(c, Handshake2, r2);
      Quiet(t1, a2);
      var t2 := t1 + [a2];
      if r2 != |Handshake2| {
        assert Greet(env, c, t) == Wire(t2, false);
      } else {
        Quiet(t2, Sleep(HelloPauseUs));
        Snoc(t2, Sleep(HelloPauseUs));
        assert Greet(env, c, t) == Wire(t2 + [Sleep(HelloPauseUs)], true);
      }
    }
  }

  /**
   * Linking from the unlinked state keeps the socket invariant; on success
   * both channels are open and the trace ends with the handshake pause;
   * without a target nothing happens.
   */
  lemma ReachKeeps(env: Env, intr: int, t: seq<Action>)
    requires HostOk(-1, intr, t)
    ensures var l := Reach(env, intr, t);
      && HostOk(l.control, l.intr, l.trace)
      && AuditOf(l.trace).reported == AuditOf(t).reported
      && t <= l.trace && (forall k :: |t| <= k < |l.trace| ==> !ReportWrite(l.trace[k]))
      && (l.ok ==> l.control != -1 && l.trace != [] && LastOf(l.trace) == Sleep(HelloPauseUs))
      && (env.tgt == BdAddrAny ==> l == Link(-1, intr, t, false))
  {
    ReachQuiet(env, intr, t);
    if env.tgt != BdAddrAny {
      var c := env.net.connect(t, env.psmCtrl);
      var a1 := Connect(env.psmCtrl, c);
      Quiet(t, a1);
      var t1 := t + [a1];
      if c == -1 {
        assert Reach(env, intr, t) == Link(-1, intr, t1, false);
      } else {
        var i := env.net.connect(t1, env.psmIntr);
        var a2 := Connect(env.psmIntr, i);
        Quiet(t1, a2);
        var t2 := t1 + [a2];
        if i == -1 {
          assert OpenFds(t2) == [c];
          Quiet(t2, Close(c));
          assert Reach(env, intr, t) == Link(-1, -1, t2 + [Close(c)], false);
        } else {
          assert OpenFds(t2) == [c, i];
          GreetKeeps(env, c, t2);
          assert Reach(env, intr, t) == Link(c, i, Greet(env, c, t2).trace, Greet(env, c, t2).ok);
        }
      }
    }
  }

  /** Linking only appends to the trace, and nothing it appends is a report write. */
  lemma ReachQuiet(env: Env, intr: int, t: seq<Action>)
    ensures var l := Reach(env, intr, t);
      t <= l.trace && forall k :: |t| <= k < |l.trace| ==> !ReportWrite(l.trace[k])
  {
    if env.tgt != BdAddrAny {
      var c := env.net.connect(t, env.psmCtrl);
      var t1 := t + [Connect(env.psmCtrl, c)];
      var t2 := t1 + [Connect(env.psmIntr, env.net.connect(t1, env.psmIntr))];
      var w := Greet(env, c, t2);
      assert forall k :: |t2| <= k < |w.trace| ==> w.trace[k].Write? ==> |w.trace[k].data| == 3;
    }
  }

  /** Sending on an open link keeps the invariant and both channels. */
  lemma SendKeeps(env: Env, st: Conn, paced: bool)
    requires HostOk(st.control, st.intr, st.trace) && st.control != -1 && SlotsValid(st.key)
    requires paced || (st.trace != [] && LastOf(st.trace) == Sleep(HelloPauseUs) && !AuditOf(st.trace).reported)
    ensures var p := Send(env, st, paced);
      HostOk(p.st.control, p.st.intr, p.st.trace) && p.st.control == st.control && p.st.intr == st.intr
  {
    var t := if paced then st.trace + [Sleep(PacingUs)] else st.trace;
    if paced {
      Quiet(st.trace, Sleep(PacingUs));
      Snoc(st.trace, Sleep(PacingUs));
    }
    var data := Report(env, st);
    var r := env.net.write(t, st.intr, data);
    assert data[4..] == st.key;
    Reported(t, Write(st.intr, data, r));
  }

  /**
   * One event keeps the session invariant. The only step that may skip the
   * pacing pause is one taken before anything was reported and while unlinked.
   */
  lemma EventStepKeeps(env: Env, st: Conn, ev: InputEvent, paced: bool)
    requires ValidEnv(env) && Good(env, st)
    requires !paced ==> !AuditOf(st.trace).reported && st.control == -1
    ensures Good(env, EventStep(env, st, ev, paced).st)
  {
    var o := InputEventEffect(env.tables, st.mods, st.key, ev);
    EffectKeepsSlots(env.tables, st.mods, st.key, ev);
    var st1 := st.(mods := o.mods, key := o.key);
    if o.ret == 0 {
      assert EventStep(env, st, ev, paced) == Progress(st1, true);
    } else if st1.control != -1 {
      SendKeeps(env, st1, paced);
      assert EventStep(env, st, ev, paced) == Send(env, st1, paced);
    } else {
      var l := Reach(env, st1.intr, st1.trace);
      ReachKeeps(env, st1.intr, st1.trace);
      var st2 := st1.(control := l.control, intr := l.intr, trace := l.trace);
      if l.ok {
        SendKeeps(env, st2, paced);
        assert EventStep(env, st, ev, paced) == Send(env, st2, paced);
      } else {
        assert EventStep(env, st, ev, paced) == Progress(st2, false);
      }
    }
  }

  /** The key slots stay valid through any event. */
  lemma EffectKeepsSlots(t: HidTables, mods: bv8, key: seq<bv8>, ev: InputEvent)
    requires ValidTables(t) && SlotsValid(key)
    ensures SlotsValid(InputEventEffect(t, mods, key, ev).key)
  {
    if ev.evType == EvKey && ev.code < 256 && ModBit(t, ev.code) == 0 {
      PassMatchesReconciled(key, t.linux2hid[ev.code], ev.value != 0);
      ReconciledValid(key, t.linux2hid[ev.code], ev.value != 0);
    }
  }

  // ---- The invariant through the loops ----

  lemma {:induction false} EventsKeep(env: Env, st: Conn, evs: seq<InputEvent>, first: bool, i: nat)
    requires ValidEnv(env) && Good(env, st)
    requires first && i == 0 ==> !AuditOf(st.trace).reported && st.control == -1
    ensures var r := EventsFrom(env, st, evs, first, i); Good(env, r)
    decreases |evs| - i
  {
    if i < |evs| {
      EventStepKeeps(env, st, evs[i], !(first && i == 0));
      var p := EventStep(env, st, evs[i], !(first && i == 0));
      if p.go {
        EventsKeep(env, p.st, evs, first, i + 1);
        var r := EventsFrom(env, p.st, evs, first, i + 1);
        assert Good(env, r);
        assert EventsFrom(env, st, evs, first, i) == r;
      } else {
        assert EventsFrom(env, st, evs, first, i) == p.st;
      }
    }
  }

  lemma {:induction false} CharsKeep(env: Env, st: Conn, tok: seq<int>, firstToken: bool, j: nat)
    requires ValidEnv(env) && Good(env, st)
    requires firstToken && j == 0 ==> !AuditOf(st.trace).reported && st.control == -1
    ensures Good(env, CharsFrom(env, st, tok, firstToken, j))
    decreases |tok| - j
  {
    if j < |tok| && tok[j] != 0 {
      EventsKeep(env, st, CharEvents(tok[j]), firstToken && j == 0, 0);
      CharsKeep(env, EventsFrom(env, st, CharEvents(tok[j]), firstToken && j == 0, 0), tok, firstToken, j + 1);
    }
  }

  lemma {:induction false} TokensKeep(env: Env, st: Conn, toks: seq<seq<int>>, k: nat)
    requires ValidEnv(env) && Good(env, st)
    requires k == 0 ==> !AuditOf(st.trace).reported && st.control == -1
    ensures Good(env, TokensFrom(env, st, toks, k))
    decreases |toks| - k
  {
    if k < |toks| {
      CharsKeep(env, st, toks[k], k == 0, 0);
      TokensKeep(env, CharsFrom(env, st, toks[k], k == 0, 0), toks, k + 1);
    }
  }

  lemma InitGood(env: Env)
    ensures Good(env, Init)
  {
    assert SlotsValid(Init.key);
  }

  /** Closing at the end releases every socket the session still holds. */
  lemma FinishCloses(st: Conn)
    requires HostOk(st.control, st.intr, st.trace)
    ensures AuditOf(Finish(st).trace).ok && OpenFds(Finish(st).trace) == []
  {
    if st.control != -1 {
      var t1 := st.trace + [Close(st.control)];
      Quiet(st.trace, Close(st.control));
      assert OpenFds(t1) == [st.intr];
      Quiet(t1, Close(st.intr));
    }
  }

  // ---- Properties of a whole session ----

  /** The audit of a whole session is clean and leaves no socket open. */
  lemma SessionAudited(env: Env, input: seq<int>)
    requires ValidEnv(env)
    ensures AuditOf(SessionTrace(env, input)).ok && OpenFds(SessionTrace(env, input)) == []
  {
    InitGood(env);
    TokensKeep(env, Init, Tokens(input), 0);
    FinishCloses(TokensFrom(env, Init, Tokens(input), 0));
  }

  /**
   * Resource discipline: every write and close is on a socket that is open
   * at that point, and the session ends with every socket it opened closed
   * exactly once.
   */
  lemma SessionReleasesSockets(env: Env, input: seq<int>)
    requires ValidEnv(env)
    ensures forall k :: 0 <= k < |SessionTrace(env, input)| ==>
      Allowed(OpenFds(SessionTrace(env, input)[..k]), SessionTrace(env, input)[k])
    ensures OpenFds(SessionTrace(env, input)) == []
  {
    SessionAudited(env, input);
    DisciplinedMeans(SessionTrace(env, input));
  }

  /**
   * Pacing: every report is written right after the 200 ms pause, except
   * that a report written before any other may instead come right after
   * the pause that ends the handshake. Every report carries valid slots.
   */
  lemma SessionIsPaced(env: Env, input: seq<int>)
    requires ValidEnv(env)
    ensures Paced(SessionTrace(env, input))
    ensures ReportsValid(SessionTrace(env, input))
  {
    var t := SessionTrace(env, input);
    SessionAudited(env, input);
    PacedMeans(t);
    ReportsValidMeans(t);
  }

  /** Without a target the session keeps to itself: no connect, write, pause or close. */
  lemma NoTargetIsSilent(env: Env, input: seq<int>)
    requires ValidEnv(env) && env.tgt == BdAddrAny
    ensures SessionTrace(env, input) == []
  {
    InitGood(env);
    TokensKeep(env, Init, Tokens(input), 0);
  }

  /**
   * While linked, an event never reconnects or handshakes again: it adds at
   * most the pacing pause and one write of the updated report to the
   * interrupt channel, and keeps both channels.
   */
  lemma LinkedStep(env: Env, st: Conn, ev: InputEvent, paced: bool)
    requires ValidEnv(env) && |st.key| == KeySlots && st.control != -1
    ensures var p := EventStep(env, st, ev, paced);
      && p.st.control == st.control && p.st.intr == st.intr
      && st.trace <= p.st.trace
      && (forall k :: |st.trace| <= k < |p.st.trace| ==>
            p.st.trace[k] == Sleep(PacingUs) ||
            (p.st.trace[k].Write? && p.st.trace[k].fd == st.intr && p.st.trace[k].data == Report(env, p.st)))
      && |p.st.trace| <= |st.trace| + 2
  {
  }

  /**
   * Pacing by position, on any transport: an unpaced event (only the
   * session's very first) adds no 200 ms pause, and a paced event that
   * writes a report writes it right after the 200 ms pause.
   */
  lemma StepPacing(env: Env, st: Conn, ev: InputEvent, paced: bool)
    requires ValidEnv(env) && |st.key| == KeySlots
    ensures var p := EventStep(env, st, ev, paced);
      && st.trace <= p.st.trace
      && (!paced ==> forall k :: |st.trace| <= k < |p.st.trace| ==> p.st.trace[k] != Sleep(PacingUs))
      && (paced && |st.trace| < |p.st.trace| && ReportWrite(LastOf(p.st.trace)) ==>
            |st.trace| + 2 <= |p.st.trace| && p.st.trace[|p.st.trace| - 2] == Sleep(PacingUs))
  {
    var o := InputEventEffect(env.tables, st.mods, st.key, ev);
    var st1 := st.(mods := o.mods, key := o.key);
    if o.ret != 0 && st1.control == -1 {
      var l := Reach(env, st1.intr, st1.trace);
      assert st.trace <= l.trace;
      assert forall k :: |st.trace| <= k < |l.trace| ==> l.trace[k] != Sleep(PacingUs);
    }
  }

  /** `hello` succeeds exactly when each of its two writes takes all three bytes. */
  lemma GreetOkIff(env: Env, c: int, t: seq<Action>)
    ensures Greet(env, c, t).ok <==>
      && env.net.write(t, c, Handshake1) == 3
      && env.net.write(t + [Write(c, Handshake1, 3)], c, Handshake2) == 3
  {
  }

  /**
   * A send ends with the report write on the interrupt channel, after the
   * 200 ms pause exactly when paced, and the character goes on exactly when
   * that write returns more than 0.
   */
  lemma SendResult(env: Env, st: Conn, paced: bool)
    requires |st.key| == KeySlots
    ensures var p := Send(env, st, paced);
      && |p.st.trace| == |st.trace| + (if paced then 2 else 1) && st.trace <= p.st.trace
      && (paced ==> p.st.trace[|st.trace|] == Sleep(PacingUs))
      && ReportOn(LastOf(p.st.trace), st.intr) && LastOf(p.st.trace).data == Report(env, st)
      && (p.go <==> LastOf(p.st.trace).ret > 0)
  {
  }

  /**
   * While linked, a key event in range ends with a write on the interrupt
   * channel, and breaks off the character exactly when that write returns
   * 0 or less.
   */
  lemma LinkedWriteResult(env: Env, st: Conn, ev: InputEvent, paced: bool)
    requires ValidEnv(env) && |st.key| == KeySlots && st.control != -1 && ev.evType == EvKey && ev.code < 256
    ensures var p := EventStep(env, st, ev, paced);
      && p.st.trace != [] && LastOf(p.st.trace).Write? && LastOf(p.st.trace).fd == st.intr
      && (p.go <==> LastOf(p.st.trace).ret > 0)
  {
    var o := InputEventEffect(env.tables, st.mods, st.key, ev);
    assert o.ret == 1;
  }

  /**
   * A failed handshake leaves both channels open: the character stops, and
   * later events find the control channel open and never link again.
   */
  lemma HandshakeFailureKeepsChannels(env: Env, st: Conn, ev: InputEvent, paced: bool)
    requires ValidEnv(env) && |st.key| == KeySlots && st.control == -1
    requires env.tgt != BdAddrAny && ev.evType == EvKey && ev.code < 256
    requires CtrlFd(env, st.trace) != -1 && IntrFd(env, st.trace) != -1
    requires !Greet(env, CtrlFd(env, st.trace),
                    st.trace + [Connect(env.psmCtrl, CtrlFd(env, st.trace)), Connect(env.psmIntr, IntrFd(env, st.trace))]).ok
    ensures var p := EventStep(env, st, ev, paced);
      && !p.go && p.st.control == CtrlFd(env, st.trace) && p.st.intr == IntrFd(env, st.trace)
  {
    var o := InputEventEffect(env.tables, st.mods, st.key, ev);
    assert o.ret == 1;
    assert st.trace + [Connect(env.psmCtrl, CtrlFd(env, st.trace))] + [Connect(env.psmIntr, IntrFd(env, st.trace))]
        == st.trace + [Connect(env.psmCtrl, CtrlFd(env, st.trace)), Connect(env.psmIntr, IntrFd(env, st.trace))];
  }

  /**
   * While no channel is open, every key event in range tries to link again,
   * also after an earlier event broke off: the first thing it does is
   * connect the control channel.
   */
  lemma UnlinkedRetries(env: Env, st: Conn, ev: InputEvent, paced: bool)
    requires ValidEnv(env) && |st.key| == KeySlots && st.control == -1
    requires env.tgt != BdAddrAny && ev.evType == EvKey && ev.code < 256
    ensures var p := EventStep(env, st, ev, paced);
      && st.trace <= p.st.trace && |st.trace| < |p.st.trace|
      && p.st.trace[|st.trace|] == Connect(env.psmCtrl, CtrlFd(env, st.trace))
  {
    var o := InputEventEffect(env.tables, st.mods, st.key, ev);
    assert o.ret == 1;
    var l := Reach(env, st.intr, st.trace);
    assert st.trace + [Connect(env.psmCtrl, CtrlFd(env, st.trace))] <= l.trace;
  }

  // ---- What the session types ----

  /** The characters the session types: ten escapes, the input up to its NUL, and a newline. */
  function Typed(input: seq<int>): seq<int> {
    CStr(Activation) + CStr(input) + [10]
  }

  /** Typing the characters `cs` one after another; `first` marks the first character of the session. */
  function StreamFrom(env: Env, st: Conn, cs: seq<int>, first: bool): (r: Conn)
    requires ValidEnv(env) && |st.key| == KeySlots
    ensures |r.key| == KeySlots
    decreases |cs|
  {
    if cs == [] then st
    else StreamFrom(env, EventsFrom(env, st, CharEvents(cs[0]), first, 0), cs[1..], false)
  }

  lemma {:induction false} StreamAppend(env: Env, st: Conn, a: seq<int>, b: seq<int>, first: bool)
    requires ValidEnv(env) && |st.key| == KeySlots
    ensures StreamFrom(env, st, a + b, first) == StreamFrom(env, StreamFrom(env, st, a, first), b, first && a == [])
    decreases |a|
  {
    if a == [] {
      assert a + b == b;
    } else {
      assert (a + b)[0] == a[0] && (a + b)[1..] == a[1..] + b;
      StreamAppend(env, EventsFrom(env, st, CharEvents(a[0]), first, 0), a[1..], b, false);
    }
  }

  /** The character loop over one token types the token up to its NUL. */
  lemma {:induction false} CharsAreStream(env: Env, st: Conn, tok: seq<int>, firstToken: bool, j: nat)
    requires ValidEnv(env) && |st.key| == KeySlots && j <= |CStr(tok)|
    ensures CharsFrom(env, st, tok, firstToken, j) == StreamFrom(env, st, CStr(tok)[j..], firstToken && j == 0)
    decreases |tok| - j
  {
    var r := CStr(tok);
    if j < |r| {
      assert tok[j] == r[j] != 0;
      var st' := EventsFrom(env, st, CharEvents(tok[j]), firstToken && j == 0, 0);
      CharsAreStream(env, st', tok, firstToken, j + 1);
      assert r[j..][0] == tok[j] && r[j..][1..] == r[j + 1..];
    } else {
      assert j >= |tok| || tok[j] == 0;
      assert r[j..] == [];
    }
  }

  lemma ActivationTyped()
    ensures CStr(Activation) == Escapes
  {
    assert Activation[10] == 0;
    assert |CStr(Activation)| == 10;
    assert Activation[..10] == Escapes;
  }

  lemma NewlineTyped()
    ensures CStr([10, 0]) == [10]
  {
    assert [10, 0][1..] == [0];
  }

  /** The token loop is the character streams of the three tokens, one after another. */
  lemma TokensAreStream(env: Env, input: seq<int>)
    requires ValidEnv(env)
    ensures TokensFrom(env, Init, Tokens(input), 0)
         == StreamFrom(env, StreamFrom(env, StreamFrom(env, Init, CStr(Activation), true), CStr(input), false), [10], false)
  {
    var toks := Tokens(input);
    var s1 := CharsFrom(env, Init, toks[0], true, 0);
    var s2 := CharsFrom(env, s1, toks[1], false, 0);
    var s3 := CharsFrom(env, s2, toks[2], false, 0);
    assert TokensFrom(env, Init, toks, 0) == TokensFrom(env, s1, toks, 1);
    assert TokensFrom(env, s1, toks, 1) == TokensFrom(env, s2, toks, 2);
    assert TokensFrom(env, s2, toks, 2) == TokensFrom(env, s3, toks, 3);
    assert TokensFrom(env, s3, toks, 3) == s3;
    CharsAreStream(env, Init, toks[0], true, 0);
    CharsAreStream(env, s1, toks[1], false, 0);
    CharsAreStream(env, s2, toks[2], false, 0);
    assert CStr(toks[0])[0..] == CStr(Activation);
    assert CStr(toks[1])[0..] == CStr(input);
    NewlineTyped();
    assert CStr(toks[2])[0..] == [10];
  }

  /**
   * The session types, in order, ten escapes, the input up to its first
   * NUL, and a newline; only the first escape's first event is unpaced.
   */
  lemma SessionTypes(env: Env, input: seq<int>)
    requires ValidEnv(env)
    ensures Typed(input) == Escapes + CStr(input) + [10]
    ensures SessionRun(env, input) == Finish(StreamFrom(env, Init, Typed(input), true))
  {
    ActivationTyped();
    TokensAreStream(env, input);
    StreamAppend(env, Init, CStr(Activation), CStr(input), true);
    StreamAppend(env, Init, CStr(Activation) + CStr(input), [10], true);
  }

  // ---- A reliable host ----

  /** A transport on which every connect succeeds and every write is taken in full. */
  ghost predicate Reliable(net: Transport) {
    && (forall t, psm :: net.connect(t, psm) != -1)
    && (forall t, fd, d :: net.write(t, fd, d) == |d|)
  }

  /** A target and a reliable transport. */
  ghost predicate Reachable(env: Env) {
    ValidEnv(env) && Reliable(env.net) && env.tgt != BdAddrAny
  }

  /** The number of report writes in a trace. */
  function Reports(t: seq<Action>): nat {
    if t == [] then 0 else Reports(Front(t)) + (if ReportWrite(LastOf(t)) then 1 else 0)
  }

  lemma {:induction false} ReportsAppend(t: seq<Action>, u: seq<Action>)
    ensures Reports(t + u) == Reports(t) + Reports(u)
    decreases |u|
  {
    if u == [] {
      assert t + u == t;
    } else {
      assert Front(t + u) == t + Front(u) && LastOf(t + u) == LastOf(u);
      ReportsAppend(t, Front(u));
    }
  }

  lemma {:induction false} NoReports(t: seq<Action>)
    requires forall k :: 0 <= k < |t| ==> !ReportWrite(t[k])
    ensures Reports(t) == 0
    decreases |t|
  {
    if t != [] {
      assert forall k :: 0 <= k < |t| - 1 ==> Front(t)[k] == t[k];
      NoReports(Front(t));
    }
  }

  /** A report write on socket `fd`. */
  predicate ReportOn(a: Action, fd: int) {
    ReportWrite(a) && a.fd == fd
  }

  /** The 200 ms pause and a report write on `fd`, in turn, pause first: one pair per event. */
  predicate PacedWrites(u: seq<Action>, fd: int)
    decreases |u|
  {
    u == [] || (2 <= |u| && u[0] == Sleep(PacingUs) && ReportOn(u[1], fd) && PacedWrites(u[2..], fd))
  }

  lemma {:induction false} PacedWritesAppend(u: seq<Action>, v: seq<Action>, fd: int)
    requires PacedWrites(u, fd) && PacedWrites(v, fd)
    ensures PacedWrites(u + v, fd)
    decreases |u|
  {
    if u == [] {
      assert u + v == v;
    } else {
      assert (u + v)[2..] == u[2..] + v;
      PacedWritesAppend(u[2..], v, fd);
    }
  }

  /** What a trace gains between two of its prefixes. */
  lemma SegmentSplit(t: seq<Action>, u: seq<Action>, v: seq<Action>)
    requires t <= u && u <= v
    ensures v[|t|..] == u[|t|..] + v[|u|..]
  {
  }

  /** The number of key events the characters `cs` translate into. */
  function EventCount(cs: seq<int>): nat {
    if cs == [] then 0 else |CharEvents(cs[0])| + EventCount(cs[1..])
  }

  lemma {:induction false} EventCountAppend(a: seq<int>, b: seq<int>)
    ensures EventCount(a + b) == EventCount(a) + EventCount(b)
    decreases |a|
  {
    if a == [] {
      assert a + b == b;
    } else {
      assert (a + b)[0] == a[0] && (a + b)[1..] == a[1..] + b;
      EventCountAppend(a[1..], b);
    }
  }

  /** The control and interrupt sockets a reliable transport opens after `trace`. */
  function CtrlFd(env: Env, trace: seq<Action>): int {
    env.net.connect(trace, env.psmCtrl)
  }

  function IntrFd(env: Env, trace: seq<Action>): int {
    env.net.connect(trace + [Connect(env.psmCtrl, CtrlFd(env, trace))], env.psmIntr)
  }

  /** The actions of opening both channels and of `hello` on a reliable transport. */
  function Linking(env: Env, trace: seq<Action>): seq<Action> {
    var c := CtrlFd(env, trace);
    [Connect(env.psmCtrl, c), Connect(env.psmIntr, IntrFd(env, trace)),
     Write(c, Handshake1, 3), Write(c, Handshake2, 3), Sleep(HelloPauseUs)]
  }

  lemma ReachReliable(env: Env, intr: int, trace: seq<Action>)
    requires Reliable(env.net) && env.tgt != BdAddrAny
    ensures var l := Reach(env, intr, trace);
      && l.ok && l.control == CtrlFd(env, trace) != -1 && l.intr == IntrFd(env, trace) != -1
      && l.trace == trace + Linking(env, trace)
  {
    var c := env.net.connect(trace, env.psmCtrl);
    var t1 := trace + [Connect(env.psmCtrl, c)];
    var i := env.net.connect(t1, env.psmIntr);
    var t2 := t1 + [Connect(env.psmIntr, i)];
    var w1 := env.net.write(t2, c, Handshake1);
    var t3 := t2 + [Write(c, Handshake1, w1)];
    var w2 := env.net.write(t3, c, Handshake2);
    assert w1 == 3 && w2 == 3;
    assert Greet(env, c, t2) == Wire(trace + Linking(env, trace), true);
  }

  /** Opening both channels and the handshake write no report. */
  lemma LinkingQuiet(env: Env, t: seq<Action>)
    ensures |Linking(env, t)| == 5
    ensures Reports(t + Linking(env, t)) == Reports(t)
  {
    NoReports(Linking(env, t));
    ReportsAppend(t, Linking(env, t));
  }

  /** On a reliable transport a send writes one report and goes on. */
  lemma SendReliable(env: Env, st: Conn, paced: bool)
    requires Reliable(env.net) && |st.key| == KeySlots
    ensures var p := Send(env, st, paced);
      && p.go && p.st.control == st.control && p.st.intr == st.intr
      && st.trace <= p.st.trace
      && Reports(p.st.trace) == Reports(st.trace) + 1
      && var u := p.st.trace[|st.trace|..];
         if paced then |u| == 2 && PacedWrites(u, st.intr) else |u| == 1 && ReportOn(u[0], st.intr)
  {
    var data := Report(env, st);
    var pace: seq<Action> := if paced then [Sleep(PacingUs)] else [];
    var w := Write(st.intr, data, env.net.write(st.trace + pace, st.intr, data));
    assert Send(env, st, paced).st.trace == st.trace + (pace + [w]);
    assert ReportWrite(w);
    NoReports(pace);
    ReportsAppend(pace, [w]);
    ReportsAppend(st.trace, pace + [w]);
    assert Send(env, st, paced).st.trace[|st.trace|..] == pace + [w];
  }

  /**
   * On a reliable transport, while linked, every key event of the
   * translator's range writes the updated report once on the channels
   * already open, and the character goes on.
   */
  lemma LinkedReliable(env: Env, st: Conn, ev: InputEvent, paced: bool)
    requires ValidEnv(env) && Reliable(env.net)
    requires |st.key| == KeySlots && st.control != -1 && ev.evType == EvKey && ev.code < 256
    ensures var p := EventStep(env, st, ev, paced);
      && p.go && p.st.control == st.control && p.st.intr == st.intr
      && st.trace <= p.st.trace
      && Reports(p.st.trace) == Reports(st.trace) + 1
      && var u := p.st.trace[|st.trace|..];
         if paced then |u| == 2 && PacedWrites(u, st.intr) else |u| == 1 && ReportOn(u[0], st.intr)
  {
    var o := InputEventEffect(env.tables, st.mods, st.key, ev);
    var st1 := st.(mods := o.mods, key := o.key);
    assert o.ret == 1;
    assert EventStep(env, st, ev, paced) == Send(env, st1, paced);
    SendReliable(env, st1, paced);
  }

  /**
   * On a reliable transport with a target, a key event that finds no
   * channel open links right after the trace so far (the connects, the
   * handshake and the pause), then writes the updated report once and goes on.
   */
  lemma UnlinkedReliable(env: Env, st: Conn, ev: InputEvent, paced: bool)
    requires Reachable(env)
    requires |st.key| == KeySlots && st.control == -1 && ev.evType == EvKey && ev.code < 256
    ensures var p := EventStep(env, st, ev, paced);
      && p.go
      && st.trace <= p.st.trace
      && Reports(p.st.trace) == Reports(st.trace) + 1
      && p.st.control == CtrlFd(env, st.trace) != -1 && p.st.intr == IntrFd(env, st.trace) != -1
      && |st.trace| + 5 <= |p.st.trace| && p.st.trace[..|st.trace| + 5] == st.trace + Linking(env, st.trace)
      && var u := p.st.trace[|st.trace| + 5..];
         if paced then |u| == 2 && PacedWrites(u, p.st.intr) else |u| == 1 && ReportOn(u[0], p.st.intr)
  {
    var o := InputEventEffect(env.tables, st.mods, st.key, ev);
    var st1 := st.(mods := o.mods, key := o.key);
    assert o.ret == 1;
    ReachReliable(env, st1.intr, st1.trace);
    var l := Reach(env, st1.intr, st1.trace);
    var st2 := st1.(control := l.control, intr := l.intr, trace := l.trace);
    assert EventStep(env, st, ev, paced) == Send(env, st2, paced);
    SendReliable(env, st2, paced);
    LinkingQuiet(env, st.trace);
    var t := Send(env, st2, paced).st.trace;
    assert t[..|st.trace| + 5] == st2.trace[..|st.trace| + 5];
  }

  /**
   * On a reliable transport with a target, every key event of the
   * translator's range is reported: the event links first if need be
   * (opening the channels and handshaking right after the trace so far),
   * then the updated report is written once and the character goes on.
   * Channels already open are kept.
   */
  lemma ReliableStep(env: Env, st: Conn, ev: InputEvent, paced: bool)
    requires Reachable(env)
    requires |st.key| == KeySlots && ev.evType == EvKey && ev.code < 256
    ensures var p := EventStep(env, st, ev, paced);
      && p.go
      && st.trace <= p.st.trace
      && Reports(p.st.trace) == Reports(st.trace) + 1
      && (st.control != -1 ==> p.st.control == st.control && p.st.intr == st.intr)
      && (st.control == -1 ==>
            && p.st.control == CtrlFd(env, st.trace) != -1 && p.st.intr == IntrFd(env, st.trace) != -1
            && |st.trace| + 5 <= |p.st.trace| && p.st.trace[..|st.trace| + 5] == st.trace + Linking(env, st.trace))
      && var u := p.st.trace[|st.trace| + (if st.control == -1 then 5 else 0)..];
         if paced then |u| == 2 && PacedWrites(u, p.st.intr) else |u| == 1 && ReportOn(u[0], p.st.intr)
  {
    if st.control == -1 {
      UnlinkedReliable(env, st, ev, paced);
    } else {
      LinkedReliable(env, st, ev, paced);
    }
  }

  /** Every event of the translator's range: a key event with a code below 256. */
  predicate KeyEvents(evs: seq<InputEvent>) {
    forall k :: 0 <= k < |evs| ==> evs[k].evType == EvKey && evs[k].code < 256
  }

  lemma CharEventsAreKeys(c: int)
    ensures KeyEvents(CharEvents(c))
  {
    if Translatable(c) {
      CharEventsLayout(c);
    }
  }

  /**
   * `st'` is where the character goes on after event `i` from `st` while
   * linked: the same channels, one more report (after the 200 ms pause
   * unless it is the session's first event), and the rest of the events.
   */
  predicate LinkedNext(env: Env, st: Conn, st': Conn, evs: seq<InputEvent>, first: bool, i: nat)
    requires ValidEnv(env) && |st.key| == KeySlots
  {
    && |st'.key| == KeySlots
    && EventsFrom(env, st, evs, first, i) == EventsFrom(env, st', evs, first, i + 1)
    && st'.control == st.control && st'.intr == st.intr
    && st.trace <= st'.trace
    && Reports(st'.trace) == Reports(st.trace) + 1
    && ((!first || i > 0) ==> PacedWrites(st'.trace[|st.trace|..], st.intr))
  }

  /** One event of a character while linked on a reliable transport: the character goes on with it. */
  lemma LinkedEventStep(env: Env, st: Conn, evs: seq<InputEvent>, first: bool, i: nat)
    requires Reachable(env) && |st.key| == KeySlots && st.control != -1
    requires KeyEvents(evs) && i < |evs|
    ensures exists st' :: LinkedNext(env, st, st', evs, first, i)
  {
    var p := EventStep(env, st, evs[i], !(first && i == 0));
    LinkedReliable(env, st, evs[i], !(first && i == 0));
    assert LinkedNext(env, st, p.st, evs, first, i);
  }

  /**
   * While linked on a reliable transport, every event of a character
   * writes one report and none is dropped; the channels are kept. Past the
   * session's first event, the character adds exactly a 200 ms pause and a
   * report on the interrupt channel per event.
   */
  lemma {:induction false} EventsLinked(env: Env, st: Conn, evs: seq<InputEvent>, first: bool, i: nat)
    requires Reachable(env) && |st.key| == KeySlots && st.control != -1
    requires KeyEvents(evs) && i <= |evs|
    ensures var r := EventsFrom(env, st, evs, first, i);
      && r.control == st.control && r.intr == st.intr
      && st.trace <= r.trace
      && Reports(r.trace) == Reports(st.trace) + (|evs| - i)
      && ((!first || i > 0) ==> PacedWrites(r.trace[|st.trace|..], st.intr))
    decreases |evs| - i
  {
    if i < |evs| {
      LinkedEventStep(env, st, evs, first, i);
      var st' :| LinkedNext(env, st, st', evs, first, i);
      EventsLinked(env, st', evs, first, i + 1);
      var r := EventsFrom(env, st', evs, first, i + 1);
      PrefixTrans(st.trace, st'.trace, r.trace);
      if !first || i > 0 {
        SegmentSplit(st.trace, st'.trace, r.trace);
        PacedWritesAppend(st'.trace[|st.trace|..], r.trace[|st'.trace|..], st.intr);
      }
    } else {
      assert st.trace[|st.trace|..] == [];
    }
  }

  /** A prefix of a prefix is a prefix. */
  lemma PrefixTrans(t: seq<Action>, u: seq<Action>, v: seq<Action>)
    requires t <= u && u <= v
    ensures t <= v
  {
    assert forall k :: 0 <= k < |t| ==> t[k] == u[k] == v[k];
  }

  /**
   * While linked on a reliable transport, a stream of characters writes one
   * report per event; past the session's first character, each of them
   * right after a 200 ms pause.
   */
  lemma {:induction false} StreamLinked(env: Env, st: Conn, cs: seq<int>, first: bool)
    requires Reachable(env) && |st.key| == KeySlots && st.control != -1
    ensures var r := StreamFrom(env, st, cs, first);
      && r.control == st.control && r.intr == st.intr
      && st.trace <= r.trace
      && Reports(r.trace) == Reports(st.trace) + EventCount(cs)
      && (!first ==> PacedWrites(r.trace[|st.trace|..], st.intr))
    decreases |cs|
  {
    if cs != [] {
      CharEventsAreKeys(cs[0]);
      var st' := EventsFrom(env, st, CharEvents(cs[0]), first, 0);
      EventsLinked(env, st, CharEvents(cs[0]), first, 0);
      var r := StreamFrom(env, st', cs[1..], false);
      assert StreamFrom(env, st, cs, first) == r;
      StreamLinked(env, st', cs[1..], false);
      PrefixTrans(st.trace, st'.trace, r.trace);
      if !first {
        SegmentSplit(st.trace, st'.trace, r.trace);
        PacedWritesAppend(st'.trace[|st.trace|..], r.trace[|st'.trace|..], st.intr);
      }
    } else {
      assert st.trace[|st.trace|..] == [];
    }
  }

  /**
   * The first escape of the session links: its press opens both channels,
   * handshakes and writes the first report right after the handshake
   * pause; its release writes the second after the 200 ms pause.
   */
  lemma FirstEscapeLinks(env: Env)
    requires Reachable(env)
    ensures var r := EventsFrom(env, Init, CharEvents(27), true, 0);
      && r.control == CtrlFd(env, []) && r.intr == IntrFd(env, [])
      && 6 <= |r.trace| && r.trace[..5] == Linking(env, [])
      && ReportOn(r.trace[5], r.intr) && PacedWrites(r.trace[6..], r.intr)
      && Reports(r.trace) == 2
  {
    CharEventsLayout(27);
    CharEventsAreKeys(27);
    var evs := CharEvents(27);
    var p := EventStep(env, Init, evs[0], false);
    ReliableStep(env, Init, evs[0], false);
    assert [] + Linking(env, []) == Linking(env, []);
    EventsLinked(env, p.st, evs, true, 1);
    var r := EventsFrom(env, p.st, evs, true, 1);
    assert r.trace[..5] == p.st.trace[..5];
    assert r.trace[5] == p.st.trace[5];
  }

  lemma {:induction false} UniformCount(cs: seq<int>, c: int)
    requires forall k :: 0 <= k < |cs| ==> cs[k] == c
    ensures EventCount(cs) == |cs| * |CharEvents(c)|
    decreases |cs|
  {
    if cs != [] {
      assert forall k :: 0 <= k < |cs| - 1 ==> cs[1..][k] == cs[k + 1];
      UniformCount(cs[1..], c);
    }
  }

  /** Ten escapes and a newline are 22 events, two each. */
  lemma TypedCount(input: seq<int>)
    ensures EventCount(Typed(input)) == 22 + EventCount(CStr(input))
  {
    var e := Escapes;
    ActivationTyped();
    CharEventsLayout(27);
    CharEventsLayout(10);
    UniformCount(e, 27);
    UniformCount([10], 10);
    EventCountAppend(e + CStr(input), [10]);
    EventCountAppend(e, CStr(input));
  }

  /**
   * The actions of a session linked from the start, once it has closed both
   * channels: connecting both channels, the handshake and its pause, the
   * first report with no 200 ms pause before it, then the 200 ms pause and
   * a report on the interrupt channel in turn, and closing control and
   * interrupt.
   */
  ghost predicate LinkedSession(env: Env, t: seq<Action>) {
    var c := env.net.connect([], env.psmCtrl);
    var i := env.net.connect([Connect(env.psmCtrl, c)], env.psmIntr);
    && 5 + 1 + 2 <= |t|
    && t[..5] == [Connect(env.psmCtrl, c), Connect(env.psmIntr, i),
                  Write(c, Handshake1, 3), Write(c, Handshake2, 3), Sleep(HelloPauseUs)]
    && ReportOn(t[5], i)
    && PacedWrites(t[6..|t| - 2], i)
    && t[|t| - 2..] == [Close(c), Close(i)]
  }

  /** Closing the two channels opened first ends a linked session and writes no report. */
  lemma FinishShape(env: Env, st: Conn)
    requires Reliable(env.net) && st.control == CtrlFd(env, []) && st.intr == IntrFd(env, [])
    requires 6 <= |st.trace| && st.trace[..5] == Linking(env, [])
    requires ReportOn(st.trace[5], st.intr) && PacedWrites(st.trace[6..], st.intr)
    ensures LinkedSession(env, Finish(st).trace)
    ensures Reports(Finish(st).trace) == Reports(st.trace)
  {
    var tail := [Close(st.control), Close(st.intr)];
    assert [] + [Connect(env.psmCtrl, CtrlFd(env, []))] == [Connect(env.psmCtrl, CtrlFd(env, []))];
    assert Finish(st).trace == st.trace + tail;
    NoReports(tail);
    ReportsAppend(st.trace, tail);
    var t := Finish(st).trace;
    assert t[..5] == st.trace[..5];
    assert t[5] == st.trace[5];
    assert t[6..|t| - 2] == st.trace[6..];
    assert t[|t| - 2..] == tail;
  }

  /**
   * Typing the session's stream on a reliable transport: the first escape
   * links and reports at once, every later event reports after the 200 ms
   * pause on the channels opened first.
   */
  lemma StreamReliable(env: Env, input: seq<int>)
    requires Reachable(env)
    ensures var r := StreamFrom(env, Init, Typed(input), true);
      && r.control == CtrlFd(env, []) && r.intr == IntrFd(env, [])
      && 6 <= |r.trace| && r.trace[..5] == Linking(env, [])
      && ReportOn(r.trace[5], r.intr) && PacedWrites(r.trace[6..], r.intr)
      && Reports(r.trace) == EventCount(Typed(input))
  {
    ActivationTyped();
    var cs := Typed(input);
    assert cs[0] == 27;
    CharEventsLayout(27);
    FirstEscapeLinks(env);
    var s1 := EventsFrom(env, Init, CharEvents(27), true, 0);
    StreamLinked(env, s1, cs[1..], false);
    var r := StreamFrom(env, s1, cs[1..], false);
    assert StreamFrom(env, Init, cs, true) == r;
    assert r.trace[..5] == s1.trace[..5];
    assert r.trace[5] == s1.trace[5];
    SegmentSplit(s1.trace[..6], s1.trace, r.trace);
    assert s1.trace[6..] == s1.trace[|s1.trace[..6]|..];
    PacedWritesAppend(s1.trace[6..], r.trace[|s1.trace|..], r.intr);
    assert EventCount(cs) == 2 + EventCount(cs[1..]);
  }

  /**
   * The happy path: with a target and a transport on which every connect
   * succeeds and every write is taken in full, the session opens the
   * control and then the interrupt channel, handshakes and pauses, writes
   * the first report at once and every later one after the 200 ms pause,
   * one report for every event of every typed character (two per
   * unshifted and four per shifted character, at least 22 in all), and
   * ends by closing the two channels it opened, control first.
   */
  lemma SessionReliable(env: Env, input: seq<int>)
    requires Reachable(env)
    ensures LinkedSession(env, SessionTrace(env, input))
    ensures Reports(SessionTrace(env, input)) == EventCount(Typed(input)) == 22 + EventCount(CStr(input))
  {
    SessionTypes(env, input);
    TypedCount(input);
    StreamReliable(env, input);
    FinishShape(env, StreamFrom(env, Init, Typed(input), true));
  }

  // ---- A host that never answers ----

  /** A transport on which every connect fails. */
  ghost predicate Refusing(net: Transport) {
    forall t, psm :: net.connect(t, psm) == -1
  }

  /** The number of translatable characters in `cs`. */
  function Translated(cs: seq<int>): nat {
    if cs == [] then 0 else (if Translatable(cs[0]) then 1 else 0) + Translated(cs[1..])
  }

  lemma {:induction false} TranslatedAppend(a: seq<int>, b: seq<int>)
    ensures Translated(a + b) == Translated(a) + Translated(b)
    decreases |a|
  {
    if a == [] {
      assert a + b == b;
    } else {
      assert (a + b)[0] == a[0] && (a + b)[1..] == a[1..] + b;
      TranslatedAppend(a[1..], b);
    }
  }

  /** Only failed attempts to connect the control channel. */
  predicate RefusedConnects(u: seq<Action>, env: Env) {
    forall k :: 0 <= k < |u| ==> u[k] == Connect(env.psmCtrl, -1)
  }

  /**
   * With a target that refuses every connect, a translatable character
   * breaks off at its first event after one failed control connect; its
   * other events are skipped, and nothing stays open.
   */
  lemma RefusedChar(env: Env, st: Conn, c: int, first: bool)
    requires ValidEnv(env) && Refusing(env.net) && env.tgt != BdAddrAny
    requires |st.key| == KeySlots && st.control == -1
    ensures var r := EventsFrom(env, st, CharEvents(c), first, 0);
      && r.control == -1 && r.intr == st.intr
      && r.trace == st.trace + (if Translatable(c) then [Connect(env.psmCtrl, -1)] else [])
  {
    var evs := CharEvents(c);
    if Translatable(c) {
      CharEventsLayout(c);
      CharEventsAreKeys(c);
      var o := InputEventEffect(env.tables, st.mods, st.key, evs[0]);
      assert o.ret == 1;
      assert env.net.connect(st.trace, env.psmCtrl) == -1;
      assert EventsFrom(env, st, evs, first, 0) == EventAt(env, st, evs, first, 0);
    }
  }

  /** With a refusing target, a stream of characters makes one failed control connect per translatable character. */
  lemma {:induction false} RefusedStream(env: Env, st: Conn, cs: seq<int>, first: bool)
    requires ValidEnv(env) && Refusing(env.net) && env.tgt != BdAddrAny
    requires |st.key| == KeySlots && st.control == -1
    ensures var r := StreamFrom(env, st, cs, first);
      && r.control == -1 && r.intr == st.intr
      && st.trace <= r.trace && |r.trace| == |st.trace| + Translated(cs)
      && RefusedConnects(r.trace[|st.trace|..], env)
    decreases |cs|
  {
    if cs == [] {
      assert st.trace[|st.trace|..] == [];
    } else {
      var st' := EventsFrom(env, st, CharEvents(cs[0]), first, 0);
      RefusedChar(env, st, cs[0], first);
      RefusedStream(env, st', cs[1..], false);
      var r := StreamFrom(env, st', cs[1..], false);
      assert StreamFrom(env, st, cs, first) == r;
      SegmentSplit(st.trace, st'.trace, r.trace);
      assert r.trace[|st.trace|..] == st'.trace[|st.trace|..] + r.trace[|st'.trace|..];
    }
  }

  /**
   * A target that refuses every connect: a failure abandons only the current
   * character, so each translatable character typed (ten escapes, those of
   * the input, the newline) tries once to connect the control channel, and
   * nothing else happens: no write, no pause, no close.
   */
  lemma SessionRefused(env: Env, input: seq<int>)
    requires ValidEnv(env) && Refusing(env.net) && env.tgt != BdAddrAny
    ensures |SessionTrace(env, input)| == Translated(Typed(input)) == 11 + Translated(CStr(input))
    ensures RefusedConnects(SessionTrace(env, input), env)
  {
    SessionTypes(env, input);
    RefusedStream(env, Init, Typed(input), true);
    var r := StreamFrom(env, Init, Typed(input), true);
    assert r.trace[0..] == r.trace;
    assert Finish(r) == r;
    ActivationTyped();
    TranslatableIff(27);
    TranslatableIff(10);
    TranslatedAppend(Escapes + CStr(input), [10]);
    TranslatedAppend(Escapes, CStr(input));
    assert Translated([10]) == 1;
    assert Translated(Escapes) == 10;
  }

  // ---- The imperative session ----

  /** The report object agrees with the constants of the environment. */
  ghost predicate ReportOf(env: Env, report: KeyReport)
    reads report
  {
    report.Valid() && report.reportType == env.tables.reportType
    && report.reportId == ReportId && report.reserved == 0
  }

  /** `hello` on the control channel `control`. */
  method Hello(env: Env, control: int, trace: seq<Action>) returns (trace': seq<Action>, ok: bool)
    ensures Greet(env, control, trace) == Wire(trace', ok)
  {
    trace' := trace;
    var r := env.net.write(trace', control, Handshake1);
    trace' := trace' + [Write(control, Handshake1, r)];
    if r != 3 {
      return trace', false;
    }
    r := env.net.write(trace', control, Handshake2);
    trace' := trace' + [Write(control, Handshake2, r)];
    if r != 3 {
      return trace', false;
    }
    trace' := trace' + [Sleep(HelloPauseUs)];
    ok := true;
  }

  /** The body of the event loop of `session`: apply the event, link if needed, pause, send. */
  method HandleEvent(env: Env, report: KeyReport, ev: InputEvent, paced: bool,
                     control: int, intr: int, trace: seq<Action>)
    returns (control': int, intr': int, trace': seq<Action>, go: bool)
    requires ValidEnv(env) && ReportOf(env, report)
    modifies report`mods, report.key
    ensures ReportOf(env, report)
    ensures EventStep(env, Conn(control, intr, old(report.mods), old(report.key[..]), trace), ev, paced)
            == Progress(Conn(control', intr', report.mods, report.key[..], trace'), go)
  {
    ghost var st := Conn(control, intr, report.mods, report.key[..], trace);
    var ret := report.ApplyEvent(env.tables, ev);
    control', intr', trace', go := control, intr, trace, true;
    if ret == 0 {
      return;
    }
    if control' == -1 {
      if env.tgt == BdAddrAny {
        return control', intr', trace', false;
      }
      control' := env.net.connect(trace', env.psmCtrl);
      trace' := trace' + [Connect(env.psmCtrl, control')];
      if control' == -1 {
        return control', intr', trace', false;
      }
      intr' := env.net.connect(trace', env.psmIntr);
      trace' := trace' + [Connect(env.psmIntr, intr')];
      if intr' == -1 {
        trace' := trace' + [Close(control')];
        control' := -1;
        return control', intr', trace', false;
      }
      var ok;
      trace', ok := Hello(env, control', trace');
      if !ok {
        return control', intr', trace', false;
      }
    }
    if paced {
      trace' := trace' + [Sleep(PacingUs)];
    }
    var data := report.Bytes();
    var r := env.net.write(trace', intr', data);
    trace' := trace' + [Write(intr', data, r)];
    if r <= 0 {
      go := false;
    }
  }

  /**
   * The body of the character loop of `session`: translate `c` into at
   * most four events, then handle them in order until one of them stops
   * the character. The first event of the session is not paced.
   */
  method TypeChar(env: Env, report: KeyReport, c: int, first: bool,
                  control: int, intr: int, trace: seq<Action>)
    returns (control': int, intr': int, trace': seq<Action>)
    requires ValidEnv(env) && ReportOf(env, report)
    modifies report`mods, report.key
    ensures ReportOf(env, report)
    ensures EventsFrom(env, Conn(control, intr, old(report.mods), old(report.key[..]), trace), CharEvents(c), first, 0)
            == Conn(control', intr', report.mods, report.key[..], trace')
  {
    control', intr', trace' := control, intr, trace;
    var events := new InputEvent[MaxEventsPerAsciiChar];
    var numOfEvents := AsciiChar(events, MaxEventsPerAsciiChar, c);
    ghost var evs := CharEvents(c);
    AsciiCharCountFits(c, MaxEventsPerAsciiChar);
    if Translatable(c) {
      CharEventsLayout(c);
    }
    assert numOfEvents < 0 ==> evs == [];
    assert 0 <= numOfEvents ==> numOfEvents == |evs| && events[..numOfEvents] == evs;
    if 0 <= numOfEvents {
      control', intr', trace' := HandleEvents(env, report, events[..numOfEvents], first, control, intr, trace);
    }
  }

  /** The event loop of one character: `evs` in order, until one of them breaks. */
  method HandleEvents(env: Env, report: KeyReport, evs: seq<InputEvent>, first: bool,
                      control: int, intr: int, trace: seq<Action>)
    returns (control': int, intr': int, trace': seq<Action>)
    requires ValidEnv(env) && ReportOf(env, report)
    modifies report`mods, report.key
    ensures ReportOf(env, report)
    ensures EventsFrom(env, Conn(control, intr, old(report.mods), old(report.key[..]), trace), evs, first, 0)
            == Conn(control', intr', report.mods, report.key[..], trace')
  {
    ghost var goal := EventsFrom(env, Conn(control, intr, report.mods, report.key[..], trace), evs, first, 0);
    control', intr', trace' := control, intr, trace;
    var i := 0;
    while i < |evs|
      invariant i <= |evs|
      invariant ReportOf(env, report)
      invariant EventsFrom(env, Conn(control', intr', report.mods, report.key[..], trace'), evs, first, i) == goal
    {
      ghost var st := Conn(control', intr', report.mods, report.key[..], trace');
      var go;
      control', intr', trace', go := HandleEvent(env, report, evs[i], !first || i > 0, control', intr', trace');
      if !go {
        assert EventsFrom(env, st, evs, first, i) == Conn(control', intr', report.mods, report.key[..], trace');
        break;
      }
      i := i + 1;
    }
  }

  /** The character loop of `session` over one token, up to its NUL. */
  method TypeToken(env: Env, report: KeyReport, tok: seq<int>, firstToken: bool,
                   control: int, intr: int, trace: seq<Action>)
    returns (control': int, intr': int, trace': seq<Action>)
    requires ValidEnv(env) && ReportOf(env, report)
    modifies report`mods, report.key
    ensures ReportOf(env, report)
    ensures CharsFrom(env, Conn(control, intr, old(report.mods), old(report.key[..]), trace), tok, firstToken, 0)
            == Conn(control', intr', report.mods, report.key[..], trace')
  {
    ghost var goal := CharsFrom(env, Conn(control, intr, report.mods, report.key[..], trace), tok, firstToken, 0);
    control', intr', trace' := control, intr, trace;
    var j := 0;
    while j < |tok| && tok[j] != 0
      invariant 0 <= j <= |tok|
      invariant ReportOf(env, report)
      invariant CharsFrom(env, Conn(control', intr', report.mods, report.key[..], trace'), tok, firstToken, j) == goal
    {
      ghost var st := Conn(control', intr', report.mods, report.key[..], trace');
      assert CharsFrom(env, st, tok, firstToken, j) == CharAt(env, st, tok, firstToken, j);
      control', intr', trace' := TypeChar(env, report, tok[j], firstToken && j == 0, control', intr', trace');
      j := j + 1;
    }
  }

  /**
   * `session`: the three tokens, the characters of each up to its NUL,
   * then closing both channels. Returns the trace of everything done to
   * the outside world.
   */
  method RunSession(env: Env, input: seq<int>) returns (trace: seq<Action>)
    requires ValidEnv(env)
    ensures trace == SessionTrace(env, input)
  {
    var control, intr := -1, -1;
    var report := new KeyReport(env.tables.reportType);
    var tokens := Tokens(input);
    trace := [];
    ghost var goal := TokensFrom(env, Init, tokens, 0);
    var tokenIdx := 0;
    while tokenIdx < |tokens|
      invariant 0 <= tokenIdx <= |tokens|
      invariant ReportOf(env, report)
      invariant TokensFrom(env, Conn(control, intr, report.mods, report.key[..], trace), tokens, tokenIdx) == goal
    {
      control, intr, trace := TypeToken(env, report, tokens[tokenIdx], tokenIdx == 0, control, intr, trace);
      tokenIdx := tokenIdx + 1;
    }
    if control != -1 {
      trace := trace + [Close(control)];
    }
    if intr != -1 {
      trace := trace + [Close(intr)];
    }
  }
}
