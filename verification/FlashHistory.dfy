/**
 The events around an Arduino upload, and what someone who only watches them would say: whether a
 session is on, when it is over, and whether commands are parsed. None of the firmware's variables
 are in it, and its times are written out.
 */
module FlashHistory {
  import opened Bytes

  datatype Event =
    | Lines(dtr: bool, rts: bool, resetType: nat)
    | Release
    | Signal
    | BootCheck(mode: nat)
    | Reenable
    | RuntimeCommand(on: bool)
    | HostData(chunk: Text)
    | Poll(resetType: nat)
    | Capture
    | Bridge(n: nat)
    | Dropped(n: nat)                // the ring is dropped while the host is not connected
    | HostRead(n: nat)

  datatype Timed = At(now: nat, e: Event)

  /** The programmer's farewell: STK_LEAVE_PROGMODE and CRC_EOP, one right after the other. */
  predicate HasLeave(t: Text) {
    exists i :: 0 <= i < |t| - 1 && t[i] == 0x51 && t[i + 1] == 0x20
  }

  datatype Watch = Watch(
    dtr: bool, rts: bool,            // the lines as last reported
    startedAt: nat,                  // when startup was signalled, 0 if it was not
    started: bool,
    deafUntil: nat,                  // edges before this time are somebody else's
    on: bool,                        // a session is on
    edgeAt: nat,                     // when the last one began
    data: seq<nat>,                  // when the host sent something in it
    scan: Text,                      // what it sent, from the last false alarm on
    leftAt: nat,                     // when the farewell in that was complete
    parsing: bool,
    pending: bool,                   // parsing was turned off by a session and has not come back by itself
    heardAt: nat,                    // when the host last sent something meanwhile
    pulseUntil: nat                  // when the reset pulse is over, 0 without one
  )

  const ASLEEP: Watch := Watch(false, false, 0, false, 0, false, 0, [], [], 0, false, false, 0, 0)

  /** A session begins: a line goes up, 4 s after power-on or later, not right after a session or the
      startup signal, and 40 ms or more after the last one. */
  predicate Begins(w: Watch, t: Timed) {
    && t.e.Lines? && ((t.e.dtr && !w.dtr) || (t.e.rts && !w.rts))
    && t.now >= 4000 && t.now >= w.deafUntil && t.now >= w.edgeAt + 40
  }

  function LastHeard(w: Watch): nat { if w.data == [] then w.edgeAt else w.data[|w.data| - 1] }

  /** The host said farewell and nothing after it. */
  predicate Left(w: Watch) { HasLeave(w.scan) && LastHeard(w) <= w.leftAt }

  /** A session is over half a second after the farewell, after 1.5 s of silence, 4 s without any
      data at all, or 15 s whatever happens. */
  predicate Over(w: Watch, now: nat) {
    || (Left(w) && now >= w.leftAt + 500)
    || (w.data != [] && now >= LastHeard(w) + 1500)
    || (w.data == [] && now >= w.edgeAt + 4000)
    || now >= w.edgeAt + 15000
  }

  /** The Arduino has had 700 ms to boot since the startup signal. */
  predicate HasBooted(w: Watch, now: nat) { now >= w.startedAt + 700 }

  /** Parsing comes back 8 s after a session began, or 2 s after the host last sent something. */
  predicate ComesBack(w: Watch, now: nat) {
    && w.started && !w.on && w.pending && (w.startedAt == 0 || HasBooted(w, now))
    && (now >= w.edgeAt + 8000 || (now >= w.heardAt + 2000 && now >= w.edgeAt + 1000))
  }

  /** Without a signal, startup counts as complete after 6 s. */
  function Woken(w: Watch, now: nat): Watch { w.(started := w.started || now > 6000) }

  /** The first time parsing is turned on, in any of its modes. */
  function Enabled(w: Watch, now: nat, mode: nat): Watch {
    if w.started && !w.pending && mode > 0 && w.startedAt > 0 && HasBooted(w, now) then w.(parsing := true) else w
  }

  /** A poll ends the session, or forgets a farewell that something followed. */
  function Checked(w: Watch, now: nat): Watch {
    if Over(w, now) then w.(on := false, deafUntil := now + 2000)
    else if HasLeave(w.scan) && !Left(w) then w.(scan := [])
    else w
  }

  /** The host sends something. */
  function Said(w: Watch, now: nat, chunk: Text): Watch {
    var v := if w.on || (w.pending && !w.parsing) then w.(heardAt := now) else w;
    if !w.on then v
    else v.(data := w.data + [now], scan := w.scan + chunk,
            leftAt := if !HasLeave(w.scan) && HasLeave(w.scan + chunk) then now else w.leftAt)
  }

  function Seen(w: Watch, t: Timed): Watch {
    match t.e
    case Lines(dtr, rts, resetType) =>
      var v := w.(dtr := dtr, rts := rts,
                  pulseUntil := if Begins(w, t) && resetType == 1 then t.now + 12 else w.pulseUntil);
      if Begins(w, t)
      then v.(on := true, edgeAt := t.now, data := [], scan := [], parsing := false, pending := true, heardAt := t.now)
      else v
    case Release => if t.now >= w.pulseUntil then w.(pulseUntil := 0) else w
    case Signal =>
      if w.started then w
      else w.(started := true, startedAt := t.now, deafUntil := t.now + 3000, parsing := false)
    case BootCheck(mode) => Enabled(Woken(w, t.now), t.now, mode)
    case Reenable => if !w.parsing && ComesBack(w, t.now) then w.(parsing := true, pending := false) else w
    case RuntimeCommand(on) => if !w.on && (on ==> w.started) then w.(parsing := on) else w
    case HostData(chunk) => if chunk == [] then w else Said(w, t.now, chunk)
    case Poll(_) => if w.on then Checked(w, t.now) else w
    case _ => w
  }

  function Watched(w: Watch, run: seq<Timed>): Watch
    decreases run
  {
    if run == [] then w else Watched(Seen(w, run[0]), run[1..])
  }

  ghost predicate Chronological(now: nat, run: seq<Timed>) {
    (forall i :: 0 <= i < |run| ==> now <= run[i].now) &&
    (forall i, j :: 0 <= i < j < |run| ==> run[i].now <= run[j].now)
  }

  // ---- what follows from the events ----

  /** The host sends nothing, and no session begins. */
  ghost predicate Undisturbed(w: Watch, t: Timed) {
    !Begins(w, t) && (t.e.HostData? ==> t.e.chunk == [])
  }

  ghost predicate UndisturbedRun(w: Watch, run: seq<Timed>)
    decreases run
  {
    run == [] || (Undisturbed(w, run[0]) && UndisturbedRun(Seen(w, run[0]), run[1..]))
  }

  lemma FarewellStandsOnce(w: Watch, at: nat, t: Timed)
    requires (w.on ==> Left(w) && w.leftAt == at) && Undisturbed(w, t)
    ensures Seen(w, t).on ==> Left(Seen(w, t)) && Seen(w, t).leftAt == at
  {
    UndisturbedKeeps(w, t);
    if w.on { LeftIs(w, Seen(w, t)); }
  }

  predicate SameSession(w: Watch, v: Watch) {
    (v.on ==> w.on) && v.edgeAt == w.edgeAt && v.data == w.data && v.scan == w.scan && v.leftAt == w.leftAt
  }

  lemma UndisturbedKeeps(w: Watch, t: Timed)
    requires Undisturbed(w, t) && (w.on ==> Left(w))
    ensures SameSession(w, Seen(w, t))
  {
    if t.e.Poll? {
      if w.on { CheckKeeps(w, t.now); }
    } else {
      OtherKeeps(w, t);
    }
  }

  lemma OtherKeeps(w: Watch, t: Timed)
    requires Undisturbed(w, t) && !t.e.Poll?
    ensures SameSession(w, Seen(w, t))
  {
    match t.e
    case HostData(_) => assert Seen(w, t) == w;
    case Lines(_, _, _) => LinesKeep(w, t);
    case BootCheck(mode) => BootKeeps(w, t.now, mode);
    case _ =>
  }

  lemma LinesKeep(w: Watch, t: Timed)
    requires t.e.Lines? && !Begins(w, t)
    ensures SameSession(w, Seen(w, t))
  {
  }

  lemma BootKeeps(w: Watch, now: nat, mode: nat)
    ensures SameSession(w, Enabled(Woken(w, now), now, mode))
  {
  }

  lemma CheckKeeps(w: Watch, now: nat)
    requires Left(w)
    ensures SameSession(w, Checked(w, now))
  {
  }

  lemma LeftIs(w: Watch, v: Watch)
    requires SameSession(w, v)
    ensures Left(v) <==> Left(w)
  {
  }

  /** The host's farewell, once complete, stands while nothing follows it. */
  lemma {:induction false} FarewellStands(w: Watch, at: nat, run: seq<Timed>)
    requires (w.on ==> Left(w) && w.leftAt == at) && UndisturbedRun(w, run)
    ensures var v := Watched(w, run); v.on ==> Left(v) && v.leftAt == at
    decreases run
  {
    if run != [] {
      FarewellStandsOnce(w, at, run[0]);
      FarewellStands(Seen(w, run[0]), at, run[1..]);
    }
  }

  ghost predicate NoneBegins(w: Watch, run: seq<Timed>)
    decreases run
  {
    run == [] || (!Begins(w, run[0]) && NoneBegins(Seen(w, run[0]), run[1..]))
  }

  lemma StaysOverOnce(w: Watch, t: Timed)
    requires !w.on && !Begins(w, t)
    ensures !Seen(w, t).on && Seen(w, t).edgeAt == w.edgeAt
  {
  }

  lemma {:induction false} StaysOver(w: Watch, run: seq<Timed>)
    requires !w.on && NoneBegins(w, run)
    ensures !Watched(w, run).on && Watched(w, run).edgeAt == w.edgeAt
    decreases run
  {
    if run != [] {
      StaysOverOnce(w, run[0]);
      StaysOver(Seen(w, run[0]), run[1..]);
    }
  }

  /** Parsing is off until the Arduino had time to boot. */
  predicate WaitsForBoot(w: Watch, now: nat) {
    w.parsing ==> w.started && (w.startedAt == 0 || HasBooted(w, now))
  }

  lemma WaitsOnce(w: Watch, now: nat, t: Timed)
    requires WaitsForBoot(w, now) && now <= t.now && t.e != RuntimeCommand(true)
    ensures WaitsForBoot(Seen(w, t), t.now)
  {
  }

  function LastTime(now: nat, run: seq<Timed>): nat { if run == [] then now else run[|run| - 1].now }

  /** Without a command that turns it on, parsing never starts before that. */
  lemma {:induction false} ParsingWaitsForBoot(w: Watch, now: nat, run: seq<Timed>)
    requires Chronological(now, run) && forall i :: 0 <= i < |run| ==> run[i].e != RuntimeCommand(true)
    requires WaitsForBoot(w, now)
    ensures WaitsForBoot(Watched(w, run), LastTime(now, run))
    decreases run
  {
    if run != [] {
      WaitsOnce(w, now, run[0]);
      ParsingWaitsForBoot(Seen(w, run[0]), run[0].now, run[1..]);
    }
  }
}
