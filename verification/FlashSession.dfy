/**
 Flashing an Arduino through the bridge: a DTR or RTS edge resets the board and turns the
 bridge into a transparent pipe, the host's bytes are watched for the programmer's farewell,
 and a poll of the main loop ends the session.

 `Session` is the state the firmware keeps; each event is one of its entry points, run to
 completion: the parts of `task`, `checkDTRState`, the bookkeeping of `bridge_usb_to_uart`,
 `secondSerialHandler`. Time is unbounded and never goes back.
 */
module FlashSession {
  import opened Bytes
  import opened FlashHistory

  const BOOT_IGNORE_MS: nat := 4000
  const EDGE_INTERVAL_MS: nat := 40
  const PULSE_MS: nat := 12
  const ABSOLUTE_TIMEOUT_MS: nat := 8000
  const INACTIVITY_TIMEOUT_MS: nat := 2000
  const STARTUP_FALLBACK_MS: nat := 6000
  const BOOT_DELAY_MS: nat := 700
  const MIN_DISABLED_MS: nat := 1000
  const BEGIN_LOCKOUT_MS: nat := 3000
  const LOCKOUT_MS: nat := 2000
  const GRACE_MS: nat := 500
  const QUIET_MS: nat := 1500
  const NO_DATA_MS: nat := 4000
  const HARD_MS: nat := 15000
  const STK_LEAVE: byte := 0x51
  const CRC_EOP: byte := 0x20

  const AVR: nat := 1
  const ESP32: nat := 2

  /** The completion detector. */
  datatype Detector = Detector(
    active: bool, leaveSeen: bool, leaveTime: nat, startTime: nat, anyData: bool, prevByte: byte)

  /** Tag parsing and its timers. */
  datatype Timers = Timers(
    tagParsing: bool, startupComplete: bool, lastData: nat,
    timeout: nat, inactivity: nat, disabledTime: nat, reenableTime: nat, releaseTime: nat)

  /** Edge detection on the control lines. */
  datatype Edges = Edges(dtr: bool, rts: bool, lastEdge: nat, lockoutUntil: nat, pulse: bool)

  /** The reset pulse, and the bytes around it by their position in the capture stream. */
  datatype Stream = Stream(releaseAt: nat, suppress: bool, captured: nat, consumed: nat, fifo: seq<nat>)

  datatype Session = Session(flashing: bool, detector: Detector, timers: Timers, edges: Edges, stream: Stream)

  const POWER_ON: Session := Session(
    false,
    Detector(false, false, 0, 0, false, 0),
    Timers(false, false, 0, 0, 0, 0, 0, 0),
    Edges(false, false, 0, 0, false),
    Stream(0, false, 0, 0, [])
  )

  // ---- the entry points ----

  function Cleared(p: Stream): Stream { p.(consumed := p.captured) }

  function ClearRx(s: Session): Session { s.(stream := Cleared(s.stream)) }

  /** enterFlashMode. */
  function Entered(now: nat): Detector { Detector(true, false, 0, now, false, 0) }

  /** exitFlashMode. */
  function Exited(d: Detector): Detector {
    d.(active := false, leaveSeen := false, anyData := false, prevByte := 0)
  }

  predicate Refreshes(t: Timers) { !t.tagParsing && t.inactivity > 0 }

  /** disableTagParsingWithInactivityTimeout. */
  function Disabled(t: Timers, now: nat, absolute: nat, inactive: nat): Timers {
    t.(tagParsing := false, disabledTime := now, timeout := absolute, inactivity := inactive,
       lastData := if Refreshes(t) then now else 0)
  }

  /** Whether parsing may come back `waited` ms after it was disabled, if no data arrives: on the
      absolute timer, or on the other one if that was running before. */
  predicate MayReturn(absolute: nat, inactive: nat, refreshed: bool, waited: nat) {
    || (absolute > 0 && waited >= absolute)
    || (refreshed && inactive > 0 && waited >= inactive && waited >= MIN_DISABLED_MS)
  }

  /** The reset pulse, nothing captured before it being on its way any more. */
  function Pulsed(p: Stream, now: nat): Stream {
    Cleared(p).(suppress := true, fifo := [], releaseAt := now + PULSE_MS)
  }

  /** triggerArduinoFlashReset. */
  function Triggered(s: Session, now: nat, resetType: nat): Session {
    Session(true, Entered(now),
            Disabled(s.timers.(tagParsing := false), now, ABSOLUTE_TIMEOUT_MS, INACTIVITY_TIMEOUT_MS).(lastData := now),
            s.edges.(pulse := true),
            if resetType == AVR then Pulsed(s.stream, now) else s.stream)
  }

  /** The edge the firmware acts on: rising, outside boot and lockout, not a bounce. */
  predicate Accepts(e: Edges, now: nat, dtr: bool, rts: bool) {
    && ((!e.dtr && dtr) || (!e.rts && rts))
    && now >= BOOT_IGNORE_MS
    && !(e.lockoutUntil != 0 && now < e.lockoutUntil)
    && now - e.lastEdge >= EDGE_INTERVAL_MS
  }

  /** The lines as they are now. */
  function Noted(e: Edges, now: nat, dtr: bool, rts: bool): Edges {
    e.(dtr := dtr, rts := rts, lastEdge := if Accepts(e, now, dtr, rts) then now else e.lastEdge)
  }

  /** checkDTRState. */
  function Edged(s: Session, now: nat, dtr: bool, rts: bool, resetType: nat): Session {
    var noted := s.(edges := Noted(s.edges, now, dtr, rts));
    if Accepts(s.edges, now, dtr, rts) then Triggered(noted, now, resetType) else noted
  }

  /** The first thing task() does: end a reset pulse whose time is up, flushing both directions. */
  function Released(p: Stream, now: nat): Stream {
    if p.releaseAt != 0 && now >= p.releaseAt
    then Cleared(p).(releaseAt := 0, fifo := [], suppress := false) else p
  }

  /** signalStartupComplete, with begin(). */
  function Signalled(s: Session, now: nat): Session {
    if s.timers.startupComplete then s
    else ClearRx(s).(edges := s.edges.(lockoutUntil := now + BEGIN_LOCKOUT_MS),
                     timers := s.timers.(startupComplete := true, tagParsing := false, releaseTime := now))
  }

  /** task(): the fallback for a startup signal that never comes. */
  function FellBack(s: Session, now: nat): Session {
    if !s.timers.tagParsing && !s.timers.startupComplete && now > STARTUP_FALLBACK_MS
    then ClearRx(s).(timers := s.timers.(startupComplete := true)) else s
  }

  /** Whether the Arduino has booted. */
  predicate BootDone(t: Timers, now: nat) {
    && t.startupComplete && !t.tagParsing && t.timeout == 0 && t.inactivity == 0
    && t.releaseTime > 0 && now - t.releaseTime >= BOOT_DELAY_MS
  }

  /** task(): tag parsing starts once the Arduino has booted. */
  function BootEnabled(s: Session, now: nat, mode: nat): Session {
    if mode > 0 && BootDone(s.timers, now) then ClearRx(s).(timers := s.timers.(tagParsing := true)) else s
  }

  predicate Booted(t: Timers, now: nat) { t.releaseTime == 0 || now - t.releaseTime >= BOOT_DELAY_MS }

  predicate TimersUp(t: Timers, now: nat) {
    || (t.timeout > 0 && now - t.disabledTime >= t.timeout)
    || (&& t.inactivity > 0 && t.lastData > 0
        && now - t.lastData >= t.inactivity && now - t.disabledTime >= MIN_DISABLED_MS)
  }

  predicate TimedOut(t: Timers, now: nat) {
    Booted(t, now) && TimersUp(t, now)
  }

  function Resumed(t: Timers, now: nat): Timers {
    t.(tagParsing := true, timeout := 0, inactivity := 0, lastData := 0, reenableTime := now)
  }

  /** task(): tag parsing comes back after an upload. */
  function Reenabled(s: Session, now: nat): Session {
    if !s.timers.tagParsing && s.timers.startupComplete && !s.detector.active && TimedOut(s.timers, now)
    then ClearRx(s).(timers := Resumed(s.timers, now)) else s
  }

  /** process_runtime_command: "tag parsing = ..." seen in either direction. */
  function Commanded(s: Session, on: bool): Session {
    if s.flashing || (on && !s.timers.startupComplete) then s else s.(timers := s.timers.(tagParsing := on))
  }

  datatype Scanner = Scanner(seen: bool, time: nat, prev: byte)

  /** The farewell scanner over one chunk. */
  function Scan(c: Scanner, now: nat, chunk: Text): Scanner
    decreases chunk
  {
    if chunk == [] || c.seen then c
    else if c.prev == STK_LEAVE && chunk[0] == CRC_EOP then c.(seen := true, time := now)
    else Scan(c.(prev := chunk[0]), now, chunk[1..])
  }

  function ScannerOf(d: Detector): Scanner { Scanner(d.leaveSeen, d.leaveTime, d.prevByte) }

  function Scanned(d: Detector, now: nat, chunk: Text): Detector {
    var c := Scan(ScannerOf(d), now, chunk);
    d.(leaveSeen := c.seen, leaveTime := c.time, prevByte := c.prev)
  }

  /** A nonempty chunk from the host is heard by the timers while parsing is off, and by the session. */
  function Touched(t: Timers, active: bool, now: nat): Timers {
    if Refreshes(t) || active then t.(lastData := now) else t
  }

  /** bridge_usb_to_uart: a nonempty chunk arrived from the host. */
  function Fed(s: Session, now: nat, chunk: Text): Session {
    s.(timers := Touched(s.timers, s.detector.active, now),
       detector := if s.detector.active then Scanned(s.detector.(anyData := true), now, chunk) else s.detector)
  }

  /** checkFlashDone forgets a farewell that more data followed. */
  function Rechecked(d: Detector, lastData: nat): Detector {
    if d.active && d.leaveSeen && lastData > d.leaveTime then d.(leaveSeen := false, prevByte := 0) else d
  }

  predicate Done(d: Detector, lastData: nat, now: nat) {
    d.active &&
    (|| (d.leaveSeen && lastData <= d.leaveTime && now - d.leaveTime >= GRACE_MS)
     || (d.anyData && now - lastData >= QUIET_MS)
     || (!d.anyData && now - d.startTime >= NO_DATA_MS)
     || now - d.startTime >= HARD_MS)
  }

  /** flashArduino. */
  function Flashed(s: Session, resetType: nat): Session {
    s.(flashing := true, stream := if resetType == ESP32 then Cleared(s.stream) else s.stream)
  }

  /** Run once per detected edge. */
  function Connected(s: Session, resetType: nat): Session {
    if s.edges.pulse then Flashed(s.(edges := s.edges.(pulse := false)), resetType) else s
  }

  function Judged(s: Session, now: nat): Session {
    var checked := Rechecked(s.detector, s.timers.lastData);
    if Done(s.detector, s.timers.lastData, now)
    then s.(flashing := false, detector := Exited(checked), edges := s.edges.(lockoutUntil := now + LOCKOUT_MS))
    else s.(detector := checked)
  }

  /** secondSerialHandler. */
  function Polled(s: Session, now: nat, resetType: nat): Session {
    var t := Connected(s, resetType);
    if t.flashing then Judged(t, now) else t
  }

  /** bridge_uart_to_usb passes up to `n` bytes on; while suppressed it drops what there is. */
  function Bridged(p: Stream, n: nat): Stream {
    if p.suppress then Cleared(p)
    else if p.consumed + n <= p.captured
    then p.(consumed := p.consumed + n, fifo := p.fifo + seq(n, i requires 0 <= i < n => p.consumed + i))
    else p
  }

  /** The byte stream around the session. */
  function Moved(p: Stream, e: Event): Stream
    requires e.Capture? || e.Bridge? || e.Dropped? || e.HostRead?
  {
    match e
    case Capture => p.(captured := p.captured + 1)
    case Bridge(n) => Bridged(p, n)
    case Dropped(n) => if p.consumed <= n <= p.captured then p.(consumed := n) else p
    case HostRead(n) => if n <= |p.fifo| then p.(fifo := p.fifo[n..]) else p
  }

  function After(s: Session, now: nat, e: Event): Session {
    match e
    case Lines(dtr, rts, resetType) => Edged(s, now, dtr, rts, resetType)
    case Release => s.(stream := Released(s.stream, now))
    case Signal => Signalled(s, now)
    case BootCheck(mode) => BootEnabled(FellBack(s, now), now, mode)
    case Reenable => Reenabled(s, now)
    case RuntimeCommand(on) => Commanded(s, on)
    case HostData(chunk) => if chunk == [] then s else Fed(s, now, chunk)
    case Poll(resetType) => Polled(s, now, resetType)
    case _ => s.(stream := Moved(s.stream, e))
  }

  // ---- what a run leaves behind ----

  /** A byte the host read, with how much had been captured when the last pulse was released. */
  datatype Delivery = Delivery(position: nat, mark: nat)

  /** A session with its history: what the events alone say, the capture count at the last
      release, and what the host has read. */
  datatype Log = Log(s: Session, now: nat, w: Watch, mark: nat, delivered: seq<Delivery>)

  const START: Log := Log(POWER_ON, 0, ASLEEP, 0, [])

  function Next(l: Log, t: Timed): Log {
    var after := After(l.s, t.now, t.e);
    Log(after, t.now, Seen(l.w, t),
        if l.s.stream.releaseAt != 0 && after.stream.releaseAt == 0 then l.s.stream.captured else l.mark,
        if t.e.HostRead? && t.e.n <= |l.s.stream.fifo|
        then l.delivered + seq(t.e.n, i requires 0 <= i < t.e.n => Delivery(l.s.stream.fifo[i], l.mark))
        else l.delivered)
  }

  function Run(l: Log, run: seq<Timed>): Log
    decreases run
  {
    if run == [] then l else Run(Next(l, run[0]), run[1..])
  }

  function LastByte(t: Text): byte { if t == [] then 0 else t[|t| - 1] }

  // ---- the invariant, part by part ----

  /** The transparent pipe: the two flags agree, and tag parsing stays off with its timers armed. */
  ghost predicate PipeInv(s: Session) {
    && (s.flashing <==> s.detector.active)
    && (s.edges.pulse ==> s.detector.active)
    && (s.detector.active ==> !s.timers.tagParsing && s.timers.timeout == ABSOLUTE_TIMEOUT_MS && s.timers.inactivity == INACTIVITY_TIMEOUT_MS)
  }

  /** A timer is armed exactly while parsing has not come back. */
  ghost predicate ParsingAgrees(t: Timers, w: Watch) {
    && t.tagParsing == w.parsing && t.startupComplete == w.started && t.releaseTime == w.startedAt
    && (!w.started ==> !w.parsing && w.startedAt == 0)
    && (if w.pending
        then t.timeout == ABSOLUTE_TIMEOUT_MS && t.inactivity == INACTIVITY_TIMEOUT_MS
             && t.disabledTime == w.edgeAt && t.lastData == w.heardAt && w.heardAt > 0
        else t.timeout == 0 && t.inactivity == 0)
  }

  /** The lines, the session, the startup and parsing are what the events say. */
  ghost predicate Agrees(s: Session, w: Watch) {
    && (s.detector.active <==> w.on)
    && s.edges.dtr == w.dtr && s.edges.rts == w.rts && s.edges.lastEdge == w.edgeAt && s.edges.lockoutUntil == w.deafUntil
    && s.stream.releaseAt == w.pulseUntil
    && ParsingAgrees(s.timers, w)
  }

  ghost predicate TimeInv(l: Log) {
    && l.w.edgeAt <= l.now && l.w.heardAt <= l.now && l.w.startedAt <= l.now && l.s.detector.leaveTime <= l.now
    && (l.w.on ==> l.s.detector.startTime == l.w.edgeAt && LastHeard(l.w) <= l.now)
  }

  /** What the firmware remembers of the host's data is what there was since the last edge. */
  ghost predicate DataInv(l: Log) {
    l.w.on ==>
      && (l.s.detector.anyData <==> l.w.data != [])
      && (l.w.data == [] ==> l.w.scan == [])
      && l.w.pending && l.w.heardAt == LastHeard(l.w)
  }

  ghost predicate Scans(c: Scanner, scan: Text) {
    (c.seen <==> HasLeave(scan)) && (!c.seen ==> c.prev == LastByte(scan))
  }

  ghost predicate ScanInv(d: Detector, w: Watch) {
    Scans(ScannerOf(d), w.scan) && (HasLeave(w.scan) ==> d.leaveTime == w.leftAt)
  }

  /** Suppression is on exactly while a release is pending; nothing from before the last release
      is on its way to the host... */
  ghost predicate StreamInv(p: Stream, mark: nat) {
    && (p.suppress <==> p.releaseAt != 0)
    && (p.suppress ==> p.fifo == [])
    && mark <= p.consumed <= p.captured
    && forall i :: 0 <= i < |p.fifo| ==> mark <= p.fifo[i] < p.consumed
  }

  /** ...nor has reached it since. */
  ghost predicate PulseInv(l: Log) {
    StreamInv(l.s.stream, l.mark) && forall i :: 0 <= i < |l.delivered| ==> l.delivered[i].mark <= l.delivered[i].position
  }

  ghost predicate Inv(l: Log) {
    && PipeInv(l.s) && Agrees(l.s, l.w) && TimeInv(l) && DataInv(l)
    && (l.w.on ==> ScanInv(l.s.detector, l.w))
    && PulseInv(l)
  }

  lemma HasLeaveGrows(t: Text, b: byte)
    ensures HasLeave(t + [b]) <==> HasLeave(t) || (LastByte(t) == STK_LEAVE && b == CRC_EOP)
  {
    if HasLeave(t) {
      var i :| 0 <= i < |t| - 1 && t[i] == STK_LEAVE && t[i + 1] == CRC_EOP;
      assert (t + [b])[i] == STK_LEAVE && (t + [b])[i + 1] == CRC_EOP;
    }
    if LastByte(t) == STK_LEAVE && b == CRC_EOP {
      var i := |t| - 1;
      assert (t + [b])[i] == STK_LEAVE && (t + [b])[i + 1] == CRC_EOP;
    }
  }

  lemma HasLeaveStays(t: Text, more: Text)
    requires HasLeave(t)
    ensures HasLeave(t + more)
  {
    var i :| 0 <= i < |t| - 1 && t[i] == STK_LEAVE && t[i + 1] == CRC_EOP;
    assert (t + more)[i] == STK_LEAVE && (t + more)[i + 1] == CRC_EOP;
  }

  lemma ScanOne(c: Scanner, b: byte, scan: Text)
    requires Scans(c, scan) && !c.seen
    ensures if c.prev == STK_LEAVE && b == CRC_EOP then HasLeave(scan + [b])
            else Scans(c.(prev := b), scan + [b])
  {
    HasLeaveGrows(scan, b);
  }

  /** However the stream is cut into chunks, the flag says whether the farewell occurred in it. */
  lemma {:induction false} ScanFindsLeave(c: Scanner, now: nat, chunk: Text, scan: Text)
    requires Scans(c, scan)
    ensures Scans(Scan(c, now, chunk), scan + chunk)
    ensures Scan(c, now, chunk).time == if !c.seen && HasLeave(scan + chunk) then now else c.time
    decreases chunk
  {
    if chunk == [] {
      assert scan + chunk == scan;
    } else if c.seen {
      HasLeaveStays(scan, chunk);
    } else {
      var b, rest := chunk[0], chunk[1..];
      assert (scan + [b]) + rest == scan + chunk;
      ScanOne(c, b, scan);
      if c.prev == STK_LEAVE && b == CRC_EOP {
        HasLeaveStays(scan + [b], rest);
      } else {
        ScanFindsLeave(c.(prev := b), now, rest, scan + [b]);
      }
    }
  }

  // ---- every event keeps it ----

  lemma ScanKeeps(d: Detector, w: Watch, now: nat, chunk: Text)
    requires ScanInv(d, w) && d.leaveTime <= now && w.on
    ensures ScanInv(Scanned(d, now, chunk), Said(w, now, chunk))
    ensures Scanned(d, now, chunk).leaveTime <= now
  {
    ScanFindsLeave(ScannerOf(d), now, chunk, w.scan);
    if HasLeave(w.scan) { HasLeaveStays(w.scan, chunk); }
  }

  lemma ClearKeeps(p: Stream, mark: nat)
    requires StreamInv(p, mark)
    ensures StreamInv(Cleared(p), mark)
  {
  }

  lemma PulseStarts(p: Stream, mark: nat, now: nat)
    requires StreamInv(p, mark)
    ensures StreamInv(Pulsed(p, now), mark)
  {
  }

  lemma TriggerKeeps(l: Log, now: nat, dtr: bool, rts: bool, resetType: nat)
    requires Inv(l) && l.now <= now && Accepts(l.s.edges, now, dtr, rts)
    ensures Inv(Next(l, At(now, Lines(dtr, rts, resetType))))
  {
    PulseStarts(l.s.stream, l.mark, now);
    EnteredScansNothing(now);
  }

  lemma EnteredScansNothing(now: nat)
    ensures Scans(ScannerOf(Entered(now)), []) && !HasLeave([])
  {
  }

  lemma LinesKeeps(l: Log, now: nat, dtr: bool, rts: bool, resetType: nat)
    requires Inv(l) && l.now <= now
    ensures Inv(Next(l, At(now, Lines(dtr, rts, resetType))))
  {
    if Accepts(l.s.edges, now, dtr, rts) { TriggerKeeps(l, now, dtr, rts, resetType); }
  }

  lemma ReleaseKeeps(l: Log, now: nat)
    requires Inv(l) && l.now <= now
    ensures Inv(Next(l, At(now, Release)))
  {
  }

  lemma SignalKeeps(l: Log, now: nat)
    requires Inv(l) && l.now <= now
    ensures Inv(Next(l, At(now, Signal)))
  {
    ClearKeeps(l.s.stream, l.mark);
  }

  lemma FallbackKeeps(l: Log, now: nat)
    requires Inv(l) && l.now <= now
    ensures Inv(l.(s := FellBack(l.s, now), now := now, w := Woken(l.w, now)))
  {
    ClearKeeps(l.s.stream, l.mark);
  }

  lemma BootEnableKeeps(l: Log, now: nat, mode: nat)
    requires Inv(l) && l.now <= now
    ensures Inv(l.(s := BootEnabled(l.s, now, mode), now := now, w := Enabled(l.w, now, mode)))
  {
    ClearKeeps(l.s.stream, l.mark);
  }

  lemma BootCheckKeeps(l: Log, now: nat, mode: nat)
    requires Inv(l) && l.now <= now
    ensures Inv(Next(l, At(now, BootCheck(mode))))
  {
    var fallen := l.(s := FellBack(l.s, now), now := now, w := Woken(l.w, now));
    FallbackKeeps(l, now);
    BootEnableKeeps(fallen, now, mode);
  }

  lemma ReenableKeeps(l: Log, now: nat)
    requires Inv(l) && l.now <= now
    ensures Inv(Next(l, At(now, Reenable)))
  {
    ClearKeeps(l.s.stream, l.mark);
  }

  lemma RuntimeCommandKeeps(l: Log, now: nat, on: bool)
    requires Inv(l) && l.now <= now
    ensures Inv(Next(l, At(now, RuntimeCommand(on))))
  {
  }

  lemma HostDataKeeps(l: Log, now: nat, chunk: Text)
    requires Inv(l) && l.now <= now
    ensures Inv(Next(l, At(now, HostData(chunk))))
  {
    if l.w.on && chunk != [] { ScanKeeps(l.s.detector.(anyData := true), l.w, now, chunk); }
  }

  lemma ConnectKeeps(l: Log, resetType: nat)
    requires Inv(l)
    ensures Inv(l.(s := Connected(l.s, resetType)))
    ensures var s := Connected(l.s, resetType);
            s.detector == l.s.detector && s.timers == l.s.timers && s.flashing == l.s.flashing &&
            s.stream.releaseAt == l.s.stream.releaseAt
  {
    ClearKeeps(l.s.stream, l.mark);
  }

  /** The firmware's completion check, on what it remembers, is the one on the events. */
  lemma DoneIsOver(l: Log, now: nat)
    requires Inv(l) && l.now <= now && l.w.on
    ensures Done(l.s.detector, l.s.timers.lastData, now) <==> Over(l.w, now)
    ensures l.s.detector.leaveSeen && l.s.timers.lastData > l.s.detector.leaveTime <==> HasLeave(l.w.scan) && !Left(l.w)
  {
  }

  /** The end of a session, and a check that does not end it. */
  lemma JudgeKeeps(l: Log, now: nat, resetType: nat)
    requires Inv(l) && l.now <= now && !l.s.edges.pulse && l.w.on
    ensures Inv(Log(Judged(l.s, now), now, Seen(l.w, At(now, Poll(resetType))), l.mark, l.delivered))
  {
    DoneIsOver(l, now);
    EnteredScansNothing(now);
  }

  lemma PollKeeps(l: Log, now: nat, resetType: nat)
    requires Inv(l) && l.now <= now
    ensures Inv(Next(l, At(now, Poll(resetType))))
  {
    var c := l.(s := Connected(l.s, resetType));
    ConnectKeeps(l, resetType);
    if l.w.on { JudgeKeeps(c, now, resetType); }
  }

  lemma StreamKeeps(p: Stream, mark: nat, e: Event)
    requires StreamInv(p, mark) && (e.Capture? || e.Bridge? || e.Dropped? || e.HostRead?)
    ensures StreamInv(Moved(p, e), mark) && Moved(p, e).releaseAt == p.releaseAt
  {
  }

  lemma AroundKeeps(l: Log, now: nat, e: Event)
    requires Inv(l) && l.now <= now && (e.Capture? || e.Bridge? || e.Dropped? || e.HostRead?)
    ensures Inv(Next(l, At(now, e)))
  {
    StreamKeeps(l.s.stream, l.mark, e);
  }

  lemma StepKeeps(l: Log, t: Timed)
    requires Inv(l) && l.now <= t.now
    ensures Inv(Next(l, t))
  {
    match t.e
    case Lines(dtr, rts, resetType) => LinesKeeps(l, t.now, dtr, rts, resetType);
    case Release => ReleaseKeeps(l, t.now);
    case Signal => SignalKeeps(l, t.now);
    case BootCheck(mode) => BootCheckKeeps(l, t.now, mode);
    case Reenable => ReenableKeeps(l, t.now);
    case RuntimeCommand(on) => RuntimeCommandKeeps(l, t.now, on);
    case HostData(chunk) => HostDataKeeps(l, t.now, chunk);
    case Poll(resetType) => PollKeeps(l, t.now, resetType);
    case _ => AroundKeeps(l, t.now, t.e);
  }

  lemma {:induction false} RunKeeps(l: Log, run: seq<Timed>)
    requires Inv(l) && Chronological(l.now, run)
    ensures Inv(Run(l, run))
    decreases run
  {
    if run != [] {
      StepKeeps(l, run[0]);
      RunKeeps(Next(l, run[0]), run[1..]);
    }
  }

  // ---- the theorems ----

  lemma StartKeeps()
    ensures Inv(START)
  {
  }

  /** What the invariant says of the flags. */
  lemma FlagsAgree(l: Log)
    requires Inv(l)
    ensures l.s.flashing == l.s.detector.active == l.w.on && l.s.edges.lastEdge == l.w.edgeAt
    ensures l.s.timers.tagParsing == l.w.parsing && l.s.timers.startupComplete == l.w.started
    ensures l.w.on ==> !l.w.parsing
    ensures l.s.stream.suppress == (l.w.pulseUntil != 0)
  {
  }

  /** A reachable state. */
  lemma Reached(run: seq<Timed>)
    requires Chronological(0, run)
    ensures Inv(Run(START, run)) && Run(START, run).w == Watched(ASLEEP, run)
  {
    StartKeeps();
    RunKeeps(START, run);
    RunWatches(START, run);
  }

  lemma {:induction false} RunWatches(l: Log, run: seq<Timed>)
    ensures Run(l, run).w == Watched(l.w, run)
    decreases run
  {
    if run != [] { RunWatches(Next(l, run[0]), run[1..]); }
  }

  /** In every reachable state the firmware's flags are what the events alone say: a session is on
      from an edge to its end, parsing is as it should be, and the stream is suppressed while a reset
      pulse is on. */
  lemma SessionFollowsEvents(run: seq<Timed>)
    requires Chronological(0, run)
    ensures var s, w := Run(START, run).s, Watched(ASLEEP, run);
            && s.flashing == s.detector.active == w.on
            && s.timers.tagParsing == w.parsing && s.timers.startupComplete == w.started
            && s.stream.suppress == (w.pulseUntil != 0)
  {
    Reached(run);
    FlagsAgree(Run(START, run));
  }

  /** In every reachable state the bridge is told to be transparent exactly while the completion
      detector is at work, and tag parsing is off throughout, whoever tried to turn it on. */
  lemma FlashingIsTransparent(run: seq<Timed>)
    requires Chronological(0, run)
    ensures var s := Run(START, run).s; (s.flashing <==> s.detector.active) && (s.detector.active ==> !s.timers.tagParsing)
  {
    Reached(run);
    FlagsAgree(Run(START, run));
  }

  /** A poll ends a session exactly half a second or more after a farewell that nothing followed,
      after 1.5 s of silence, after 4 s without any data, or after 15 s. */
  lemma PollEndsIff(run: seq<Timed>, now: nat, resetType: nat)
    requires Chronological(0, run) && Run(START, run).now <= now && Watched(ASLEEP, run).on
    ensures var w, last := Watched(ASLEEP, run), LastHeard(Watched(ASLEEP, run));
            !Next(Run(START, run), At(now, Poll(resetType))).s.flashing <==>
              || (HasLeave(w.scan) && last <= w.leftAt && now - w.leftAt >= 500)
              || (w.data != [] && now - last >= 1500)
              || (w.data == [] && now - w.edgeAt >= 4000)
              || now - w.edgeAt >= 15000
  {
    Reached(run);
    PollIsSeen(Run(START, run), now, resetType);
  }

  lemma PollIsSeen(l: Log, now: nat, resetType: nat)
    requires Inv(l) && l.now <= now
    ensures var p := Next(l, At(now, Poll(resetType)));
            && p.s.flashing == p.s.detector.active == (l.w.on && !Over(l.w, now))
            && p.s.edges.lastEdge == l.s.edges.lastEdge
  {
    FlagsAgree(l);
    StepKeeps(l, At(now, Poll(resetType)));
    FlagsAgree(Next(l, At(now, Poll(resetType))));
  }

  /** Past the cap a poll always ends a session. */
  lemma HardTimeout(l: Log, now: nat, resetType: nat)
    requires Inv(l) && l.now <= now && now >= l.s.edges.lastEdge + HARD_MS
    ensures var p := Next(l, At(now, Poll(resetType))).s;
            !p.flashing && !p.detector.active && p.edges.lastEdge == l.s.edges.lastEdge
  {
    FlagsAgree(l);
    PollIsSeen(l, now, resetType);
  }

  /** The first poll at or past 15 s after the last accepted edge finds or leaves the session over. */
  lemma PollEndsSession(run: seq<Timed>, now: nat, resetType: nat)
    requires Chronological(0, run) && Run(START, run).now <= now
    requires now >= Run(START, run).s.edges.lastEdge + HARD_MS
    ensures var l := Next(Run(START, run), At(now, Poll(resetType)));
            !l.s.flashing && !l.s.detector.active && l.s.edges.lastEdge == Run(START, run).s.edges.lastEdge
  {
    Reached(run);
    HardTimeout(Run(START, run), now, resetType);
  }

  /** How long the host has sent nothing since the session began. */
  function Silence(w: Watch, now: nat): int { now - LastHeard(w) }

  /** A poll ends a session before the 15 s cap only if the host has been silent for 500 ms, or has
      sent nothing at all for 4 s; and it always ends one that has been silent for 1.5 s. */
  lemma EndsOnlyWhenQuiet(l: Log, now: nat, resetType: nat)
    requires Inv(l) && l.w.on && l.now <= now
    ensures var ended := !Next(l, At(now, Poll(resetType))).s.detector.active;
            && (ended ==> now >= l.s.edges.lastEdge + HARD_MS || Silence(l.w, now) >= if l.w.data == [] then NO_DATA_MS else GRACE_MS)
            && (ended && Silence(l.w, now) < QUIET_MS ==> HasLeave(l.w.scan) || now >= l.s.edges.lastEdge + HARD_MS)
            && (Silence(l.w, now) >= (if l.w.data == [] then NO_DATA_MS else QUIET_MS) ==> ended)
  {
    FlagsAgree(l);
    PollIsSeen(l, now, resetType);
    LeftAfterData(l);
  }

  lemma LeftAfterData(l: Log)
    requires Inv(l) && l.w.on
    ensures HasLeave(l.w.scan) ==> l.w.data != []
    ensures l.s.edges.lastEdge == l.w.edgeAt
  {
  }

  /** A farewell that completes in a chunk of host data ends the session at the first poll half a
      second later or more, if the host sends nothing after it and no session begins. */
  lemma FarewellEnds(l: Log, at: nat, chunk: Text, run: seq<Timed>, now: nat, resetType: nat)
    requires Inv(l) && l.w.on && l.now <= at && Chronological(at, run)
    requires !HasLeave(l.w.scan) && HasLeave(l.w.scan + chunk)
    requires var h := Next(l, At(at, HostData(chunk))); UndisturbedRun(h.w, run) && Run(h, run).now <= now
    requires now >= at + GRACE_MS
    ensures !Next(Run(Next(l, At(at, HostData(chunk))), run), At(now, Poll(resetType))).s.flashing
  {
    var h := Next(l, At(at, HostData(chunk)));
    assert chunk == [] ==> l.w.scan + chunk == l.w.scan;
    StepKeeps(l, At(at, HostData(chunk)));
    RunKeeps(h, run);
    RunWatches(h, run);
    FarewellStands(h.w, at, run);
    PollIsSeen(Run(h, run), now, resetType);
  }

  /** Once it is over it stays over until a session begins. */
  lemma OverUntilNextEdge(l: Log, run: seq<Timed>)
    requires Inv(l) && !l.w.on && Chronological(l.now, run) && NoneBegins(l.w, run)
    ensures !Run(l, run).s.flashing && !Run(l, run).s.detector.active
    ensures Run(l, run).s.edges.lastEdge == l.s.edges.lastEdge
  {
    StaysOver(l.w, run);
    RunKeeps(l, run);
    RunWatches(l, run);
    FlagsAgree(l);
    FlagsAgree(Run(l, run));
  }

  /** The farewell flag is up exactly when the farewell occurred in the bytes scanned. */
  lemma FlagMeansFarewell(run: seq<Timed>)
    requires Chronological(0, run)
    ensures var s, w := Run(START, run).s, Watched(ASLEEP, run); w.on ==> (s.detector.leaveSeen <==> HasLeave(w.scan))
  {
    Reached(run);
  }

  /** Whenever parsing comes on, but for a command that turns it on, nothing captured before is left
      in the ring; and so it is when startup completes. */
  lemma ParsingStartsFresh(l: Log, t: Timed)
    requires Inv(l) && l.now <= t.now && !t.e.RuntimeCommand?
    ensures var s := Next(l, t).s;
            (!l.s.timers.tagParsing && s.timers.tagParsing) || (!l.s.timers.startupComplete && s.timers.startupComplete)
            ==> s.stream.consumed == s.stream.captured
  {
  }

  /** The poll that takes notice of an edge on an ESP32 empties the ring before its reset. */
  lemma ResetStartsFresh(s: Session, now: nat)
    ensures s.edges.pulse ==> var p := Polled(s, now, 2); p.stream.consumed == p.stream.captured && !p.edges.pulse
  {
  }

  /** Suppression is on exactly while a release is pending, and no byte captured before a release
      reaches the host after it, however many edges there are and however late the release. */
  lemma NothingStaleReachesHost(run: seq<Timed>)
    requires Chronological(0, run)
    ensures var l := Run(START, run);
            && (l.s.stream.suppress <==> l.s.stream.releaseAt != 0)
            && (l.s.stream.suppress ==> l.s.stream.fifo == [])
            && forall i :: 0 <= i < |l.delivered| ==> l.delivered[i].mark <= l.delivered[i].position
  {
    StartKeeps();
    RunKeeps(START, run);
  }
}
