/**
 The firmware's flash-session variables, by concern, and the routines that change them. Every
 entry point is one step of the session's history and keeps its invariant.
 */
module FlashControl {
  import opened Bytes
  import opened FlashHistory
  import F = FlashSession

  /** When a flash is over. */
  class Detector {
    var active: bool               // s_flash_mode_active
    var leaveSeen: bool
    var leaveTime: nat
    var startTime: nat
    var anyData: bool
    var prevByte: byte

    ghost function View(): F.Detector
      reads this
    {
      F.Detector(active, leaveSeen, leaveTime, startTime, anyData, prevByte)
    }

    constructor ()
      ensures View() == F.POWER_ON.detector
    {
      active, leaveSeen, leaveTime, startTime, anyData, prevByte := false, false, 0, 0, false, 0;
    }

    /** enterFlashMode: nothing seen before counts, and the session cannot be over yet. */
    method Enter(now: nat)
      modifies this
      ensures View() == F.Entered(now) && F.Scans(F.ScannerOf(View()), []) && !F.Done(View(), now, now)
    {
      active := true;
      leaveSeen := false;
      leaveTime := 0;
      startTime := now;
      anyData := false;
      prevByte := 0;
    }

    /** exitFlashMode. */
    method Exit()
      modifies this
      ensures View() == F.Exited(old(View())) && forall lastData, t :: !F.Done(View(), lastData, t)
    {
      active := false;
      leaveSeen := false;
      anyData := false;
      prevByte := 0;
    }

    /** The scanning loop of bridge_usb_to_uart. */
    method Sniff(now: nat, chunk: Text)
      modifies this
      ensures View() == F.Scanned(old(View()), now, chunk)
    {
      ghost var c := F.ScannerOf(View());
      if !leaveSeen {
        for i := 0 to |chunk|
          invariant !leaveSeen && View() == old(View()).(prevByte := prevByte)
          invariant F.Scan(F.ScannerOf(View()), now, chunk[i..]) == F.Scan(c, now, chunk)
        {
          assert chunk[i..][1..] == chunk[i + 1..];
          if prevByte == F.STK_LEAVE && chunk[i] == F.CRC_EOP {
            leaveSeen, leaveTime := true, now;
            break;
          }
          prevByte := chunk[i];
        }
      }
    }

    /** checkFlashDone. */
    method CheckDone(lastData: nat, now: nat) returns (done: bool)
      modifies this
      ensures done == F.Done(old(View()), lastData, now)
      ensures View() == F.Rechecked(old(View()), lastData)
    {
      if !active { return false; }
      if leaveSeen {
        if lastData > leaveTime {
          leaveSeen := false;
          prevByte := 0;
        } else if now - leaveTime >= F.GRACE_MS {
          return true;
        }
      }
      if anyData && now - lastData >= F.QUIET_MS { return true; }
      if !anyData && now - startTime >= F.NO_DATA_MS { return true; }
      if now - startTime >= F.HARD_MS { return true; }
      return false;
    }
  }

  /** Whether commands are parsed, and when they may be again. */
  class Parsing {
    var tagParsing: bool           // asyncPassthroughTagParsingEnabled
    var startupComplete: bool
    var lastData: nat              // s_last_usb_to_uart_data_time
    var timeout: nat
    var inactivity: nat
    var disabledTime: nat
    var reenableTime: nat
    var releaseTime: nat

    ghost function View(): F.Timers
      reads this
    {
      F.Timers(tagParsing, startupComplete, lastData, timeout, inactivity, disabledTime, reenableTime, releaseTime)
    }

    constructor ()
      ensures View() == F.POWER_ON.timers
    {
      tagParsing, startupComplete, lastData := false, false, 0;
      timeout, inactivity, disabledTime, reenableTime, releaseTime := 0, 0, 0, 0, 0;
    }

    /** disableTagParsingWithInactivityTimeout: parsing is off, and its timers let it back exactly
        when MayReturn says. */
    method Disable(now: nat, absolute: nat, inactive: nat)
      modifies this
      ensures View() == F.Disabled(old(View()), now, absolute, inactive)
      ensures forall t: nat :: t >= now ==>
                (F.TimersUp(View(), t) <==> F.MayReturn(absolute, inactive, F.Refreshes(old(View())) && now > 0, t - now))
    {
      if !tagParsing && inactivity > 0 {
        disabledTime := now;
        timeout := absolute;
        inactivity := inactive;
        lastData := now;
        return;
      }
      tagParsing := false;
      disabledTime := now;
      timeout := absolute;
      inactivity := inactive;
      lastData := 0;
    }

    method ShouldReenable(now: nat) returns (should: bool)
      ensures should == F.TimedOut(View(), now)
    {
      should := false;
      var bootDelayOk := releaseTime == 0 || now - releaseTime >= F.BOOT_DELAY_MS;
      if bootDelayOk {
        if timeout > 0 {
          if now - disabledTime >= timeout { should := true; }
        }
        if !should && inactivity > 0 && lastData > 0 {
          if now - lastData >= inactivity && now - disabledTime >= F.MIN_DISABLED_MS {
            should := true;
          }
        }
      }
    }

    /** Parsing is back, and no timer is left to turn it on again. */
    method Resume(now: nat)
      modifies this
      ensures View() == F.Resumed(old(View()), now) && forall t :: !F.TimersUp(View(), t)
    {
      tagParsing := true;
      timeout := 0;
      inactivity := 0;
      lastData := 0;
      reenableTime := now;
    }

    method Hear(active: bool, now: nat)
      modifies this
      ensures View() == F.Touched(old(View()), active, now)
    {
      if !tagParsing && inactivity > 0 {
        lastData := now;
      }
      if active {
        lastData := now;
      }
    }
  }

  /** The control lines. */
  class Lines {
    var dtr: bool
    var rts: bool
    var lastEdge: nat
    var lockoutUntil: nat
    var pulse: bool                // s_dtr_pulse_detected

    ghost function View(): F.Edges
      reads this
    {
      F.Edges(dtr, rts, lastEdge, lockoutUntil, pulse)
    }

    constructor ()
      ensures View() == F.POWER_ON.edges
    {
      dtr, rts, lastEdge, lockoutUntil, pulse := false, false, 0, 0, false;
    }

    /** The head of checkDTRState: the history of the lines, and whether this is an edge to act on. */
    method Note(now: nat, newDtr: bool, newRts: bool) returns (accepted: bool)
      modifies this
      ensures accepted <==> F.Accepts(old(View()), now, newDtr, newRts)
      ensures View() == F.Noted(old(View()), now, newDtr, newRts)
    {
      var prevDtr, prevRts := dtr, rts;
      dtr, rts := newDtr, newRts;
      var rising := (prevDtr == false && newDtr == true) || (prevRts == false && newRts == true);
      if !rising { return false; }
      if now < F.BOOT_IGNORE_MS { return false; }
      if lockoutUntil != 0 && now < lockoutUntil { return false; }
      if now - lastEdge < F.EDGE_INTERVAL_MS { return false; }
      lastEdge := now;
      return true;
    }
  }

  /** The reset pulse, and where the bytes around it are in the capture stream. */
  class ResetPulse {
    var releaseAt: nat             // s_reset_release_at_ms
    var suppress: bool             // s_reset_rx_suppress
    ghost var captured: nat
    ghost var consumed: nat
    ghost var fifo: seq<nat>

    ghost function View(): F.Stream
      reads this
    {
      F.Stream(releaseAt, suppress, captured, consumed, fifo)
    }

    constructor ()
      ensures View() == F.POWER_ON.stream
    {
      releaseAt, suppress, captured, consumed, fifo := 0, false, 0, 0, [];
    }

    /** ring_clear, as far as the session sees it. */
    ghost method RingClear()
      modifies this
      ensures View() == F.Cleared(old(View()))
    {
      consumed := captured;
    }

    /** From here on nothing captured so far is on its way to the host, whatever was before. */
    method Start(now: nat)
      modifies this
      ensures View() == F.Pulsed(old(View()), now)
      ensures forall mark: nat :: mark <= captured ==> F.StreamInv(View(), mark)
    {
      suppress := true;
      RingClear();
      fifo := [];
      releaseAt := now + F.PULSE_MS;
    }

    /** The head of task(). */
    method End(now: nat)
      modifies this
      ensures View() == F.Released(old(View()), now)
      ensures old(releaseAt) != 0 && now >= old(releaseAt) ==> F.StreamInv(View(), captured)
    {
      if releaseAt != 0 && now >= releaseAt {
        releaseAt := 0;
        RingClear();
        fifo := [];
        suppress := false;
      }
    }

    ghost method Move(e: Event)
      requires e.Capture? || e.Bridge? || e.Dropped? || e.HostRead?
      modifies this
      ensures View() == F.Moved(old(View()), e)
    {
      var p := F.Moved(View(), e);
      captured, consumed, fifo := p.captured, p.consumed, p.fifo;
    }
  }

  class Flasher {
    var flashing: bool             // flashingArduino
    const detector: Detector
    const parsing: Parsing
    const lines: Lines
    const pulse: ResetPulse
    /** The session's history. */
    ghost var log: F.Log

    ghost function View(): F.Session
      reads this, detector, parsing, lines, pulse
    {
      F.Session(flashing, detector.View(), parsing.View(), lines.View(), pulse.View())
    }

    /** The variables are where their history led, and the history keeps what a session promises. */
    ghost predicate Valid()
      reads this, detector, parsing, lines, pulse
    {
      View() == log.s && F.Inv(log)
    }

    constructor ()
      ensures Valid() && log == F.START
      ensures fresh(detector) && fresh(parsing) && fresh(lines) && fresh(pulse)
    {
      flashing := false;
      detector := new Detector();
      parsing := new Parsing();
      lines := new Lines();
      pulse := new ResetPulse();
      log := F.START;
      new;
      F.StartKeeps();
    }

    /** An entry point is over: its event joins the history. */
    ghost method Happened(now: nat, e: Event)
      requires F.Inv(log) && log.now <= now && View() == F.After(log.s, now, e)
      modifies this`log
      ensures Valid() && log == F.Next(old(log), At(now, e))
    {
      F.StepKeeps(log, At(now, e));
      log := F.Next(log, At(now, e));
    }

    /** Whatever came before, the bridge is a transparent pipe from here on. */
    method TriggerArduinoFlashReset(now: nat, resetType: nat)
      modifies this`flashing, detector, parsing, lines, pulse
      ensures View() == F.Triggered(old(View()), now, resetType)
      ensures F.PipeInv(View()) && detector.active && !parsing.tagParsing
    {
      flashing := true;
      parsing.tagParsing := false;
      parsing.Disable(now, F.ABSOLUTE_TIMEOUT_MS, F.INACTIVITY_TIMEOUT_MS);
      detector.Enter(now);
      parsing.lastData := now;
      lines.pulse := true;
      if resetType == F.AVR {
        pulse.Start(now);
      }
    }

    /** checkDTRState. */
    method CheckDtrState(now: nat, dtr: bool, rts: bool, resetType: nat)
      requires Valid() && log.now <= now
      modifies this, detector, parsing, lines, pulse
      ensures Valid() && log == F.Next(old(log), At(now, Event.Lines(dtr, rts, resetType)))
    {
      var accepted := lines.Note(now, dtr, rts);
      if accepted {
        TriggerArduinoFlashReset(now, resetType);
      }
      Happened(now, Event.Lines(dtr, rts, resetType));
    }

    /** The head of task(): suppression ends when its time is up and not before, and what was
        captured until then is gone. */
    method ReleaseReset(now: nat)
      requires Valid() && log.now <= now
      modifies this`log, pulse
      ensures Valid() && log == F.Next(old(log), At(now, Release))
      ensures pulse.suppress <==> old(pulse.suppress) && now < old(pulse.releaseAt)
      ensures old(pulse.suppress) && !pulse.suppress ==> log.mark == pulse.captured && F.StreamInv(pulse.View(), log.mark)
    {
      pulse.End(now);
      Happened(now, Release);
    }

    /** The first signal completes startup, with parsing off for now; later ones do nothing. */
    method SignalStartupComplete(now: nat)
      requires Valid() && log.now <= now
      modifies this`log, parsing, lines, pulse
      ensures Valid() && log == F.Next(old(log), At(now, Signal))
      ensures parsing.startupComplete
      ensures old(parsing.startupComplete) ==> View() == old(View())
      ensures !old(parsing.startupComplete) ==>
                !parsing.tagParsing && forall t: nat :: t < now + F.BOOT_DELAY_MS ==> !F.BootDone(parsing.View(), t)
    {
      if !parsing.startupComplete {
        parsing.startupComplete := true;
        lines.lockoutUntil := now + F.BEGIN_LOCKOUT_MS;
        parsing.tagParsing := false;
        pulse.RingClear();
        parsing.releaseTime := now;
      }
      Happened(now, Signal);
    }

    /** The startup checks of task(). */
    method CheckBoot(now: nat, mode: nat)
      requires Valid() && log.now <= now
      modifies this`log, parsing, pulse
      ensures Valid() && log == F.Next(old(log), At(now, BootCheck(mode)))
    {
      StartupFallback(now);
      EnableAfterBoot(now, mode);
      Happened(now, BootCheck(mode));
    }

    method StartupFallback(now: nat)
      modifies parsing, pulse
      ensures View() == F.FellBack(old(View()), now)
    {
      if !parsing.tagParsing && !parsing.startupComplete {
        if now > F.STARTUP_FALLBACK_MS {
          parsing.startupComplete := true;
          pulse.RingClear();
        }
      }
    }

    /** Parsing starts here once the Arduino has booted, and never while a session is on. */
    method EnableAfterBoot(now: nat, mode: nat)
      modifies parsing, pulse
      ensures View() == F.BootEnabled(old(View()), now, mode)
      ensures old(F.PipeInv(View()) && detector.active) ==> View() == old(View()) && !parsing.tagParsing
    {
      if parsing.startupComplete && !parsing.tagParsing && mode > 0 && parsing.timeout == 0 && parsing.inactivity == 0 &&
         parsing.releaseTime > 0 && now - parsing.releaseTime >= F.BOOT_DELAY_MS {
        pulse.RingClear();
        parsing.tagParsing := true;
      }
    }

    /** The timed re-enabling of task(). */
    method ReenableTagParsing(now: nat)
      requires Valid() && log.now <= now
      modifies this`log, parsing, pulse
      ensures Valid() && log == F.Next(old(log), At(now, Reenable))
      ensures parsing.tagParsing <==>
                old(parsing.tagParsing || (parsing.startupComplete && !detector.active && F.TimedOut(parsing.View(), now)))
    {
      if !parsing.tagParsing && parsing.startupComplete && !detector.active {
        var shouldReenable := parsing.ShouldReenable(now);
        if shouldReenable {
          pulse.RingClear();
          parsing.Resume(now);
        }
      }
      Happened(now, Reenable);
    }

    /** A runtime command, of which nothing is looked at while flashing. */
    method SetTagParsing(now: nat, on: bool)
      requires Valid() && log.now <= now
      modifies this`log, parsing
      ensures Valid() && log == F.Next(old(log), At(now, RuntimeCommand(on)))
    {
      if !flashing && (!on || parsing.startupComplete) {
        parsing.tagParsing := on;
      }
      Happened(now, RuntimeCommand(on));
    }

    /** A chunk of host data arrived. */
    method HostDataArrived(now: nat, chunk: Text)
      requires Valid() && log.now <= now
      modifies this`log, detector, parsing
      ensures Valid() && log == F.Next(old(log), At(now, HostData(chunk)))
    {
      if |chunk| > 0 {
        parsing.Hear(detector.active, now);
        if detector.active {
          detector.anyData := true;
          detector.Sniff(now, chunk);
        }
      }
      Happened(now, HostData(chunk));
    }

    /** flashArduino. */
    method FlashArduino(resetType: nat)
      modifies this`flashing, pulse
      ensures View() == F.Flashed(old(View()), resetType)
    {
      if resetType == F.ESP32 { pulse.RingClear(); }
      flashing := true;
    }

    method ConnectOnce(resetType: nat)
      modifies this`flashing, lines, pulse
      ensures View() == F.Connected(old(View()), resetType)
    {
      if lines.pulse {
        lines.pulse := false;
        FlashArduino(resetType);
      }
    }

    /** The second half of the poll. */
    method EndIfDone(now: nat)
      modifies this`flashing, detector, lines
      ensures View() == if old(flashing) then F.Judged(old(View()), now) else old(View())
    {
      if flashing {
        var done := detector.CheckDone(parsing.lastData, now);
        if done {
          detector.Exit();
          lines.lockoutUntil := now + F.LOCKOUT_MS;
          flashing := false;
        }
      }
    }

    /** secondSerialHandler. */
    method SecondSerialHandler(now: nat, resetType: nat)
      requires Valid() && log.now <= now
      modifies this, detector, lines, pulse
      ensures Valid() && log == F.Next(old(log), At(now, Poll(resetType)))
    {
      ConnectOnce(resetType);
      EndIfDone(now);
      Happened(now, Poll(resetType));
    }

    /** The bytes around the pulse: the DMA captures one, the bridge passes some on or drops them,
        the host reads some. */
    ghost method Around(now: nat, e: Event)
      requires Valid() && log.now <= now && (e.Capture? || e.Bridge? || e.Dropped? || e.HostRead?)
      modifies this`log, pulse
      ensures Valid() && log == F.Next(old(log), At(now, e))
    {
      pulse.Move(e);
      Happened(now, e);
    }
  }
}
