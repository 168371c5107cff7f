/** The keyboard controller as the object the I2C bus and the scenario engine share. */
module KeyboardDevice {
  import opened Bits
  import opened KeyboardSpec

  class Keyboard {
    var fifo: seq<KeyEvent>
    var link: Link
    var lamps: Lamps
    var settings: Settings
    var sensors: Sensors
    var stats: Stats

    ghost function View(): Controller
      reads this
    {
      Controller(fifo, link, lamps, settings, sensors, stats)
    }

    constructor ()
      ensures View() == POWER_UP && View().Valid()
    {
      fifo, link, lamps, settings := [], QUIET, DIMMED, DEFAULTS;
      sensors, stats := POWER_UP.sensors, POWER_UP.stats;
    }

    method PushEvent(e: KeyEvent)
      requires View().Valid()
      modifies this`fifo, this`settings, this`stats
      ensures View() == Push(old(View()), e) && View().Valid()
    {
      if settings.config & CFG_KEY_INT != 0 {
        settings := settings.(interrupts := settings.interrupts | INT_KEY);
      }
      if |fifo| >= CAPACITY {
        stats := stats.(dropped := stats.dropped + 1);
        if settings.config & CFG_OVERFLOW_INT != 0 {
          settings := settings.(interrupts := settings.interrupts | INT_OVERFLOW);
        }
        if settings.config & CFG_OVERFLOW_ON != 0 {
          fifo := fifo[1..];
          fifo := fifo + [e];
          stats := stats.(overwritten := stats.overwritten + 1);
        }
        return;
      }
      fifo := fifo + [e];
    }

    /** Two independent events: with one slot left the press stays and the release is lost. */
    method PressAndRelease(code: byte)
      requires View().Valid()
      modifies this`fifo, this`settings, this`stats
      ensures View() == Push(Push(old(View()), KeyEvent(Pressed, code)), KeyEvent(Released, code)) && View().Valid()
    {
      hide Push;
      PushEvent(KeyEvent(Pressed, code));
      PushEvent(KeyEvent(Released, code));
    }

    method ModifierEvent(m: Modifier, state: KeyState)
      requires View().Valid()
      modifies this`fifo, this`settings, this`stats
      ensures View() == KeyboardSpec.ModifierEvent(old(View()), m, state) && View().Valid()
    {
      hide Push;
      if state == Pressed {
        settings := settings.(active := settings.active + {m});
      }
      if settings.config & CFG_REPORT_MODS != 0 {
        PushEvent(KeyEvent(state, m.Code()));
      }
      if state == Released {
        settings := settings.(active := settings.active - {m});
      }
    }

    method MappedKeyEvent(primary: byte, symbol: byte, state: KeyState)
      requires View().Valid()
      modifies this`fifo, this`settings, this`stats, this`lamps
      ensures View() == KeyboardSpec.MappedKeyEvent(old(View()), primary, symbol, state) && View().Valid()
    {
      hide Push;
      var code, output := primary, true;
      if primary == KEY_CAPS_LOCK && state == Pressed {
        settings := settings.(capsLock := !settings.capsLock);
      }
      if settings.config & CFG_USE_MODS != 0 {
        var shift := LeftShift in settings.active || RightShift in settings.active;
        var alt := Alt in settings.active || settings.numLock;
        if shift && !Uppercase(primary) {
          code := symbol;
        } else if settings.capsLock && Uppercase(primary) {
        } else if alt {
          if state != Held {
            output := primary !in {0x2C, 0x2E, 0x20, 0x42};
            code := if primary == 0x49 then KEY_INSERT else code;
            if state == Released {
              lamps := Lit(lamps, primary);
            }
          }
        } else if !shift && Uppercase(primary) {
          code := primary + 32;
        }
      }
      if output && code != 0 {
        PushEvent(KeyEvent(if state == Held && Repeatable(code) then Pressed else state, code));
      }
    }

    method ResetControllerState()
      modifies this`fifo, this`link, this`lamps, this`settings
      ensures fifo == [] && link == QUIET && lamps == DIMMED && settings == DEFAULTS
    {
      fifo, link, lamps, settings := [], QUIET, DIMMED, DEFAULTS;
    }

    method ReplyFor(reg: byte) returns (reply: seq<byte>)
      requires View().Valid()
      modifies this`fifo, this`link, this`lamps, this`settings, this`stats
      ensures View() == Reply(old(View()), reg).0 && reply == Reply(old(View()), reg).1
    {
      reply := [0, 0];
      if reg == REG_VERSION {
        reply := [0, FIRMWARE_VERSION];
      } else if reg == REG_KEY_COUNT {
        reply := [CountStatus(Controller(fifo, link, lamps, settings, sensors, stats)), 0];
      } else if reg == REG_KEY_FIFO {
        if fifo != [] {
          var e := fifo[0];
          fifo := fifo[1..];
          stats := stats.(delivered := stats.delivered + 1);
          reply := [e.state.Code(), e.code];
        }
      } else if reg == REG_LCD_BACKLIGHT {
        reply := [REG_LCD_BACKLIGHT, lamps.lcd];
      } else if reg == REG_BATTERY {
        stats := stats.(batteryReads := stats.batteryReads + 1);
        var charging := if sensors.batteryFlags >= 128 then 128 else 0;
        reply := [REG_BATTERY, sensors.batteryPercent % 128 + charging];
      } else if reg == REG_KEYBOARD_BACKLIGHT {
        reply := [REG_KEYBOARD_BACKLIGHT, lamps.keyboard];
      } else if reg == REG_C64_MATRIX {
        reply := [REG_C64_MATRIX] + sensors.matrix;
      } else if reg == REG_C64_JOYSTICK {
        reply := [REG_C64_JOYSTICK, sensors.joystick];
      } else if reg == REG_POWER_OFF {
        reply := [REG_POWER_OFF, 1];
      } else if reg == REG_RESET {
        stats := stats.(resets := stats.resets + 1);
        ResetControllerState();
      }
    }

    method TakeValue(reg: byte, value: byte)
      requires View().Valid()
      modifies this`lamps, this`settings, this`stats
      ensures View() == Written(old(View()), reg, value)
    {
      if reg == REG_LCD_BACKLIGHT {
        lamps, stats := lamps.(lcd := NormalisedLcd(value)), stats.(backlightWrites := stats.backlightWrites + 1);
      } else if reg == REG_KEYBOARD_BACKLIGHT {
        lamps := lamps.(keyboard := NormalisedKeyboard(value));
        stats := stats.(backlightWrites := stats.backlightWrites + 1);
      } else if reg == REG_POWER_OFF {
        settings := settings.(powerOffDelay := Some(if value < 6 then 6 else value));
      } else if reg !in {REG_RESET, REG_VERSION, REG_KEY_COUNT, REG_KEY_FIFO, REG_BATTERY, REG_C64_MATRIX,
                         REG_C64_JOYSTICK} {
        stats := stats.(unknownWrites := stats.unknownWrites + 1, lastUnknown := Some(reg));
      }
    }

    method WriteByte(b: byte)
      requires View().Valid()
      modifies this
      ensures View() == KeyboardSpec.WriteByte(old(View()), b) && View().Valid()
    {
      hide Reply, Written;
      if link.pendingWrite.Some? {
        var reg := link.pendingWrite.value;
        link := link.(pendingWrite := None);
        TakeValue(reg, b);
        var reply := ReplyFor(reg);
        link := link.(readState := Serving(reply, 0));
        return;
      }
      if b >= 128 {
        link := link.(pendingWrite := Some(b - 128));
        return;
      }
      stats := stats.(selects := stats.selects + 1);
      if !KnownRegister(b) {
        stats := stats.(unknownSelects := stats.unknownSelects + 1, lastUnknown := Some(b));
      }
      link := link.(selected := Some(b));
      var reply := ReplyFor(b);
      link := link.(readState := Serving(reply, 0));
    }

    method ReadByte() returns (b: byte)
      requires View().Valid()
      modifies this`link
      ensures View() == KeyboardSpec.ReadByte(old(View())).0 && b == KeyboardSpec.ReadByte(old(View())).1
    {
      b := 0;
      match link.readState
      case Unselected =>
      case Serving(reply, pos) =>
        if pos < |reply| {
          b := reply[pos];
          link := link.(readState := Serving(reply, pos + 1));
        }
    }

    method TransactionEnd()
      requires View().Valid()
      modifies this`link
      ensures View() == KeyboardSpec.TransactionEnd(old(View()))
    {
      link := link.(pendingWrite := None);
      if link.readState.Serving? {
        link := link.(readState := link.readState.(pos := 0));
      }
    }
  }
}
