/** What the firmware reads for the keys of the board: event bytes, registers, letters and shifts. */
module KeyboardKeys {
  import opened Bits
  import opened KeyboardSpec
  import opened KeyboardTheorems

  // ---- Registers --------------------------------------------------------------------------

  /** A key event on the wire: 1 for a press, 2 for a hold, 3 for a release, and then its code. */
  lemma EventBytes(c: Controller, stop: bool)
    requires c.Valid() && c.link.pendingWrite == None
    ensures var x := Exchange(c, 0x09, stop);
            if c.fifo == [] then (x.1, x.2) == (0, 0)
            else
              && x.0.fifo == c.fifo[1..] && x.2 == c.fifo[0].code
              && (x.1 == 1 <==> c.fifo[0].state == Pressed)
              && (x.1 == 2 <==> c.fifo[0].state == Held)
              && (x.1 == 3 <==> c.fifo[0].state == Released)
  {
    ExchangeAnswers(c, 0x09, stop);
  }

  /** Every other register that answers, and that a reset puts the controller back as it was. */
  lemma RegistersRead(c: Controller, stop: bool)
    requires c.Valid() && c.link.pendingWrite == None
    ensures var x := Exchange(c, 0x01, stop); (x.1, x.2) == (0, 0x16)
    ensures var x := Exchange(c, 0x05, stop); (x.1, x.2) == (0x05, c.lamps.lcd)
    ensures var x := Exchange(c, 0x0A, stop); (x.1, x.2) == (0x0A, c.lamps.keyboard)
    ensures var x := Exchange(c, 0x0B, stop);
            (x.1, x.2) == (0x0B, c.sensors.batteryPercent % 128 + c.sensors.batteryFlags / 128 * 128)
    ensures var x := Exchange(c, 0x0C, stop); (x.1, x.2) == (0x0C, c.sensors.matrix[0])
    ensures var x := Exchange(c, 0x0D, stop); (x.1, x.2) == (0x0D, c.sensors.joystick)
    ensures var x := Exchange(c, 0x0E, stop); (x.1, x.2) == (0x0E, 1)
  {
    hide Exchange, Reply;
    ExchangeAnswers(c, 0x01, stop);
    ExchangeAnswers(c, 0x05, stop);
    ExchangeAnswers(c, 0x0A, stop);
    ExchangeAnswers(c, 0x0B, stop);
    ExchangeAnswers(c, 0x0C, stop);
    ExchangeAnswers(c, 0x0D, stop);
    ExchangeAnswers(c, 0x0E, stop);
    RepliesOf(c);
  }

  lemma RepliesOf(c: Controller)
    requires c.Valid()
    ensures Reply(Selected(c, 0x01), 0x01).1 == [0, 0x16]
    ensures Reply(Selected(c, 0x05), 0x05).1 == [0x05, c.lamps.lcd]
    ensures Reply(Selected(c, 0x0A), 0x0A).1 == [0x0A, c.lamps.keyboard]
    ensures Reply(Selected(c, 0x0B), 0x0B).1 ==
            [0x0B, c.sensors.batteryPercent % 128 + c.sensors.batteryFlags / 128 * 128]
    ensures var r := Reply(Selected(c, 0x0C), 0x0C).1; |r| == 10 && r[0] == 0x0C && r[1..] == c.sensors.matrix
    ensures Reply(Selected(c, 0x0D), 0x0D).1 == [0x0D, c.sensors.joystick]
    ensures Reply(Selected(c, 0x0E), 0x0E).1 == [0x0E, 1]
  {
  }

  /** Selecting register 0x08 empties the queue and restores the power-up lamps and settings. */
  lemma ResetRestores(c: Controller, stop: bool)
    requires c.Valid() && c.link.pendingWrite == None
    ensures var x := Exchange(c, 0x08, stop);
            && (x.1, x.2) == (0, 0) && x.0.fifo == [] && x.0.stats.resets == c.stats.resets + 1
            && x.0.lamps == Lamps(0, 32) && x.0.settings == Settings(0xD2, 0, false, false, {}, None)
  {
    ExchangeAnswers(c, 0x08, stop);
  }

  /** With 31 events waiting an arriving one counts as dropped; with bit 0 set the oldest is given up for it. */
  lemma QueuedUnder(c: Controller, e: KeyEvent)
    requires c.Valid()
    ensures var d, full, kept := Push(c, e), |c.fifo| == 31, c.settings.config & 0x01 == 0;
            && d.fifo == (if !full then c.fifo + [e] else if kept then c.fifo else c.fifo[1..] + [e])
            && d.stats.dropped == c.stats.dropped + (if full then 1 else 0)
            && d.stats.overwritten == c.stats.overwritten + (if full && !kept then 1 else 0)
  {
    hide Raised;
    RaisedOnly(c, CFG_KEY_INT, INT_KEY);
    RaisedOnly(Raised(c, CFG_KEY_INT, INT_KEY), CFG_OVERFLOW_INT, INT_OVERFLOW);
  }

  lemma RaisedOnly(c: Controller, cause: bv8, interrupt: bv8)
    ensures var r := Raised(c, cause, interrupt);
            && r.(settings := c.settings) == c && r.settings.(interrupts := c.settings.interrupts) == c.settings
  {
  }

  lemma RaisedWhen(c: Controller, cause: bv8, interrupt: bv8)
    ensures c.settings.config & cause == 0 ==> Raised(c, cause, interrupt).settings.interrupts == c.settings.interrupts
    ensures c.settings.config & cause != 0 ==>
              Raised(c, cause, interrupt).settings.interrupts == c.settings.interrupts | interrupt
  {
    if c.settings.config & cause == 0 {
      assert Raised(c, cause, interrupt) == c;
    }
  }

  /** Bit 4 raises the key interrupt with every event, bit 1 the overflow interrupt with every one dropped. */
  lemma InterruptsUnder(c: Controller, e: KeyEvent)
    requires c.Valid()
    ensures var config, interrupts := c.settings.config, c.settings.interrupts;
            var keyed := if config & 0x10 != 0 then interrupts | 0x08 else interrupts;
            Push(c, e).settings.interrupts ==
            if |c.fifo| == 31 && config & 0x02 != 0 then keyed | 0x01 else keyed
  {
    hide Overwrites, Raised;
    RaisedOnly(c, 0x10, 0x08);
    RaisedWhen(c, 0x10, 0x08);
    RaisedWhen(Raised(c, 0x10, 0x08), 0x02, 0x01);
  }

  /** A controller starts as a reset leaves it, fully charged, no matrix key or stick moved, nothing counted. */
  lemma PowersUp()
    ensures POWER_UP == Reset(POWER_UP).(stats := POWER_UP.stats)
    ensures POWER_UP.sensors.batteryPercent == 100 && POWER_UP.sensors.batteryFlags == 0
    ensures POWER_UP.sensors.joystick == 0xFF && |POWER_UP.sensors.matrix| == 9
    ensures forall i :: 0 <= i < 9 ==> POWER_UP.sensors.matrix[i] == 0
    ensures var s := POWER_UP.stats;
            && s.delivered == s.dropped == s.overwritten == s.resets == 0 && s.selects == s.unknownSelects == 0
            && s.unknownWrites == s.batteryReads == s.backlightWrites == 0 && s.lastUnknown == None
  {
  }

  // ---- The bus ----------------------------------------------------------------------------

  /** A byte with the top bit set announces a write; any other selects a register, and is counted as such. */
  lemma SelectsTallied(c: Controller, b: byte)
    requires c.Valid() && c.link.pendingWrite == None
    ensures var d := WriteByte(c, b);
            if b >= 0x80 then d == c.(link := c.link.(pendingWrite := Some(b - 0x80)))
            else
              && d.link.pendingWrite == None && d.link.selected == (if b == 0x08 then None else Some(b))
              && d.stats.selects == c.stats.selects + 1 && d.stats.unknownWrites == c.stats.unknownWrites
              && d.stats.unknownSelects == c.stats.unknownSelects + (if 1 <= b <= 14 then 0 else 1)
  {
  }

  /** The byte behind an announcement is a value: of a lamp, of the power-off delay, or for nothing. */
  lemma WritesTallied(c: Controller, reg: byte, b: byte)
    requires c.Valid() && c.link.pendingWrite == Some(reg)
    ensures var d := WriteByte(c, b);
            && d.link.pendingWrite == None && d.link.selected == (if reg == 0x08 then None else c.link.selected)
            && d.stats.selects == c.stats.selects && d.stats.unknownSelects == c.stats.unknownSelects
            && d.stats.backlightWrites == c.stats.backlightWrites + (if reg in {0x05, 0x0A} then 1 else 0)
            && d.stats.unknownWrites == c.stats.unknownWrites +
               (if reg in {0x01, 0x04, 0x05, 0x08, 0x09, 0x0A, 0x0B, 0x0C, 0x0D, 0x0E} then 0 else 1)
            && (reg == 0x0E ==> d.settings.powerOffDelay == Some(if b < 6 then 6 else b))
  {
  }

  function ReadMany(c: Controller, n: nat): (r: (Controller, seq<byte>))
    requires c.Valid()
    ensures r.0.Valid() && |r.1| == n
  {
    if n == 0 then (c, [])
    else
      var (d, out) := ReadMany(c, n - 1);
      var (e, b) := ReadByte(d);
      (e, out + [b])
  }

  /** However many bytes are read, they are the reply and then zeros; with nothing selected they are zeros. */
  lemma {:induction false} ReadsRunDry(c: Controller, n: nat)
    requires c.Valid() && (c.link.readState.Serving? ==> c.link.readState.pos == 0)
    ensures var reply := if c.link.readState.Serving? then c.link.readState.reply else [];
            var (d, out) := ReadMany(c, n);
            && (forall k :: 0 <= k < n ==> out[k] == if k < |reply| then reply[k] else 0)
            && d == c.(link := d.link)
            && d.link.readState == if c.link.readState.Serving? then Serving(reply, if n < |reply| then n else |reply|)
                                   else Unselected
  {
    if n > 0 {
      ReadsRunDry(c, n - 1);
    }
  }

  // ---- Letters ----------------------------------------------------------------------------

  predicate Letter(code: byte) {
    'A' as int <= code <= 'Z' as int
  }

  /** Modifiers count (bit 7 of the configuration), and neither alt nor num lock is on. */
  predicate Plain(s: Settings) {
    s.config & 0x80 != 0 && Alt !in s.active && !s.numLock
  }

  /** A letter key sends its lower case, and its capital under either shift or caps lock. */
  lemma LetterSends(c: Controller, letter: byte, symbol: byte, state: KeyState)
    requires c.Valid() && Letter(letter) && Plain(c.settings)
    ensures var capital := LeftShift in c.settings.active || RightShift in c.settings.active || c.settings.capsLock;
            var code := if capital then letter else letter + 32;
            var sent := Offered(c, KeyMoved(letter, symbol, state));
            && sent == [KeyEvent(if state == Held then Pressed else state, code)]
            && (!capital ==> 'a' as int <= sent[0].code <= 'z' as int)
  {
  }

  /** Any other key sends its own code, and the symbol printed above it under either shift. */
  lemma SymbolSends(c: Controller, primary: byte, symbol: byte)
    requires c.Valid() && !Letter(primary) && primary != 0xC1 && primary != 0 && symbol != 0 && Plain(c.settings)
    ensures var shifted := LeftShift in c.settings.active || RightShift in c.settings.active;
            Offered(c, KeyMoved(primary, symbol, Pressed)) ==
            [KeyEvent(Pressed, if shifted then symbol else primary)]
  {
  }

  /** A key held down comes as a further press if it is printable, or enter, tab, a deletion or an arrow. */
  lemma HeldRepeats(c: Controller, primary: byte, symbol: byte)
    requires c.Valid() && !Letter(primary) && primary != 0 && Plain(c.settings)
    requires LeftShift !in c.settings.active && RightShift !in c.settings.active
    ensures var repeats := ' ' as int <= primary <= 127 || primary in {0x08, 0x09, 0x0A, 0xB4, 0xB5, 0xB6, 0xB7, 0xD4};
            Offered(c, KeyMoved(primary, symbol, Held)) == [KeyEvent(if repeats then Pressed else Held, primary)]
  {
  }

  /** With bit 7 of the configuration clear, modifiers change nothing: every key sends its own code. */
  lemma UnmodifiedSends(c: Controller, primary: byte, symbol: byte, state: KeyState)
    requires c.Valid() && c.settings.config & 0x80 == 0 && primary != 0 && state != Held
    ensures Offered(c, KeyMoved(primary, symbol, state)) == [KeyEvent(state, primary)]
  {
  }

  /** With alt down, comma, point, space and B send nothing, I sends insert, and the other keys themselves. */
  lemma AltSends(c: Controller, primary: byte, symbol: byte)
    requires c.Valid() && c.settings.config & 0x80 != 0 && Alt in c.settings.active && !c.settings.capsLock
    requires LeftShift !in c.settings.active && RightShift !in c.settings.active && primary != 0xC1 && primary != 0
    ensures Offered(c, KeyMoved(primary, symbol, Pressed)) ==
            if primary in {',' as int, '.' as int, ' ' as int, 'B' as int} then []
            else [KeyEvent(Pressed, if primary == 'I' as int then 0xD1 else primary)]
  {
  }

  /** Caps lock turns over with every press of its key, and not with a release. */
  lemma CapsLockTurns(c: Controller, symbol: byte, state: KeyState)
    requires c.Valid()
    ensures Step(c, KeyMoved(0xC1, symbol, state)).settings.capsLock ==
            if state == Pressed then !c.settings.capsLock else c.settings.capsLock
  {
    hide Push, Mapped;
    forall d: Controller, e: KeyEvent | d.Valid()
      ensures Push(d, e).settings.capsLock == d.settings.capsLock
    {
      PushKeepsManner(d, e);
    }
  }

  /** A modifier counts from its press to its release, and each has its code. */
  lemma ModifierHolds(c: Controller, m: Modifier, state: KeyState)
    requires c.Valid()
    ensures Step(c, ModifierMoved(m, state)).settings.active ==
            match state
            case Pressed => c.settings.active + {m}
            case Held => c.settings.active
            case Released => c.settings.active - {m}
    ensures Offered(c, ModifierMoved(m, state)) ==
            if c.settings.config & 0x40 == 0 then []
            else
              [KeyEvent(state, match m
                               case Alt => 0xA1
                               case LeftShift => 0xA2
                               case RightShift => 0xA3
                               case Symbol => 0xA4
                               case Control => 0xA5)]
  {
  }

  /** From power-up: a letter typed plainly and then with the left shift held arrives small and then capital. */
  lemma TypesBothCases(letter: byte)
    requires Letter(letter)
    ensures var run := [KeyMoved(letter, 0, Pressed), KeyMoved(letter, 0, Released), ModifierMoved(LeftShift, Pressed),
                        KeyMoved(letter, 0, Pressed), KeyMoved(letter, 0, Released),
                        ModifierMoved(LeftShift, Released)];
            Arrivals(run) == [KeyEvent(Pressed, letter + 32), KeyEvent(Released, letter + 32), KeyEvent(Pressed, 0xA2),
                              KeyEvent(Pressed, letter), KeyEvent(Released, letter), KeyEvent(Released, 0xA2)]
  {
    hide Step, Offered, After, Arrivals;
    var r1: seq<Stimulus> := [KeyMoved(letter, 0, Pressed)];
    var r2 := r1 + [KeyMoved(letter, 0, Released)];
    var r3 := r2 + [ModifierMoved(LeftShift, Pressed)];
    var r4 := r3 + [KeyMoved(letter, 0, Pressed)];
    var r5 := r4 + [KeyMoved(letter, 0, Released)];
    NothingArrived();
    assert [] + r1 == r1;
    LetterNext([], letter, Pressed);
    LetterNext(r1, letter, Released);
    ModifierNext(r2, LeftShift, Pressed);
    LetterNext(r3, letter, Pressed);
    LetterNext(r4, letter, Released);
    ModifierNext(r5, LeftShift, Released);
    var run := [KeyMoved(letter, 0, Pressed), KeyMoved(letter, 0, Released), ModifierMoved(LeftShift, Pressed),
                KeyMoved(letter, 0, Pressed), KeyMoved(letter, 0, Released), ModifierMoved(LeftShift, Released)];
    assert run == r5 + [ModifierMoved(LeftShift, Released)];
  }

  lemma NothingArrived()
    ensures Arrivals([]) == [] && After([]).settings == Settings(0xD2, 0, false, false, {}, None)
  {
  }

  /** Configuration, locks and modifiers: all that decides what a key sends. */
  predicate SameManner(a: Settings, b: Settings) {
    a.config == b.config && a.capsLock == b.capsLock && a.numLock == b.numLock && a.active == b.active
  }

  lemma PushKeepsManner(c: Controller, e: KeyEvent)
    requires c.Valid()
    ensures SameManner(Push(c, e).settings, c.settings)
  {
  }

  lemma LetterKeepsManner(c: Controller, letter: byte, state: KeyState)
    requires c.Valid() && Letter(letter)
    ensures SameManner(Step(c, KeyMoved(letter, 0, state)).settings, c.settings)
  {
    hide Push, Mapped, Lit;
    var code := Mapped(c.settings, letter, 0, state).GetOr(0);
    PushKeepsManner(c, KeyEvent(if state.Held? && Repeatable(code) then Pressed else state, code));
  }

  lemma LetterNext(run: seq<Stimulus>, letter: byte, state: KeyState)
    requires Letter(letter) && state != Held && After(run).settings.config == 0xD2 && Plain(After(run).settings)
    requires !After(run).settings.capsLock
    ensures var c, longer := After(run), run + [KeyMoved(letter, 0, state)];
            var shift := LeftShift in c.settings.active || RightShift in c.settings.active;
            && SameManner(After(longer).settings, c.settings)
            && Arrivals(longer) == Arrivals(run) + [KeyEvent(state, if shift then letter else letter + 32)]
  {
    hide Step, Offered;
    var longer := run + [KeyMoved(letter, 0, state)];
    assert longer[..|run|] == run;
    LetterSends(After(run), letter, 0, state);
    LetterKeepsManner(After(run), letter, state);
  }

  lemma ModifierNext(run: seq<Stimulus>, m: Modifier, state: KeyState)
    requires m == LeftShift && state != Held && After(run).settings.config == 0xD2
    ensures var c, d, longer := After(run), After(run + [ModifierMoved(m, state)]), run + [ModifierMoved(m, state)];
            && d.settings.config == 0xD2 && d.settings.capsLock == c.settings.capsLock
            && d.settings.numLock == c.settings.numLock
            && d.settings.active == (if state == Pressed then c.settings.active + {m} else c.settings.active - {m})
            && Arrivals(longer) == Arrivals(run) + [KeyEvent(state, 0xA2)]
  {
    hide Step, Offered;
    var longer := run + [ModifierMoved(m, state)];
    assert longer[..|run|] == run;
    ModifierHolds(After(run), m, state);
    ModifierKeeps(After(run), m, state);
  }

  lemma ModifierKeeps(c: Controller, m: Modifier, state: KeyState)
    requires c.Valid()
    ensures var d := Step(c, ModifierMoved(m, state));
            && d.settings.config == c.settings.config && d.settings.capsLock == c.settings.capsLock
            && d.settings.numLock == c.settings.numLock
  {
    hide Push;
    var pressed := if state.Pressed? then c.(settings := c.settings.(active := c.settings.active + {m})) else c;
    PushKeepsManner(pressed, KeyEvent(state, m.Code()));
  }
}
