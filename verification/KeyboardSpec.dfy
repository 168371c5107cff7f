/** The keyboard and power controller behind I2C, as a value with one function for each stimulus. */
module KeyboardSpec {
  import opened Bits

  const CAPACITY := 31

  const REG_VERSION: byte := 0x01
  const REG_KEY_COUNT: byte := 0x04
  const REG_LCD_BACKLIGHT: byte := 0x05
  const REG_RESET: byte := 0x08
  const REG_KEY_FIFO: byte := 0x09
  const REG_KEYBOARD_BACKLIGHT: byte := 0x0A
  const REG_BATTERY: byte := 0x0B
  const REG_C64_MATRIX: byte := 0x0C
  const REG_C64_JOYSTICK: byte := 0x0D
  const REG_POWER_OFF: byte := 0x0E

  const FIRMWARE_VERSION: byte := 0x16
  const CFG_OVERFLOW_ON: bv8 := 0x01
  const CFG_OVERFLOW_INT: bv8 := 0x02
  const CFG_KEY_INT: bv8 := 0x10
  const CFG_REPORT_MODS: bv8 := 0x40
  const CFG_USE_MODS: bv8 := 0x80
  const DEFAULT_CONFIG: bv8 := 0xD2
  const INT_OVERFLOW: bv8 := 0x01
  const INT_KEY: bv8 := 0x08

  const KEY_CAPS_LOCK: byte := 0xC1
  const KEY_INSERT: byte := 0xD1

  datatype KeyState = Pressed | Held | Released {
    function Code(): byte {
      match this
      case Pressed => 1
      case Held => 2
      case Released => 3
    }
  }

  datatype KeyEvent = KeyEvent(state: KeyState, code: byte)

  datatype Modifier = Symbol | Alt | LeftShift | RightShift | Control {
    function Code(): byte {
      match this
      case Alt => 0xA1
      case LeftShift => 0xA2
      case RightShift => 0xA3
      case Symbol => 0xA4
      case Control => 0xA5
    }
  }

  datatype ReadState = Unselected | Serving(reply: seq<byte>, pos: nat)

  /** The I2C side: what a read returns, and a register write that waits for its value. */
  datatype Link = Link(readState: ReadState, selected: Option<byte>, pendingWrite: Option<byte>)

  datatype Lamps = Lamps(keyboard: byte, lcd: byte)

  datatype Settings = Settings(config: bv8, interrupts: bv8, capsLock: bool, numLock: bool, active: set<Modifier>,
                               powerOffDelay: Option<byte>)

  datatype Sensors = Sensors(batteryPercent: byte, batteryFlags: byte, matrix: seq<byte>, joystick: byte)

  datatype Stats = Stats(selects: nat, delivered: nat, dropped: nat, overwritten: nat, batteryReads: nat,
                         backlightWrites: nat, unknownSelects: nat, unknownWrites: nat, lastUnknown: Option<byte>,
                         resets: nat)

  datatype Controller = Controller(fifo: seq<KeyEvent>, link: Link, lamps: Lamps, settings: Settings,
                                   sensors: Sensors, stats: Stats)
  {
    /** The queue never outgrows the five bits that report its length. */
    predicate Valid() {
      && |fifo| <= CAPACITY
      && |sensors.matrix| == 9
      && (link.readState.Serving? ==> link.readState.pos <= |link.readState.reply|)
      && lamps.keyboard % 32 == 0 && lamps.keyboard <= 224
      && lamps.lcd % 16 == 0 && 16 <= lamps.lcd <= 240
    }
  }

  const QUIET := Link(Unselected, None, None)
  const DIMMED := Lamps(0, 32)
  const DEFAULTS := Settings(DEFAULT_CONFIG, 0, false, false, {}, None)

  const POWER_UP := Controller([], QUIET, DIMMED, DEFAULTS, Sensors(100, 0, [0, 0, 0, 0, 0, 0, 0, 0, 0], 0xFF),
                               Stats(0, 0, 0, 0, 0, 0, 0, 0, None, 0))

  // ---- The key queue ----------------------------------------------------------------------

  function Raised(c: Controller, cause: bv8, interrupt: bv8): Controller {
    if c.settings.config & cause != 0 then
      c.(settings := c.settings.(interrupts := c.settings.interrupts | interrupt))
    else c
  }

  predicate Overwrites(c: Controller) {
    c.settings.config & CFG_OVERFLOW_ON != 0
  }

  /** A full queue counts a drop, and loses either its oldest event or the arriving one. */
  function Push(c: Controller, e: KeyEvent): (r: Controller)
    requires c.Valid()
    ensures r.Valid()
  {
    var noticed := Raised(c, CFG_KEY_INT, INT_KEY);
    if |c.fifo| < CAPACITY then noticed.(fifo := c.fifo + [e])
    else
      var dropped := Raised(noticed, CFG_OVERFLOW_INT, INT_OVERFLOW)
                     .(stats := c.stats.(dropped := c.stats.dropped + 1));
      if Overwrites(c) then
        dropped.(fifo := c.fifo[1..] + [e], stats := dropped.stats.(overwritten := c.stats.overwritten + 1))
      else dropped
  }

  // ---- Physical keys ----------------------------------------------------------------------

  predicate Uppercase(code: byte) {
    0x41 <= code <= 0x5A
  }

  predicate Repeatable(code: byte) {
    32 <= code <= 127 || code in {0x0A, 0x09, 0xD4, 0x08, 0xB5, 0xB6, 0xB7, 0xB4}
  }

  /** A modifier counts as held while its own event is being reported. */
  function ModifierEvent(c: Controller, m: Modifier, state: KeyState): (r: Controller)
    requires c.Valid()
    ensures r.Valid()
  {
    var pressed := if state.Pressed? then c.(settings := c.settings.(active := c.settings.active + {m})) else c;
    var reported := if c.settings.config & CFG_REPORT_MODS != 0 then Push(pressed, KeyEvent(state, m.Code()))
                    else pressed;
    if state.Released? then reported.(settings := reported.settings.(active := reported.settings.active - {m}))
    else reported
  }

  function Brighter(lcd: byte): byte {
    if lcd + 16 <= 240 then lcd + 16 else 240
  }

  function Dimmer(lcd: byte): byte {
    if 32 <= lcd then lcd - 16 else 16
  }

  function NextLevel(keyboard: byte): byte {
    if keyboard + 32 > 240 then 0 else keyboard + 32
  }

  predicate ShiftHeld(s: Settings) {
    LeftShift in s.active || RightShift in s.active
  }

  predicate AltHeld(s: Settings) {
    Alt in s.active || s.numLock
  }

  /** The code one matrix key sends, or nothing when it is a shortcut. */
  function Mapped(s: Settings, primary: byte, symbol: byte, state: KeyState): Option<byte> {
    if s.config & CFG_USE_MODS == 0 then Some(primary)
    else if ShiftHeld(s) && !Uppercase(primary) then Some(symbol)
    else if s.capsLock && Uppercase(primary) then Some(primary)
    else if AltHeld(s) then
      if state.Held? then Some(primary)
      else if primary in {0x2C, 0x2E, 0x20, 0x42} then None
      else if primary == 0x49 then Some(KEY_INSERT)
      else Some(primary)
    else if !ShiftHeld(s) && Uppercase(primary) then Some(primary + 32)
    else Some(primary)
  }

  /** The lamp shortcuts act when the key comes up. */
  function Lit(lamps: Lamps, primary: byte): Lamps {
    if primary == 0x2C then lamps.(lcd := Dimmer(lamps.lcd))
    else if primary == 0x2E then lamps.(lcd := Brighter(lamps.lcd))
    else if primary == 0x20 then lamps.(keyboard := NextLevel(lamps.keyboard))
    else lamps
  }

  function MappedKeyEvent(c: Controller, primary: byte, symbol: byte, state: KeyState): (r: Controller)
    requires c.Valid()
    ensures r.Valid()
  {
    var toggled := if primary == KEY_CAPS_LOCK && state.Pressed?
                   then c.(settings := c.settings.(capsLock := !c.settings.capsLock)) else c;
    match Mapped(toggled.settings, primary, symbol, state)
    case None => if state.Released? then toggled.(lamps := Lit(c.lamps, primary)) else toggled
    case Some(code) =>
      if code == 0 then toggled
      else Push(toggled, KeyEvent(if state.Held? && Repeatable(code) then Pressed else state, code))
  }

  // ---- I2C --------------------------------------------------------------------------------

  function NormalisedLcd(value: byte): byte {
    if value < 16 then 16 else value / 16 * 16
  }

  function NormalisedKeyboard(value: byte): byte {
    value / 32 * 32
  }

  /** Length in the low five bits, then the caps-lock and num-lock flags. */
  function CountStatus(c: Controller): byte
    requires c.Valid()
  {
    |c.fifo| + (if c.settings.capsLock then 32 else 0) + if c.settings.numLock then 64 else 0
  }

  function Reset(c: Controller): Controller {
    c.(fifo := [], link := QUIET, lamps := DIMMED, settings := DEFAULTS,
       stats := c.stats.(resets := c.stats.resets + 1))
  }

  /** Preparing a reply is what pops the queue and what performs a reset. */
  function Reply(c: Controller, reg: byte): (r: (Controller, seq<byte>))
    requires c.Valid()
    ensures r.0.Valid()
  {
    if reg == REG_VERSION then (c, [0, FIRMWARE_VERSION])
    else if reg == REG_KEY_COUNT then (c, [CountStatus(c), 0])
    else if reg == REG_KEY_FIFO then
      if c.fifo == [] then (c, [0, 0])
      else (c.(fifo := c.fifo[1..], stats := c.stats.(delivered := c.stats.delivered + 1)),
            [c.fifo[0].state.Code(), c.fifo[0].code])
    else if reg == REG_LCD_BACKLIGHT then (c, [REG_LCD_BACKLIGHT, c.lamps.lcd])
    else if reg == REG_BATTERY then
      (c.(stats := c.stats.(batteryReads := c.stats.batteryReads + 1)),
       [REG_BATTERY, c.sensors.batteryPercent % 128 + if c.sensors.batteryFlags >= 128 then 128 else 0])
    else if reg == REG_KEYBOARD_BACKLIGHT then (c, [REG_KEYBOARD_BACKLIGHT, c.lamps.keyboard])
    else if reg == REG_C64_MATRIX then (c, [REG_C64_MATRIX] + c.sensors.matrix)
    else if reg == REG_C64_JOYSTICK then (c, [REG_C64_JOYSTICK, c.sensors.joystick])
    else if reg == REG_POWER_OFF then (c, [REG_POWER_OFF, 1])
    else if reg == REG_RESET then (Reset(c), [0, 0])
    else (c, [0, 0])
  }

  function Served(c: Controller, reg: byte): (r: Controller)
    requires c.Valid()
    ensures r.Valid()
  {
    var answer := Reply(c, reg);
    answer.0.(link := answer.0.link.(readState := Serving(answer.1, 0)))
  }

  /** The value byte of a register write. */
  function Written(c: Controller, reg: byte, value: byte): (r: Controller)
    requires c.Valid()
    ensures r.Valid()
  {
    if reg == REG_LCD_BACKLIGHT then
      c.(lamps := c.lamps.(lcd := NormalisedLcd(value)),
         stats := c.stats.(backlightWrites := c.stats.backlightWrites + 1))
    else if reg == REG_KEYBOARD_BACKLIGHT then
      c.(lamps := c.lamps.(keyboard := NormalisedKeyboard(value)),
         stats := c.stats.(backlightWrites := c.stats.backlightWrites + 1))
    else if reg == REG_POWER_OFF then
      c.(settings := c.settings.(powerOffDelay := Some(if value < 6 then 6 else value)))
    else if reg in {REG_RESET, REG_VERSION, REG_KEY_COUNT, REG_KEY_FIFO, REG_BATTERY, REG_C64_MATRIX,
                    REG_C64_JOYSTICK} then c
    else c.(stats := c.stats.(unknownWrites := c.stats.unknownWrites + 1, lastUnknown := Some(reg)))
  }

  predicate KnownRegister(reg: byte) {
    REG_VERSION <= reg <= REG_POWER_OFF
  }

  function Selected(c: Controller, reg: byte): (r: Controller)
    requires c.Valid()
    ensures r.Valid()
  {
    var unknown := if KnownRegister(reg) then c.stats
                   else c.stats.(unknownSelects := c.stats.unknownSelects + 1, lastUnknown := Some(reg));
    c.(stats := unknown.(selects := c.stats.selects + 1), link := c.link.(selected := Some(reg)))
  }

  function WriteByte(c: Controller, b: byte): (r: Controller)
    requires c.Valid()
    ensures r.Valid()
  {
    match c.link.pendingWrite
    case Some(reg) => Served(Written(c.(link := c.link.(pendingWrite := None)), reg, b), reg)
    case None =>
      if b >= 128 then c.(link := c.link.(pendingWrite := Some(b - 128)))
      else Served(Selected(c, b), b)
  }

  /** Past the end of the reply the line reads zero. */
  function ReadByte(c: Controller): (r: (Controller, byte))
    requires c.Valid()
    ensures r.0.Valid()
  {
    match c.link.readState
    case Unselected => (c, 0)
    case Serving(reply, pos) =>
      if pos < |reply| then (c.(link := c.link.(readState := Serving(reply, pos + 1))), reply[pos])
      else (c, 0)
  }

  /** A stop forgets a half-written register and rewinds the reply. */
  function TransactionEnd(c: Controller): (r: Controller)
    requires c.Valid()
    ensures r.Valid()
  {
    c.(link := Link(if c.link.readState.Serving? then c.link.readState.(pos := 0) else Unselected,
                    c.link.selected, None))
  }
}
