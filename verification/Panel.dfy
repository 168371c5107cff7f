/** The display controller as an object, and the byte-level SPI hook in front of it. */
module PanelDevice {
  import opened Bits
  import opened PanelSpec

  class St7365p {
    const gram: array<u16>
    var lines: Lines
    var decoder: Decoder
    var cursor: Cursor
    var readout: Readout
    var display: Display
    var counters: Counters

    ghost function View(): Panel
      reads this, gram
    {
      Panel(gram[..], lines, decoder, cursor, readout, display, counters)
    }

    constructor ()
      ensures View() == PowerUp() && fresh(gram)
    {
      gram := new u16[CELLS](_ => 0);
      lines, decoder, cursor := Lines(true, false, true), Decoder(0, 0, [0, 0, 0, 0], [0, 0, 0], 0), Home(WHOLE);
      readout, display := Readout(false, true, 0, [0, 0, 0]), ASLEEP;
      counters := Counters(0, 0, 0, 0, 0, 0, 0, 0, 0, 0, 0, 0, 0, 0, 0, map[]);
      new;
      assert gram[..] == Black();
    }

    method SetRamrdDummy(emit: bool)
      requires View().Valid()
      modifies this`readout
      ensures View() == PanelSpec.SetRamrdDummy(old(View()), emit)
    {
      readout := readout.(emitsDummy := emit);
    }

    method SetControlLines(cs: bool, dc: bool, reset: bool)
      requires View().Valid()
      modifies this, gram
      ensures View() == PanelSpec.SetControlLines(old(View()), cs, dc, reset)
    {
      var wasAsserted := lines.resetAsserted;
      lines := Lines(!cs, dc, !reset);
      if wasAsserted && !lines.resetAsserted {
        counters := counters.(resetPulses := counters.resetPulses + 1);
        PowerOnReset();
      }
    }

    method TransferByte(b: byte) returns (reply: byte)
      requires View().Valid()
      modifies this, gram
      ensures (View(), reply) == Transfer(old(View()), b)
    {
      hide RamrdByte, PanelSpec.CommandByte, PanelSpec.DataByte;
      if lines.resetAsserted || !lines.csAsserted {
        return 0;
      }
      if lines.dcData {
        if decoder.command == CMD_RAMRD {
          reply := NextRamrdByte();
          return;
        }
        DataByte(b);
      } else {
        CommandByte(b);
      }
      reply := 0;
    }

    method NextRamrdByte() returns (b: byte)
      requires View().Valid() && decoder.command == CMD_RAMRD
      modifies this`readout, this`cursor
      ensures (View(), b) == RamrdByte(old(View()))
    {
      if readout.dummyPending {
        readout := readout.(dummyPending := false);
        return 0;
      }
      var width := display.colmod.BytesPerPixel();
      if readout.phase == 0 {
        var colour := PeekPixel();
        readout := readout.(pixel := Pack(display.colmod, colour));
        AdvancePointer();
      }
      b := readout.pixel[readout.phase];
      readout := readout.(phase := (readout.phase + 1) % width);
    }

    method PeekPixel() returns (colour: u16)
      requires View().Valid()
      ensures colour == CellAt(gram[..], cursor.x, cursor.y)
    {
      if cursor.x < WIDTH && cursor.y < HEIGHT {
        CellIndexInRange(cursor.x, cursor.y);
        colour := gram[cursor.y * WIDTH + cursor.x];
      } else {
        colour := 0;
      }
    }

    method CommandByte(code: byte)
      requires View().Valid()
      modifies this, gram
      ensures View() == PanelSpec.CommandByte(old(View()), code)
    {
      decoder := decoder.(command := code, paramIndex := 0, pixelLen := 0);
      if code == CMD_SWRESET {
        counters := counters.(swreset := counters.swreset + 1);
        PowerOnReset();
        decoder := decoder.(command := CMD_SWRESET);
      } else if code == CMD_SLPIN {
        counters := counters.(slpin := counters.slpin + 1);
        display := display.(sleeping := true);
      } else if code == CMD_SLPOUT {
        counters := counters.(slpout := counters.slpout + 1);
        display := display.(sleeping := false);
      } else if code == CMD_INVOFF {
        display := display.(inverted := false);
      } else if code == CMD_INVON {
        display := display.(inverted := true);
      } else if code == CMD_DISPOFF {
        counters := counters.(dispoff := counters.dispoff + 1);
        display := display.(on := false);
      } else if code == CMD_DISPON {
        counters := counters.(dispon := counters.dispon + 1);
        display := display.(on := true);
      } else if code == CMD_CASET {
        counters := counters.(caset := counters.caset + 1);
      } else if code == CMD_RASET {
        counters := counters.(raset := counters.raset + 1);
      } else if code == CMD_RAMWR {
        counters := counters.(ramwr := counters.ramwr + 1);
        cursor := Home(cursor.win);
      } else if code == CMD_RAMRD {
        counters := counters.(ramrd := counters.ramrd + 1);
        cursor := Home(cursor.win);
        readout := readout.(dummyPending := readout.emitsDummy, phase := 0);
      } else if code == CMD_MADCTL {
        counters := counters.(madctl := counters.madctl + 1);
      } else if code == CMD_COLMOD {
        counters := counters.(colmod := counters.colmod + 1);
      } else {
        counters := counters.(unknown := Noted(counters.unknown, code));
      }
    }

    method DataByte(b: byte)
      requires View().Valid() && decoder.command != CMD_RAMRD
      modifies this, gram
      ensures View() == PanelSpec.DataByte(old(View()), b)
    {
      hide PanelSpec.PixelByte;
      if decoder.command == CMD_CASET || decoder.command == CMD_RASET {
        if decoder.paramIndex < 4 {
          decoder := decoder.(params := decoder.params[decoder.paramIndex := b]);
        }
        decoder := decoder.(paramIndex := decoder.paramIndex + 1);
        if decoder.paramIndex == 4 {
          var start := BigEndian16(decoder.params[0], decoder.params[1]);
          var end := BigEndian16(decoder.params[2], decoder.params[3]);
          if decoder.command == CMD_CASET {
            cursor := Cursor(cursor.win.(colStart := start, colEnd := end), start, cursor.y);
          } else {
            cursor := Cursor(cursor.win.(rowStart := start, rowEnd := end), cursor.x, start);
          }
          decoder := decoder.(paramIndex := 0);
        }
      } else if decoder.command == CMD_MADCTL {
        display := display.(madctl := b);
        decoder := decoder.(paramIndex := decoder.paramIndex + 1);
      } else if decoder.command == CMD_COLMOD {
        display := display.(colmodReg := b);
        var fmt := FromReg(b);
        if fmt.Some? {
          display := display.(colmod := fmt.value);
        }
        decoder := decoder.(pixelLen := 0, paramIndex := decoder.paramIndex + 1);
      } else if decoder.command == CMD_RAMWR {
        PixelByte(b);
      } else if decoder.command == 0 {
        counters := counters.(orphans := counters.orphans + 1);
      } else {
        decoder := decoder.(paramIndex := decoder.paramIndex + 1);
      }
    }

    method PixelByte(b: byte)
      requires View().Valid()
      modifies this`decoder, this`cursor, this`counters, gram
      ensures View() == PanelSpec.PixelByte(old(View()), b)
    {
      hide PanelSpec.StorePixel;
      var need := display.colmod.BytesPerPixel();
      decoder := decoder.(pixelBytes := decoder.pixelBytes[decoder.pixelLen := b], pixelLen := decoder.pixelLen + 1);
      if decoder.pixelLen < need {
        return;
      }
      decoder := decoder.(pixelLen := 0);
      var colour := match display.colmod
        case Rgb666 => Rgb666To565(decoder.pixelBytes[0], decoder.pixelBytes[1], decoder.pixelBytes[2])
        case Rgb565 => BigEndian16(decoder.pixelBytes[0], decoder.pixelBytes[1]);
      StorePixel(colour);
    }

    method StorePixel(colour: u16)
      requires View().Valid()
      modifies this`cursor, this`counters, gram
      ensures View() == PanelSpec.StorePixel(old(View()), colour)
    {
      if cursor.x < WIDTH && cursor.y < HEIGHT {
        CellIndexInRange(cursor.x, cursor.y);
        gram[cursor.y * WIDTH + cursor.x] := colour;
        counters := counters.(written := counters.written + 1);
      } else {
        counters := counters.(dropped := counters.dropped + 1);
      }
      AdvancePointer();
    }

    method AdvancePointer()
      modifies this`cursor
      ensures cursor == Next(old(cursor))
    {
      if cursor.x >= cursor.win.colEnd {
        cursor := cursor.(x := cursor.win.colStart);
        if cursor.y >= cursor.win.rowEnd {
          cursor := cursor.(y := cursor.win.rowStart);
        } else {
          cursor := cursor.(y := cursor.y + 1);
        }
      } else {
        cursor := cursor.(x := cursor.x + 1);
      }
    }

    method PowerOnReset()
      requires View().Valid()
      modifies this`decoder, this`cursor, this`display, gram
      ensures View() == PanelSpec.PowerOnReset(old(View()))
    {
      forall i | 0 <= i < gram.Length {
        gram[i] := 0;
      }
      decoder := decoder.(command := 0, paramIndex := 0, pixelLen := 0);
      cursor, display := Home(WHOLE), ASLEEP;
      assert gram[..] == Black();
    }
  }

  /** The SPI hook: pad levels become control lines, frames become bytes. */
  class St7365pWire {
    const lcd: St7365p

    constructor (lcd: St7365p)
      ensures this.lcd == lcd
    {
      this.lcd := lcd;
    }

    /** Only the low byte of a frame is looked at, whatever its width. */
    method Transfer(word: u16) returns (reply: u16)
      requires lcd.View().Valid()
      modifies lcd, lcd.gram
      ensures (lcd.View(), reply) == PanelSpec.Transfer(old(lcd.View()), word % 256)
    {
      reply := lcd.TransferByte(word % 256);
    }

    method ObservePins(levels: bv32)
      requires lcd.View().Valid()
      modifies lcd, lcd.gram
      ensures lcd.View() == Observed(old(lcd.View()), levels)
    {
      var cs, dc, reset := Level(levels, PIN_CS), Level(levels, PIN_DC), Level(levels, PIN_RESET);
      lcd.SetControlLines(cs, dc, reset);
    }
  }
}
