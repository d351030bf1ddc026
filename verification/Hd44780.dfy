/**
 The display controller at the far end of the wires: a Hitachi HD44780U driven through
 a PCF8574 expander.  It knows nothing about the driver.  It watches the pin images the
 expander puts out and latches a nibble on every falling edge of E.

 The instruction table and the 4-bit transfer order are those of the HD44780U datasheet
 ("Instructions" and "Interfacing to the MPU").
 */
module Hd44780 {
  import opened Wrappers

  // Wiring of the expander's eight outputs.
  const P_RS: bv8 := 0x01
  const P_RW: bv8 := 0x02
  const P_E: bv8 := 0x04
  const P_BL: bv8 := 0x08
  const P_D4: bv8 := 0x10
  const P_D5: bv8 := 0x20
  const P_D6: bv8 := 0x40
  const P_D7: bv8 := 0x80

  const BLANK: bv8 := 0x20

  /** Width of the data bus, and in 4-bit mode the high nibble still waiting for its partner. */
  datatype Interface = EightBit | FourBit(pending: Option<bv8>)

  /** Display data; an address that was never written since the last clear holds a blank. */
  type Ram = map<int, bv8>

  function CellAt(m: Ram, a: int): bv8 {
    if a in m then m[a] else BLANK
  }

  datatype Controller = Controller(
    iface: Interface,
    twoLines: bool,        // N of the last function set
    tall: bool,            // F: characters of 5x10 dots
    ddram: Ram,
    cgram: Ram,
    inCgram: bool,         // data goes to character-generator RAM
    ac: bv8,               // address counter
    increment: bool,       // I/D
    shiftOnWrite: bool,    // S
    shift: int,            // display shift, left positive
    on: bool, cursor: bool, blink: bool)

  /** The controller together with the wires it watches. */
  datatype Panel = Panel(
    core: Controller,
    pins: bv8,             // the image now on the wires
    clock: nat)            // number of images seen

  /** The address after `a`, with the line ends of the selected line mode. */
  function AddressAfter(a: bv8, twoLines: bool): bv8 {
    if twoLines then
      if a == 0x27 then 0x40 else if a == 0x67 then 0x00 else (a + 1) & 0x7F
    else
      if a == 0x4F then 0x00 else (a + 1) & 0x7F
  }

  function AddressBefore(a: bv8, twoLines: bool): bv8 {
    if twoLines then
      if a == 0x40 then 0x27 else if a == 0x00 then 0x67 else (a - 1) & 0x7F
    else
      if a == 0x00 then 0x4F else (a - 1) & 0x7F
  }

  function Advance(c: Controller, forward: bool): Controller {
    c.(ac := if c.inCgram then (if forward then c.ac + 1 else c.ac - 1) & 0x3F
             else if forward then AddressAfter(c.ac, c.twoLines) else AddressBefore(c.ac, c.twoLines))
  }

  function Shifted(c: Controller, left: bool): Controller {
    c.(shift := if left then c.shift + 1 else c.shift - 1)
  }

  /** Executes one command byte: the highest set bit selects the instruction. */
  function Execute(c: Controller, b: bv8): Controller {
    if b & 0x80 != 0 then c.(inCgram := false, ac := b & 0x7F)
    else if b & 0x40 != 0 then c.(inCgram := true, ac := b & 0x3F)
    else if b & 0x20 != 0 then
      c.(twoLines := b & 0x08 != 0, tall := b & 0x04 != 0, iface := if b & 0x10 != 0 then EightBit else FourBit(None))
    else if b & 0x10 != 0 then
      if b & 0x08 != 0 then Shifted(c, b & 0x04 == 0) else Advance(c, b & 0x04 != 0)
    else if b & 0x08 != 0 then
      c.(on := b & 0x04 != 0, cursor := b & 0x02 != 0, blink := b & 0x01 != 0)
    else if b & 0x04 != 0 then c.(increment := b & 0x02 != 0, shiftOnWrite := b & 0x01 != 0)
    else if b & 0x02 != 0 then c.(inCgram := false, ac := 0, shift := 0)
    else if b & 0x01 != 0 then c.(ddram := map[], inCgram := false, ac := 0, shift := 0, increment := true)
    else c
  }

  /** Stores one data byte at the address counter and moves on. */
  function Store(c: Controller, b: bv8): Controller {
    var c1 := if c.inCgram then c.(cgram := c.cgram[c.ac as int := b]) else c.(ddram := c.ddram[c.ac as int := b]);
    var c2 := Advance(c1, c.increment);
    if c.shiftOnWrite && !c.inCgram then Shifted(c2, c.increment) else c2
  }

  function Accept(c: Controller, rs: bool, b: bv8): Controller {
    if rs then Store(c, b) else Execute(c, b)
  }

  /**
   Takes one nibble.  In 8-bit mode the four low lines are not driven by the backpack, so
   their value `low` is up to the environment; in 4-bit mode nibbles pair up, high first.
   */
  function TakeNibble(c: Controller, rs: bool, nibble: bv8, low: bv8): Controller {
    match c.iface
    case EightBit => Accept(c, rs, (nibble << 4) | (low & 0x0F))
    case FourBit(None) => c.(iface := FourBit(Some(nibble)))
    case FourBit(Some(high)) => Accept(c.(iface := FourBit(None)), rs, (high << 4) | nibble)
  }

  /**
   Latches what is on the data lines.  A read strobe (RW high) leaves the state alone; the
   driver never issues one.
   */
  function Latch(c: Controller, image: bv8, low: bv8): Controller {
    if image & P_RW != 0 then c else TakeNibble(c, image & P_RS != 0, image >> 4, low)
  }

  /** The wires change to `image`: a falling edge of E latches what was on them. */
  function Tick(p: Panel, image: bv8, noise: nat -> bv8): Panel {
    Panel(if p.pins & P_E != 0 && image & P_E == 0 then Latch(p.core, p.pins, noise(p.clock)) else p.core,
          image, p.clock + 1)
  }

  /** Feeds a whole sequence of pin images. */
  function Feed(p: Panel, images: seq<bv8>, noise: nat -> bv8): Panel
    decreases |images|
  {
    if images == [] then p else Feed(Tick(p, images[0], noise), images[1..], noise)
  }

  lemma {:induction false} FeedConcat(p: Panel, a: seq<bv8>, b: seq<bv8>, noise: nat -> bv8)
    ensures Feed(p, a + b, noise) == Feed(Feed(p, a, noise), b, noise)
    decreases |a|
  {
    if a == [] {
      assert a + b == b;
    } else {
      assert (a + b)[1..] == a[1..] + b;
      FeedConcat(Tick(p, a[0], noise), a[1..], b, noise);
    }
  }
}
