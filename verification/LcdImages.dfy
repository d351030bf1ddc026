/**
 What the driver puts on the wires, as pure functions of the cached control byte, and what
 each byte-sized group of pin images makes the controller do.
 */
module LcdImages {
  import opened Wrappers
  import opened Hd44780

  /** The cached control byte holds the backlight bit only. */
  predicate IsControl(ctrl: bv8) {
    ctrl == 0 || ctrl == P_BL
  }

  function NibbleImage(ctrl: bv8, nibble: bv8, rs: bool): bv8 {
    ctrl | (if rs then P_RS else 0) | (nibble << 4)
  }

  /** One nibble: the image with E high, then the same image with E low. */
  function NibbleImages(ctrl: bv8, nibble: bv8, rs: bool): seq<bv8> {
    var v := NibbleImage(ctrl, nibble, rs);
    [v | P_E, v & !P_E]
  }

  function ByteImages(ctrl: bv8, b: bv8, rs: bool): seq<bv8> {
    NibbleImages(ctrl, (b >> 4) & 0x0F, rs) + NibbleImages(ctrl, b & 0x0F, rs)
  }

  function TextImages(ctrl: bv8, s: seq<bv8>): seq<bv8> {
    if s == [] then [] else ByteImages(ctrl, s[0], true) + TextImages(ctrl, s[1..])
  }

  /** The controller expects the high nibble of a new byte, and E is low. */
  predicate Aligned(p: Panel) {
    p.core.iface == FourBit(None) && p.pins & P_E == 0
  }

  /** What a nibble image carries on its lines. */
  lemma NibbleImageLines(ctrl: bv8, nibble: bv8, rs: bool)
    requires IsControl(ctrl) && nibble <= 0x0F
    ensures var v := NibbleImage(ctrl, nibble, rs);
            && v & P_E == 0 && v & !P_E == v && (v | P_E) & P_E != 0
            && (v | P_E) & P_RW == 0 && ((v | P_E) & P_RS != 0 <==> rs) && (v | P_E) >> 4 == nibble
  {
  }

  /** One strobe delivers exactly one nibble, whatever was on the wires before. */
  lemma FeedNibble(p: Panel, ctrl: bv8, nibble: bv8, rs: bool, noise: nat -> bv8)
    requires IsControl(ctrl) && nibble <= 0x0F
    ensures Feed(p, NibbleImages(ctrl, nibble, rs), noise)
            == Panel(TakeNibble(p.core, rs, nibble, noise(p.clock + 1)),
                     NibbleImage(ctrl, nibble, rs), p.clock + 2)
    ensures NibbleImage(ctrl, nibble, rs) & P_E == 0
  {
    NibbleImageLines(ctrl, nibble, rs);
    var images := NibbleImages(ctrl, nibble, rs);
    var p1 := Tick(p, images[0], noise);
    assert images[1..] == [images[1]] && images[1..][1..] == [];
    assert Feed(p1, images[1..], noise) == Tick(p1, images[1], noise);
  }

  /**
   Nibble pairing: from an aligned controller the four images of a byte make it accept
   exactly that byte.
   */
  lemma FeedByte(p: Panel, ctrl: bv8, b: bv8, rs: bool, noise: nat -> bv8)
    requires IsControl(ctrl) && Aligned(p)
    ensures Feed(p, ByteImages(ctrl, b, rs), noise)
            == Panel(Accept(p.core, rs, b), NibbleImage(ctrl, b & 0x0F, rs), p.clock + 4)
    ensures NibbleImage(ctrl, b & 0x0F, rs) & P_E == 0
  {
    var hi, lo := (b >> 4) & 0x0F, b & 0x0F;
    FeedConcat(p, NibbleImages(ctrl, hi, rs), NibbleImages(ctrl, lo, rs), noise);
    FeedNibble(p, ctrl, hi, rs, noise);
    var p1 := Feed(p, NibbleImages(ctrl, hi, rs), noise);
    assert p1.core == p.core.(iface := FourBit(Some(hi)));
    FeedNibble(p1, ctrl, lo, rs, noise);
    assert (hi << 4) | lo == b;
    assert p1.core.(iface := FourBit(None)) == p.core;
  }

  /** RW low and the backlight line as cached. */
  predicate Quiet(ctrl: bv8, image: bv8) {
    image & P_RW == 0 && image & P_BL == ctrl
  }

  lemma NibbleImagesWires(ctrl: bv8, nibble: bv8, rs: bool)
    requires IsControl(ctrl)
    ensures var v := NibbleImage(ctrl, nibble, rs); Quiet(ctrl, v | P_E) && Quiet(ctrl, v & !P_E)
  {
    var v := NibbleImage(ctrl, nibble, rs);
    assert v & P_RW == 0 && v & P_BL == ctrl;
  }

  lemma ByteImagesWires(ctrl: bv8, b: bv8, rs: bool)
    requires IsControl(ctrl)
    ensures |ByteImages(ctrl, b, rs)| == 4
    ensures forall k :: 0 <= k < 4 ==> Quiet(ctrl, ByteImages(ctrl, b, rs)[k])
  {
    NibbleImagesWires(ctrl, (b >> 4) & 0x0F, rs);
    NibbleImagesWires(ctrl, b & 0x0F, rs);
  }
}
