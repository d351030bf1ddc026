/**
 What lost transfers do to the controller.  A byte is four images; the bus may lose any of
 them.  The controller pairs nibbles by counting, so this file says exactly which losses leave
 it in step with the driver, and that being out of step outlives any later write.
 */
module LcdFaults {
  import opened Wrappers
  import opened Hd44780
  import opened LcdImages
  import opened LcdCalls
  import opened LcdInit
  import opened LcdDriver

  /** What arrives of one strobe: the image with E high, and the same image with E low. */
  function Strobed(v: bv8, high: bool, low: bool): seq<bv8> {
    (if high then [v | P_E] else []) + (if low then [v & !P_E] else [])
  }

  /** What arrives of one byte. */
  function ByteArrived(ctrl: bv8, b: bv8, rs: bool, ok: seq<bool>): seq<bv8>
    requires |ok| == 4
  {
    Strobed(NibbleImage(ctrl, (b >> 4) & 0x0F, rs), ok[0], ok[1])
    + Strobed(NibbleImage(ctrl, b & 0x0F, rs), ok[2], ok[3])
  }

  function Succeeded(codes: Codes, start: nat): (ok: seq<bool>)
    ensures |ok| == 4
  {
    [codes(start) == 0, codes(start + 1) == 0, codes(start + 2) == 0, codes(start + 3) == 0]
  }

  function Survivor(x: Attempt): seq<bv8> {
    if x.code == 0 then [x.image] else []
  }

  lemma DeliveredFirst(log: seq<Attempt>)
    requires log != []
    ensures Delivered(log) == Survivor(log[0]) + Delivered(log[1..])
  {
  }

  lemma DeliveredNone()
    ensures Delivered([]) == []
  {
  }

  lemma {:induction false} DeliveredConcat(a: seq<Attempt>, b: seq<Attempt>)
    ensures Delivered(a + b) == Delivered(a) + Delivered(b)
    decreases |a|
  {
    hide Delivered, Survivor;
    if a == [] {
      DeliveredNone();
      assert a + b == b;
    } else {
      DeliveredFirst(a);
      DeliveredFirst(a + b);
      assert (a + b)[1..] == a[1..] + b;
      DeliveredConcat(a[1..], b);
    }
  }

  lemma DeliveredStrobe(v: bv8, codes: Codes, start: nat)
    ensures Delivered(Attempts([v | P_E, v & !P_E], codes, start))
            == Strobed(v, codes(start) == 0, codes(start + 1) == 0)
  {
    var x, y := Attempt(v | P_E, codes(start)), Attempt(v & !P_E, codes(start + 1));
    assert Attempts([v | P_E, v & !P_E], codes, start) == [x, y];
    assert [x, y][1..] == [y] && [y][1..] == [];
    assert Delivered([y]) == if y.code == 0 then [y.image] else [];
  }

  lemma DeliveredStrobes(v: bv8, w: bv8, codes: Codes, start: nat)
    ensures Delivered(Attempts([v | P_E, v & !P_E] + [w | P_E, w & !P_E], codes, start))
            == Strobed(v, codes(start) == 0, codes(start + 1) == 0)
               + Strobed(w, codes(start + 2) == 0, codes(start + 3) == 0)
  {
    hide Attempts, Delivered, Strobed;
    var high, low := [v | P_E, v & !P_E], [w | P_E, w & !P_E];
    AttemptsConcat(high, low, codes, start);
    DeliveredConcat(Attempts(high, codes, start), Attempts(low, codes, start + 2));
    DeliveredStrobe(v, codes, start);
    DeliveredStrobe(w, codes, start + 2);
    assert start + 2 + 1 == start + 3;
  }

  /** The images of a byte that reach the expander. */
  lemma DeliveredByte(ctrl: bv8, b: bv8, rs: bool, codes: Codes, start: nat)
    ensures Delivered(Attempts(ByteImages(ctrl, b, rs), codes, start))
            == ByteArrived(ctrl, b, rs, Succeeded(codes, start))
  {
    hide NibbleImage, Attempts, Delivered, Strobed;
    DeliveredStrobes(NibbleImage(ctrl, (b >> 4) & 0x0F, rs), NibbleImage(ctrl, b & 0x0F, rs), codes, start);
  }

  predicate EHigh(p: Panel) {
    p.pins & P_E != 0
  }

  /** The wires hold up a nibble that the next image with E low will latch. */
  predicate Carries(pins: bv8, nibble: bv8, rs: bool) {
    pins & P_E != 0 && pins & P_RW == 0 && (pins & P_RS != 0 <==> rs) && pins >> 4 == nibble
  }

  /** A nibble taken in 4-bit mode. */
  function Taken(c: Controller, rs: bool, nibble: bv8): Controller
    requires c.iface.FourBit?
  {
    match c.iface.pending
    case None => c.(iface := FourBit(Some(nibble)))
    case Some(high) => Accept(c.(iface := FourBit(None)), rs, (high << 4) | nibble)
  }

  /** One image on the wires. */
  lemma TickHigh(p: Panel, v: bv8, noise: nat -> bv8)
    requires v & P_E != 0
    ensures Tick(p, v, noise) == Panel(p.core, v, p.clock + 1)
  {
    hide Latch;
  }

  lemma TickLow(p: Panel, v: bv8, nibble: bv8, rs: bool, noise: nat -> bv8)
    requires v & P_E == 0 && p.core.iface.FourBit?
    requires EHigh(p) ==> Carries(p.pins, nibble, rs)
    ensures Tick(p, v, noise) == Panel(if EHigh(p) then Taken(p.core, rs, nibble) else p.core, v, p.clock + 1)
  {
    hide Accept;
  }

  /** One strobe of which either image may be lost; a lost E-low leaves the nibble held up. */
  lemma LossyStrobe(p: Panel, before: bv8, ctrl: bv8, nibble: bv8, rs: bool, high: bool, low: bool,
                    noise: nat -> bv8)
    requires IsControl(ctrl) && nibble <= 0x0F && p.core.iface.FourBit?
    requires EHigh(p) ==> Carries(p.pins, before, rs)
    ensures var q := Feed(p, Strobed(NibbleImage(ctrl, nibble, rs), high, low), noise);
            var up := high || EHigh(p);
            var now := if high then nibble else before;
            && q.core == (if up && low then Taken(p.core, rs, now) else p.core)
            && EHigh(q) == (up && !low)
            && (EHigh(q) ==> Carries(q.pins, now, rs))
  {
    var v := NibbleImage(ctrl, nibble, rs);
    var images := Strobed(v, high, low);
    NibbleImageLines(ctrl, nibble, rs);
    assert v & !P_E == v;
    assert Carries(v | P_E, nibble, rs);
    hide NibbleImage, Tick, Taken, IsControl, Carries;
    var p1 := if high then Tick(p, v | P_E, noise) else p;
    if high { TickHigh(p, v | P_E, noise); }
    if low { TickLow(p1, v, if high then nibble else before, rs, noise); }
    FeedTwo(p, v, high, low, noise);
  }

  lemma FeedTwo(p: Panel, v: bv8, high: bool, low: bool, noise: nat -> bv8)
    ensures var p1 := if high then Tick(p, v | P_E, noise) else p;
            Feed(p, Strobed(v, high, low), noise) == if low then Tick(p1, v & !P_E, noise) else p1
  {
    hide Tick;
    var images := Strobed(v, high, low);
    var last: seq<bv8> := if low then [v & !P_E] else [];
    var p1 := if high then Tick(p, v | P_E, noise) else p;
    if high {
      assert images[0] == v | P_E && images[1..] == last;
    } else {
      assert images == last;
    }
    if low { assert last[1..] == [] && Feed(p1, last, noise) == Tick(p1, v & !P_E, noise); }
  }

  /** The controller left holding a high nibble. */
  function Holding(c: Controller, nibble: bv8): Controller {
    c.(iface := FourBit(Some(nibble)))
  }

  /** Some image with E high is followed by one with E low. */
  predicate OneEdge(ok: seq<bool>)
    requires |ok| == 4
  {
    (ok[0] && ok[1]) || (ok[2] && ok[3]) || (ok[0] && ok[3])
  }

  /** The complete account of one byte to an aligned controller, for each of the sixteen patterns. */
  function AfterByte(c: Controller, b: bv8, rs: bool, ok: seq<bool>): Controller
    requires |ok| == 4
  {
    if ok[0] && ok[1] && ok[2] && ok[3] then Accept(c, rs, b)
    else if !OneEdge(ok) then c
    else if ok[0] && (ok[1] || !ok[2]) then Holding(c, (b >> 4) & 0x0F)
    else Holding(c, b & 0x0F)
  }

  lemma LossyByte(p: Panel, ctrl: bv8, b: bv8, rs: bool, ok: seq<bool>, noise: nat -> bv8)
    requires IsControl(ctrl) && Aligned(p) && |ok| == 4
    ensures var q := Feed(p, ByteArrived(ctrl, b, rs, ok), noise);
            q.core == AfterByte(p.core, b, rs, ok) && EHigh(q) == (!ok[3] && (ok[2] || (ok[0] && !ok[1])))
  {
    var hi, lo := (b >> 4) & 0x0F, b & 0x0F;
    Nibbles(b);
    var first := Strobed(NibbleImage(ctrl, hi, rs), ok[0], ok[1]);
    FeedConcat(p, first, Strobed(NibbleImage(ctrl, lo, rs), ok[2], ok[3]), noise);
    TwoNibbles(p.core, hi, lo, b, rs, ok);
    hide Feed, Strobed, Taken, AfterByte, NibbleImage, IsControl, Carries;
    var p1 := Feed(p, first, noise);
    LossyStrobe(p, 0, ctrl, hi, rs, ok[0], ok[1], noise);
    LossyStrobe(p1, hi, ctrl, lo, rs, ok[2], ok[3], noise);
  }

  /** The nibbles latched by the two strobes, put together. */
  lemma TwoNibbles(c: Controller, hi: bv8, lo: bv8, b: bv8, rs: bool, ok: seq<bool>)
    requires c.iface == FourBit(None) && |ok| == 4
    requires hi == (b >> 4) & 0x0F && lo == b & 0x0F && (hi << 4) | lo == b
    ensures var d := if ok[0] && ok[1] then Taken(c, rs, hi) else c;
            && d.iface.FourBit?
            && AfterByte(c, b, rs, ok)
               == if ok[3] && (ok[2] || (ok[0] && !ok[1])) then Taken(d, rs, if ok[2] then lo else hi) else d
  {
    FirstTaken(c, hi, rs);
    FirstTaken(c, lo, rs);
    if ok[0] && ok[1] {
      SecondTaken(c, hi, lo, b, rs);
    }
    hide Accept, Taken;
  }

  lemma FirstTaken(c: Controller, nibble: bv8, rs: bool)
    requires c.iface == FourBit(None)
    ensures Taken(c, rs, nibble) == Holding(c, nibble)
  {
    hide Accept;
  }

  lemma SecondTaken(c: Controller, hi: bv8, lo: bv8, b: bv8, rs: bool)
    requires c.iface == FourBit(None) && (hi << 4) | lo == b
    ensures Taken(Holding(c, hi), rs, lo) == Accept(c, rs, b)
  {
    hide Accept;
    assert Holding(c, hi).(iface := FourBit(None)) == c;
  }

  lemma Nibbles(b: bv8)
    ensures (b >> 4) & 0x0F <= 0x0F && b & 0x0F <= 0x0F && (((b >> 4) & 0x0F) << 4) | (b & 0x0F) == b
  {
  }

  /** A command that selects the 8-bit bus; the driver never sends one as a byte. */
  predicate Selects8Bit(b: bv8, rs: bool) {
    !rs && IsFunctionSet(b) && b & 0x10 != 0
  }

  lemma AcceptWidth(c: Controller, b: bv8, rs: bool)
    requires c.iface == FourBit(None)
    ensures Accept(c, rs, b).iface == FourBit(None) <==> !Selects8Bit(b, rs)
  {
    hide Execute, Store, IsFunctionSet;
    if rs { StoreKeepsBus(c, b); } else { WidthAfter(c, b); }
  }

  lemma StoreKeepsBus(c: Controller, b: bv8)
    ensures Store(c, b).iface == c.iface
  {
  }

  /**
   Exactly which losses keep the controller in step: none at all, or both images with E high.
   Every other pattern leaves it holding half a byte or E stuck high.
   */
  lemma AlignedExactly(p: Panel, ctrl: bv8, b: bv8, rs: bool, codes: Codes, start: nat, noise: nat -> bv8)
    requires IsControl(ctrl) && Aligned(p) && !Selects8Bit(b, rs)
    ensures Aligned(Feed(p, Delivered(Attempts(ByteImages(ctrl, b, rs), codes, start)), noise))
            <==> AllOk(codes, start, 4) || (codes(start) != 0 && codes(start + 2) != 0)
  {
    var ok := Succeeded(codes, start);
    DeliveredByte(ctrl, b, rs, codes, start);
    LossyByte(p, ctrl, b, rs, ok, noise);
    AcceptWidth(p.core, b, rs);
    FourOk(codes, start);
    hide Feed, Accept, Selects8Bit, ByteArrived, AllOk, IsControl, ByteImages, Delivered, Attempts;
  }

  lemma FourOk(codes: Codes, start: nat)
    ensures AllOk(codes, start, 4)
            <==> codes(start) == 0 && codes(start + 1) == 0 && codes(start + 2) == 0 && codes(start + 3) == 0
  {
    if codes(start) == 0 && codes(start + 1) == 0 && codes(start + 2) == 0 && codes(start + 3) == 0 {
      forall i | start <= i < start + 4 ensures codes(i) == 0 {
        assert i == start || i == start + 1 || i == start + 2 || i == start + 3;
      }
    }
  }

  /** What a failed write delivers: its characters up to the failing one, and what survived of that. */
  lemma FailedDelivery(before: seq<Attempt>, after: seq<Attempt>, codes: Codes, ctrl: bv8, s: seq<bv8>, i: nat)
    requires StoppedAt(before, after, codes, ctrl, s, i)
    ensures |before| <= |after|
    ensures Delivered(after[|before|..])
            == TextImages(ctrl, s[..i])
               + Delivered(Attempts(ByteImages(ctrl, s[i], true), codes, |before| + 4 * i))
  {
    var done, last := TextImages(ctrl, s[..i]), ByteImages(ctrl, s[i], true);
    TextLength(ctrl, s[..i]);
    TextImagesSnoc(ctrl, s, i);
    assert after[|before|..] == Attempts(done + last, codes, |before|);
    hide TextImages, ByteImages, Attempts, AllOk;
    AttemptsConcat(done, last, codes, |before|);
    DeliveredConcat(Attempts(done, codes, |before|), Attempts(last, codes, |before| + 4 * i));
    DeliveredAll(done, codes, |before|);
  }

  /** A failed write leaves the controller in step iff both E-high images of its last character were lost. */
  lemma FailedWriteAligned(cfg: Config, p: Panel, before: seq<Attempt>, after: seq<Attempt>, codes: Codes,
                           ctrl: bv8, s: seq<bv8>, i: nat, noise: nat -> bv8)
    requires IsControl(ctrl) && Ready(cfg, p) && StoppedAt(before, after, codes, ctrl, s, i)
    ensures |before| <= |after|
    ensures var k := |before| + 4 * i;
            Aligned(Feed(p, Delivered(after[|before|..]), noise)) <==> codes(k) != 0 && codes(k + 2) != 0
  {
    var k := |before| + 4 * i;
    FailedDelivery(before, after, codes, ctrl, s, i);
    var rest := Delivered(Attempts(ByteImages(ctrl, s[i], true), codes, k));
    FeedText(cfg, p, ctrl, s[..i], noise);
    hide Feed, Delivered, Attempts, ByteImages, AllOk, IsControl;
    FeedConcat(p, TextImages(ctrl, s[..i]), rest, noise);
    AlignedExactly(Feed(p, TextImages(ctrl, s[..i]), noise), ctrl, s[i], true, codes, k, noise);
  }

  /** Out of step by half a byte: the wires are idle, a nibble waits. */
  predicate HalfOut(p: Panel) {
    p.core.iface.FourBit? && p.core.iface.pending.Some? && !EHigh(p)
  }

  /** Losing only the second image with E high leaves the controller out of step, its high nibble waiting. */
  lemma LostHighOfLow(p: Panel, ctrl: bv8, b: bv8, rs: bool, noise: nat -> bv8)
    requires IsControl(ctrl) && Aligned(p)
    ensures var q := Feed(p, ByteArrived(ctrl, b, rs, [true, true, false, true]), noise);
            HalfOut(q) && q.core == Holding(p.core, (b >> 4) & 0x0F)
  {
    LossyByte(p, ctrl, b, rs, [true, true, false, true], noise);
  }

  /** A later character arrives whole but is paired wrongly, and its low nibble waits in turn. */
  lemma CharacterHalfOut(p: Panel, ctrl: bv8, ch: bv8, noise: nat -> bv8)
    requires IsControl(ctrl) && HalfOut(p)
    ensures var q := Feed(p, ByteImages(ctrl, ch, true), noise);
            && HalfOut(q)
            && q.core == Holding(Store(p.core.(iface := FourBit(None)),
                                       (p.core.iface.pending.value << 4) | ((ch >> 4) & 0x0F)), ch & 0x0F)
  {
    var hi, lo := (ch >> 4) & 0x0F, ch & 0x0F;
    Nibbles(ch);
    FeedConcat(p, NibbleImages(ctrl, hi, true), NibbleImages(ctrl, lo, true), noise);
    FeedNibble(p, ctrl, hi, true, noise);
    var p1 := Feed(p, NibbleImages(ctrl, hi, true), noise);
    PairedData(p.core, hi, noise(p.clock + 1));
    hide Feed, Store, NibbleImage, NibbleImages, IsControl, TakeNibble;
    FeedNibble(p1, ctrl, lo, true, noise);
    FirstNibble(p1.core, lo, noise(p1.clock + 1));
  }

  lemma PairedData(c: Controller, nibble: bv8, low: bv8)
    requires c.iface.FourBit? && c.iface.pending.Some?
    ensures var d := TakeNibble(c, true, nibble, low);
            d == Store(c.(iface := FourBit(None)), (c.iface.pending.value << 4) | nibble) && d.iface == FourBit(None)
  {
    StoreKeepsBus(c.(iface := FourBit(None)), (c.iface.pending.value << 4) | nibble);
    hide Store;
  }

  lemma FirstNibble(c: Controller, nibble: bv8, low: bv8)
    requires c.iface == FourBit(None)
    ensures TakeNibble(c, true, nibble, low) == Holding(c, nibble)
  {
    hide Accept;
  }

  /** No later write, however long and however successful, brings it back in step; init does. */
  lemma {:induction false} WritesStayHalfOut(p: Panel, ctrl: bv8, s: seq<bv8>, noise: nat -> bv8)
    requires IsControl(ctrl) && HalfOut(p)
    ensures HalfOut(Feed(p, TextImages(ctrl, s), noise))
    decreases |s|
  {
    hide ByteImages, HalfOut, IsControl, Tick;
    if s != [] {
      CharacterHalfOut(p, ctrl, s[0], noise);
      FeedConcat(p, ByteImages(ctrl, s[0], true), TextImages(ctrl, s[1..]), noise);
      WritesStayHalfOut(Feed(p, ByteImages(ctrl, s[0], true), noise), ctrl, s[1..], noise);
    }
  }
}
