/** The BPSK test channel of core/libcorrect/util/error-sim.c: bits to voltages, voltages to soft
    symbols of one byte, soft symbols to bits, and how much noise the way stands. Voltages are
    reals. */
module Bpsk {

  const TOP: bv8 := 0x80

  /** The k-th bit of a byte, counted from the most significant one. */
  predicate Bit(b: bv8, k: nat)
    requires k < 8
  {
    b & (TOP >> k as bv4) != 0
  }

  /** The i-th bit of a message. */
  predicate BitOf(msg: seq<bv8>, i: nat)
    requires i / 8 < |msg|
  {
    Bit(msg[i / 8], i % 8)
  }

  /** The voltage of a bit. */
  function Level(bit: bool, v: real): real { if bit then v else -v }

  /** The soft symbol of a voltage: the part of the range from -v to v, cut off below a whole
      number. */
  function Soft(x: real, v: real): (r: int)
    requires v > 0.0
    ensures 0 <= r <= 255
  {
    var rel := x / v;
    if rel > 1.0 then 255 else if rel < -1.0 then 0 else (127.5 + 127.5 * rel).Floor
  }

  /** The range from -v to v is spread evenly over 0 to 255, cut off to whole numbers; beyond it the
      symbol is at its end. */
  lemma SoftScale(x: real, v: real)
    requires v > 0.0
    ensures x >= v ==> Soft(x, v) == 255
    ensures x < -v ==> Soft(x, v) == 0
    ensures -v <= x <= v ==> 0.0 <= (1.0 + x / v) * 255.0 / 2.0 - Soft(x, v) as real < 1.0
  {
    var rel := x / v;
    assert x == rel * v;
    if rel > 1.0 {
      ScaledBelow(1.0, rel, v);
    } else if rel < -1.0 {
      ScaledBelow(rel, -1.0, v);
    } else if rel < 1.0 {
      ScaledBelow(rel, 1.0, v);
    }
  }

  lemma ScaledBelow(a: real, b: real, v: real)
    requires a < b && v > 0.0
    ensures a * v < b * v
  {
    assert (b - a) * v > 0.0;
  }

  /** The bits of a byte from the top: the k-th is the one that counts 128, 64 and so on to 1. */
  lemma BitsFromTheTop(j: nat, k: nat)
    requires j < 8 && k < 8
    ensures Bit([0x80, 0x40, 0x20, 0x10, 0x08, 0x04, 0x02, 0x01][j], k) <==> j == k
  {
    Shifts(j);
    Shifts(k);
  }

  /** A soft symbol is decided to be a 1 exactly when its voltage is at least a 255th of v. */
  lemma DecisionThreshold(x: real, v: real)
    requires v > 0.0
    ensures Soft(x, v) > 127 <==> 255.0 * x >= v
  {
    var rel := x / v;
    assert x == rel * v;
    if rel > 1.0 {
      assert x > v;
    } else if rel < -1.0 {
      assert x < -v;
    } else {
      assert Soft(x, v) > 127 <==> 127.5 + 127.5 * rel >= 128.0;
      assert 127.5 + 127.5 * rel >= 128.0 <==> 255.0 * rel >= 1.0;
      ScaledBy(rel, v);
    }
  }

  lemma ScaledBy(rel: real, v: real)
    requires v > 0.0
    ensures 255.0 * rel >= 1.0 <==> 255.0 * (rel * v) >= v
  {
    assert 255.0 * (rel * v) == (255.0 * rel) * v;
    if 255.0 * rel >= 1.0 {
      assert (255.0 * rel - 1.0) * v >= 0.0;
    } else {
      assert (1.0 - 255.0 * rel) * v > 0.0;
    }
  }

  /** The noise that one symbol stands: a 1 at least -254/255 of v, a 0 less than 256/255 of it. */
  predicate Tolerated(bit: bool, noise: real, v: real) {
    if bit then 255.0 * noise >= -254.0 * v else 255.0 * noise < 256.0 * v
  }

  /** The margin is exact: a symbol with noise is decided as sent if and only if it is tolerated. */
  lemma NoiseMargin(bit: bool, noise: real, v: real)
    requires v > 0.0
    ensures (Soft(Level(bit, v) + noise, v) > 127) == bit <==> Tolerated(bit, noise, v)
  {
    DecisionThreshold(Level(bit, v) + noise, v);
  }

  /** Noise of at most 254/255 of v, to either side, is tolerated whatever the bit. */
  lemma SymmetricMargin(bit: bool, noise: real, v: real)
    requires v > 0.0 && -254.0 * v <= 255.0 * noise <= 254.0 * v
    ensures Tolerated(bit, noise, v)
  {
  }

  // ---- the loops

  // mask >>= 1, and back to the top bit from the last
  function NextMask(mask: bv8): bv8 { if mask >> 1 == 0 then TOP else mask >> 1 }

  lemma MaskTurns(i: nat)
    ensures NextMask(TOP >> (i % 8) as bv4) == TOP >> ((i + 1) % 8) as bv4
  {
    var k := i % 8;
    assert (i + 1) % 8 == if k == 7 then 0 else k + 1;
  }

  /** encode_bpsk: every bit becomes plus or minus v. */
  method EncodeBpsk(msg: seq<bv8>, voltages: array<real>, n: nat, v: real)
    requires n <= voltages.Length && n <= 8 * |msg|
    modifies voltages
    ensures forall i :: 0 <= i < n ==> voltages[i] == Level(BitOf(msg, i), v)
    ensures forall i :: n <= i < voltages.Length ==> voltages[i] == old(voltages[i])
  {
    var mask, i := TOP, 0;
    while i < n
      invariant i <= n && mask == TOP >> (i % 8) as bv4
      invariant forall k :: 0 <= k < i ==> voltages[k] == Level(BitOf(msg, k), v)
      invariant forall k :: i <= k < voltages.Length ==> voltages[k] == old(voltages[k])
    {
      voltages[i] := if msg[i / 8] & mask != 0 then v else -v;
      MaskTurns(i);
      mask := mask >> 1;
      if mask == 0 { mask := TOP; }
      i := i + 1;
    }
  }

  /** add_white_noise, with the division by the square root of 2 already made. */
  method AddNoise(signal: array<real>, noise: seq<real>, n: nat)
    requires n <= signal.Length && n <= |noise|
    modifies signal
    ensures forall i :: 0 <= i < n ==> signal[i] == old(signal[i]) + noise[i]
    ensures forall i :: n <= i < signal.Length ==> signal[i] == old(signal[i])
  {
    var i := 0;
    while i < n
      invariant i <= n
      invariant forall k :: 0 <= k < i ==> signal[k] == old(signal[k]) + noise[k]
      invariant forall k :: i <= k < signal.Length ==> signal[k] == old(signal[k])
    {
      signal[i] := signal[i] + noise[i];
      i := i + 1;
    }
  }

  /** decode_bpsk_soft. */
  method DecodeSoft(voltages: seq<real>, soft: array<int>, n: nat, v: real)
    requires n <= |voltages| && n <= soft.Length && v > 0.0
    modifies soft
    ensures forall i :: 0 <= i < n ==> soft[i] == Soft(voltages[i], v)
    ensures forall i :: n <= i < soft.Length ==> soft[i] == old(soft[i])
  {
    var i := 0;
    while i < n
      invariant i <= n
      invariant forall k :: 0 <= k < i ==> soft[k] == Soft(voltages[k], v)
      invariant forall k :: i <= k < soft.Length ==> soft[k] == old(soft[k])
    {
      var rel := voltages[i] / v;
      if rel > 1.0 {
        soft[i] := 255;
      } else if rel < -1.0 {
        soft[i] := 0;
      } else {
        soft[i] := (127.5 + 127.5 * rel).Floor;
      }
      i := i + 1;
    }
  }

  /** decode_bpsk: sets the bits whose symbols are above 127, and clears none. */
  method DecodeHard(soft: seq<int>, msg: array<bv8>, n: nat)
    requires n <= |soft| && n <= 8 * msg.Length
    modifies msg
    ensures forall i :: 0 <= i < 8 * msg.Length ==>
              (BitOf(msg[..], i) <==> BitOf(old(msg[..]), i) || (i < n && soft[i] > 127))
  {
    ghost var was := msg[..];
    var mask, i := TOP, 0;
    while i < n
      invariant i <= n && mask == TOP >> (i % 8) as bv4
      invariant forall k :: 0 <= k < 8 * msg.Length ==>
                  (BitOf(msg[..], k) <==> BitOf(was, k) || (k < i && soft[k] > 127))
    {
      ghost var before := msg[..];
      if soft[i] > 127 { msg[i / 8] := msg[i / 8] | mask; }
      forall k | 0 <= k < 8 * msg.Length
        ensures BitOf(msg[..], k) <==> BitOf(before, k) || (k == i && soft[i] > 127)
      {
        if soft[i] > 127 { SetBit(before, i, k); }
      }
      MaskTurns(i);
      mask := mask >> 1;
      if mask == 0 { mask := TOP; }
      i := i + 1;
    }
  }

  // Setting the i-th bit sets no other.
  lemma SetBit(msg: seq<bv8>, i: nat, k: nat)
    requires i / 8 < |msg| && k / 8 < |msg|
    ensures BitOf(msg[i / 8 := msg[i / 8] | (TOP >> (i % 8) as bv4)], k) <==> BitOf(msg, k) || k == i
  {
    if k / 8 == i / 8 {
      SetInByte(msg[i / 8], i % 8, k % 8);
      assert k == i <==> k % 8 == i % 8;
    }
  }

  lemma SetInByte(b: bv8, i: nat, k: nat)
    requires i < 8 && k < 8
    ensures Bit(b | (TOP >> i as bv4), k) <==> Bit(b, k) || k == i
  {
    Shifts(i);
    Shifts(k);
  }

  lemma Shifts(k: nat)
    requires k < 8
    ensures TOP >> k as bv4 == [0x80, 0x40, 0x20, 0x10, 0x08, 0x04, 0x02, 0x01][k]
  {
  }

  /** The whole channel into a zeroed buffer: the received bits are the sent ones if and only if
      the noise on every symbol is tolerated. */
  method Channel(msg: seq<bv8>, noise: seq<real>, n: nat, v: real) returns (received: array<bv8>)
    requires n <= 8 * |msg| && n <= |noise| && v > 0.0
    ensures fresh(received) && received.Length == |msg|
    ensures (forall i :: 0 <= i < n ==> (BitOf(received[..], i) <==> BitOf(msg, i)))
            <==> (forall i :: 0 <= i < n ==> Tolerated(BitOf(msg, i), noise[i], v))
    ensures forall i :: n <= i < 8 * |msg| ==> !BitOf(received[..], i)
  {
    var voltages := new real[n];
    EncodeBpsk(msg, voltages, n, v);
    AddNoise(voltages, noise, n);
    var soft := new int[n];
    DecodeSoft(voltages[..], soft, n, v);
    received := new bv8[|msg|](_ => 0);
    ghost var zero := received[..];
    DecodeHard(soft[..], received, n);
    forall i | 0 <= i < 8 * |msg| ensures !BitOf(zero, i) {
    }
    forall i | 0 <= i < n ensures (BitOf(received[..], i) <==> BitOf(msg, i)) <==> Tolerated(BitOf(msg, i), noise[i], v) {
      NoiseMargin(BitOf(msg, i), noise[i], v);
    }
  }
}
