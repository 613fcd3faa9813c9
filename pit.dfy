/** The Intel 8254 programmable interval timer driver of kernel/src/drivers/pit.rs:
    channel 0 is put in rate-generator mode and loaded with the 16-bit divisor of the
    1193182 Hz input clock that gives the requested interrupt frequency. The device is
    modelled by the bytes written to its ports, in order. */
module Pit {
  import opened Machine

  const MIN_DIVISOR: nat := 2
  const MAX_DIVISOR: nat := 65536
  const MAX_FREQ: nat := 1193182
  const MIN_FREQ: nat := DivCeil(MAX_FREQ, MAX_DIVISOR)

  /** Data port of channel 0 and the mode/command port. */
  const CH0: u16 := 0x40
  const CONTROL: u16 := 0x43

  /** Control-word fields: channel 0 (bits 7-6 = 00), access low then high byte
      (bits 5-4 = 11), mode 2 rate generator (bits 3-1 = 010), binary counting (bit 0 = 0). */
  const CHANNEL0: byte := 0x00
  const LOW_BYTE: byte := 0x10
  const HIGH_BYTE: byte := 0x20
  const MODE_RATE_GENERATOR: byte := 0x04
  const BINARY: byte := 0x00

  function DivCeil(a: nat, b: nat): nat
    requires b > 0
  {
    (a + b - 1) / b
  }

  datatype PortWrite = PortWrite(port: u16, value: byte)

  /** The port writes issued, and whether a `debug_assert!` (or a division by zero)
      stopped the call after them. */
  datatype Outcome = Done(writes: seq<PortWrite>) | Panicked(writes: seq<PortWrite>, message: string)

  function ControlWord(): byte
  {
    CHANNEL0 + LOW_BYTE + HIGH_BYTE + MODE_RATE_GENERATOR + BINARY
  }

  /** `set_divisor`: the divisor modulo 65536 as two bytes, low first. */
  function SetDivisor(divisor: u32, debugAssertions: bool): Outcome
  {
    if debugAssertions && !(MIN_DIVISOR <= divisor <= MAX_DIVISOR) then
      Panicked([], "assertion failed: (MIN_DIVISOR..=MAX_DIVISOR).contains(&divisor)")
    else
      var d := divisor % MAX_DIVISOR;
      Done([PortWrite(CH0, d % 0x100), PortWrite(CH0, d / 0x100 % 0x100)])
  }

  /** Prefix `pre` to the writes of an outcome. */
  function After(pre: seq<PortWrite>, o: Outcome): Outcome
  {
    match o
    case Done(w) => Done(pre + w)
    case Panicked(w, m) => Panicked(pre + w, m)
  }

  /** `init(frequency)`. */
  function Init(frequency: u32, debugAssertions: bool): Outcome
  {
    if debugAssertions && !(MIN_FREQ <= frequency <= MAX_FREQ) then
      Panicked([], "assertion failed: (MIN_FREQ..=MAX_FREQ).contains(&frequency)")
    else if frequency == 0 then
      Panicked([PortWrite(CONTROL, ControlWord())], "attempt to divide by zero")
    else
      After([PortWrite(CONTROL, ControlWord())], SetDivisor(MAX_FREQ / frequency, debugAssertions))
  }

  /** The lowest frequency the 16-bit counter can reach is 19 Hz, and the control word
      is 0x34. */
  lemma Constants()
    ensures MIN_FREQ == 19 && ControlWord() == 0x34
  {
  }

  /** A successful `init` writes the control word first and then the two divisor bytes,
      and the bytes reassemble to the divisor `1193182 / frequency` modulo 65536. */
  lemma InitWrites(frequency: u32, debugAssertions: bool)
    requires Init(frequency, debugAssertions).Done?
    ensures var w := Init(frequency, debugAssertions).writes;
      && |w| == 3 && w[0] == PortWrite(CONTROL, 0x34) && w[1].port == CH0 && w[2].port == CH0
      && frequency > 0
      && w[1].value + 0x100 * w[2].value == (MAX_FREQ / frequency) % MAX_DIVISOR
  {
    assert frequency != 0;
    var d := (MAX_FREQ / frequency) % MAX_DIVISOR;
    assert d / 0x100 % 0x100 == d / 0x100;
    assert d % 0x100 + 0x100 * (d / 0x100) == d;
  }

  /** The largest divisor, 65536, goes out as the two bytes 0x00 0x00, which the chip
      reads as 65536. */
  lemma MaxDivisorIsZero()
    ensures SetDivisor(MAX_DIVISOR, true) == Done([PortWrite(CH0, 0), PortWrite(CH0, 0)])
  {
  }

  /** As written, `init` accepts frequencies up to 1193182 Hz, but every frequency above
      596591 Hz gives divisor 1, which `set_divisor`'s assertion rejects. */
  lemma InitRangeTooWide(frequency: u32)
    requires MAX_FREQ / MIN_DIVISOR < frequency <= MAX_FREQ
    ensures MAX_FREQ / frequency == 1
    ensures Init(frequency, true).Panicked?
    ensures Init(frequency, true).writes == [PortWrite(CONTROL, 0x34)]
  {
    DivBelowTwo(MAX_FREQ, frequency);
  }

  lemma DivBelowTwo(a: nat, f: nat)
    requires 0 < f <= a < 2 * f
    ensures a / f == 1
  {
    var q, r := a / f, a % f;
    assert a == q * f + r && 0 <= r < f;
    if q >= 2 {
      MulLeft(2, q, f);
    }
  }

  lemma MulLeft(a: nat, b: nat, c: nat)
    requires a <= b
    ensures a * c <= b * c
  {
  }

  /** The highest frequency whose divisor is at least MIN_DIVISOR. */
  const MAX_FREQ_CORRECTED: nat := MAX_FREQ / MIN_DIVISOR

  /** `init` with the range its divisor assertion needs. */
  function InitCorrected(frequency: u32, debugAssertions: bool): Outcome
  {
    if debugAssertions && !(MIN_FREQ <= frequency <= MAX_FREQ_CORRECTED) then
      Panicked([], "assertion failed: (MIN_FREQ..=MAX_FREQ).contains(&frequency)")
    else if frequency == 0 then
      Panicked([PortWrite(CONTROL, ControlWord())], "attempt to divide by zero")
    else
      After([PortWrite(CONTROL, ControlWord())], SetDivisor(MAX_FREQ / frequency, debugAssertions))
  }

  /** With the corrected range, every frequency `init` accepts yields a divisor inside
      [2, 65536], so `set_divisor` never stops it, and 596591 Hz is the largest such
      frequency. */
  lemma InitCorrectedNeverTrips(frequency: u32)
    requires MIN_FREQ <= frequency <= MAX_FREQ_CORRECTED
    ensures MIN_DIVISOR <= MAX_FREQ / frequency <= MAX_DIVISOR
    ensures InitCorrected(frequency, true).Done?
  {
    var q, r := MAX_FREQ / frequency, MAX_FREQ % frequency;
    assert MAX_FREQ == q * frequency + r && 0 <= r < frequency;
  }
}
