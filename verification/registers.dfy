/**
 * The register block of one USART port as `UART_Ini` leaves it. Fields are
 * named after the bits the driver touches; their addresses and bit positions
 * are not modelled. The decoders read a configuration back the way the
 * ATmega640/1280/2560 datasheet describes the USART control and status
 * register C (character size, parity mode and stop bit select tables) and
 * the 12-bit baud rate register.
 */
module Registers {
  import opened Numeric

  /** The CPU clock the driver assumes, in hertz. */
  const F_CPU: nat := 16_000_000
  const WORD32: nat := 0x1_0000_0000

  datatype RegisterBlock = RegisterBlock(
    u2x: bool,                              // control and status register A: double speed
    rxen: bool, txen: bool, ucsz2: bool,    // control register B: enables, character size bit 2
    ucsz1: bool, ucsz0: bool,               // control register C: character size bits 1 and 0
    upm1: bool, upm0: bool, usbs: bool,     // control register C: parity mode, stop bit select
    ubrrl: Byte, ubrrh: Byte,               // baud rate register, low byte and high byte
    others: seq<bool>)                      // every bit the driver does not address, as plain storage

  /**
   * The baud rate divisor `UART_Ini` computes: 32-bit unsigned arithmetic,
   * `(F_CPU + 16*baud/2) / (16*baud) - 1`, then cast to 16 bits. The
   * subtraction wraps when the quotient is 0.
   */
  function Divisor(baud: nat): (ubrr: U16)
    requires 0 < baud && 16 * baud < WORD32
  {
    ((F_CPU + (16 * baud) / 2) / (16 * baud) - 1) % WORD32 % WORD
  }

  /** Data bits per frame: sizes outside 5..9 mean 8. */
  function FrameSize(size: Byte): (bits: nat)
    ensures 5 <= bits <= 9
    ensures 5 <= size <= 9 ==> bits == size
  {
    if size < 5 || size > 9 then 8 else size
  }

  /**
   * The register block after `UART_Ini(com, baud, size, parity, stop)` on a
   * valid port, where `ubrr` is `Divisor(baud)`.
   */
  function Configured(r: RegisterBlock, ubrr: U16, size: Byte, parity: Byte, stop: Byte): (c: RegisterBlock)
    ensures c.rxen && c.txen && !c.u2x && c.ubrrh < 0x10
    ensures c.others == r.others
  {
    var bits := FrameSize(size);
    r.(u2x := false,
       ubrrl := ubrr % 0x100, ubrrh := (ubrr / 0x100) % 0x10,
       ucsz2 := bits == 9,
       ucsz1 := bits >= 7, ucsz0 := bits == 6 || bits >= 8,
       upm1 := parity == 1 || parity == 2, upm0 := parity == 1,
       usbs := stop == 2,
       rxen := true, txen := true)
  }

  // ---------------------------------------------------------------------------
  // Reading a configuration back (datasheet tables)
  // ---------------------------------------------------------------------------

  datatype ParityMode = Disabled | Reserved | Even | Odd

  /** Character size select: 000..011 are 5..8 bits, 111 is 9 bits, the rest reserved (0 here). */
  function CharacterSize(r: RegisterBlock): nat
  {
    match (r.ucsz2, r.ucsz1, r.ucsz0)
    case (false, false, false) => 5
    case (false, false, true) => 6
    case (false, true, false) => 7
    case (false, true, true) => 8
    case (true, true, true) => 9
    case _ => 0
  }

  /** Parity mode: 00 disabled, 01 reserved, 10 even, 11 odd. */
  function ParityOf(r: RegisterBlock): ParityMode
  {
    match (r.upm1, r.upm0)
    case (false, false) => Disabled
    case (false, true) => Reserved
    case (true, false) => Even
    case (true, true) => Odd
  }

  function StopBits(r: RegisterBlock): nat
  {
    if r.usbs then 2 else 1
  }

  /** The 12-bit baud rate register: the low four bits of the high byte, then the low byte. */
  function BaudRegister(r: RegisterBlock): nat
  {
    (r.ubrrh % 0x10) * 0x100 + r.ubrrl
  }

  /** The parity mode each `parity` argument selects. */
  function RequestedParity(parity: Byte): ParityMode
  {
    if parity == 1 then Odd else if parity == 2 then Even else Disabled
  }

  /**
   * Read back, the configured port has the requested frame format (size
   * normalised, parity 1 selecting odd and 2 even, stop 2 two bits, any
   * other one bit), both directions enabled, normal speed, and no other bit
   * changed.
   */
  lemma ConfiguredFrame(r: RegisterBlock, ubrr: U16, size: Byte, parity: Byte, stop: Byte)
    ensures var c := Configured(r, ubrr, size, parity, stop);
      && CharacterSize(c) == FrameSize(size)
      && ParityOf(c) == RequestedParity(parity)
      && StopBits(c) == (if stop == 2 then 2 else 1)
      && c.rxen && c.txen && !c.u2x
      && c.others == r.others
  {
  }

  /**
   * The baud rate register holds the divisor's low 12 bits, and the unused
   * high nibble of the high byte is clear.
   */
  lemma ConfiguredBaud(r: RegisterBlock, ubrr: U16, size: Byte, parity: Byte, stop: Byte)
    ensures var c := Configured(r, ubrr, size, parity, stop);
      BaudRegister(c) == ubrr % 0x1000 && c.ubrrh < 0x10
  {
    assert ubrr % 0x1000 == (ubrr / 0x100) % 0x10 * 0x100 + ubrr % 0x100;
  }

  /** Every field the driver writes is determined by the arguments alone, not by the old contents. */
  lemma ConfiguredForgetsOldFields(r1: RegisterBlock, r2: RegisterBlock, ubrr: U16, size: Byte, parity: Byte, stop: Byte)
    requires r1.others == r2.others
    ensures Configured(r1, ubrr, size, parity, stop) == Configured(r2, ubrr, size, parity, stop)
  {
  }

  // ---------------------------------------------------------------------------
  // The divisor
  // ---------------------------------------------------------------------------

  /**
   * From 16 to 2000000 baud, divisor + 1 is F_CPU / (16 * baud) rounded to
   * the nearest integer (halves rounding up).
   */
  lemma DivisorRoundsToNearest(baud: nat)
    requires 16 <= baud <= 2_000_000
    ensures var n := Divisor(baud) + 1;
      n * (16 * baud) - 8 * baud <= F_CPU < n * (16 * baud) + 8 * baud
  {
    var d := 16 * baud;
    var num := F_CPU + d / 2;
    var q := num / d;
    assert d / 2 == 8 * baud;
    assert q * d + num % d == num && 0 <= num % d < d;
    LessByFactor(0, q, d);
    LessByFactor(q, 0x1_0001, d);
    assert Divisor(baud) == q - 1;
  }

  /** From 245 to 2000000 baud the divisor fits the 12-bit register, so nothing is lost in the split. */
  lemma DivisorFitsRegister(baud: nat)
    requires 245 <= baud <= 2_000_000
    ensures Divisor(baud) < 0x1000
  {
    var d := 16 * baud;
    var num := F_CPU + d / 2;
    var q := num / d;
    assert q * d + num % d == num && 0 <= num % d < d;
    assert d / 2 == 8 * baud && 0x1001 * d == 65552 * baud;
    LessByFactor(0, q, d);
    LessByFactor(q, 0x1001, d);
    assert Divisor(baud) == q - 1;
  }

  /**
   * Above 2000000 baud the quotient is 0 and the unsigned subtraction wraps
   * to 0xFFFF, so the register gets 0xFFF: the slowest rate, not the fastest.
   */
  lemma HighBaudWraps(baud: nat)
    requires 2_000_000 < baud && 16 * baud < WORD32
    ensures Divisor(baud) == 0xFFFF
  {
    var d := 16 * baud;
    var num := F_CPU + d / 2;
    var q := num / d;
    assert q * d + num % d == num && 0 <= num % d < d;
    assert d / 2 == 8 * baud && 1 * d == d;
    LessByFactor(q, 1, d);
    assert (q - 1) % WORD32 == WORD32 - 1;
  }

  lemma DivisorExamples()
    ensures Divisor(9600) == 103 && Divisor(115200) == 8 && Divisor(2400) == 416
  {
  }
}
