/**
 * rgb_8bit_to_duty of main/ledc_basic_example_main.c: an 8-bit colour
 * intensity scaled to the 13-bit LEDC duty range, optionally inverted for a
 * common-anode LED. The C arithmetic is unsigned 32-bit; it is written out here
 * with an explicit wrap, and the lemmas show the wrap never takes effect.
 */
module LedcDuty {

  /** uint8_t */
  type Byte = x: int | 0 <= x < 256

  const U32Modulus: int := 0x1_0000_0000

  /** LEDC_DUTY_RES: LEDC_TIMER_13_BIT */
  const LedcDutyRes: bv32 := 13
  /** LEDC_MAX_DUTY: (1 << LEDC_DUTY_RES) - 1 */
  const LedcMaxDuty: int := ((1 as bv32) << LedcDutyRes) as int - 1
  /** RGB_COMMON_ANODE: 0, a common-cathode LED. */
  const RgbCommonAnode: bool := false

  /** Reduction of an integer to uint32_t. */
  function U32(n: int): (r: nat)
    ensures r < U32Modulus
    ensures 0 <= n < U32Modulus ==> r == n
  {
    n % U32Modulus
  }

  /** The uncorrected mapping: (uint32_t)x * LEDC_MAX_DUTY / 255. */
  function DirectDuty(x: Byte): (r: nat)
    ensures r <= LedcMaxDuty
    ensures r * 255 <= x * LedcMaxDuty < (r + 1) * 255
  {
    U32(x * LedcMaxDuty) / 255
  }

  /** rgb_8bit_to_duty, with the RGB_COMMON_ANODE switch as a parameter. */
  function Duty(x: Byte, commonAnode: bool): (r: nat)
    ensures r <= LedcMaxDuty
    ensures !commonAnode ==> r == DirectDuty(x)
    ensures commonAnode ==> r + DirectDuty(x) == LedcMaxDuty
  {
    var duty := DirectDuty(x);
    if commonAnode then U32(LedcMaxDuty - duty) else duty
  }

  /** rgb_8bit_to_duty as this firmware is built (RGB_COMMON_ANODE is 0). */
  function RgbToDuty(x: Byte): (r: nat)
    ensures r <= LedcMaxDuty
    ensures r * 255 <= x * LedcMaxDuty < (r + 1) * 255
  {
    Duty(x, RgbCommonAnode)
  }

  /** The 13-bit resolution gives a maximum duty of 2^13 - 1. */
  lemma MaxDutyIs8191()
    ensures LedcMaxDuty == 8191
  {
  }

  /** x * LEDC_MAX_DUTY stays below 2^32 for every 8-bit x, so the uint32_t product never wraps. */
  lemma ProductFitsU32(x: Byte)
    ensures 0 <= x * LedcMaxDuty < U32Modulus
  {
  }

  /** Direct drive: 0 is off, 255 is full duty. */
  lemma DirectEndpoints()
    ensures Duty(0, false) == 0
    ensures Duty(255, false) == LedcMaxDuty
  {
  }

  /** Common anode: 0 is full duty (LED off), 255 is zero duty (LED fully on). */
  lemma AnodeEndpoints()
    ensures Duty(0, true) == LedcMaxDuty
    ensures Duty(255, true) == 0
  {
  }

  /** Without inversion, a brighter input never gives a smaller duty. */
  lemma DirectMonotone(x: Byte, y: Byte)
    requires x <= y
    ensures Duty(x, false) <= Duty(y, false)
  {
  }

  /** With inversion, a brighter input never gives a larger duty. */
  lemma AnodeAntitone(x: Byte, y: Byte)
    requires x <= y
    ensures Duty(x, true) >= Duty(y, true)
  {
  }
}
