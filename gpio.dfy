/** The pin-control and timing capabilities the driver consumes, as observable events.
    The ESP-IDF GPIO driver and the busy-wait are not modelled; each call becomes an
    event in a trace, and the driver's answers come from an injected oracle. */
module Gpio {

  /** Logical level of a digital output (gpio_set_level's 0 and 1). */
  datatype Level = Low | High

  /** A GPIO number as handed to the ESP-IDF driver. */
  type Pin = nat

  /** TM1640_CLOCK_PIN and TM1640_DATA_PIN (main/main.c:10-11). */
  const ClockPin: Pin := 16
  const DataPin: Pin := 17

  /** esp_err_t: zero is success, any other value is an error code. */
  type EspErr = int

  const EspOk: EspErr := 0
  /** ESP_ERR_INVALID_SIZE as esp_err.h defines it. */
  const EspErrInvalidSize: EspErr := 0x104

  /** One observable action of the driver. */
  datatype Event =
    | SetLevel(pin: Pin, level: Level)   // gpio_set_level
    | SetOutput(pin: Pin)                // gpio_set_direction(pin, GPIO_MODE_OUTPUT)
    | PullUp(pin: Pin)                   // gpio_pullup_en
    | Delay(usec: nat)                   // delay_microseconds

  /** The GPIO driver's answers: the call recorded at trace position j returns respond(j). */
  type Oracle = nat -> EspErr

  /** The oracle answers success at every trace position n .. n + len - 1. Where delays
      are interleaved this also covers their positions, which no call reads; it is used
      for tm1640_init, whose events are all calls. */
  ghost predicate SucceedsFrom(respond: Oracle, n: nat, len: nat)
  {
    forall j :: n <= j < n + len ==> respond(j) == EspOk
  }
}
