/** Limits of the serial protocol (msgblock.h, serialqueue.c). */
module Protocol {

  const MESSAGE_MIN := 5
  const MESSAGE_MAX := 64
  const MESSAGE_HEADER_SIZE := 2
  const MESSAGE_TRAILER_SIZE := 3
  const MESSAGE_PAYLOAD_MAX := MESSAGE_MAX - MESSAGE_MIN
  const MAX_PENDING_BLOCKS := 12
  const MAX_CLOCK: int := 0x7fff_ffff_ffff_ffff
  const BACKGROUND_PRIORITY_CLOCK: int := 0x7fff_ffff_0000_0000
}
