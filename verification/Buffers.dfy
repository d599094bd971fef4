/** Message buffers of the kernel (Kernel/kernelConsts.h, Kernel/buffersQueue.cpp).

    A buffer is identified by where it was carved: the index-th buffer of the block of class `cls`.  Memory maps
    each buffer to the bytes the kernel keeps in front of the message (BUFF_NEXT, BUFF_TRACKING_DATA) and to the
    message header fields that the kernel itself reads; the class is what the source stores under BUFF_CODE. */
module Buffers {
  import opened Options

  type uint8 = x: int | 0 <= x < 0x100
  type uint16 = x: int | 0 <= x < 0x1_0000
  type uint32 = x: int | 0 <= x < 0x1_0000_0000

  const DISCARDED: uint16 := 0x7FFF
  const MSG_HEADER_LENGTH: nat := 21

  datatype Buffer = Buffer(cls: nat, index: nat)

  datatype User = UserBuffers | UserMbx | UserTimer | UserFree

  datatype Header = Header(next: Option<Buffer>, tracking: User, msgCode: uint16, msgLength: uint16,
                           timerCount: uint32, timerMbx: uint8)

  /** The one memory that every list is threaded through. */
  type Store = map<Buffer, Header>

  /** The lists a buffer can be in; Held is none of them: the application has it. */
  datatype Place = FreeList(cls: nat) | Mailbox(id: nat) | TimerList | Held

  function TrackingOf(place: Place): User {
    match place
    case FreeList(_) => UserBuffers
    case Mailbox(_) => UserMbx
    case TimerList => UserTimer
    case Held => UserFree
  }

  // ---------------------------------------------------------------- timer counts

  /** Ticks of a timer of `count` units of length timerRes; the division drops the remainder, the product wraps. */
  function ScaledCount(count: nat, timerRes: nat, resolution: nat): uint32
    requires 0 < resolution
  {
    (count * (timerRes / resolution)) % 0x1_0000_0000
  }

  /** The tick handler's decrement of an unsigned 32-bit count. */
  function Decremented(count: uint32): uint32 {
    (count - 1) % 0x1_0000_0000
  }

  /** A product that fits scales exactly; the count is zero when there is nothing to count, when the unit is shorter
      than the tick, and when the product wraps to zero. */
  lemma ScaledCountIs(count: nat, timerRes: nat, resolution: nat)
    requires 0 < resolution
    ensures var product := count * (timerRes / resolution);
            && (product < 0x1_0000_0000 ==> ScaledCount(count, timerRes, resolution) == product)
            && (ScaledCount(count, timerRes, resolution) == 0 <==>
                  || count == 0 || timerRes < resolution
                  || (0x1_0000_0000 <= product && product % 0x1_0000_0000 == 0))
  {
    var factor := timerRes / resolution;
    assert timerRes < resolution <==> factor == 0;
    assert count == 0 || factor == 0 <==> count * factor == 0;
  }
}
