/** The UART layer: the receive handler of UART 0, which gathers NMEA text
    from the GNSS receiver into a 256-byte line buffer, and the
    initialise-then-transmit guard of both ports. */
module HalUart {
  import opened Bytes

  const Dollar: byte := 0x24
  const LineFeed: byte := 0x0A
  const RxSize: int := 256

  /** The receive state of UART 0: `g_rx1_buffer`, `g_rx1_len` and
      `g_rx1_line`, plus the buffers handed to the NMEA parser so far. */
  class NmeaAccumulator {
    var buffer: array<byte>
    var len: int
    var line: int
    var dispatched: seq<seq<byte>>

    /** The length never reaches the buffer size, at most one line is
        pending, and kept bytes always follow a leading '$'. */
    ghost predicate Valid()
      reads this, buffer
    {
      buffer.Length == RxSize && 0 <= len < RxSize && 0 <= line < 2
      && (len > 0 ==> buffer[0] == Dollar)
    }

    constructor ()
      ensures Valid() && fresh(buffer)
      ensures len == 0 && line == 0 && dispatched == []
      ensures forall i :: 0 <= i < RxSize ==> buffer[i] == 0
    {
      buffer := new byte[RxSize](_ => 0);
      len := 0;
      line := 0;
      dispatched := [];
    }

    /** One `APP_UART_DATA_READY` event carrying byte `b`. */
    method OnByte(b: byte)
      requires Valid()
      modifies this, buffer
      ensures Valid() && buffer == old(buffer)
      ensures |dispatched| > |old(dispatched)| ==>
        |dispatched[|dispatched| - 1]| == RxSize && dispatched[|dispatched| - 1][0] == Dollar
      // the byte is stored at the old length before anything else happens;
      // a reset of the length leaves the stale bytes, only a dispatch clears
      ensures var stored := old(buffer[..])[old(len) := b];
              var kept := if old(len) + 1 >= RxSize || stored[0] != Dollar then 0 else old(len) + 1;
              if b == LineFeed && kept != 0 && old(line) + 1 >= 2 then
                dispatched == old(dispatched) + [stored] && len == 0 && line == 0
                && forall i :: 0 <= i < RxSize ==> buffer[i] == 0
              else
                dispatched == old(dispatched) && buffer[..] == stored && len == kept
                && line == (if b == LineFeed && kept != 0 then old(line) + 1 else old(line))
    {
      buffer[len] := b;
      len := len + 1;
      if len >= RxSize || buffer[0] != Dollar {
        len := 0;
      }
      if b == LineFeed && len != 0 {
        line := line + 1;
        if line >= 2 {
          dispatched := dispatched + [buffer[..]];
          forall i | 0 <= i < RxSize {
            buffer[i] := 0;
          }
          line := 0;
          len := 0;
        }
      }
    }
  }

  /** A UART port with its `uart_N_init` flag and the bytes it has put on
      the wire. */
  class Port {
    var initialised: bool
    var sent: seq<byte>

    constructor ()
      ensures !initialised && sent == []
    {
      initialised := false;
      sent := [];
    }

    /** `hal_uart_N_init`: when not yet initialised, calls the driver until
        it succeeds, giving up after the eleventh failure. `outcomes[k]` is
        the driver's answer to attempt `k`. */
    method Init(outcomes: seq<bool>) returns (attempts: nat)
      requires |outcomes| >= 11
      modifies this
      ensures sent == old(sent)
      ensures old(initialised) ==> initialised && attempts == 0
      ensures !old(initialised) ==> 1 <= attempts <= 11
      ensures !old(initialised) ==> (initialised <==> exists k :: 0 <= k < 11 && outcomes[k])
      ensures !old(initialised) && initialised ==> outcomes[attempts - 1] && forall k :: 0 <= k < attempts - 1 ==> !outcomes[k]
    {
      attempts := 0;
      if !initialised {
        var cnt := 0;
        while true
          invariant 0 <= cnt <= 10 && attempts == cnt && !initialised
          invariant forall k :: 0 <= k < cnt ==> !outcomes[k]
          decreases 11 - cnt
        {
          var ok := outcomes[attempts];
          attempts := attempts + 1;
          if ok {
            initialised := true;
            break;
          }
          cnt := cnt + 1;
          if cnt > 10 {
            break;
          }
        }
      }
    }

    /** `hal_uart_N_deinit`. */
    method Deinit()
      modifies this
      ensures !initialised && sent == old(sent)
    {
      initialised := false;
    }

    /** `hal_uart_N_tx`: the bytes go out only on an initialised port. */
    method Tx(buff: seq<byte>)
      modifies this
      ensures initialised == old(initialised)
      ensures sent == if initialised then old(sent) + buff else old(sent)
    {
      if initialised {
        var i := 0;
        while i < |buff|
          invariant 0 <= i <= |buff| && sent == old(sent) + buff[..i] && initialised
        {
          sent := sent + [buff[i]];
          i := i + 1;
        }
        assert buff[..|buff|] == buff;
      }
    }
  }
}
