/** The console's write buffer, the device behind it and the log of what the device put out. */
module Console {
  import opened Bytes
  import opened ConsoleLog

  const SERIAL_BUFFER_SIZE: nat := 256

  /** A serial device that puts out all it is given, or, while it is down, refuses it. */
  class IoDevice {
    var output: bytes
    var up: bool
    const log: Log

    constructor (log: Log)
      ensures output == [] && up && this.log == log
    {
      output, up := [], true;
      this.log := log;
    }

    /** `write_all`: one `write` unless there is nothing to write; a successful one is also logged. */
    method WriteAll(buf: bytes) returns (ok: bool)
      requires log.Valid()
      modifies this, log, log.buffer
      ensures log.Valid() && up == old(up) && log.captureEnabled == old(log.captureEnabled)
      ensures ok <==> up || buf == []
      ensures output == if ok then old(output) + buf else old(output)
      ensures log.captured == if ok && log.captureEnabled then old(log.captured) + buf else old(log.captured)
    {
      if buf == [] {
        return true;
      }
      if !up {
        return false;
      }
      output := output + buf;
      log.Append(buf);
      return true;
    }
  }

  class Console {
    const device: IoDevice
    var buffer: bytes

    ghost predicate Valid()
      reads this, device, device.log, device.log.buffer
    {
      |buffer| <= SERIAL_BUFFER_SIZE && device.log.Valid()
    }

    /** Everything accepted so far: what the device put out, then what waits in the buffer. */
    ghost function Stream(): bytes
      reads this, device
    {
      device.output + buffer
    }

    constructor (device: IoDevice)
      requires device.log.Valid() && device.output == []
      ensures Valid() && this.device == device && Stream() == []
    {
      this.device := device;
      buffer := [];
    }

    /** `flush` */
    method Flush() returns (ok: bool)
      requires Valid()
      modifies this, device, device.log, device.log.buffer
      ensures Valid() && device.up == old(device.up) && Stream() == old(Stream())
      ensures ok <==> device.up || old(buffer) == []
      ensures buffer == if ok then [] else old(buffer)
      ensures Logged(old(device.output), device.output, old(device.log.captured), device.log.captured,
              device.log.captureEnabled)
      ensures device.log.captureEnabled == old(device.log.captureEnabled)
    {
      ok := true;
      if buffer != [] {
        ok := device.WriteAll(buffer);
        if ok {
          buffer := [];
        }
      }
    }

    /** Does the input need the device at once? */
    ghost predicate NeedsDevice(buf: bytes)
      reads this
    {
      NEWLINE in buf || |buffer| + |buf| > SERIAL_BUFFER_SIZE
    }

    /** `write`: what is accepted is at the end of the stream; an input that cannot be buffered while
        the device is down is refused, but one that fits stays in the buffer even then. */
    method Write(buf: bytes) returns (ok: bool)
      requires Valid()
      modifies this, device, device.log, device.log.buffer
      ensures Valid() && device.up == old(device.up)
      ensures ok <==> device.up || !old(NeedsDevice(buf))
      ensures Stream() ==
              if ok || |old(buffer)| + |buf| <= SERIAL_BUFFER_SIZE then old(Stream()) + buf else old(Stream())
      ensures ok && NEWLINE !in old(buffer) ==> NEWLINE !in buffer
      ensures Logged(old(device.output), device.output, old(device.log.captured), device.log.captured,
              device.log.captureEnabled)
      ensures device.log.captureEnabled == old(device.log.captureEnabled)
    {
      if SERIAL_BUFFER_SIZE - |buffer| >= |buf| {
        ok := Buffer(buf);
      } else {
        ok := WriteLarge(buf);
      }
    }

    /** The input fits. */
    method Buffer(buf: bytes) returns (ok: bool)
      requires Valid() && |buffer| + |buf| <= SERIAL_BUFFER_SIZE
      modifies this, device, device.log, device.log.buffer
      ensures Valid() && device.up == old(device.up)
      ensures ok <==> device.up || NEWLINE !in buf
      ensures Stream() == old(Stream()) + buf
      ensures ok && NEWLINE !in old(buffer) ==> NEWLINE !in buffer
      ensures Logged(old(device.output), device.output, old(device.log.captured), device.log.captured,
              device.log.captureEnabled)
      ensures device.log.captureEnabled == old(device.log.captureEnabled)
    {
      buffer := buffer + buf;
      assert Stream() == old(Stream()) + buf;
      ok := true;
      if NEWLINE in buf {
        ok := Flush();
      }
    }

    /** The input does not fit: the buffer goes first. */
    method WriteLarge(buf: bytes) returns (ok: bool)
      requires Valid() && |buffer| + |buf| > SERIAL_BUFFER_SIZE
      modifies this, device, device.log, device.log.buffer
      ensures Valid() && device.up == old(device.up)
      ensures ok <==> device.up
      ensures Stream() == if ok then old(Stream()) + buf else old(Stream())
      ensures ok ==> NEWLINE !in buffer
      ensures Logged(old(device.output), device.output, old(device.log.captured), device.log.captured,
              device.log.captureEnabled)
      ensures device.log.captureEnabled == old(device.log.captureEnabled)
    {
      ok := Drain();
      if !ok {
        return;
      }
      ghost var output, captured := device.output, device.log.captured;
      if |buf| >= SERIAL_BUFFER_SIZE {
        ok := Direct(buf);
      } else {
        ok := Buffer(buf);
      }
      LoggedTwice(old(device.output), output, device.output, old(device.log.captured), captured, device.log.captured,
                  device.log.captureEnabled);
    }

    /** The buffer goes out. */
    method Drain() returns (ok: bool)
      requires Valid()
      modifies this, device, device.log, device.log.buffer
      ensures Valid() && device.up == old(device.up) && Stream() == old(Stream())
      ensures ok <==> device.up || old(buffer) == []
      ensures buffer == if ok then [] else old(buffer)
      ensures Logged(old(device.output), device.output, old(device.log.captured), device.log.captured,
              device.log.captureEnabled)
      ensures device.log.captureEnabled == old(device.log.captureEnabled)
    {
      ok := device.WriteAll(buffer);
      if ok {
        buffer := [];
      }
    }

    /** A large input goes out past the empty buffer. */
    method Direct(buf: bytes) returns (ok: bool)
      requires Valid() && buffer == [] && buf != []
      modifies device, device.log, device.log.buffer
      ensures Valid() && device.up == old(device.up)
      ensures ok <==> device.up
      ensures Stream() == if ok then old(Stream()) + buf else old(Stream())
      ensures Logged(old(device.output), device.output, old(device.log.captured), device.log.captured,
              device.log.captureEnabled)
      ensures device.log.captureEnabled == old(device.log.captureEnabled)
    {
      ok := device.WriteAll(buf);
    }
  }

  lemma LoggedTwice(a: bytes, b: bytes, c: bytes, ca: bytes, cb: bytes, cc: bytes, enabled: bool)
    requires Logged(a, b, ca, cb, enabled) && Logged(b, c, cb, cc, enabled)
    ensures Logged(a, c, ca, cc, enabled)
  {
    assert c[..|a|] == c[..|b|][..|a|];
    assert c[|a|..] == b[|a|..] + c[|b|..];
    assert ca + (b[|a|..] + c[|b|..]) == ca + b[|a|..] + c[|b|..];
  }

  /** What the device put out in between was captured, if capture is on. */
  predicate Logged(before: bytes, after: bytes, captured: bytes, now: bytes, enabled: bool) {
    && |before| <= |after| && before == after[..|before|]
    && now == if enabled then captured + after[|before|..] else captured
  }
}
