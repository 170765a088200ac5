/** The output side of TcpConnection over a real Buffer, proved against the step system. */
module TcpConnectionObject {
  import opened Wrappers
  import opened BufferObject
  import opened TcpConnectionState
  import opened OutputSteps

  class TcpConnection {
    const outputBuffer: Buffer
    const config: Config
    var state: StateE
    var writing: bool
    var writeShut: bool
    ghost var kernel: string
    ghost var retained: string
    ghost var log: seq<Item>

    ghost predicate Valid()
      reads this, outputBuffer, outputBuffer.buffer
    {
      outputBuffer.Valid() && State().Valid()
    }

    ghost function State(): Out
      requires outputBuffer.Valid()
      reads this, outputBuffer, outputBuffer.buffer
    {
      Out(config, state, outputBuffer.Contents(), writing, writeShut, kernel, retained, log)
    }

    constructor (config: Config)
      ensures outputBuffer.Valid() && fresh(outputBuffer) && fresh(outputBuffer.buffer)
      ensures state == Connecting && this.config == config
      ensures State() == Established(config).(state := Connecting)
    {
      this.config := config;
      outputBuffer := new Buffer(1024);
      state, writing, writeShut := Connecting, false, false;
      kernel, retained, log := "", "", [Level(0)];
    }

    method ConnectEstablished()
      requires outputBuffer.Valid() && State() == Established(config).(state := Connecting)
      modifies this`state
      ensures Valid() && State() == Established(config)
    {
      state := Connected;
    }

    method QueueWriteComplete()
      requires outputBuffer.Valid()
      modifies this`log
      ensures State() == NoteComplete(old(State()))
    {
      if config.notifyComplete {
        log := log + [Complete(kernel, retained)];
      }
    }

    method SendInLoop(data: string, result: WriteResult)
      requires Valid() && (result.Wrote? ==> result.n <= |data|)
      modifies this, outputBuffer, outputBuffer.buffer
      ensures outputBuffer.Valid() && (outputBuffer.buffer == old(outputBuffer.buffer) || fresh(outputBuffer.buffer))
      ensures State() == OutputSteps.SendInLoop(old(State()), data, result)
    {
      var nwrote := 0;
      var faultError := false;
      if state.Disconnected? {
        return;
      }
      ghost var drop := !writing && outputBuffer.Contents() == "" && result.Broken?;
      retained := if drop then retained else retained + data;
      if !writing && outputBuffer.ReadableBytes() == 0 {
        match result
        case Wrote(n) =>
          nwrote := n;
          kernel := kernel + data[..n];
          if n == |data| {
            QueueWriteComplete();
          }
        case Broken =>
          faultError := true;
        case WouldBlock =>
        case OtherError =>
      }
      if !faultError && nwrote < |data| {
        BufferRest(data[nwrote..]);
      }
    }

    /** What sendInLoop does with the bytes the direct write left. */
    method BufferRest(remaining: string)
      requires outputBuffer.Valid() && remaining != ""
      modifies this, outputBuffer, outputBuffer.buffer
      ensures outputBuffer.Valid() && (outputBuffer.buffer == old(outputBuffer.buffer) || fresh(outputBuffer.buffer))
      ensures State() == Enqueue(old(State()), remaining)
    {
      var oldLen := outputBuffer.ReadableBytes();
      if oldLen + |remaining| >= config.highWaterMark && oldLen < config.highWaterMark && config.notifyHigh {
        log := log + [HighWater(oldLen + |remaining|)];
      }
      outputBuffer.Append(remaining);
      if !writing {
        writing := true;
      }
    }

    method Send(data: string, result: WriteResult)
      requires Valid() && (result.Wrote? ==> result.n <= |data|)
      modifies this, outputBuffer, outputBuffer.buffer
      ensures Valid() && (outputBuffer.buffer == old(outputBuffer.buffer) || fresh(outputBuffer.buffer))
      ensures State() == Step(old(State()), SendCalled(data, result))
    {
      StepKeepsValid(State(), SendCalled(data, result));
      if state == Connected {
        SendInLoop(data, result);
      }
      log := log + [Level(outputBuffer.ReadableBytes())];
    }

    method ShutdownInLoop()
      requires outputBuffer.Valid()
      modifies this`writeShut
      ensures State() == OutputSteps.ShutdownInLoop(old(State()))
    {
      if !writing {
        writeShut := true;
      }
    }

    /** handleWrite once the buffer has run empty. */
    method AllWritten()
      requires outputBuffer.Valid()
      modifies this`writing, this`log, this`writeShut
      ensures State() == var q := NoteComplete(old(State()).(writing := false));
                         if state.Disconnecting? then OutputSteps.ShutdownInLoop(q) else q
    {
      writing := false;
      QueueWriteComplete();
      if state == Disconnecting {
        ShutdownInLoop();
      }
    }

    method WriteOut(result: WriteResult)
      requires outputBuffer.Valid() && (result.Wrote? ==> result.n <= outputBuffer.ReadableBytes())
      modifies this, outputBuffer
      ensures outputBuffer.Valid() && outputBuffer.buffer == old(outputBuffer.buffer)
      ensures State() == OutputSteps.HandleWrite(old(State()), result)
    {
      if writing {
        var n, taken := outputBuffer.WriteFd(if result.Wrote? then Some(result.n) else None);
        if n > 0 {
          kernel := kernel + taken;
          outputBuffer.Retrieve(n);
          if outputBuffer.ReadableBytes() == 0 {
            AllWritten();
          }
        }
      }
    }

    method HandleWrite(result: WriteResult)
      requires Valid() && (result.Wrote? ==> result.n <= outputBuffer.ReadableBytes())
      modifies this, outputBuffer
      ensures Valid() && outputBuffer.buffer == old(outputBuffer.buffer)
      ensures State() == Step(old(State()), Writable(result))
    {
      StepKeepsValid(State(), Writable(result));
      WriteOut(result);
      log := log + [Level(outputBuffer.ReadableBytes())];
    }

    method HandleClose()
      requires Valid() && state == Connected
      modifies this
      ensures Valid() && State() == Step(old(State()), Closed)
    {
      StepKeepsValid(State(), Closed);
      state := Disconnected;
      writing := false;
      log := log + [Level(outputBuffer.ReadableBytes())];
    }

    method Shutdown()
      requires Valid()
      modifies this
      ensures Valid() && State() == Step(old(State()), ShutdownCalled)
    {
      StepKeepsValid(State(), ShutdownCalled);
      if state == Disconnected {
        state := Disconnecting;
        ShutdownInLoop();
      }
      log := log + [Level(outputBuffer.ReadableBytes())];
    }
  }
}
