/** CAPTURE and OUTPUT slots (src/iris/slots.cc) and the kernel queues behind them. */
module Slots {
  import opened Layouts
  import opened Outcome

  datatype Memory = Mmap | Dmabuf

  /** One CAPTURE slot. In an Import pool it records the token it was queued for (0 for none) and the client
      descriptor it carries (-1 for none). */
  datatype Frame = Frame(queued: bool, importToken: nat, importFd: int)

  datatype OutputSlot = OutputSlot(queued: bool, token: nat)

  datatype Pool = Pool(capture: seq<Frame>, outputs: seq<OutputSlot>, memory: Memory, layout: Layout)

  /** How often each index is in the kernel's queues. */
  datatype Kernel = Kernel(capture: multiset<nat>, output: multiset<nat>)

  datatype Completion = Completion(index: nat, timestamp: nat, error: bool, last: bool, payload: bool)

  const IDLE_FRAME := Frame(false, 0, -1)

  const NO_LAYOUT := Layout(NV12, 0, 0, 0, 0, 0, 0)

  function QueuedCount(capture: seq<Frame>): nat {
    if capture == [] then 0
    else QueuedCount(capture[..|capture| - 1]) + (if capture[|capture| - 1].queued then 1 else 0)
  }

  /** Nothing is with the firmware. */
  predicate Idle(capture: seq<Frame>) {
    forall i :: 0 <= i < |capture| ==> !capture[i].queued
  }

  lemma {:induction false} IdleCount(capture: seq<Frame>)
    ensures QueuedCount(capture) == 0 <==> Idle(capture)
  {
    if capture != [] {
      IdleCount(capture[..|capture| - 1]);
    }
  }

  /** Slots from `i` on that are neither queued nor held go to the firmware. */
  function Requeued(capture: seq<Frame>, kernel: multiset<nat>, held: set<nat>, i: nat): (seq<Frame>, multiset<nat>)
    requires i <= |capture|
    decreases |capture| - i
  {
    if i == |capture| then (capture, kernel)
    else if capture[i].queued || i in held then Requeued(capture, kernel, held, i + 1)
    else Requeued(capture[i := capture[i].(queued := true)], kernel + multiset{i}, held, i + 1)
  }

  /** Exactly the slots that are neither queued nor held are queued, each once; the others stay as they are. */
  lemma {:induction false} RequeuedExactly(capture: seq<Frame>, kernel: multiset<nat>, held: set<nat>, i: nat)
    requires i <= |capture|
    ensures var (capture', kernel') := Requeued(capture, kernel, held, i);
            && |capture'| == |capture|
            && (forall k :: 0 <= k < i ==> capture'[k] == capture[k])
            && (forall k :: i <= k < |capture| ==>
                  capture'[k] == capture[k].(queued := capture[k].queued || k !in held))
            && (forall k: nat :: kernel'[k] == kernel[k]
                  + if i <= k < |capture| && !capture[k].queued && k !in held then 1 else 0)
    decreases |capture| - i
  {
    if i < |capture| {
      if capture[i].queued || i in held {
        RequeuedExactly(capture, kernel, held, i + 1);
      } else {
        RequeuedExactly(capture[i := capture[i].(queued := true)], kernel + multiset{i}, held, i + 1);
      }
    }
  }

  /** The first free slot that last carried `fd`, or the number of slots. */
  function FirstCarrying(capture: seq<Frame>, fd: int, i: nat): (r: nat)
    requires i <= |capture|
    ensures i <= r <= |capture|
    ensures r < |capture| ==> !capture[r].queued && capture[r].importFd == fd
    ensures forall j :: i <= j < r ==> capture[j].queued || capture[j].importFd != fd
    decreases |capture| - i
  {
    if i == |capture| || (!capture[i].queued && capture[i].importFd == fd) then i
    else FirstCarrying(capture, fd, i + 1)
  }

  function FirstFree(capture: seq<Frame>, i: nat): (r: nat)
    requires i <= |capture|
    ensures i <= r <= |capture|
    ensures r < |capture| ==> !capture[r].queued
    ensures forall j :: i <= j < r ==> capture[j].queued
    decreases |capture| - i
  {
    if i == |capture| || !capture[i].queued then i else FirstFree(capture, i + 1)
  }

  /** The slot that a client buffer goes into. */
  function ImportSlot(capture: seq<Frame>, fd: int): (r: nat)
    ensures r <= |capture|
    ensures r < |capture| ==> !capture[r].queued
    ensures r == |capture| ==> FirstFree(capture, 0) == |capture|
  {
    var carrying := FirstCarrying(capture, fd, 0);
    if carrying < |capture| then carrying else FirstFree(capture, 0)
  }

  /** The first free slot that last carried the descriptor; if none did, the first free slot; if there is none, the
      number of slots. */
  ghost predicate TakesSlot(capture: seq<Frame>, fd: int, index: nat) {
    && index <= |capture| && (index < |capture| ==> !capture[index].queued)
    && (index == |capture| ==> forall j :: 0 <= j < |capture| ==> capture[j].queued)
    && (forall j :: 0 <= j < |capture| && !capture[j].queued && capture[j].importFd == fd ==>
          index <= j && capture[index].importFd == fd)
    && (index < |capture| && capture[index].importFd != fd ==> forall j :: 0 <= j < index ==> capture[j].queued)
  }

  function Returned(capture: seq<Frame>): (r: seq<Frame>)
    ensures |r| == |capture|
  {
    seq(|capture|, i requires 0 <= i < |capture| => Frame(false, 0, capture[i].importFd))
  }

  /** Where OUTPUT data can go: the first slot that is not queued, or the number of slots. */
  function FreeOutput(outputs: seq<OutputSlot>, i: nat): (r: nat)
    requires i <= |outputs|
    ensures i <= r <= |outputs|
    ensures r < |outputs| ==> !outputs[r].queued
    ensures forall j :: i <= j < r ==> outputs[j].queued
    decreases |outputs| - i
  {
    if i == |outputs| || !outputs[i].queued then i else FreeOutput(outputs, i + 1)
  }

  /** The device as far as its two buffer queues go; what comes back, and when, is up to the firmware. */
  class Device {
    var capture: multiset<nat>
    var output: multiset<nat>

    /** The last attempt to dequeue found nothing. */
    ghost var captureDry: bool
    ghost var outputDry: bool

    constructor ()
      ensures capture == multiset{} && output == multiset{}
    {
      capture, output := multiset{}, multiset{};
      captureDry, outputDry := false, false;
    }

    function Queues(): Kernel
      reads this
    {
      Kernel(capture, output)
    }

    method QueueCapture(index: nat)
      modifies this`capture
      ensures capture == old(capture) + multiset{index}
    {
      capture := capture + multiset{index};
    }

    method QueueOutput(index: nat)
      modifies this`output
      ensures output == old(output) + multiset{index}
    {
      output := output + multiset{index};
    }

    /** VIDIOC_STREAMOFF or REQBUFS(0) on CAPTURE: the kernel gives every buffer back. */
    method DropCapture()
      modifies this`capture
      ensures capture == multiset{}
    {
      capture := multiset{};
    }

    /** An arbitrary completion of some queued buffer, or none. */
    method DequeueCapture() returns (found: bool, d: Completion)
      modifies this`capture, this`captureDry
      ensures captureDry == !found
      ensures found ==> d.index in old(capture) && capture == old(capture) - multiset{d.index}
      ensures !found ==> capture == old(capture)
    {
      found := *;
      d := *;
      found := found && d.index in capture;
      captureDry := !found;
      if found {
        capture := capture - multiset{d.index};
      }
    }

    method DequeueOutput() returns (found: bool, index: nat, error: bool)
      modifies this`output, this`outputDry
      ensures outputDry == !found
      ensures found ==> index in old(output) && output == old(output) - multiset{index}
      ensures !found ==> output == old(output)
    {
      found := *;
      index := *;
      error := *;
      found := found && index in output;
      outputDry := !found;
      if found {
        output := output - multiset{index};
      }
    }
  }

  class SlotPool {
    const device: Device
    var capture: seq<Frame>
    var outputs: seq<OutputSlot>
    var memory: Memory
    var layout: Layout

    constructor (device: Device, outputs: nat)
      ensures this.device == device
      ensures Abs() == Pool([], seq(outputs, _ => OutputSlot(false, 0)), Mmap, NO_LAYOUT)
    {
      this.device := device;
      capture := [];
      this.outputs := seq(outputs, _ => OutputSlot(false, 0));
      memory := Mmap;
      layout := NO_LAYOUT;
    }

    function Abs(): Pool
      reads this
    {
      Pool(capture, outputs, memory, layout)
    }

    method AllocateCapture(count: nat, layout: Layout, memory: Memory)
      requires capture == []
      modifies this
      ensures Abs() == Pool(seq(count, _ => IDLE_FRAME), old(outputs), memory, layout)
    {
      this.layout := layout;
      this.memory := memory;
      var i := 0;
      while i < count
        invariant 0 <= i <= count && capture == seq(i, _ => IDLE_FRAME)
        invariant outputs == old(outputs) && this.memory == memory && this.layout == layout
      {
        capture := capture + [IDLE_FRAME];
        i := i + 1;
      }
    }

    /** Refuses while a frame is held. */
    method ReleaseCapture(held: set<nat>) returns (r: Result<()>)
      modifies this, device`capture
      ensures if exists i :: 0 <= i < |old(capture)| && i in held
              then r.Err? && Abs() == old(Abs()) && device.capture == old(device.capture)
              else r.Ok? && Abs() == Pool([], old(outputs), Mmap, old(layout)) && device.capture == multiset{}
    {
      for i := 0 to |capture|
        invariant forall j :: 0 <= j < i ==> j !in held
        invariant Abs() == old(Abs()) && device.capture == old(device.capture)
      {
        if i in held {
          return Err(OperationFailed);
        }
      }
      capture := [];
      device.DropCapture();
      memory := Mmap;
      r := Ok(());
    }

    /** Queues every slot whose use count is one; a no-op for an Import pool. */
    method RequeueCapture(held: set<nat>)
      modifies this`capture, device`capture
      ensures (capture, device.capture)
           == if memory == Dmabuf then old((capture, device.capture))
              else Requeued(old(capture), old(device.capture), held, 0)
      ensures memory == Mmap ==> |capture| == |old(capture)| && forall k :: 0 <= k < |capture| ==>
                && capture[k].queued == (old(capture)[k].queued || k !in held)
                && device.capture[k] == old(device.capture)[k]
                   + if !old(capture)[k].queued && k !in held then 1 else 0
    {
      RequeuedExactly(capture, device.capture, held, 0);
      if memory == Dmabuf {
        return;
      }
      var i := 0;
      while i < |capture|
        invariant i <= |capture|
        invariant Requeued(capture, device.capture, held, i) == Requeued(old(capture), old(device.capture), held, 0)
        decreases |capture| - i
      {
        if !(capture[i].queued || i in held) {
          device.QueueCapture(i);
          capture := capture[i := capture[i].(queued := true)];
        }
        i := i + 1;
      }
    }

    method QueueCaptureImport(fd: int, token: nat) returns (index: nat)
      modifies this`capture, device`capture
      ensures index == ImportSlot(old(capture), fd)
      ensures (capture, device.capture)
           == if index == |old(capture)| then old((capture, device.capture))
              else (old(capture)[index := Frame(true, token, fd)], old(device.capture) + multiset{index})
      ensures TakesSlot(old(capture), fd, index)
    {
      index := |capture|;
      var i := 0;
      while i < |capture|
        invariant i <= |capture| && (index == |capture| || index < i)
        invariant index == if FirstFree(capture, 0) < i then FirstFree(capture, 0) else |capture|
        invariant FirstCarrying(capture, fd, 0) == FirstCarrying(capture, fd, i)
        invariant capture == old(capture) && device.capture == old(device.capture)
      {
        if !capture[i].queued {
          if capture[i].importFd == fd {
            index := i;
            break;
          }
          if index == |capture| {
            index := i;
          }
        }
        i := i + 1;
      }
      if index < |capture| {
        device.QueueCapture(index);
        capture := capture[index := Frame(true, token, fd)];
      }
    }

    /** Lends the driver's own buffer, `scratch`, to the first free slot. */
    method QueueCaptureScratch(scratch: int) returns (r: Result<()>)
      modifies this`capture, device`capture
      ensures var i := FirstFree(old(capture), 0);
              if i == |old(capture)| then r.Err? && (capture, device.capture) == old((capture, device.capture))
              else r.Ok? && capture == old(capture)[i := Frame(true, 0, scratch)]
                   && device.capture == old(device.capture) + multiset{i}
    {
      var i := 0;
      while i < |capture|
        invariant i <= |capture| && FirstFree(capture, 0) == FirstFree(capture, i)
        invariant capture == old(capture) && device.capture == old(device.capture)
      {
        if !capture[i].queued {
          device.QueueCapture(i);
          capture := capture[i := Frame(true, 0, scratch)];
          return Ok(());
        }
        i := i + 1;
      }
      r := Err(HwBusy);
    }

    /** take_capture and take_import_token. */
    method TakeCapture(index: nat) returns (token: nat)
      requires index < |capture|
      modifies this`capture
      ensures token == old(capture)[index].importToken
      ensures capture == old(capture)[index := Frame(false, 0, old(capture)[index].importFd)]
    {
      token := capture[index].importToken;
      capture := capture[index := capture[index].(queued := false, importToken := 0)];
    }

    method CaptureQueued() returns (count: nat)
      ensures count == QueuedCount(capture)
    {
      count := 0;
      for i := 0 to |capture|
        invariant count == QueuedCount(capture[..i])
      {
        assert capture[..i + 1][..i] == capture[..i];
        count := count + (if capture[i].queued then 1 else 0);
      }
      assert capture[..|capture|] == capture;
    }

    /** capture_held() == 0 */
    method NoneHeld(held: set<nat>) returns (none: bool)
      ensures none <==> forall i :: 0 <= i < |capture| ==> i !in held
    {
      none := true;
      for i := 0 to |capture|
        invariant none <==> forall j :: 0 <= j < i ==> j !in held
      {
        none := none && i !in held;
      }
    }

    method FindFreeOutput() returns (index: nat)
      ensures index == FreeOutput(outputs, 0)
    {
      index := 0;
      while index < |outputs| && outputs[index].queued
        invariant index <= |outputs| && FreeOutput(outputs, 0) == FreeOutput(outputs, index)
      {
        index := index + 1;
      }
    }

    method MarkAllCaptureReturned()
      modifies this`capture
      ensures capture == Returned(old(capture))
      ensures |capture| == |old(capture)|
      ensures forall k :: 0 <= k < |capture| ==> capture[k] == Frame(false, 0, old(capture)[k].importFd)
    {
      var i := 0;
      while i < |capture|
        invariant 0 <= i <= |capture| == |old(capture)|
        invariant forall j :: 0 <= j < i ==> capture[j] == Frame(false, 0, old(capture)[j].importFd)
        invariant forall j :: i <= j < |capture| ==> capture[j] == old(capture)[j]
      {
        capture := capture[i := capture[i].(queued := false, importToken := 0)];
        i := i + 1;
      }
    }
  }
}
