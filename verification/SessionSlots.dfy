/** Who owns a CAPTURE slot: the firmware, nobody, or one target. */
module SessionSlots {
  import opened Layouts
  import opened Slots
  import opened SessionModel
  import opened SessionTokens

  /** The queued flags are the kernel's queues: each index is in there once or not at all. */
  ghost predicate Mirrors(s: State) {
    && (forall i: nat :: s.kernel.capture[i] == if i < |s.pool.capture| && s.pool.capture[i].queued then 1 else 0)
    && (forall i: nat :: s.kernel.output[i] == if i < |s.pool.outputs| && s.pool.outputs[i].queued then 1 else 0)
  }

  /** A held frame is a slot of the current pool that the firmware does not have. */
  ghost predicate Sound(s: State, id: nat) {
    var t := s.ledger.Get(id);
    t.frame.Holding? ==>
      && s.pool.memory == Mmap && !t.pending
      && t.frame.hold.generation == s.generation
      && t.frame.hold.index < |s.pool.capture|
      && !s.pool.capture[t.frame.hold.index].queued
  }

  ghost predicate Exclusive(l: Ledger) {
    forall a, b :: l.Get(a).frame.Holding? && l.Get(a).frame == l.Get(b).frame ==> a == b
  }

  /** Which phases have a CAPTURE pool. */
  ghost predicate Pooled(cfg: Config, s: State) {
    && (s.phase.Configured? ==> s.pool.capture == [])
    && (s.phase.Streaming? || s.phase.Draining? || s.phase.RestartPending? || s.phase.Reconfiguring? ==>
       s.pool.capture != [])
    && (s.pool.memory == Dmabuf ==> s.pool.capture != [] && cfg.decodeOrder)
  }

  ghost predicate Owned(cfg: Config, s: State) {
    && Mirrors(s)
    && (forall id :: Sound(s, id))
    && Exclusive(s.ledger)
    && Pooled(cfg, s)
  }

  lemma KernelHasSlot(cfg: Config, s: State, i: nat)
    requires Owned(cfg, s) && i < |s.pool.capture| && s.pool.capture[i].queued
    ensures i in s.kernel.capture
  {
  }

  lemma KernelHasOutput(cfg: Config, s: State, i: nat)
    requires Owned(cfg, s) && i < |s.pool.outputs| && s.pool.outputs[i].queued
    ensures i in s.kernel.output
  {
  }

  /** No target takes a frame and no pending target has one. */
  ghost predicate Frames(l: Ledger, l': Ledger) {
    forall id :: l'.Get(id).frame.Holding? ==>
        l'.Get(id).frame == l.Get(id).frame && (l'.Get(id).pending ==> l.Get(id).pending)
  }

  lemma FailFrames(l: Ledger, token: nat)
    ensures Frames(l, l.Fail(token))
  {
  }

  lemma FramesCompose(a: Ledger, b: Ledger, c: Ledger)
    requires Frames(a, b) && Frames(b, c)
    ensures Frames(a, c)
  {
  }

  lemma {:induction false} FailExceptFrames(l: Ledger, keep: set<nat>, n: nat)
    ensures Frames(l, l.FailExcept(keep, n))
  {
    hide Frames;
    if n == 0 {
      NoFrames(l);
    } else {
      FailExceptFrames(l, keep, n - 1);
      FailFrames(l.FailExcept(keep, n - 1), n - 1);
      FramesCompose(l, l.FailExcept(keep, n - 1), l.FailExcept(keep, n));
    }
  }

  lemma NoFrames(l: Ledger)
    ensures Frames(l, l)
  {
  }

  /** Only the ledger changes, and no frame is taken. */
  lemma LedgerOwned(cfg: Config, s: State, s': State)
    requires Owned(cfg, s) && Frames(s.ledger, s'.ledger)
    requires s'.pool == s.pool && s'.kernel == s.kernel && s'.generation == s.generation
    requires Pooled(cfg, s')
    ensures Owned(cfg, s')
  {
    forall id
      ensures Sound(s', id)
    {
      assert Sound(s, id);
    }
  }

  /** A slot that nobody holds is queued. */
  lemma QueueSlotOwned(cfg: Config, s: State, index: nat, frame: Frame)
    requires Owned(cfg, s) && index < |s.pool.capture| && !s.pool.capture[index].queued && frame.queued
    requires index !in s.ledger.HeldSlots(s.generation)
    ensures Owned(cfg, QueueSlot(s, index, frame))
  {
    var s' := QueueSlot(s, index, frame);
    forall id
      ensures Sound(s', id)
    {
      assert Sound(s, id);
      if s.ledger.Get(id).frame.Holding? {
        assert s.ledger.Get(id).frame.hold.index in s.ledger.HeldSlots(s.generation);
      }
    }
  }

  lemma ImportHoldsNothing(cfg: Config, s: State)
    requires Owned(cfg, s) && s.pool.memory == Dmabuf
    ensures s.ledger.HeldSlots(s.generation) == {}
  {
    forall id | id in s.ledger.targets
      ensures !s.ledger.targets[id].frame.Holding?
    {
      assert Sound(s, id);
    }
  }

  lemma {:induction false} QueueNextOwned(cfg: Config, s: State)
    requires Owned(cfg, s)
    ensures Owned(cfg, QueueNext(s))
    ensures QueueNext(s).generation == s.generation && QueueNext(s).phase == s.phase
    ensures |QueueNext(s).pool.capture| == |s.pool.capture|
    ensures QueueNext(s).pool.(capture := []) == s.pool.(capture := [])
    ensures Frames(s.ledger, QueueNext(s).ledger)
    ensures QueueNext(s).spent == s.spent
    ensures s.pool.memory == Mmap ==> QueueNext(s) == s
    decreases |s.backlog|
  {
    hide Owned, Frames, Mirrors, Sound, Exclusive, Idle;
    NoFrames(s.ledger);
    if s.pool.memory == Dmabuf && s.backlog != [] && Idle(s.pool.capture) {
      var e := s.backlog[0];
      var rest := s.(backlog := s.backlog[1..]);
      PooledOf(cfg, s);
      if e.fd < 0 {
        LedgerOwned(cfg, s, rest);
        QueueNextOwned(cfg, rest);
      } else if Bufferless(s.ledger, e.token) {
        var failed := CountError(rest.(ledger := s.ledger.Fail(e.token)));
        FailFrames(s.ledger, e.token);
        LedgerOwned(cfg, s, failed);
        QueueNextOwned(cfg, failed);
        FramesCompose(s.ledger, failed.ledger, QueueNext(failed).ledger);
      } else if !Misfit(s.ledger, e.token, s.pool.layout) {
        GiveBufferOwned(cfg, s);
      }
    }
  }

  lemma PooledOf(cfg: Config, s: State)
    requires Owned(cfg, s)
    ensures Pooled(cfg, s)
  {
  }

  lemma GiveBufferOwned(cfg: Config, s: State)
    requires Owned(cfg, s) && s.backlog != [] && s.pool.memory == Dmabuf
    ensures Owned(cfg, GiveBuffer(s))
  {
    hide Mirrors, Sound, Exclusive;
    ImportHoldsNothing(cfg, s);
    var e := s.backlog[0];
    var index := ImportSlot(s.pool.capture, e.fd);
    if index < |s.pool.capture| {
      QueueSlotOwned(cfg, s, index, Frame(true, e.token, e.fd));
      var s' := QueueSlot(s, index, Frame(true, e.token, e.fd));
      NoFrames(s'.ledger);
      LedgerOwned(cfg, s', GiveBuffer(s));
    }
  }

  lemma {:induction false} RequeuedOwned(cfg: Config, s: State, i: nat)
    requires Owned(cfg, s) && i <= |s.pool.capture|
    ensures var held := s.ledger.HeldSlots(s.generation);
            var (capture, queue) := Requeued(s.pool.capture, s.kernel.capture, held, i);
            && |capture| == |s.pool.capture|
            && (forall j :: 0 <= j < |capture| ==>
                  capture[j] == if j < i || j in held then s.pool.capture[j] else s.pool.capture[j].(queued := true))
            && Owned(cfg, s.(pool := s.pool.(capture := capture), kernel := s.kernel.(capture := queue)))
    decreases |s.pool.capture| - i
  {
    hide Owned;
    var held := s.ledger.HeldSlots(s.generation);
    if i == |s.pool.capture| {
      assert s.(pool := s.pool.(capture := s.pool.capture), kernel := s.kernel.(capture := s.kernel.capture)) == s;
    } else if s.pool.capture[i].queued || i in held {
      RequeuedOwned(cfg, s, i + 1);
    } else {
      QueueSlotOwned(cfg, s, i, s.pool.capture[i].(queued := true));
      RequeuedOwned(cfg, QueueSlot(s, i, s.pool.capture[i].(queued := true)), i + 1);
    }
  }

  lemma RequeueOwned(cfg: Config, s: State)
    requires Owned(cfg, s)
    ensures Owned(cfg, RequeueStep(s))
    ensures |RequeueStep(s).pool.capture| == |s.pool.capture|
  {
    hide Owned;
    RequeuedOwned(cfg, s, 0);
  }

  lemma ScratchOwned(cfg: Config, s: State, scratch: int)
    requires Owned(cfg, s) && s.pool.memory == Dmabuf
    ensures Owned(cfg, QueueScratch(s, scratch))
  {
    hide Owned;
    ImportHoldsNothing(cfg, s);
    var index := FirstFree(s.pool.capture, 0);
    if Idle(s.pool.capture) && index < |s.pool.capture| {
      QueueSlotOwned(cfg, s, index, Frame(true, 0, scratch));
    }
  }

  /** A buffer that comes back belongs to nobody. */
  lemma TakenOwned(cfg: Config, s: State, index: nat)
    requires Owned(cfg, s) && index < |s.pool.capture| && index in s.kernel.capture
    ensures Owned(cfg, Taken(s, index))
    ensures s.pool.capture[index].queued && index !in s.ledger.HeldSlots(s.generation)
    ensures !Taken(s, index).pool.capture[index].queued
  {
    var s' := Taken(s, index);
    forall id
      ensures Sound(s', id)
    {
      assert Sound(s, id);
    }
    forall id | id in s.ledger.targets && s.ledger.targets[id].frame.Holding?
      ensures s.ledger.targets[id].frame.hold.index != index
    {
      assert Sound(s, id);
    }
  }

  /** A target takes the slot that has just come back. */
  lemma HoldOwned(cfg: Config, s: State, id: nat, after: Target, s': State)
    requires Owned(cfg, s) && s.pool.memory == Mmap && Pooled(cfg, s')
    requires var hold := after.frame;
             && hold.Holding? && hold.hold.generation == s.generation && !after.pending
             && hold.hold.index < |s.pool.capture| && !s.pool.capture[hold.hold.index].queued
             && hold.hold.index !in s.ledger.HeldSlots(s.generation)
    requires s'.pool == s.pool && s'.kernel == s.kernel && s'.generation == s.generation
    requires s'.ledger.targets == s.ledger.targets[id := after]
    ensures Owned(cfg, s')
  {
    hide Mirrors, Pooled;
    assert Mirrors(s') by {
      SameMirrors(s, s');
    }
    forall x
      ensures Sound(s', x)
    {
      assert Sound(s, x);
    }
    forall a, b | s'.ledger.Get(a).frame.Holding? && s'.ledger.Get(a).frame == s'.ledger.Get(b).frame
      ensures a == b
    {
      HeldBy(s.ledger, s.generation, a);
      HeldBy(s.ledger, s.generation, b);
    }
  }

  lemma SameMirrors(s: State, s': State)
    requires s'.pool == s.pool && s'.kernel == s.kernel
    ensures Mirrors(s') == Mirrors(s)
  {
  }

  /** A picture is published: its target may take the slot. */
  lemma PublishOwned(cfg: Config, s: State, token: nat, index: nat, copyFails: bool)
    requires Owned(cfg, s) && token in s.ledger.pending
    requires s.pool.memory == Mmap ==>
               index < |s.pool.capture| && !s.pool.capture[index].queued && index !in s.ledger.HeldSlots(s.generation)
    requires !s.ledger.Get(s.ledger.pending[token]).frame.Holding?
    ensures Owned(cfg, PublishStep(cfg, s, token, index, copyFails))
  {
    PooledOf(cfg, s);
    hide Owned, Mirrors, Exclusive, Sound;
    var id := s.ledger.pending[token];
    var s' := PublishStep(cfg, s, token, index, copyFails);
    if s'.ledger.Get(id).frame.Holding? {
      HoldOwned(cfg, s, id, s'.ledger.Get(id), s');
    } else {
      LedgerOwned(cfg, s, s');
    }
  }

  lemma HeldBy(l: Ledger, generation: nat, id: nat)
    ensures l.Get(id).frame.Holding? && l.Get(id).frame.hold.generation == generation ==>
              l.Get(id).frame.hold.index in l.HeldSlots(generation)
  {
  }

  lemma DeliverOwned(cfg: Config, s: State, d: Completion, owner: nat, copyFails: bool)
    requires Owned(cfg, s) && Conserved(s.ledger)
    requires s.pool.memory == Mmap ==>
               d.index < |s.pool.capture| && !s.pool.capture[d.index].queued
                   && d.index !in s.ledger.HeldSlots(s.generation)
    ensures Owned(cfg, Deliver(cfg, s, d, owner, copyFails))
  {
    PooledOf(cfg, s);
    if d.timestamp in s.ledger.pending {
      PendingHoldsNothing(cfg, s, d.timestamp);
    }
    hide Owned, Conserved, Frames, PublishStep;
    var s' := Deliver(cfg, s, d, owner, copyFails);
    NoFrames(s.ledger);
    FailFrames(s.ledger, d.timestamp);
    FailFrames(s.ledger.Fail(d.timestamp), owner);
    FramesCompose(s.ledger, s.ledger.Fail(d.timestamp), s.ledger.Fail(d.timestamp).Fail(owner));
    if d.timestamp in s.ledger.pending && s' == PublishStep(cfg, s, d.timestamp, d.index, copyFails) {
      PublishOwned(cfg, s, d.timestamp, d.index, copyFails);
    } else {
      LedgerOwned(cfg, s, s');
    }
  }

  lemma PendingHoldsNothing(cfg: Config, s: State, token: nat)
    requires Owned(cfg, s) && Conserved(s.ledger) && token in s.ledger.pending
    ensures !s.ledger.Get(s.ledger.pending[token]).frame.Holding?
  {
    assert Sound(s, s.ledger.pending[token]);
  }

  // ---------------------------------------------------------------- every action

  lemma ConfigureOwned(cfg: Config, s: State, layout: Layout, count: nat, fds: map<nat, int>)
    requires Owned(cfg, s) && s.phase.Configured? && count > 0
    ensures Owned(cfg, ConfigureStep(cfg, s, layout, count, fds))
  {
    NewPoolOwned(cfg, s, layout, count);
    hide Owned, QueueNext, Requeued, Gathered, NewPool;
    var p := NewPool(cfg, s, layout, count).(phase := Streaming);
    var gathered := p.(backlog := Gathered(p.ledger, p.backlog, fds, p.ledger.next));
    StreamingOwned(cfg, p, gathered);
    RequeueOwned(cfg, p);
    QueueNextOwned(cfg, gathered);
    var next := if p.pool.memory == Dmabuf then QueueNext(gathered) else RequeueStep(p);
    PhaseOfQueueNext(NewPool(cfg, s, layout, count).(backlog := gathered.backlog), Streaming);
    StreamingOwned(cfg, next, ConfigureStep(cfg, s, layout, count, fds));
  }

  /** The phase does not matter to queue_import_next. */
  lemma {:induction false} PhaseOfQueueNext(s: State, phase: Phase)
    ensures QueueNext(s.(phase := phase)) == QueueNext(s).(phase := phase)
    decreases |s.backlog|
  {
    hide Idle;
    if s.pool.memory == Dmabuf && s.backlog != [] && Idle(s.pool.capture) {
      var e := s.backlog[0];
      if e.fd < 0 {
        PhaseOfQueueNext(s.(backlog := s.backlog[1..]), phase);
      } else if Bufferless(s.ledger, e.token) {
        PhaseOfQueueNext(CountError(s.(backlog := s.backlog[1..], ledger := s.ledger.Fail(e.token))), phase);
      }
    }
  }

  /** Flags and the backlog do not matter. */
  lemma StreamingOwned(cfg: Config, s: State, s': State)
    requires Owned(cfg, s)
    requires s'.pool == s.pool && s'.kernel == s.kernel && s'.generation == s.generation && s'.ledger == s.ledger
    requires Pooled(cfg, s')
    ensures Owned(cfg, s')
  {
    NoFrames(s.ledger);
    LedgerOwned(cfg, s, s');
  }

  lemma NewPoolOwned(cfg: Config, s: State, layout: Layout, count: nat)
    requires Owned(cfg, s) && s.phase.Configured? && count > 0
    ensures Owned(cfg, NewPool(cfg, s, layout, count).(phase := Streaming))
  {
    var p := NewPool(cfg, s, layout, count).(phase := Streaming);
    assert !GrantsImport(cfg, s.ledger, layout) || cfg.decodeOrder;
    forall id
      ensures Sound(p, id)
    {
      assert Sound(s, id);
    }
  }

  lemma IssuedOwned(cfg: Config, s: State, s': State, slot: nat, id: nat)
    requires Owned(cfg, s) && slot < |s.pool.outputs| && !s.pool.outputs[slot].queued
    requires s' == s.(pool := s'.pool, kernel := s'.kernel, ledger := s'.ledger, stats := s'.stats)
    requires s'.pool == s.pool.(outputs := s.pool.outputs[slot := OutputSlot(true, s.ledger.next)])
    requires s'.kernel == s.kernel.(output := s.kernel.output + multiset{slot})
    requires exists t: Target :: t.frame == Nothing && s'.ledger.targets == s.ledger.targets[id := t]
    ensures Owned(cfg, s')
  {
    var t: Target :| t.frame == Nothing && s'.ledger.targets == s.ledger.targets[id := t];
    assert Mirrors(s');
    forall x
      ensures x != id ==> s'.ledger.Get(x) == s.ledger.Get(x)
      ensures Sound(s', x)
    {
      assert Sound(s, x);
    }
    assert s'.ledger.Get(id).frame == Nothing;
  }

  lemma SubmitOwned(cfg: Config, s: State, id: nat, publish: Publish, destination: Destination, fd: int)
    requires Owned(cfg, s) && FreeOutput(s.pool.outputs, 0) < |s.pool.outputs|
    ensures Owned(cfg, SubmitStep(s, id, publish, destination, fd))
  {
    hide QueueNext, Owned;
    var slot := FreeOutput(s.pool.outputs, 0);
    var issued := s.(pool := s.pool.(outputs := s.pool.outputs[slot := OutputSlot(true, s.ledger.next)]),
                     kernel := s.kernel.(output := s.kernel.output + multiset{slot}),
                     ledger := s.ledger.Issue(id, publish, destination),
                     stats := s.stats.(submitted := s.stats.submitted + 1));
    IssuedOwned(cfg, s, issued, slot, id);
    if s.pool.memory == Dmabuf {
      var listed := issued.(backlog := s.backlog + [Entry(s.ledger.next, if destination.Buffer? then fd else -1)]);
      PooledOf(cfg, issued);
      StreamingOwned(cfg, issued, listed);
      QueueNextOwned(cfg, listed);
    }
  }

  lemma OutputOwned(cfg: Config, s: State, index: nat, error: bool)
    requires Owned(cfg, s) && index < |s.pool.outputs| && index in s.kernel.output
    ensures Owned(cfg, OutputStep(s, index, error))
  {
    var s' := OutputStep(s, index, error);
    assert Mirrors(s');
    FailFrames(s.ledger, s.pool.outputs[index].token);
    forall x
      ensures Sound(s', x)
    {
      assert Sound(s, x);
    }
  }

  lemma CaptureOwned(cfg: Config, s: State, d: Completion, copyFails: bool)
    requires Owned(cfg, s) && Conserved(s.ledger) && d.index < |s.pool.capture| && d.index in s.kernel.capture
    ensures Owned(cfg, CaptureStep(cfg, s, d, copyFails))
  {
    TakenOwned(cfg, s, d.index);
    hide Owned, Conserved, QueueNext, Deliver;
    var taken := Taken(s, d.index);
    QueueNextOwned(cfg, taken);
    QueueNextConserves(taken);
    var next := NextIfStreaming(taken);
    var last := NoteLast(next, d.last);
    PooledOf(cfg, next);
    StreamingOwned(cfg, next, last);
    DeliverOwned(cfg, last, d, s.pool.capture[d.index].importToken, copyFails);
  }

  lemma StreamOffOwned(cfg: Config, s: State)
    requires Owned(cfg, s) && s.phase.RestartPending?
    ensures Owned(cfg, StreamOffStep(s))
  {
    var s' := StreamOffStep(s);
    forall id
      ensures Sound(s', id)
    {
      assert Sound(s, id);
    }
  }

  lemma TeardownOwned(cfg: Config, s: State)
    requires Owned(cfg, s) && s.ledger.HeldSlots(s.generation) == {}
    ensures Owned(cfg, TeardownStep(s))
  {
    var s' := TeardownStep(s);
    forall id
      ensures Sound(s', id)
    {
      assert Sound(s, id);
      HeldBy(s.ledger, s.generation, id);
    }
  }

  lemma ReleaseFrames(l: Ledger, id: nat)
    ensures Frames(l, l.Release(id))
  {
  }

  lemma StepOwned(cfg: Config, s: State, a: Action)
    requires Enabled(cfg, s, a) && Conserved(s.ledger) && Owned(cfg, s)
    ensures Owned(cfg, Step(cfg, s, a))
  {
    PooledOf(cfg, s);
    hide Owned, Conserved, Frames, QueueNext, QueueScratch, Requeued, SubmitStep, OutputStep, CaptureStep,
         ConfigureStep,
         StreamOffStep, TeardownStep, RequeueStep;
    match a
    case Submit(id, publish, destination, fd) => SubmitOwned(cfg, s, id, publish, destination, fd);
    case OutputReturn(index, error) => OutputOwned(cfg, s, index, error);
    case CaptureReturn(d, copyFails) => CaptureOwned(cfg, s, d, copyFails);
    case Requeue => RequeueOwned(cfg, s);
    case ConfigureCapture(layout, count, fds) => ConfigureOwned(cfg, s, layout, count, fds);
    case DrainFeed(scratch) =>
      QueueNextOwned(cfg, s);
      RequeueOwned(cfg, s);
      if s.pool.memory == Dmabuf {
        ScratchOwned(cfg, QueueNext(s), scratch);
      }
    case StreamOff => StreamOffOwned(cfg, s);
    case Teardown => TeardownOwned(cfg, s);
    case _ => LedgerStepOwned(cfg, s, a);
  }

  /** Actions that leave slots and queues alone. */
  lemma LedgerStepOwned(cfg: Config, s: State, a: Action)
    requires Enabled(cfg, s, a) && Owned(cfg, s)
    requires a.Release? || a.SourceChange? || a.DrainBegin? || a.DrainEnd? || a.Restart? || a.Timeout? || a.Fail?
             || a.Finish? || a.RejectImport?
    ensures Owned(cfg, Step(cfg, s, a))
  {
    PooledOf(cfg, s);
    var s' := Step(cfg, s, a);
    assert Frames(s.ledger, s'.ledger) by {
      NoFrames(s.ledger);
      if a.Timeout? {
        FailFrames(s.ledger, s.ledger.Get(a.id).token);
      } else if a.Release? {
        ReleaseFrames(s.ledger, a.id);
      }
      FailExceptFrames(s.ledger, Owed(s.pool.outputs), s.ledger.next);
      FailExceptFrames(s.ledger, {}, s.ledger.next);
    }
    hide Owned;
    LedgerOwned(cfg, s, s');
  }

  lemma {:induction false} RunsAreOwned(cfg: Config, outputs: nat, h: seq<Action>)
    requires Legal(cfg, outputs, h)
    ensures Conserved(Replay(cfg, outputs, h).ledger) && Owned(cfg, Replay(cfg, outputs, h))
    decreases |h|
  {
    TokensAreConserved(cfg, outputs, h);
    hide Conserved, Step, Enabled;
    if h != [] {
      var n := |h| - 1;
      RunsAreOwned(cfg, outputs, h[..n]);
      hide Owned;
      StepOwned(cfg, Replay(cfg, outputs, h[..n]), h[n]);
    }
  }
}
