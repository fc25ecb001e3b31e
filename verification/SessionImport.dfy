/** Publication: which completion may complete which target, and why an Import pool fails closed. */
module SessionImport {
  import opened Layouts
  import opened Slots
  import opened SessionModel
  import opened SessionTokens
  import opened SessionSlots

  // ---------------------------------------------------------------- what is published

  predicate IsPublished(l: Ledger, token: nat) {
    Event(token, Published) in l.log
  }

  /** Nothing new is published and no target newly completed. */
  ghost predicate Unpublished(l: Ledger, l': Ledger) {
    && (forall t :: IsPublished(l', t) ==> IsPublished(l, t))
    && (forall id :: l'.Get(id).completed ==> l.Get(id).completed)
  }

  predicate IsStranded(l: Ledger, token: nat) {
    Event(token, Stranded) in l.log
  }

  /** ... nor is any token stranded. */
  ghost predicate Quiet(l: Ledger, l': Ledger) {
    && Unpublished(l, l')
    && forall t :: IsStranded(l', t) ==> IsStranded(l, t)
  }

  lemma FailQuiet(l: Ledger, token: nat)
    ensures Quiet(l, l.Fail(token))
  {
  }

  lemma {:induction false} FailExceptQuiet(l: Ledger, keep: set<nat>, n: nat)
    ensures Quiet(l, l.FailExcept(keep, n))
  {
    hide IsPublished, IsStranded;
    if n > 0 {
      FailExceptQuiet(l, keep, n - 1);
      FailQuiet(l.FailExcept(keep, n - 1), n - 1);
    }
  }

  lemma {:induction false} QueueNextQuiet(s: State)
    ensures Quiet(s.ledger, QueueNext(s).ledger)
    decreases |s.backlog|
  {
    hide Idle, IsPublished, IsStranded;
    if s.pool.memory == Dmabuf && s.backlog != [] && Idle(s.pool.capture) {
      var e := s.backlog[0];
      if e.fd < 0 {
        QueueNextQuiet(s.(backlog := s.backlog[1..]));
      } else if Bufferless(s.ledger, e.token) {
        FailQuiet(s.ledger, e.token);
        QueueNextQuiet(CountError(s.(backlog := s.backlog[1..], ledger := s.ledger.Fail(e.token))));
      }
    }
  }

  /** The completion that publishes `token`: its own picture, undamaged, in the slot queued for it. */
  predicate Publishes(s: State, a: Action, token: nat) {
    && a.CaptureReturn? && a.d.timestamp == token && a.d.payload && !a.d.error
    && a.d.index < |s.pool.capture|
    && (s.pool.memory == Dmabuf ==> s.pool.capture[a.d.index].importToken == token)
  }

  /** Nothing is published but by its own completion, which completes only the target that owns the token. */
  lemma PublishedByItsCompletion(cfg: Config, s: State, a: Action, token: nat)
    requires Enabled(cfg, s, a) && Conserved(s.ledger)
    requires IsPublished(Step(cfg, s, a).ledger, token) && !IsPublished(s.ledger, token)
    ensures Publishes(s, a, token) && token in s.ledger.pending
    ensures Step(cfg, s, a).ledger.Get(s.ledger.pending[token]).completed
  {
    hide Conserved, CaptureStep;
    if a.CaptureReturn? {
      CapturePublishes(cfg, s, a.d, a.copyFails);
    } else {
      OtherStepsQuiet(cfg, s, a);
      assert false;
    }
  }

  lemma CompletedByItsCompletion(cfg: Config, s: State, a: Action, id: nat)
    requires Enabled(cfg, s, a) && Conserved(s.ledger)
    requires Step(cfg, s, a).ledger.Get(id).completed && !s.ledger.Get(id).completed
    ensures Owns(s.ledger, id) && Publishes(s, a, s.ledger.Get(id).token)
  {
    hide Conserved, CaptureStep, IsPublished, IsStranded;
    if a.CaptureReturn? {
      CapturePublishes(cfg, s, a.d, a.copyFails);
    } else {
      OtherStepsQuiet(cfg, s, a);
      assert false;
    }
  }

  /** A completion publishes its timestamp or nothing. */
  lemma CapturePublishes(cfg: Config, s: State, d: Completion, copyFails: bool)
    requires Conserved(s.ledger) && d.index < |s.pool.capture|
    ensures var l' := CaptureStep(cfg, s, d, copyFails).ledger;
            Unpublished(s.ledger, l') ||
            (&& d.timestamp in s.ledger.pending && d.payload && !d.error
             && (s.pool.memory == Dmabuf ==> s.pool.capture[d.index].importToken == d.timestamp)
             && l'.Get(s.ledger.pending[d.timestamp]).completed
             && (forall t :: IsPublished(l', t) ==> IsPublished(s.ledger, t) || t == d.timestamp)
             && (forall id :: l'.Get(id).completed && !s.ledger.Get(id).completed ==>
                   Owns(s.ledger, id) && s.ledger.Get(id).token == d.timestamp))
  {
    hide Conserved, QueueNext, Deliver, IsPublished, IsStranded;
    var taken := Taken(s, d.index);
    var owner := s.pool.capture[d.index].importToken;
    QueueNextQuiet(taken);
    QueueNextConserves(taken);
    QueueNextPending(taken);
    var next := NextIfStreaming(taken);
    var last := NoteLast(next, d.last);
    KeepsMemory(taken);
    DeliverPublishes(cfg, last, d, owner, copyFails);
    var l' := CaptureStep(cfg, s, d, copyFails).ledger;
    if Unpublished(last.ledger, l') {
    } else {
      PendingOwner(s.ledger, d.timestamp);
    }
  }

  lemma PendingOwner(l: Ledger, token: nat)
    requires Conserved(l)
    ensures token in l.pending ==> Owns(l, l.pending[token]) && l.Get(l.pending[token]).token == token
  {
  }

  lemma {:induction false} KeepsMemory(s: State)
    ensures QueueNext(s).pool.memory == s.pool.memory && QueueNext(s).phase == s.phase
    ensures QueueNext(s).spent == s.spent && QueueNext(s).generation == s.generation
    decreases |s.backlog|
  {
    hide Idle;
    if s.pool.memory == Dmabuf && s.backlog != [] && Idle(s.pool.capture) {
      var e := s.backlog[0];
      if e.fd < 0 {
        KeepsMemory(s.(backlog := s.backlog[1..]));
      } else if Bufferless(s.ledger, e.token) {
        KeepsMemory(CountError(s.(backlog := s.backlog[1..], ledger := s.ledger.Fail(e.token))));
      }
    }
  }

  /** queue_import_next can only take tokens off the map. */
  lemma {:induction false} QueueNextPending(s: State)
    ensures forall t :: t in QueueNext(s).ledger.pending ==>
              t in s.ledger.pending && QueueNext(s).ledger.pending[t] == s.ledger.pending[t]
    ensures QueueNext(s).ledger.next == s.ledger.next
    decreases |s.backlog|
  {
    hide Idle;
    if s.pool.memory == Dmabuf && s.backlog != [] && Idle(s.pool.capture) {
      var e := s.backlog[0];
      if e.fd < 0 {
        QueueNextPending(s.(backlog := s.backlog[1..]));
      } else if Bufferless(s.ledger, e.token) {
        QueueNextPending(CountError(s.(backlog := s.backlog[1..], ledger := s.ledger.Fail(e.token))));
      }
    }
  }

  lemma DeliverPublishes(cfg: Config, s: State, d: Completion, owner: nat, copyFails: bool)
    ensures var l' := Deliver(cfg, s, d, owner, copyFails).ledger;
            Unpublished(s.ledger, l') ||
            (&& d.timestamp in s.ledger.pending && d.payload && !d.error
             && (s.pool.memory == Dmabuf ==> owner == d.timestamp)
             && l'.Get(s.ledger.pending[d.timestamp]).completed
             && (forall t :: IsPublished(l', t) ==> IsPublished(s.ledger, t) || t == d.timestamp)
             && (forall id :: l'.Get(id).completed && !s.ledger.Get(id).completed ==>
                id == s.ledger.pending[d.timestamp]))
  {
    FailQuiet(s.ledger, d.timestamp);
    FailQuiet(s.ledger.Fail(d.timestamp), owner);
    if d.timestamp in s.ledger.pending {
      PublishPublishes(cfg, s, d.timestamp, d.index, copyFails);
    }
    hide PublishStep, IsPublished, IsStranded;
  }

  lemma PublishPublishes(cfg: Config, s: State, token: nat, index: nat, copyFails: bool)
    requires token in s.ledger.pending
    ensures var l' := PublishStep(cfg, s, token, index, copyFails).ledger;
            && (Unpublished(s.ledger, l') || l'.Get(s.ledger.pending[token]).completed)
            && (forall t :: IsPublished(l', t) ==> IsPublished(s.ledger, t) || t == token)
            && (forall id :: l'.Get(id).completed && !s.ledger.Get(id).completed ==> id == s.ledger.pending[token])
  {
  }

  lemma OtherStepsQuiet(cfg: Config, s: State, a: Action)
    requires Enabled(cfg, s, a) && !a.CaptureReturn?
    ensures Quiet(s.ledger, Step(cfg, s, a).ledger)
  {
    hide QueueNext, QueueScratch, Requeued, IsPublished, IsStranded, Gathered, NewPool;
    match a
    case Submit(id, publish, destination, fd) =>
      SubmitQuiet(s, id, publish, destination, fd);
    case OutputReturn(index, error) => FailQuiet(s.ledger, s.pool.outputs[index].token);
    case ConfigureCapture(layout, count, fds) =>
      var p := NewPool(cfg, s, layout, count);
      NewPoolKeeps(cfg, s, layout, count);
      QueueNextQuiet(p.(backlog := Gathered(p.ledger, p.backlog, fds, p.ledger.next)));
    case DrainFeed(scratch) =>
      QueueNextQuiet(s);
      ScratchKeepsLedger(QueueNext(s), scratch);
    case DrainEnd => FailExceptQuiet(s.ledger, Owed(s.pool.outputs), s.ledger.next);
    case Timeout(id) => TimeoutQuiet(s, id);
    case Fail => FailExceptQuiet(s.ledger, {}, s.ledger.next);
    case Release(id) => ReleaseQuiet(s.ledger, id);
    case _ =>
  }

  lemma TimeoutQuiet(s: State, id: nat)
    ensures Quiet(s.ledger, TimeoutStep(s, id).ledger)
  {
    FailQuiet(s.ledger, s.ledger.Get(id).token);
  }

  lemma ReleaseQuiet(l: Ledger, id: nat)
    ensures Quiet(l, l.Release(id))
  {
  }

  lemma NewPoolKeeps(cfg: Config, s: State, layout: Layout, count: nat)
    ensures NewPool(cfg, s, layout, count).ledger == s.ledger
    ensures NewPool(cfg, s, layout, count).backlog == s.backlog
    ensures NewPool(cfg, s, layout, count).spent == s.spent
  {
  }

  lemma IssueQuiet(l: Ledger, id: nat, publish: Publish, destination: Destination)
    ensures Quiet(l, l.Issue(id, publish, destination))
  {
  }

  lemma SubmitQuiet(s: State, id: nat, publish: Publish, destination: Destination, fd: int)
    requires FreeOutput(s.pool.outputs, 0) < |s.pool.outputs|
    ensures Quiet(s.ledger, SubmitStep(s, id, publish, destination, fd).ledger)
  {
    hide QueueNext, IsPublished, IsStranded;
    var issued := s.ledger.Issue(id, publish, destination);
    IssueQuiet(s.ledger, id, publish, destination);
    forall s': State | s'.ledger == issued
      ensures Quiet(issued, QueueNext(s').ledger)
    {
      QueueNextQuiet(s');
    }
  }

  // ---------------------------------------------------------------- an Import pool fails closed

  /** In an Import pool a token's buffer is waiting, with the firmware, or spent, and in one place only. */
  ghost predicate Single(s: State) {
    && BacklogSound(s.backlog, s.ledger.next)
    && (forall i :: 0 <= i < |s.pool.capture| ==> SlotSound(s, s.pool.capture[i]))
    && (forall i, j :: 0 <= i < j < |s.pool.capture| && s.pool.capture[i].importToken != 0 ==>
          s.pool.capture[i].importToken != s.pool.capture[j].importToken)
    && (forall t :: t in s.spent ==> 0 < t < s.ledger.next && !Listed(s.backlog, t))
    && (s.spent != {} ==> s.pool.memory == Dmabuf)
  }

  ghost predicate BacklogSound(backlog: seq<Entry>, next: nat) {
    && (forall i :: 0 <= i < |backlog| ==> 0 < backlog[i].token < next)
    && (forall i, j :: 0 <= i < j < |backlog| ==> backlog[i].token != backlog[j].token)
  }

  ghost predicate SlotSound(s: State, f: Frame) {
    f.importToken != 0 ==>
      && s.pool.memory == Dmabuf && f.queued && f.importToken < s.ledger.next
      && !Listed(s.backlog, f.importToken) && f.importToken !in s.spent
  }

  /** Flags, ledger entries and queues do not matter; the backlog may shrink. */
  lemma SingleFrame(s: State, s': State)
    requires Single(s) && BacklogSound(s'.backlog, s'.ledger.next)
    requires s'.pool.capture == s.pool.capture && s'.pool.memory == s.pool.memory && s'.spent == s.spent
    requires s'.ledger.next >= s.ledger.next
    requires forall t: nat :: t < s.ledger.next && Listed(s'.backlog, t) ==> Listed(s.backlog, t)
    ensures Single(s')
  {
    forall i | 0 <= i < |s'.pool.capture|
      ensures SlotSound(s', s'.pool.capture[i])
    {
      assert SlotSound(s, s.pool.capture[i]);
    }
  }

  lemma SingleBacklog(s: State)
    requires Single(s)
    ensures BacklogSound(s.backlog, s.ledger.next)
  {
  }

  lemma FailKeepsNext(l: Ledger, token: nat)
    ensures l.Fail(token).next == l.next
  {
  }

  lemma {:induction false} FailExceptKeepsNext(l: Ledger, keep: set<nat>, n: nat)
    ensures l.FailExcept(keep, n).next == l.next
  {
    if n > 0 {
      FailExceptKeepsNext(l, keep, n - 1);
    }
  }

  /** A slot takes the token at the head of the backlog, or none. */
  lemma QueueSlotSingle(s: State, index: nat, frame: Frame, s': State)
    requires Single(s) && s.pool.memory == Dmabuf && index < |s.pool.capture| && frame.queued
    requires !s.pool.capture[index].queued
    requires s'.pool.capture == s.pool.capture[index := frame] && s'.pool.memory == Dmabuf
    requires s'.ledger == s.ledger && s'.spent == s.spent
    requires if frame.importToken == 0 then s'.backlog == s.backlog
             else s.backlog != [] && frame.importToken == s.backlog[0].token && s'.backlog == s.backlog[1..]
    ensures Single(s')
  {
    assert SlotSound(s, s.pool.capture[index]);
    forall i | 0 <= i < |s.pool.capture|
      ensures SlotSound(s', s'.pool.capture[i])
      ensures i != index && frame.importToken != 0 ==> s.pool.capture[i].importToken != frame.importToken
    {
      assert SlotSound(s, s.pool.capture[i]);
    }
  }

  lemma {:induction false} QueueNextSingle(s: State)
    requires Single(s)
    ensures Single(QueueNext(s))
    decreases |s.backlog|
  {
    hide Single, Idle, BacklogSound;
    if s.pool.memory == Dmabuf && s.backlog != [] && Idle(s.pool.capture) {
      var e := s.backlog[0];
      var rest := s.(backlog := s.backlog[1..]);
      SingleBacklog(s);
      if e.fd < 0 {
        SingleFrame(s, rest);
        QueueNextSingle(rest);
      } else if Bufferless(s.ledger, e.token) {
        var failed := CountError(rest.(ledger := s.ledger.Fail(e.token)));
        FailKeepsNext(s.ledger, e.token);
        SingleFrame(s, failed);
        QueueNextSingle(failed);
      } else if !Misfit(s.ledger, e.token, s.pool.layout) {
        var index := ImportSlot(s.pool.capture, e.fd);
        if index < |s.pool.capture| {
          QueueSlotSingle(s, index, Frame(true, e.token, e.fd), GiveBuffer(s));
        }
      }
    }
  }

  lemma TakenSingle(s: State, index: nat)
    requires Single(s) && index < |s.pool.capture|
    ensures Single(Taken(s, index))
    ensures Taken(s, index).pool.memory == s.pool.memory
  {
    var s' := Taken(s, index);
    assert SlotSound(s, s.pool.capture[index]);
    forall i | 0 <= i < |s.pool.capture|
      ensures SlotSound(s', s'.pool.capture[i])
    {
      assert SlotSound(s, s.pool.capture[i]);
      if i < index {
        assert s.pool.capture[i].importToken != 0 ==>
               s.pool.capture[i].importToken != s.pool.capture[index].importToken;
      }
    }
  }

  lemma {:induction false} GatheredSound(l: Ledger, backlog: seq<Entry>, fds: map<nat, int>, n: nat)
    requires BacklogSound(backlog, l.next) && n <= l.next && 0 !in l.pending
    ensures BacklogSound(Gathered(l, backlog, fds, n), l.next)
  {
    if n > 0 {
      GatheredSound(l, backlog, fds, n - 1);
    }
  }

  lemma RequeueSingle(s: State)
    requires Single(s)
    ensures Single(RequeueStep(s))
  {
    if s.pool.memory == Mmap {
      forall i | 0 <= i < |s.pool.capture|
        ensures s.pool.capture[i].importToken == 0
      {
        assert SlotSound(s, s.pool.capture[i]);
      }
      RequeuedTokens(s.pool.capture, s.kernel.capture, s.ledger.HeldSlots(s.generation), 0);
    }
  }

  lemma {:induction false} RequeuedTokens(capture: seq<Frame>, kernel: multiset<nat>, held: set<nat>, i: nat)
    requires i <= |capture|
    ensures |Requeued(capture, kernel, held, i).0| == |capture|
    ensures forall j :: 0 <= j < |capture| ==>
            Requeued(capture, kernel, held, i).0[j].importToken == capture[j].importToken
    decreases |capture| - i
  {
    if i < |capture| {
      if capture[i].queued || i in held {
        RequeuedTokens(capture, kernel, held, i + 1);
      } else {
        RequeuedTokens(capture[i := capture[i].(queued := true)], kernel + multiset{i}, held, i + 1);
      }
    }
  }

  lemma SubmitSingle(s: State, id: nat, publish: Publish, destination: Destination, fd: int)
    requires Single(s) && Conserved(s.ledger) && FreeOutput(s.pool.outputs, 0) < |s.pool.outputs|
    ensures Single(SubmitStep(s, id, publish, destination, fd))
  {
    assert s.ledger.next > 0;
    hide Single, QueueNext, Conserved;
    var entry := Entry(s.ledger.next, if destination.Buffer? then fd else -1);
    var slot := FreeOutput(s.pool.outputs, 0);
    var issued := s.(pool := s.pool.(outputs := s.pool.outputs[slot := OutputSlot(true, s.ledger.next)]),
                     kernel := s.kernel.(output := s.kernel.output + multiset{slot}),
                     ledger := s.ledger.Issue(id, publish, destination),
                     stats := s.stats.(submitted := s.stats.submitted + 1));
    var listed := issued.(backlog := s.backlog + [entry]);
    IssuedSingle(s, issued);
    ListedSingle(s, entry, listed);
    QueueNextSingle(listed);
  }

  lemma IssuedSingle(s: State, s': State)
    requires Single(s) && s'.pool.capture == s.pool.capture && s'.pool.memory == s.pool.memory
    requires s'.spent == s.spent && s'.backlog == s.backlog && s'.ledger.next >= s.ledger.next
    ensures Single(s')
  {
    SingleBacklog(s);
    SingleFrame(s, s');
  }

  lemma ListedSingle(s: State, entry: Entry, s': State)
    requires Single(s) && s'.pool.capture == s.pool.capture && s'.pool.memory == s.pool.memory
    requires s'.spent == s.spent && s'.backlog == s.backlog + [entry]
    requires entry.token == s.ledger.next > 0 && s'.ledger.next == s.ledger.next + 1
    ensures Single(s')
  {
    SingleBacklog(s);
    hide Single;
    forall t: nat | t < s.ledger.next && Listed(s'.backlog, t)
      ensures Listed(s.backlog, t)
    {
      var i :| 0 <= i < |s'.backlog| && s'.backlog[i].token == t;
      assert s.backlog[i].token == t;
    }
    SingleFrame(s, s');
  }

  lemma ConfigureSingle(cfg: Config, s: State, layout: Layout, count: nat, fds: map<nat, int>)
    requires Single(s) && Conserved(s.ledger) && s.spent == {}
    ensures Single(ConfigureStep(cfg, s, layout, count, fds))
  {
    NewPoolKeeps(cfg, s, layout, count);
    var p := NewPool(cfg, s, layout, count);
    assert Single(p);
    assert 0 !in s.ledger.pending by {
      assert forall t: nat :: 1 <= t < s.ledger.next <==> t in s.ledger.pending || Logged(s.ledger.log, t);
    }
    var gathered := p.(backlog := Gathered(p.ledger, p.backlog, fds, p.ledger.next));
    GatheredSound(p.ledger, p.backlog, fds, p.ledger.next);
    assert Single(gathered);
    hide Single, QueueNext, Gathered, NewPool, RequeueStep, Conserved;
    QueueNextSingle(gathered);
    RequeueSingle(p);
    var next := if p.pool.memory == Dmabuf then QueueNext(gathered) else RequeueStep(p);
    FlagsSingle(next, ConfigureStep(cfg, s, layout, count, fds));
  }

  /** Nothing that matters here changes. */
  lemma FlagsSingle(s: State, s': State)
    requires Single(s)
    requires s'.pool.capture == s.pool.capture && s'.pool.memory == s.pool.memory && s'.spent == s.spent
    requires s'.backlog == s.backlog && s'.ledger.next == s.ledger.next
    ensures Single(s')
  {
    SingleBacklog(s);
    SingleFrame(s, s');
  }

  lemma CaptureSingle(cfg: Config, s: State, d: Completion, copyFails: bool)
    requires Single(s) && d.index < |s.pool.capture|
    ensures Single(CaptureStep(cfg, s, d, copyFails))
    ensures CaptureStep(cfg, s, d, copyFails).spent == Taken(s, d.index).spent
    ensures CaptureStep(cfg, s, d, copyFails).generation == s.generation
  {
    TakenSingle(s, d.index);
    hide Single, QueueNext, Taken;
    var taken := Taken(s, d.index);
    QueueNextSingle(taken);
    KeepsMemory(taken);
    var next := NextIfStreaming(taken);
    var last := NoteLast(next, d.last);
    DeliverKeeps(cfg, last, d, s.pool.capture[d.index].importToken, copyFails);
    FlagsSingle(next, CaptureStep(cfg, s, d, copyFails));
    TakenGeneration(s, d.index);
  }

  lemma TakenGeneration(s: State, index: nat)
    requires index < |s.pool.capture|
    ensures Taken(s, index).generation == s.generation && Taken(s, index).ledger == s.ledger
  {
  }

  /** Delivery is a matter of the ledger and the statistics. */
  lemma DeliverKeeps(cfg: Config, s: State, d: Completion, owner: nat, copyFails: bool)
    ensures var s' := Deliver(cfg, s, d, owner, copyFails);
            s' == s.(ledger := s'.ledger, stats := s'.stats) && s'.ledger.next == s.ledger.next
  {
    FailKeepsNext(s.ledger, d.timestamp);
    FailKeepsNext(s.ledger.Fail(d.timestamp), owner);
    if d.timestamp in s.ledger.pending {
      PublishKeeps(cfg, s, d.timestamp, d.index, copyFails);
    }
    hide PublishStep, Copies;
  }

  lemma PublishKeeps(cfg: Config, s: State, token: nat, index: nat, copyFails: bool)
    requires token in s.ledger.pending
    ensures var s' := PublishStep(cfg, s, token, index, copyFails);
            s' == s.(ledger := s'.ledger, stats := s'.stats) && s'.ledger.next == s.ledger.next
  {
    hide Copies, Delivered;
  }

  lemma NotConfiguredYet(cfg: Config, s: State)
    requires Owned(cfg, s) && Single(s) && s.phase.Configured?
    ensures s.spent == {}
  {
  }

  lemma StreamOffSingle(s: State)
    requires Single(s)
    ensures Single(StreamOffStep(s))
  {
  }

  lemma TeardownSingle(s: State)
    requires Single(s)
    ensures Single(TeardownStep(s))
  {
  }

  lemma StepSingle(cfg: Config, s: State, a: Action)
    requires Enabled(cfg, s, a) && Conserved(s.ledger) && Owned(cfg, s) && Single(s)
    ensures Single(Step(cfg, s, a))
  {
    if s.phase.Configured? {
      NotConfiguredYet(cfg, s);
    }
    hide Owned, Conserved, Single, QueueNext, QueueScratch, Requeued, SubmitStep, OutputStep, CaptureStep,
         ConfigureStep,
         StreamOffStep, TeardownStep, RequeueStep, FailStep, DrainEndStep, TimeoutStep;
    match a
    case Submit(id, publish, destination, fd) => SubmitSingle(s, id, publish, destination, fd);
    case CaptureReturn(d, copyFails) => CaptureSingle(cfg, s, d, copyFails);
    case Requeue => RequeueSingle(s);
    case ConfigureCapture(layout, count, fds) => ConfigureSingle(cfg, s, layout, count, fds);
    case DrainFeed(scratch) =>
      QueueNextSingle(s);
      RequeueSingle(s);
      KeepsMemory(s);
    case StreamOff => StreamOffSingle(s);
    case Teardown => TeardownSingle(s);
    case _ => LedgerStepSingle(cfg, s, a);
  }

  lemma LedgerStepSingle(cfg: Config, s: State, a: Action)
    requires Enabled(cfg, s, a) && Single(s)
    requires a.Release? || a.SourceChange? || a.DrainBegin? || a.DrainEnd? || a.Restart? || a.Timeout? || a.Fail?
             || a.Finish? || a.RejectImport? || a.OutputReturn?
    ensures Single(Step(cfg, s, a))
  {
    hide Single, BacklogSound;
    LedgerStepFrame(cfg, s, a);
    EmptyBacklog(s);
    IssuedSingle(if a.Fail? then s.(backlog := []) else s, Step(cfg, s, a));
  }

  lemma LedgerStepFrame(cfg: Config, s: State, a: Action)
    requires Enabled(cfg, s, a)
    requires a.Release? || a.SourceChange? || a.DrainBegin? || a.DrainEnd? || a.Restart? || a.Timeout? || a.Fail?
             || a.Finish? || a.RejectImport? || a.OutputReturn?
    ensures var s' := Step(cfg, s, a);
            && s'.pool.capture == s.pool.capture && s'.pool.memory == s.pool.memory && s'.spent == s.spent
            && s'.ledger.next == s.ledger.next && s'.backlog == (if a.Fail? then [] else s.backlog)
            && s'.generation == s.generation
  {
    hide Owed, LostBelow, Ledger.FailExcept, Ledger.HeldSlots;
    match a
    case DrainEnd => FailExceptKeepsNext(s.ledger, Owed(s.pool.outputs), s.ledger.next);
    case Fail => FailExceptKeepsNext(s.ledger, {}, s.ledger.next);
    case Timeout(id) => FailKeepsNext(s.ledger, s.ledger.Get(id).token);
    case OutputReturn(index, error) => FailKeepsNext(s.ledger, s.pool.outputs[index].token);
    case _ =>
  }

  lemma EmptyBacklog(s: State)
    requires Single(s)
    ensures Single(s.(backlog := []))
  {
    SingleFrame(s, s.(backlog := []));
  }

  lemma {:induction false} RunsAreSingle(cfg: Config, outputs: nat, h: seq<Action>)
    requires Legal(cfg, outputs, h)
    ensures var s := Replay(cfg, outputs, h); Conserved(s.ledger) && Owned(cfg, s) && Single(s)
    decreases |h|
  {
    RunsAreOwned(cfg, outputs, h);
    hide Conserved, Step, Enabled, Owned;
    if h != [] {
      var n := |h| - 1;
      RunsAreSingle(cfg, outputs, h[..n]);
      hide Single;
      StepSingle(cfg, Replay(cfg, outputs, h[..n]), h[n]);
    }
  }
}
