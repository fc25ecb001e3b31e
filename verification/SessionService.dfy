/** The session itself (src/iris/session.cc): its fields, its service loop and its entry points. Every piece of
    work is recorded as an action, so that what is proved about all runs is proved about this code. A deadline
    is a number of rounds that the environment chooses; so are allocation and format failures. */
module SessionService {
  import opened Outcome
  import opened Layouts
  import opened Slots
  import opened SessionModel
  import opened SessionTokens
  import opened SessionSlots
  import opened SessionImport
  import opened SessionTheorems
  import opened SessionTargets
  import opened SessionEffects

  /** `h'` continues `h` with actions that no caller of submit or release asked for. */
  ghost predicate Serviced(h: seq<Action>, h': seq<Action>) {
    && |h| <= |h'| && h == h'[..|h|]
    && forall i :: |h| <= i < |h'| ==> !h'[i].Submit? && !h'[i].Release?
  }

  lemma ServicedRefl(h: seq<Action>)
    ensures Serviced(h, h)
  {
  }

  lemma ServicedOn(a: seq<Action>, b: seq<Action>, c: seq<Action>)
    requires Serviced(a, b) && Serviced(b, c)
    ensures Serviced(a, c)
  {
    assert c[..|b|][..|a|] == c[..|a|];
    forall i | |a| <= i < |c|
      ensures !c[i].Submit? && !c[i].Release?
    {
      if i < |b| {
        assert c[..|b|][i] == c[i];
      }
    }
  }

  /** Kinds of work in the service loops. */
  datatype Job = EventJob | OutputJob | CaptureJob | DrainJob

  predicate Does(j: Job, a: Action) {
    match j
    case EventJob => a.SourceChange?
    case OutputJob => a.OutputReturn?
    case CaptureJob => a.CaptureReturn?
    case DrainJob => a.SourceChange? || a.OutputReturn? || a.CaptureReturn? || a.DrainFeed?
  }

  /** `h'` continues `h` with nothing but such work. */
  ghost predicate Added(j: Job, h: seq<Action>, h': seq<Action>) {
    h <= h' && forall i :: |h| <= i < |h'| ==> Does(j, h'[i])
  }

  lemma AddedNone(j: Job, h: seq<Action>)
    ensures Added(j, h, h)
  {
  }

  lemma AddedOne(j: Job, h: seq<Action>, h': seq<Action>, a: Action)
    requires Added(j, h, h') && Does(j, a)
    ensures Added(j, h, h' + [a])
  {
  }

  lemma AddedOn(a: seq<Action>, b: seq<Action>, c: seq<Action>, j: Job, k: Job)
    requires Added(k, a, b) && Added(j, b, c) && (j == k || k == DrainJob)
    ensures Added(k, a, c)
  {
    forall i | |a| <= i < |c|
      ensures Does(k, c[i])
    {
      assert i < |b| ==> c[i] == b[i];
    }
  }

  lemma AddedServiced(j: Job, h: seq<Action>, h': seq<Action>)
    requires Added(j, h, h')
    ensures Serviced(h, h')
  {
    assert h'[..|h|] == h;
  }

  lemma SourceChangeStep(cfg: Config, s: State)
    requires !s.phase.Failed?
    ensures Step(cfg, s, SourceChange) == s.(sourceChange := true)
  {
  }

  lemma OutputReturnStep(cfg: Config, s: State, index: nat, error: bool)
    requires Enabled(cfg, s, OutputReturn(index, error))
    ensures Step(cfg, s, OutputReturn(index, error)) == OutputStep(s, index, error)
  {
  }

  lemma CaptureReturnStep(cfg: Config, s: State, d: Completion, copyFails: bool)
    requires Enabled(cfg, s, CaptureReturn(d, copyFails))
    ensures Step(cfg, s, CaptureReturn(d, copyFails)) == CaptureStep(cfg, s, d, copyFails)
  {
  }

  lemma FailActionStep(cfg: Config, s: State)
    requires !s.phase.Failed?
    ensures Step(cfg, s, Action.Fail) == FailStep(s)
  {
  }

  lemma SubmitActionStep(cfg: Config, s: State, a: Action)
    requires a.Submit? && Enabled(cfg, s, a)
    ensures Step(cfg, s, a) == SubmitStep(s, a.id, a.publish, a.destination, a.fd)
  {
  }

  /** A drain: STOP, rounds of servicing, and `last`. */
  ghost predicate Drained(h: seq<Action>, h': seq<Action>, reason: Reason, last: seq<Action>) {
    var begun := h + [Action.DrainBegin(reason)];
    && |begun| + |last| <= |h'| && h'[|h'| - |last|..] == last
    && Added(DrainJob, begun, h'[..|h'| - |last|])
  }

  lemma DrainedSo(h: seq<Action>, h': seq<Action>, reason: Reason, worked: seq<Action>, last: seq<Action>)
    requires Added(DrainJob, h + [Action.DrainBegin(reason)], worked) && h' == worked + last
    requires last == [] || last == [Action.Fail] || last == [Action.DrainEnd]
    ensures Drained(h, h', reason, last) && Serviced(h, h')
  {
    assert h'[..|h'| - |last|] == worked && h'[|h'| - |last|..] == last;
    var begun := h + [Action.DrainBegin(reason)];
    assert worked[..|begun|] == begun && h'[..|h|] == begun[..|h|];
    forall i | |h| <= i < |h'|
      ensures !h'[i].Submit? && !h'[i].Release?
    {
      if i < |begun| {
        assert h'[i] == begun[i];
      } else if i < |worked| {
        assert h'[i] == worked[i];
      }
    }
  }

  /** The pool was torn down and built again. */
  ghost predicate Rebuilt(h: seq<Action>, h': seq<Action>) {
    h < h' && |h'| == |h| + 2 && h'[|h|].Teardown? && h'[|h| + 1].ConfigureCapture?
  }

  /** `h'` continues `h` without any access unit. */
  ghost predicate NoSubmit(h: seq<Action>, h': seq<Action>) {
    h <= h' && forall i :: |h| <= i < |h'| ==> !h'[i].Submit?
  }

  /** `h'` continues `h` with exactly one access unit, for `id`. */
  ghost predicate OneSubmit(h: seq<Action>, h': seq<Action>, id: nat, publish: Publish, destination: Destination) {
    && h <= h'
    && exists k :: |h| <= k < |h'| && IsSubmit(h'[k], id, publish, destination)
                   && forall i :: |h| <= i < |h'| && i != k ==> !h'[i].Submit?
  }

  predicate IsSubmit(a: Action, id: nat, publish: Publish, destination: Destination) {
    a.Submit? && a.id == id && a.publish == publish && a.destination == destination
  }

  lemma NoneYet(h: seq<Action>)
    ensures NoSubmit(h, h)
  {
  }

  lemma NoneIn(h0: seq<Action>, h1: seq<Action>, h2: seq<Action>, id: nat)
    requires (h1 == h0 || h1 == h0 + [Action.Release(id)]) && Serviced(h1, h2)
    ensures NoSubmit(h0, h2)
  {
    forall i | |h0| <= i < |h2|
      ensures !h2[i].Submit?
    {
      assert i < |h1| ==> h2[..|h1|][i] == h2[i];
    }
    assert h2[..|h1|][..|h0|] == h2[..|h0|];
  }

  lemma OneIn(h0: seq<Action>, h2: seq<Action>, a: Action, h: seq<Action>)
    requires NoSubmit(h0, h2) && a.Submit? && Serviced(h2 + [a], h)
    ensures OneSubmit(h0, h, a.id, a.publish, a.destination)
  {
    var k := |h2|;
    assert h[..k + 1] == h2 + [a];
    assert h[..k + 1][k] == h[k];
    forall i | |h0| <= i < |h| && i != k
      ensures !h[i].Submit?
    {
      assert i < k ==> h[..k + 1][i] == h2[i];
    }
    assert h[..k + 1][..|h0|] == h[..|h0|];
    assert IsSubmit(h[k], a.id, a.publish, a.destination);
  }

  lemma ReleaseActionStep(cfg: Config, s: State, id: nat)
    ensures Step(cfg, s, Action.Release(id)) == s.(ledger := s.ledger.Release(id))
  {
  }

  lemma TimeoutActionStep(cfg: Config, s: State, id: nat)
    requires Enabled(cfg, s, Action.Timeout(id))
    ensures Step(cfg, s, Action.Timeout(id)) == TimeoutStep(s, id)
  {
  }

  lemma FinishActionStep(cfg: Config, s: State)
    requires Enabled(cfg, s, Action.Finish)
    ensures Step(cfg, s, Action.Finish) == s.(phase := Finished)
  {
  }

  lemma HeadOfRun(h: seq<Action>, h': seq<Action>)
    requires Serviced(h, h')
    ensures |h| <= |h'| && h == h'[..|h|] && forall i :: 0 <= i < |h| ==> h'[i] == h[i]
  {
  }

  /** Servicing never concerns a target. */
  lemma AfterTheRun(cfg: Config, outputs: nat, h: seq<Action>, h': seq<Action>, id: nat)
    requires Legal(cfg, outputs, h) && Legal(cfg, outputs, h') && Serviced(h, h')
    ensures Follows(Replay(cfg, outputs, h).ledger, Replay(cfg, outputs, h').ledger, id)
  {
    TargetsAreTold(cfg, outputs, h', |h|, id);
  }

  lemma Untouched(cfg: Config, outputs: nat, h: seq<Action>, h': seq<Action>, id: nat)
    requires Legal(cfg, outputs, h) && Legal(cfg, outputs, h') && Serviced(h, h')
    requires !Replay(cfg, outputs, h).ledger.Get(id).pending
    ensures Replay(cfg, outputs, h').ledger.Get(id) == Replay(cfg, outputs, h).ledger.Get(id)
  {
    hide Legal, Replay, Serviced;
    AfterTheRun(cfg, outputs, h, h', id);
  }

  lemma PhaseActionSteps(cfg: Config, s: State, reason: Reason)
    requires s.phase.Streaming?
    ensures Step(cfg, s, Action.DrainBegin(reason))
         == s.(phase := Draining, sawLast := false,
               stats := s.stats.(drains := s.stats.drains + 1,
                                 timeouts := s.stats.timeouts + (if reason.OnTimeout? then 1 else 0),
                                 reconfigures := s.stats.reconfigures + (if reason.OnChange? then 1 else 0)))
  {
  }

  lemma DrainFeedActionStep(cfg: Config, s: State, scratch: int)
    requires s.phase.Draining?
    ensures Step(cfg, s, Action.DrainFeed(scratch)) == DrainFeedStep(s, scratch)
  {
  }

  lemma DrainEndActionStep(cfg: Config, s: State)
    requires s.phase.Draining? && s.sawLast
    ensures Step(cfg, s, Action.DrainEnd) == DrainEndStep(s)
  {
  }

  lemma RestartActionStep(cfg: Config, s: State)
    requires Enabled(cfg, s, Action.Restart)
    ensures Step(cfg, s, Action.Restart) == s.(sawLast := false, phase := Streaming)
  {
  }

  lemma RequeueServiced(h: seq<Action>)
    ensures Serviced(h, h + [Action.Requeue])
  {
  }

  lemma ConfigureActionStep(cfg: Config, s: State, layout: Layout, count: nat, fds: map<nat, int>)
    requires Enabled(cfg, s, Action.ConfigureCapture(layout, count, fds))
    ensures Step(cfg, s, Action.ConfigureCapture(layout, count, fds))
            == EnterStreaming(NewPool(cfg, s, layout, count), fds)
  {
  }

  lemma RejectImportStep(cfg: Config, s: State)
    requires Enabled(cfg, s, Action.RejectImport)
    ensures Step(cfg, s, Action.RejectImport) == s.(importRejected := true)
  {
  }

  lemma TeardownActionStep(cfg: Config, s: State)
    requires Enabled(cfg, s, Action.Teardown)
    ensures Step(cfg, s, Action.Teardown) == TeardownStep(s)
  {
  }

  lemma StreamOffActionStep(cfg: Config, s: State)
    requires Enabled(cfg, s, Action.StreamOff)
    ensures Step(cfg, s, Action.StreamOff) == StreamOffStep(s)
  {
  }

  lemma EnterStreamingPhase(s: State, fds: map<nat, int>)
    ensures EnterStreaming(s, fds).phase == Streaming && !EnterStreaming(s, fds).sourceChange
  {
  }

  lemma EnterStreamingPool(cfg: Config, s: State, layout: Layout, count: nat, fds: map<nat, int>)
    ensures var p := SessionModel.EnterStreaming(NewPool(cfg, s, layout, count), fds).pool;
            && p.layout == layout && |p.capture| == count
            && p.memory == if GrantsImport(cfg, s.ledger, layout) then Dmabuf else Mmap
  {
    hide QueueNext, Gathered, Requeued, GrantsImport;
    var n := NewPool(cfg, s, layout, count);
    QueueNextPool(n.(backlog := Gathered(n.ledger, n.backlog, fds, n.ledger.next)));
    RequeuedSize(n.pool.capture, n.kernel.capture, n.ledger.HeldSlots(n.generation), 0);
  }

  lemma {:induction false} QueueNextPool(s: State)
    ensures QueueNext(s).pool.memory == s.pool.memory && QueueNext(s).pool.layout == s.pool.layout
    ensures |QueueNext(s).pool.capture| == |s.pool.capture|
    decreases |s.backlog|
  {
    hide Idle;
    if s.pool.memory == Dmabuf && s.backlog != [] && Idle(s.pool.capture) {
      var e := s.backlog[0];
      if e.fd < 0 {
        QueueNextPool(s.(backlog := s.backlog[1..]));
      } else if Bufferless(s.ledger, e.token) {
        QueueNextPool(CountError(s.(backlog := s.backlog[1..], ledger := s.ledger.Fail(e.token))));
      }
    }
  }

  lemma {:induction false} RequeuedSize(capture: seq<Frame>, kernel: multiset<nat>, held: set<nat>, i: nat)
    requires i <= |capture|
    ensures |Requeued(capture, kernel, held, i).0| == |capture|
    decreases |capture| - i
  {
    if i < |capture| {
      if capture[i].queued || i in held {
        RequeuedSize(capture, kernel, held, i + 1);
      } else {
        RequeuedSize(capture[i := capture[i].(queued := true)], kernel + multiset{i}, held, i + 1);
      }
    }
  }

  lemma ConfiguredWithoutPool(cfg: Config, outputs: nat, h: seq<Action>)
    requires Legal(cfg, outputs, h) && Replay(cfg, outputs, h).phase.Configured?
    ensures Replay(cfg, outputs, h).pool.capture == []
  {
    RunsAreOwned(cfg, outputs, h);
  }

  lemma HeldAreSlots(cfg: Config, outputs: nat, h: seq<Action>)
    requires Legal(cfg, outputs, h)
    ensures var s := Replay(cfg, outputs, h);
            forall i :: i in HeldIn(s.ledger.targets, s.generation) ==> i < |s.pool.capture|
  {
    RunsAreOwned(cfg, outputs, h);
    hide Replay, Legal, Conserved;
    var s := Replay(cfg, outputs, h);
    forall i | i in HeldIn(s.ledger.targets, s.generation)
      ensures i < |s.pool.capture|
    {
      HolderOf(s.ledger, s.generation, i);
      var id :| s.ledger.Get(id).frame == Holding(Hold(s.generation, i));
      assert Sound(s, id);
    }
  }

  lemma FailLeavesOthers(l: Ledger, token: nat)
    ensures forall t :: t != token ==> (t in l.Fail(token).pending <==> t in l.pending)
    ensures token !in l.pending ==> l.Fail(token) == l
  {
  }

  /** Handing out a buffer uses up an entry. */
  lemma {:induction false} QueueNextShrinks(s: State)
    ensures |QueueNext(s).backlog| <= |s.backlog|
    ensures |QueueNext(s).backlog| == |s.backlog| ==> QueueNext(s) == s
    decreases |s.backlog|
  {
    hide Idle, ImportSlot;
    if s.pool.memory == Dmabuf && s.backlog != [] && Idle(s.pool.capture) {
      var e := s.backlog[0];
      if e.fd < 0 {
        QueueNextShrinks(s.(backlog := s.backlog[1..]));
      } else if Bufferless(s.ledger, e.token) {
        QueueNextShrinks(CountError(s.(backlog := s.backlog[1..], ledger := s.ledger.Fail(e.token))));
      }
    }
  }

  /** The kernel returns only what it was given: the bounds checks on its indices never fail. */
  lemma OutputIndex(cfg: Config, outputs: nat, h: seq<Action>, index: nat)
    requires Legal(cfg, outputs, h) && index in Replay(cfg, outputs, h).kernel.output
    ensures index < |Replay(cfg, outputs, h).pool.outputs|
  {
    RunsAreOwned(cfg, outputs, h);
  }

  lemma CaptureIndex(cfg: Config, outputs: nat, h: seq<Action>, index: nat)
    requires Legal(cfg, outputs, h) && index in Replay(cfg, outputs, h).kernel.capture
    ensures index < |Replay(cfg, outputs, h).pool.capture|
  {
    RunsAreOwned(cfg, outputs, h);
  }

  lemma OutputIsEnabled(cfg: Config, s: State, index: nat, error: bool)
    requires !s.phase.Failed? && index in s.kernel.output && index < |s.pool.outputs|
    ensures Enabled(cfg, s, OutputReturn(index, error))
  {
  }

  class Session {
    const cfg: Config
    const device: Device
    const pool: SlotPool
    ghost const slots: nat

    var phase: Phase
    var nextToken: nat
    var pending: map<nat, nat>
    var targets: map<nat, Target>
    var backlog: seq<Entry>
    var sourceChange: bool
    var sawLast: bool
    var importRejected: bool
    var stats: Stats
    /** Tells the frames of one pool from those of the next, as their identifiers do. */
    var generation: nat

    ghost var log: seq<Event>
    ghost var spent: set<nat>
    ghost var history: seq<Action>

    ghost function Abs(): State
      reads this, pool, device
    {
      State(phase, pool.Abs(), device.Queues(), Ledger(nextToken, pending, targets, log), backlog,
            sourceChange, sawLast, importRejected, stats, spent, generation)
    }

    ghost predicate Valid()
      reads this, pool, device
    {
      && pool.device == device
      && Legal(cfg, slots, history)
      && Abs() == Replay(cfg, slots, history)
    }

    /** Between calls, a drain is under way only if wait() left it behind, in a display-order session. */
    predicate Settled()
      reads this`phase
    {
      phase.Draining? || phase.RestartPending? ==> !cfg.decodeOrder
    }

    constructor (cfg: Config, outputs: nat)
      ensures Settled()
      ensures Valid() && fresh(pool) && fresh(device) && history == [] && this.cfg == cfg && slots == outputs
    {
      this.cfg := cfg;
      var d := new Device();
      device := d;
      pool := new SlotPool(d, outputs);
      slots := outputs;
      phase := Configured;
      nextToken, pending, targets, backlog := 1, map[], map[], [];
      sourceChange, sawLast, importRejected, stats := false, false, false, NO_STATS;
      generation, log, spent, history := 0, [], {}, [];
    }

    /** The work just done was action `a`. */
    ghost method Record(s: State, a: Action)
      requires pool.device == device && Legal(cfg, slots, history) && s == Replay(cfg, slots, history)
      requires Enabled(cfg, s, a) && Abs() == Step(cfg, s, a)
      modifies this`history
      ensures Valid() && history == old(history) + [a] && Abs() == old(Abs())
    {
      hide Step, Enabled, Legal, Replay;
      RunExtends(cfg, slots, history, a);
      history := history + [a];
    }

    function Find(id: nat): Target
      reads this`targets
    {
      if id in targets then targets[id] else BLANK
    }

    // -------------------------------------------------------------- pieces of work on the fields

    /** Erases a token; its target becomes `after`. */
    method Settle(token: nat, ghost fate: Fate, after: Target)
      requires token in pending
      modifies this`pending, this`targets, this`log
      ensures Abs() == old(Abs()).(ledger := old(Abs()).ledger.Settle(token, fate, after))
    {
      targets := targets[pending[token] := after];
      pending := pending - {token};
      log := log + [Event(token, fate)];
    }

    method FailToken(token: nat)
      requires token in pending
      modifies this`pending, this`targets, this`log
      ensures Abs() == old(Abs()).(ledger := old(Abs()).ledger.Fail(token))
    {
      Settle(token, Errored, Find(pending[token]).(pending := false, error := true));
    }

    method CountOneError()
      modifies this`stats
      ensures Abs() == CountError(old(Abs()))
    {
      stats := stats.(errors := stats.errors + 1);
    }

    /** queue_import_next */
    method QueueImportNext()
      requires pool.device == device
      modifies this`backlog, this`pending, this`targets, this`log, this`stats, pool`capture, device`capture
      ensures Abs() == QueueNext(old(Abs()))
      decreases |backlog|
    {
      hide ImportSlot;
      if pool.memory != Dmabuf || backlog == [] {
        return;
      }
      var queued := pool.CaptureQueued();
      IdleCount(pool.capture);
      if queued >= 1 {
        return;
      }
      var e := backlog[0];
      if e.fd < 0 {
        backlog := backlog[1..];
        QueueImportNext();
        return;
      }
      if e.token in pending {
        var t := Find(pending[e.token]);
        if t.publish.Direct? || t.destination.NoBuffer? {
          backlog := backlog[1..];
          FailToken(e.token);
          CountOneError();
          QueueImportNext();
          return;
        }
        if !Compatible(t.destination.layout, pool.layout) {
          return;
        }
      }
      var index := pool.QueueCaptureImport(e.fd, e.token);
      if index < |pool.capture| {
        backlog := backlog[1..];
      }
    }

    method Requeue()
      requires Valid() && !phase.Failed?
      modifies pool`capture, device`capture, this`history
      ensures Valid() && history == old(history) + [Action.Requeue] && Abs() == RequeueStep(old(Abs()))
    {
      hide Requeued, Legal, Replay;
      ghost var s := Abs();
      pool.RequeueCapture(HeldIn(targets, generation));
      Record(s, Action.Requeue);
    }

    // -------------------------------------------------------------- completions

    method HandleEvents()
      requires Valid() && !phase.Failed?
      modifies this`sourceChange, this`history
      ensures Valid() && Added(EventJob, old(history), history) && phase == old(phase)
    {
      hide Legal, Replay, Step;
      var events: nat := *;
      while events > 0
        invariant Valid() && Added(EventJob, old(history), history)
      {
        ghost var s := Abs();
        SourceChangeStep(cfg, s);
        sourceChange := true;
        Record(s, SourceChange);
        events := events - 1;
      }
    }

    method HandleOutputReturns()
      requires Valid() && !phase.Failed?
      modifies this`pending, this`targets, this`log, this`stats, pool`outputs, device`output, device`outputDry,
               this`history
      ensures Valid() && Added(OutputJob, old(history), history)
      ensures device.outputDry
    {
      hide Valid, Added;
      var more := true;
      AddedNone(OutputJob, history);
      while more
        invariant Valid() && Added(OutputJob, old(history), history)
        invariant more || device.outputDry
        decreases |device.output|, more
      {
        ghost var h := history;
        more := ReturnOutput();
        AddedOn(old(history), h, history, OutputJob, OutputJob);
      }
    }

    /** Dequeues one OUTPUT buffer, if the firmware has one to give back. */
    method ReturnOutput() returns (found: bool)
      requires Valid() && !phase.Failed?
      modifies this`pending, this`targets, this`log, this`stats, pool`outputs, device`output, device`outputDry,
               this`history
      ensures Valid() && Added(OutputJob, old(history), history)
      ensures device.outputDry == !found
      ensures found ==> |device.output| < |old(device.output)|
      ensures !found ==> device.output == old(device.output)
    {
      hide Legal, Replay;
      ghost var s := Abs();
      var index, error;
      found, index, error := device.DequeueOutput();
      if found {
        TakeOutput(index, error, s);
      }
    }

    /** One OUTPUT buffer, already off the kernel's queue, comes back. */
    method TakeOutput(index: nat, error: bool, ghost s: State)
      requires pool.device == device && Legal(cfg, slots, history) && s == Replay(cfg, slots, history) && !phase.Failed?
      requires index in s.kernel.output
      requires Abs() == s.(kernel := s.kernel.(output := s.kernel.output - multiset{index}))
      modifies this`pending, this`targets, this`log, this`stats, pool`outputs, this`history
      ensures Valid() && history == old(history) + [OutputReturn(index, error)]
      ensures index < |s.pool.outputs|
      ensures Abs() == s.(pool := s.pool.(outputs := s.pool.outputs[index := OutputSlot(false, 0)]),
                          kernel := s.kernel.(output := s.kernel.output - multiset{index}),
                          ledger := Abs().ledger, stats := stats)
      ensures var token := s.pool.outputs[index].token;
              if error && token in s.ledger.pending then
                && OneSettled(s.ledger, Abs().ledger, token, Errored,
                     s.ledger.Get(s.ledger.pending[token]).(pending := false, error := true))
                && stats == s.stats.(errors := s.stats.errors + 1)
              else Abs().ledger == s.ledger && stats == s.stats
    {
      hide Legal, Replay, Step, OneSettled;
      OutputIndex(cfg, slots, history, index);
      OutputIsEnabled(cfg, s, index, error);
      OutputReturned(cfg, slots, history, index, error);
      if error && pool.outputs[index].token in pending {
        FailToken(pool.outputs[index].token);
        CountOneError();
      }
      pool.outputs := pool.outputs[index := OutputSlot(false, 0)];
      OutputReturnStep(cfg, s, index, error);
      Record(s, OutputReturn(index, error));
    }

    /** Publishes the picture of `token`; an error if it could not be copied. */
    method Publish(token: nat, index: nat, copyFails: bool) returns (r: Result<()>)
      requires token in pending
      modifies this`pending, this`targets, this`log, this`stats
      ensures Abs() == PublishStep(cfg, old(Abs()), token, index, copyFails)
    {
      hide Ledger.Settle;
      var t := Find(pending[token]);
      if pool.memory == Dmabuf {
        Complete(token, t.(publish := Import, frame := Nothing));
      } else if t.publish.Direct? {
        Complete(token, t.(frame := Holding(Hold(generation, index))));
      } else {
        r := PublishCopy(token, t.(publish := Copy), copyFails);
        return;
      }
      r := Ok(());
    }

    method PublishCopy(token: nat, t: Target, copyFails: bool) returns (r: Result<()>)
      requires token in pending && t == Find(pending[token]).(publish := Copy)
      requires pool.memory == Mmap && !Find(pending[token]).publish.Direct?
      modifies this`pending, this`targets, this`log, this`stats
      ensures forall index :: Abs() == PublishStep(cfg, old(Abs()), token, index, copyFails)
    {
      hide Ledger.Settle;
      if t.destination.NoBuffer? || !cfg.copier {
        Settle(token, Stranded, t);
        return Err(OperationFailed);
      }
      if copyFails {
        Settle(token, Errored, t.(pending := false, error := true));
        CountOneError();
        return Err(OperationFailed);
      }
      Complete(token, t.(frame := Nothing));
      r := Ok(());
    }

    method Complete(token: nat, t: Target)
      requires token in pending
      modifies this`pending, this`targets, this`log, this`stats
      ensures var s, done := old(Abs()), t.(pending := false, completed := true, error := false);
              Abs() == s.(ledger := s.ledger.Settle(token, Published, done),
                          stats := s.stats.(completed := s.stats.completed + 1))
    {
      Settle(token, Published, t.(pending := false, completed := true, error := false));
      stats := stats.(completed := stats.completed + 1);
    }

    /** handle_capture_returns; an error if a copy failed. */
    method HandleCaptureReturns() returns (r: Result<()>)
      requires Valid() && (phase.Streaming? || phase.Draining?)
      modifies this`backlog, this`sawLast, this`pending, this`targets, this`log, this`stats, this`spent, this`history,
               pool`capture, device`capture, device`captureDry
      ensures Valid() && Added(CaptureJob, old(history), history)
      ensures r.Ok? ==> device.captureDry
    {
      hide Valid, Added;
      var more := true;
      r := Ok(());
      AddedNone(CaptureJob, history);
      while more
        invariant Valid() && Added(CaptureJob, old(history), history)
        invariant more || r.Err? || device.captureDry
        decreases |backlog|, |device.capture|, more
      {
        ghost var h := history;
        more, r := ReturnCapture();
        more := more && r.Ok?;
        AddedOn(old(history), h, history, CaptureJob, CaptureJob);
      }
    }

    /** Dequeues one CAPTURE buffer, if the firmware has one to give back. */
    method ReturnCapture() returns (found: bool, r: Result<()>)
      requires Valid() && (phase.Streaming? || phase.Draining?)
      modifies this`backlog, this`sawLast, this`pending, this`targets, this`log, this`stats, this`spent, this`history,
               pool`capture, device`capture, device`captureDry
      ensures Valid() && Added(CaptureJob, old(history), history)
      ensures device.captureDry == !found
      ensures found ==>
                && |backlog| <= |old(backlog)|
                && (|backlog| == |old(backlog)| ==> |device.capture| < |old(device.capture)|)
      ensures !found ==> r.Ok? && backlog == old(backlog) && device.capture == old(device.capture)
    {
      hide Legal, Replay, Added;
      ghost var s := Abs();
      var d;
      found, d := device.DequeueCapture();
      if found {
        r := TakeCompletion(d, s);
      } else {
        AddedNone(CaptureJob, history);
        r := Ok(());
      }
    }

    /** One CAPTURE buffer, already off the kernel's queue, comes back. */
    method TakeCompletion(d: Completion, ghost s: State) returns (r: Result<()>)
      requires pool.device == device && Legal(cfg, slots, history) && s == Replay(cfg, slots, history)
      requires (phase.Streaming? || phase.Draining?) && d.index in s.kernel.capture
      requires Abs() == s.(kernel := s.kernel.(capture := s.kernel.capture - multiset{d.index}))
      modifies this`backlog, this`sawLast, this`pending, this`targets, this`log, this`stats, this`spent, this`history,
               pool`capture, device`capture
      ensures Valid() && Added(CaptureJob, old(history), history)
      ensures |history| == |old(history)| + 1 && history[|old(history)|].CaptureReturn?
              && history[|old(history)|].d == d
      ensures |backlog| <= |old(backlog)|
      ensures |backlog| == |old(backlog)| ==> device.capture == old(device.capture)
    {
      hide Legal, Replay, Step, QueueNext, Deliver, Taken;
      CaptureIndex(cfg, slots, history, d.index);
      var owner := TakeSlot(d.index, s);
      var copyFails: bool := *;
      r := Process(d, owner, copyFails);
      CaptureReturnStep(cfg, s, d, copyFails);
      Record(s, CaptureReturn(d, copyFails));
    }

    method TakeSlot(index: nat, ghost s: State) returns (owner: nat)
      requires index < |pool.capture|
      requires Abs() == s.(kernel := s.kernel.(capture := s.kernel.capture - multiset{index}))
      modifies this`spent, pool`capture
      ensures Abs() == Taken(s, index) && owner == s.pool.capture[index].importToken
    {
      owner := pool.TakeCapture(index);
      spent := if owner == 0 then spent else spent + {owner};
    }

    /** The next client buffer goes out before the completion is looked at. */
    method Process(d: Completion, owner: nat, copyFails: bool) returns (r: Result<()>)
      requires pool.device == device
      modifies this`backlog, this`sawLast, this`pending, this`targets, this`log, this`stats, pool`capture,
               device`capture
      ensures var next := NextIfStreaming(old(Abs()));
              Abs() == Deliver(cfg, NoteLast(next, d.last), d, owner, copyFails)
      ensures |backlog| <= |old(backlog)|
      ensures |backlog| == |old(backlog)| ==> device.capture == old(device.capture)
    {
      hide QueueNext, Deliver;
      QueueNextShrinks(Abs());
      if phase.Streaming? {
        QueueImportNext();
      }
      sawLast := sawLast || d.last;
      DeliverKeeps(cfg, Abs(), d, owner, copyFails);
      r := Dispatch(d, owner, copyFails);
    }

    /** What a completion means to the target it names. */
    method Dispatch(d: Completion, owner: nat, copyFails: bool) returns (r: Result<()>)
      modifies this`pending, this`targets, this`log, this`stats
      ensures Abs() == Deliver(cfg, old(Abs()), d, owner, copyFails)
    {
      hide Ledger.Fail, PublishStep;
      r := Ok(());
      if d.error && d.timestamp == 0 {
        CountOneError();
      } else if !d.payload {
      } else if d.timestamp !in pending {
        stats := stats.(drops := stats.drops + 1);
      } else if d.error {
        FailToken(d.timestamp);
        CountOneError();
      } else if pool.memory == Dmabuf && owner != d.timestamp {
        Misplace(d.timestamp, owner);
      } else {
        r := Publish(d.timestamp, d.index, copyFails);
      }
    }

    method Misplace(token: nat, owner: nat)
      requires token in pending
      modifies this`pending, this`targets, this`log, this`stats
      ensures Abs() == MisplacedStep(old(Abs()), token, owner)
    {
      FailToken(token);
      stats := stats.(errors := stats.errors + 1, misplaced := stats.misplaced + 1);
      if owner in pending {
        FailToken(owner);
        CountOneError();
      }
    }

    // -------------------------------------------------------------- failure

    /** Fails the tokens of the map, oldest first, except those in `keep`; returns how many. */
    method FailTokensExcept(keep: set<nat>) returns (lost: nat)
      modifies this`pending, this`targets, this`log
      ensures Abs() == old(Abs()).(ledger := old(Abs()).ledger.FailExcept(keep, nextToken))
      ensures lost == LostBelow(old(pending), keep, nextToken)
    {
      hide Ledger.Fail;
      lost := 0;
      for t := 0 to nextToken
        invariant Abs() == old(Abs()).(ledger := old(Abs()).ledger.FailExcept(keep, t))
        invariant lost == LostBelow(old(pending), keep, t)
        invariant forall x :: x >= t ==> (x in pending <==> x in old(pending))
      {
        FailLeavesOthers(Abs().ledger, t);
        if t in pending && t !in keep {
          FailToken(t);
          lost := lost + 1;
        }
      }
    }

    method FailSession()
      requires Valid()
      modifies this`phase, this`pending, this`targets, this`log, this`backlog, this`history
      ensures Valid() && phase.Failed? && Serviced(old(history), history)
      ensures history == if old(phase).Failed? then old(history) else old(history) + [Action.Fail]
    {
      hide Legal, Replay, Step;
      if phase.Failed? {
        return;
      }
      ghost var s := Abs();
      phase := Failed;
      var _ := FailTokensExcept({});
      backlog := [];
      FailActionStep(cfg, s);
      Record(s, Action.Fail);
    }

    // -------------------------------------------------------------- pools

    /** The backlog of an Import pool: what was submitted before the pool existed. */
    method GatherBacklog(fds: map<nat, int>)
      modifies this`backlog
      ensures backlog == Gathered(old(Abs()).ledger, old(backlog), fds, nextToken)
    {
      for t := 0 to nextToken
        invariant backlog == Gathered(old(Abs()).ledger, old(backlog), fds, t)
      {
        if t in pending && !Listed(backlog, t) && Find(pending[t]).destination.Buffer? {
          backlog := backlog + [Entry(t, FdOf(fds, t))];
        }
      }
    }

    method EnterStreaming(fds: map<nat, int>)
      requires pool.device == device
      modifies this`backlog, this`pending, this`targets, this`log, this`stats, this`sourceChange, this`sawLast,
               this`phase,
               pool`capture, device`capture
      ensures Abs() == SessionModel.EnterStreaming(old(Abs()), fds)
    {
      hide QueueNext, Gathered, Requeued;
      if pool.memory == Dmabuf {
        GatherBacklog(fds);
        QueueImportNext();
      } else {
        pool.RequeueCapture(HeldIn(targets, generation));
      }
      MarkStreaming();
    }

    method MarkStreaming()
      modifies this`sourceChange, this`sawLast, this`phase
      ensures Abs() == old(Abs()).(sourceChange := false, sawLast := false, phase := Streaming)
    {
      sourceChange := false;
      sawLast := false;
      phase := Streaming;
    }

    /** Whether the first picture is to be decoded into its client's buffer. */
    method ChooseMemory(layout: Layout) returns (memory: Memory)
      modifies this`importRejected
      ensures memory == if GrantsImport(cfg, old(Abs()).ledger, layout) then Dmabuf else Mmap
      ensures importRejected == (old(importRejected) ||
                (AsksImport(old(Abs()).ledger) && !GrantsImport(cfg, old(Abs()).ledger, layout)))
    {
      memory := Mmap;
      var first := FirstPending(pending, 0, nextToken);
      if first in pending && Find(pending[first]).publish.Import? {
        var destination := Find(pending[first]).destination;
        if !cfg.importAllowed || !cfg.decodeOrder || destination.NoBuffer? || !Compatible(destination.layout, layout) {
          importRejected := true;
        } else {
          memory := Dmabuf;
        }
      }
    }

    /** configure_capture. The format, the number of buffers and the descriptors come from outside. */
    method ConfigureCapture() returns (r: Result<()>)
      requires Valid() && phase.Configured? && sourceChange
      modifies this`backlog, this`pending, this`targets, this`log, this`stats, this`sourceChange, this`sawLast,
               this`phase,
               this`importRejected, this`history, pool, device`capture
      ensures Valid() && Serviced(old(history), history)
      ensures if r.Ok? then phase.Streaming? && !sourceChange else phase.Configured? && sourceChange
      ensures r.Err? ==> Abs() == old(Abs()).(importRejected := importRejected)
                         && (history == old(history) || history == old(history) + [Action.RejectImport])
      ensures r.Ok? ==> old(history) < history && |history| == |old(history)| + 1
      ensures r.Ok? ==> var a := history[|old(history)|];
                && a.ConfigureCapture? && pool.layout == a.layout && |pool.capture| == a.count
                && pool.memory == (if ImportContract(cfg, old(Abs()).ledger, a.layout) then Dmabuf else Mmap)
    {
      hide Legal, Replay, Step, SessionModel.EnterStreaming, GrantsImport, ImportContract, Conserved;
      var supported: bool := *;
      if !supported {
        return Err(UnsupportedFormat);
      }
      var layout: Layout := *;
      var fds: map<nat, int> := *;
      ghost var s := Abs();
      TokensAreConserved(cfg, slots, history);
      ContractGrants(cfg, s.ledger, layout);
      ConfiguredWithoutPool(cfg, slots, history);
      var built, count := BuildPool(layout);
      if !built {
        if importRejected && !s.importRejected {
          NoteRejected(s);
        }
        return Err(AllocationFailed);
      }
      EnterStreaming(fds);
      EnterStreamingPhase(NewPool(cfg, s, layout, count), fds);
      EnterStreamingPool(cfg, s, layout, count, fds);
      ConfigureActionStep(cfg, s, layout, count, fds);
      Record(s, Action.ConfigureCapture(layout, count, fds));
      r := Ok(());
    }

    /** Chooses the memory and allocates; how many buffers the kernel grants, if any, comes from outside. */
    method BuildPool(layout: Layout) returns (built: bool, count: nat)
      requires pool.capture == []
      modifies this`importRejected, pool
      ensures built ==> 0 < count <= 64 && Abs() == NewPool(cfg, old(Abs()), layout, count)
      ensures !built ==> Abs() == old(Abs()).(importRejected := importRejected)
      ensures !built && old(importRejected) ==> importRejected
    {
      hide GrantsImport, AsksImport;
      var memory := ChooseMemory(layout);
      count := *;
      built := 0 < count <= 64;
      if built {
        pool.AllocateCapture(count, layout, memory);
      }
    }

    /** The allocation failed after Import had been found impossible. */
    ghost method NoteRejected(s: State)
      requires pool.device == device && Legal(cfg, slots, history) && s == Replay(cfg, slots, history)
      requires s.phase.Configured? && s.sourceChange && Abs() == s.(importRejected := true)
      modifies this`history
      ensures Valid() && history == old(history) + [Action.RejectImport] && Abs() == old(Abs())
    {
      hide Legal, Replay, Step;
      RejectImportStep(cfg, s);
      Record(s, Action.RejectImport);
    }

    /** continue_reconfigure: waits while a frame of the old geometry is held. */
    method ContinueReconfigure() returns (r: Result<()>)
      requires Valid() && phase.Reconfiguring?
      modifies this`backlog, this`pending, this`targets, this`log, this`stats, this`sourceChange, this`sawLast,
               this`phase,
               this`importRejected, this`history, this`generation, this`spent, pool, device`capture
      ensures Valid() && Serviced(old(history), history)
      ensures if r.Ok? then (phase.Streaming? && !sourceChange) || phase.Reconfiguring? else phase.Configured?
      ensures old(HeldIn(targets, generation)) != {} ==>
              r.Ok? && phase.Reconfiguring? && Abs() == old(Abs()) && history == old(history)
      ensures old(HeldIn(targets, generation)) == {} && r.Ok? ==> phase.Streaming? && Rebuilt(old(history), history)
      ensures old(HeldIn(targets, generation)) == {} && r.Err? ==>
              var torn := old(history) + [Action.Teardown];
              history == torn || history == torn + [Action.RejectImport]
    {
      hide Legal, Replay, Step, HeldIn;
      var held := HeldIn(targets, generation);
      HeldAreSlots(cfg, slots, history);
      var free := pool.NoneHeld(held);
      if !free {
        return Ok(());
      }
      assert Abs() == Replay(cfg, slots, history) && Abs().pool.capture == pool.capture;
      assert held == HeldIn(Abs().ledger.targets, Abs().generation) == {};
      Teardown(held);
      ghost var h := history;
      r := ConfigureCapture();
      ServicedOn(old(history), h, history);
    }

    method Teardown(held: set<nat>)
      requires Valid() && phase.Reconfiguring? && held == HeldIn(targets, generation) == {}
      modifies this`phase, this`sourceChange, this`spent, this`generation, this`history, pool, device`capture
      ensures Valid() && Serviced(old(history), history) && phase.Configured? && sourceChange
      ensures history == old(history) + [Action.Teardown]
    {
      hide Legal, Replay, Step, HeldIn;
      ghost var s := Abs();
      var released := pool.ReleaseCapture(held);
      assert released.Ok?;  // the check inside release_capture never fires
      MarkTornDown();
      TeardownActionStep(cfg, s);
      Record(s, Action.Teardown);
    }

    method MarkTornDown()
      modifies this`phase, this`sourceChange, this`spent, this`generation
      ensures Abs() == old(Abs()).(sourceChange := true, phase := Configured, spent := {},
                                   generation := old(generation) + 1)
    {
      sourceChange := true;
      phase := Configured;
      spent := {};
      generation := generation + 1;
    }

    method StreamOff()
      requires Valid() && phase.RestartPending?
      modifies this`phase, this`history, pool`capture, device`capture
      ensures Valid() && Serviced(old(history), history) && phase.Reconfiguring?
      ensures history == old(history) + [Action.StreamOff]
    {
      hide Legal, Replay, Step, Returned;
      ghost var s := Abs();
      phase := Reconfiguring;
      device.DropCapture();
      pool.MarkAllCaptureReturned();
      StreamOffActionStep(cfg, s);
      Record(s, Action.StreamOff);
    }

    // -------------------------------------------------------------- drain, restart, reconfigure

    method BeginDrain(reason: Reason)
      requires Valid() && phase.Streaming?
      modifies this`phase, this`sawLast, this`stats, this`history
      ensures Valid() && history == old(history) + [Action.DrainBegin(reason)] && phase.Draining?
    {
      hide Legal, Replay, Step;
      ghost var s := Abs();
      phase := Draining;
      sawLast := false;
      stats := stats.(drains := stats.drains + 1,
                      timeouts := stats.timeouts + (if reason.OnTimeout? then 1 else 0),
                      reconfigures := stats.reconfigures + (if reason.OnChange? then 1 else 0));
      PhaseActionSteps(cfg, s, reason);
      Record(s, Action.DrainBegin(reason));
    }

    /** Pictures still owed get their buffers; when there is nothing to lend, the driver's own goes out. */
    method FeedDrain(scratch: int)
      requires Valid() && phase.Draining?
      modifies this`backlog, this`pending, this`targets, this`log, this`stats, this`history, pool`capture,
               device`capture
      ensures Valid() && history == old(history) + [Action.DrainFeed(scratch)]
    {
      hide Legal, Replay, Step, QueueNext, QueueScratch, Requeued;
      ghost var s := Abs();
      if pool.memory == Dmabuf {
        QueueImportNext();
        LendScratch(scratch);
      } else {
        pool.RequeueCapture(HeldIn(targets, generation));
      }
      DrainFeedActionStep(cfg, s, scratch);
      Record(s, Action.DrainFeed(scratch));
    }

    method LendScratch(scratch: int)
      requires pool.device == device
      modifies pool`capture, device`capture
      ensures Abs() == QueueScratch(old(Abs()), scratch)
    {
      var queued := pool.CaptureQueued();
      IdleCount(pool.capture);
      if queued == 0 {
        var _ := pool.QueueCaptureScratch(scratch);
      }
    }

    /** fail_unrecoverable_tokens, and the end of the drain. */
    method EndDrain()
      requires Valid() && phase.Draining? && sawLast
      modifies this`phase, this`pending, this`targets, this`log, this`stats, this`history
      ensures Valid() && history == old(history) + [Action.DrainEnd] && phase.RestartPending? && sawLast
      ensures forall t :: t in pending <==> t in old(pending) && t in Owed(pool.outputs)
    {
      hide Legal, Replay, Step, LostBelow, Ledger.FailExcept;
      ghost var s := Abs();
      TokensAreConserved(cfg, slots, history);
      PendingBelow(s.ledger);
      hide Conserved;
      var owed := StillQueued();
      FailExceptPending(s.ledger, owed, nextToken);
      var lost := FailTokensExcept(owed);
      stats := stats.(errors := stats.errors + lost);
      phase := RestartPending;
      DrainEndActionStep(cfg, s);
      Record(s, Action.DrainEnd);
    }

    /** The tokens whose OUTPUT slots are queued. */
    method StillQueued() returns (owed: set<nat>)
      ensures owed == Owed(pool.outputs)
    {
      owed := {};
      for i := 0 to |pool.outputs|
        invariant owed == Owed(pool.outputs[..i])
      {
        if pool.outputs[i].queued {
          owed := owed + {pool.outputs[i].token};
        }
      }
      assert pool.outputs[..|pool.outputs|] == pool.outputs;
    }

    /** STOP, then LAST: on success the tokens that are still pending are those whose OUTPUT buffer the firmware
        has kept. A drain fails the session only if LAST does not come in time. */
    method Drain(reason: Reason, waitOutput: bool) returns (r: Result<()>)
      requires Valid() && phase.Streaming?
      modifies this`backlog, this`phase, this`sourceChange, this`sawLast, this`pending, this`targets, this`log,
               this`stats,
               this`spent, this`history, pool`capture, pool`outputs, device
      ensures Valid() && Serviced(old(history), history)
      ensures if r.Ok? then phase.RestartPending? else phase.Failed? || phase.Draining?
      ensures r.Ok? ==> sawLast && Drained(old(history), history, reason, [Action.DrainEnd])
      ensures r.Ok? ==> forall t :: t in pending ==> t in Owed(pool.outputs)
      ensures phase.Failed? ==> !sawLast && Drained(old(history), history, reason, [Action.Fail])
      ensures phase.Draining? ==> Drained(old(history), history, reason, [])
    {
      hide Valid, Serviced, Added, Drained, Owed;
      BeginDrain(reason);
      ghost var begun := history;
      AddedNone(DrainJob, begun);
      DrainedSo(old(history), history, reason, begun, []);
      var stopped: bool := *;
      if !stopped {
        return Err(HwBusy);
      }
      var budget: nat := *;
      ghost var h := history;
      while !sawLast
        invariant Valid() && Added(DrainJob, begun, history) && phase.Draining?
        decreases budget
      {
        h := history;
        if budget == 0 {
          FailSession();
          DrainedSo(old(history), history, reason, h, [Action.Fail]);
          return Err(DecodingError);
        }
        budget := budget - 1;
        r := DrainRound();
        AddedOn(begun, h, history, DrainJob, DrainJob);
        if r.Err? {
          DrainedSo(old(history), history, reason, history, []);
          return;
        }
      }
      if waitOutput {
        h := history;
        AwaitOutputs();
        AddedOn(begun, h, history, OutputJob, DrainJob);
      }
      h := history;
      EndDrain();
      DrainedSo(old(history), history, reason, h, [Action.DrainEnd]);
      r := Ok(());
    }

    method DrainRound() returns (r: Result<()>)
      requires Valid() && phase.Draining?
      modifies this`backlog, this`sourceChange, this`sawLast, this`pending, this`targets, this`log, this`stats,
               this`spent,
               this`history, pool`capture, pool`outputs, device
      ensures Valid() && Added(DrainJob, old(history), history)
    {
      hide Valid, Added;
      var scratch: int := *;
      FeedDrain(scratch);
      AddedNone(DrainJob, old(history));
      AddedOne(DrainJob, old(history), old(history), DrainFeed(scratch));
      ghost var h1 := history;
      HandleEvents();
      ghost var h2 := history;
      AddedOn(old(history), h1, h2, EventJob, DrainJob);
      HandleOutputReturns();
      ghost var h3 := history;
      AddedOn(old(history), h2, h3, OutputJob, DrainJob);
      r := HandleCaptureReturns();
      AddedOn(old(history), h3, history, CaptureJob, DrainJob);
    }

    /** Services OUTPUT returns until the slots are back or time is up. */
    method AwaitOutputs()
      requires Valid() && !phase.Failed?
      modifies this`pending, this`targets, this`log, this`stats, pool`outputs, device`output, device`outputDry,
               this`history
      ensures Valid() && Added(OutputJob, old(history), history)
    {
      hide Valid, Added;
      var budget: nat := *;
      AddedNone(OutputJob, history);
      while budget > 0
        invariant Valid() && Added(OutputJob, old(history), history)
      {
        ghost var h := history;
        HandleOutputReturns();
        AddedOn(old(history), h, history, OutputJob, OutputJob);
        budget := budget - 1;
      }
    }

    method Restart() returns (r: Result<()>)
      requires Valid() && phase.RestartPending? && !cfg.decodeOrder
      modifies this`backlog, this`phase, this`sawLast, this`pending, this`targets, this`log, this`stats, this`history,
               pool`capture, pool`outputs, device
      ensures Valid() && Serviced(old(history), history)
      ensures if r.Ok? then phase.Streaming? else phase.Failed?
    {
      hide Valid, Serviced, Added;
      Requeue();
      var started: bool := *;
      var budget: nat := *;
      ghost var h := history;
      RequeueServiced(old(history));
      while !started
        invariant Valid() && Serviced(old(history), history) && phase.RestartPending?
        decreases budget, !started
      {
        h := history;
        if budget == 0 {
          FailSession();
          ServicedOn(old(history), h, history);
          return Err(HwBusy);
        }
        budget := budget - 1;
        HandleOutputReturns();
        AddedServiced(OutputJob, h, history);
        ServicedOn(old(history), h, history);
        started := *;
      }
      h := history;
      Started();
      ServicedOn(old(history), h, history);
      r := Ok(());
    }

    method Started()
      requires Valid() && phase.RestartPending? && !cfg.decodeOrder
      modifies this`phase, this`sawLast, this`history
      ensures Valid() && Serviced(old(history), history) && phase.Streaming?
    {
      hide Legal, Replay, Step;
      ghost var s := Abs();
      sawLast := false;
      phase := Streaming;
      RestartActionStep(cfg, s);
      Record(s, Action.Restart);
    }

    /** A change of resolution in mid-stream. On success the stream was drained and CAPTURE stopped; then the
        session waits, if a frame is held, and otherwise the pool is a new one. */
    method Reconfigure() returns (r: Result<()>)
      requires Valid() && phase.Streaming?
      modifies this`backlog, this`pending, this`targets, this`log, this`stats, this`sourceChange, this`sawLast,
               this`phase,
               this`importRejected, this`history, this`generation, this`spent, pool, device
      ensures Valid() && Serviced(old(history), history)
      ensures r.Ok? ==> (phase.Streaming? && !sourceChange) || phase.Reconfiguring?
      ensures r.Ok? && phase.Reconfiguring? ==>
                && HeldIn(targets, generation) != {}
                && exists h ::
                     history == h + [Action.StreamOff] && Drained(old(history), h, OnChange, [Action.DrainEnd])
      ensures r.Ok? && phase.Streaming? ==>
                exists h ::
                  Rebuilt(h + [Action.StreamOff], history) && Drained(old(history), h, OnChange, [Action.DrainEnd])
    {
      hide Valid, Serviced, Drained, Rebuilt, HeldIn, Owed;
      r := Drain(OnChange, false);
      if r.Err? {
        return;
      }
      ghost var h1 := history;
      StreamOff();
      ghost var h2 := history;
      ServicedOn(old(history), h1, h2);
      assert h2 == h1 + [Action.StreamOff] && Drained(old(history), h1, OnChange, [Action.DrainEnd]);
      r := ContinueReconfigure();
      ServicedOn(old(history), h2, history);
    }

    // -------------------------------------------------------------- servicing

    /** A start or a change of resolution that was announced has been acted on, and unless a change is waiting, the
        last thing that was done was to hand the free slots to the firmware. */
    ghost predicate UpToDate()
      reads this`phase, this`sourceChange, this`history
    {
      && !(sourceChange && (phase.Configured? || phase.Streaming?))
      && (!phase.Reconfiguring? ==> history != [] && history[|history| - 1] == Action.Requeue)
    }

    /** pump: an error inside ends the session. */
    method Pump() returns (r: Result<()>)
      requires Valid()
      modifies this`backlog, this`pending, this`targets, this`log, this`stats, this`sourceChange, this`sawLast,
               this`phase,
               this`importRejected, this`history, this`generation, this`spent, pool, device
      ensures Valid() && Serviced(old(history), history)
      ensures !old(phase).Failed? ==> old(history) < history && history[|old(history)|] == Action.Requeue
      ensures r.Ok? && !old(phase).Failed? ==> UpToDate()
      ensures if r.Err? then phase.Failed? else phase == old(phase) || phase.Streaming? || phase.Reconfiguring?
    {
      hide Valid, Serviced;
      ServicedRefl(history);
      if phase.Failed? {
        return Ok(());
      }
      Requeue();
      ghost var h1 := history;
      RequeueServiced(old(history));
      r := PumpOnce();
      ghost var h2 := history;
      ServicedOn(old(history), h1, h2);
      HeadOfRun(h1, h2);
      if r.Err? {
        FailSession();
        ServicedOn(old(history), h2, history);
        HeadOfRun(h2, history);
      }
    }

    method PumpOnce() returns (r: Result<()>)
      requires Valid() && !phase.Failed?
      modifies this`backlog, this`pending, this`targets, this`log, this`stats, this`sourceChange, this`sawLast,
               this`phase,
               this`importRejected, this`history, this`generation, this`spent, pool, device
      ensures Valid() && Serviced(old(history), history)
      ensures r.Ok? ==> UpToDate()
      ensures r.Ok? ==> phase == old(phase) || phase.Streaming? || phase.Reconfiguring?
    {
      hide Valid, Serviced, Added;
      HandleEvents();
      AddedServiced(EventJob, old(history), history);
      ghost var h := history;
      if sourceChange && phase.Configured? {
        r := ConfigureCapture();
        ServicedOn(old(history), h, history);
        if r.Err? {
          return;
        }
      }
      h := history;
      HandleOutputReturns();
      AddedServiced(OutputJob, h, history);
      ServicedOn(old(history), h, history);
      h := history;
      if phase.Streaming? || phase.Draining? {
        r := HandleCaptureReturns();
        AddedServiced(CaptureJob, h, history);
        ServicedOn(old(history), h, history);
        if r.Err? {
          return;
        }
      }
      h := history;
      r := FollowChange();
      ServicedOn(old(history), h, history);
    }

    /** Begins a change of resolution, or goes on with one that waits, and hands out the free slots. */
    method FollowChange() returns (r: Result<()>)
      requires Valid() && !phase.Failed? && !(sourceChange && phase.Configured?)
      modifies this`backlog, this`pending, this`targets, this`log, this`stats, this`sourceChange, this`sawLast,
               this`phase,
               this`importRejected, this`history, this`generation, this`spent, pool, device
      ensures Valid() && Serviced(old(history), history)
      ensures r.Ok? ==> UpToDate()
      ensures r.Ok? ==> phase == old(phase) || phase.Streaming? || phase.Reconfiguring?
    {
      hide Valid, Serviced;
      ServicedRefl(history);
      r := Ok(());
      if sourceChange && phase.Streaming? {
        r := Reconfigure();
      } else if phase.Reconfiguring? {
        r := ContinueReconfigure();
      }
      if r.Err? {
        return;
      }
      ghost var h := history;
      if !phase.Reconfiguring? {
        Requeue();
        RequeueServiced(h);
        ServicedOn(old(history), h, history);
      }
    }

    /** service: errors are left for the next submit or wait to report. */
    method Service()
      requires Valid() && Settled()
      modifies this`backlog, this`pending, this`targets, this`log, this`stats, this`sourceChange, this`sawLast,
               this`phase,
               this`importRejected, this`history, this`generation, this`spent, pool, device
      ensures Settled()
      ensures Valid() && Serviced(old(history), history)
    {
      hide Valid, Serviced;
      if phase.Failed? {
        ServicedRefl(history);
        return;
      }
      var _ := Pump();
    }

    // -------------------------------------------------------------- entry points

    method ReleaseTarget(id: nat)
      requires Valid()
      modifies this`pending, this`targets, this`log, this`history
      ensures Valid() && history == old(history) + [Action.Release(id)]
      ensures Abs().ledger == old(Abs()).ledger.Release(id)
    {
      hide Legal, Replay, Step;
      ghost var s := Abs();
      var t := Find(id);
      if t.pending && t.token in pending {
        pending := pending - {t.token};
        log := log + [Event(t.token, Fate.Released)];
      }
      targets := targets[id := t.(pending := false, frame := Nothing, completed := false, error := false, token := 0)];
      ReleaseActionStep(cfg, s, id);
      Record(s, Action.Release(id));
    }

    /** The caller takes a target back; a deferred change of resolution may go on. */
    method Release(id: nat)
      requires Valid() && Settled()
      modifies this`backlog, this`pending, this`targets, this`log, this`stats, this`sourceChange, this`sawLast,
               this`phase,
               this`importRejected, this`history, this`generation, this`spent, pool, device
      ensures Settled()
      ensures Valid() && |old(history)| < |history| && history[|old(history)|] == Action.Release(id)
      ensures Serviced(old(history) + [Action.Release(id)], history)
      ensures !Find(id).pending && Find(id).frame == Nothing
    {
      hide Legal, Replay, Serviced, Follows;
      ReleaseTarget(id);
      ghost var h, l := history, Abs().ledger;
      ServicedRefl(h);
      if phase.Reconfiguring? {
        var _ := ContinueReconfigure();
      }
      Untouched(cfg, slots, h, history, id);
      HeadOfRun(h, history);
    }

    method Timeout(id: nat)
      requires Valid() && !phase.Failed? && Find(id).pending
      modifies this`pending, this`targets, this`log, this`stats, this`history
      ensures Valid() && Serviced(old(history), history)
      ensures Find(id) == old(Find(id)).(pending := false, error := true) && old(Find(id)).token !in pending
      ensures forall x :: x != id ==> Find(x) == old(Find(x))
      ensures stats == old(stats).(timeouts := old(stats).timeouts + 1)
    {
      hide Legal, Replay, Step, TimeoutStep, OneSettled;
      ghost var s := Abs();
      TimedOutTarget(cfg, slots, history, id);
      TimedOutOthers(cfg, slots, history, id);
      GiveUp(id);
      TimeoutActionStep(cfg, s, id);
      assert forall x :: Abs().ledger.Get(x) == Find(x) && s.ledger.Get(x) == old(Find(x));
      Record(s, Action.Timeout(id));
    }

    /** A late completion must not find the token. */
    method GiveUp(id: nat)
      modifies this`pending, this`targets, this`log, this`stats
      ensures Abs() == TimeoutStep(old(Abs()), id)
    {
      var t := Find(id);
      if t.token in pending && pending[t.token] == id {
        FailToken(t.token);
      } else {
        targets := targets[id := t.(pending := false, error := true)];
      }
      stats := stats.(timeouts := stats.timeouts + 1);
    }

    /** Succeeds only when the target's own token has been published. */
    method Wait(id: nat) returns (r: Result<()>)
      requires Valid() && Settled()
      modifies this`backlog, this`pending, this`targets, this`log, this`stats, this`sourceChange, this`sawLast,
               this`phase,
               this`importRejected, this`history, this`generation, this`spent, pool, device
      ensures Settled()
      ensures Valid() && Serviced(old(history), history)
      ensures old(!Find(id).pending) ==> r == if old(Find(id)).error then Err(DecodingError) else Ok(())
      ensures r.Ok? ==> !Find(id).pending && !Find(id).error
      ensures r.Err? ==> (!Find(id).pending && Find(id).error) || phase.Failed? || phase.Draining?
      ensures r.Ok? && Waits(old(Abs()).ledger, id) ==>
                Find(id).completed && IsPublished(Abs().ledger, old(Find(id).token))
    {
      hide Legal, Replay, Serviced;
      ServicedRefl(history);
      if !Find(id).pending {
        return if Find(id).error then Err(DecodingError) else Ok(());
      }
      r := WaitPending(id);
      AfterTheRun(cfg, slots, old(history), history, id);
    }

    method WaitPending(id: nat) returns (r: Result<()>)
      requires Valid() && Settled() && Find(id).pending
      modifies this`backlog, this`pending, this`targets, this`log, this`stats, this`sourceChange, this`sawLast,
               this`phase,
               this`importRejected, this`history, this`generation, this`spent, pool, device
      ensures Settled()
      ensures Valid() && Serviced(old(history), history)
      ensures r.Ok? ==> !Find(id).pending && !Find(id).error
      ensures r.Err? ==> (!Find(id).pending && Find(id).error) || phase.Failed? || phase.Draining?
    {
      hide Valid, Serviced;
      ServicedRefl(history);
      if phase.Failed? {
        return Err(DecodingError);
      }
      var _ :- Pump();
      var budget: nat := *;
      var drained := false;
      while Find(id).pending
        invariant Valid() && Settled() && Serviced(old(history), history)
        decreases !drained, budget
      {
        if phase.Failed? {
          return Err(DecodingError);
        }
        ghost var h := history;
        if budget == 0 {
          if !cfg.decodeOrder && !drained && phase.Streaming? {
            r := DrainAndRestart();
            ServicedOn(old(history), h, history);
            if r.Err? {
              return;
            }
            drained := true;
            budget := *;
          } else {
            Timeout(id);
            ServicedOn(old(history), h, history);
            return Err(TimedOut);
          }
        } else {
          budget := budget - 1;
          r := Pump();
          ServicedOn(old(history), h, history);
          if r.Err? {
            return;
          }
        }
      }
      r := if Find(id).error then Err(DecodingError) else Ok(());
    }

    /** One drain flushes the reorder window of display-order firmware. */
    method DrainAndRestart() returns (r: Result<()>)
      requires Valid() && phase.Streaming? && !cfg.decodeOrder
      modifies this`backlog, this`phase, this`sourceChange, this`sawLast, this`pending, this`targets, this`log,
               this`stats,
               this`spent, this`history, pool`capture, pool`outputs, device
      ensures if r.Ok? then phase.Streaming? else phase.Failed? || phase.Draining?
      ensures Valid() && Serviced(old(history), history)
    {
      hide Valid, Serviced;
      r := Drain(OnTimeout, true);
      if r.Ok? {
        ghost var h := history;
        r := Restart();
        ServicedOn(old(history), h, history);
      }
    }

    /** No more input: what can still be decoded is, and the session ends. */
    method Finish()
      requires Valid() && Settled()
      modifies this`backlog, this`phase, this`sourceChange, this`sawLast, this`pending, this`targets, this`log,
               this`stats,
               this`spent, this`history, pool`capture, pool`outputs, device
      ensures Settled()
      ensures Valid() && Serviced(old(history), history) && (phase.Failed? || phase.Finished?)
    {
      hide Valid, Serviced;
      ServicedRefl(history);
      if phase.Failed? || phase.Finished? {
        return;
      }
      if phase.Streaming? {
        var _ := Drain(OnFinish, false);
      }
      if !phase.Failed? {
        ghost var h := history;
        MarkFinished();
        ServicedOn(old(history), h, history);
      }
    }

    method MarkFinished()
      requires Valid() && !phase.Failed? && !phase.Finished?
      modifies this`phase, this`history
      ensures Valid() && Serviced(old(history), history) && phase.Finished?
    {
      hide Legal, Replay, Step;
      ghost var s := Abs();
      phase := Finished;
      FinishActionStep(cfg, s);
      Record(s, Action.Finish);
    }

    /** The access unit goes into a free OUTPUT slot, and its target waits for it from now on. */
    method Enqueue(id: nat, publish: Publish, destination: Destination, slot: nat) returns (ghost a: Action)
      requires Valid() && Settled() && !phase.Failed? && !phase.Finished? && !Find(id).pending
      requires slot == FreeOutput(pool.outputs, 0) < |pool.outputs|
      modifies this`backlog, this`nextToken, this`pending, this`targets, this`log, this`stats, this`history,
               pool`outputs, pool`capture, device
      ensures Valid() && history == old(history) + [a]
      ensures a.Submit? && a.id == id && a.publish == publish && a.destination == destination
    {
      hide Legal, Replay, Step, QueueNext;
      ghost var s := Abs();
      var token := PutAccessUnit(id, publish, destination, slot);
      var fd: int := *;
      AppendBacklog(token, destination, fd);
      a := Action.Submit(id, publish, destination, fd);
      SubmitActionStep(cfg, s, a);
      Record(s, a);
    }

    /** The bitstream may run ahead: in an Import pool the picture joins the backlog. */
    method AppendBacklog(token: nat, destination: Destination, fd: int)
      requires pool.device == device
      modifies this`backlog, this`pending, this`targets, this`log, this`stats, pool`capture, device`capture
      ensures var s := old(Abs());
              Abs() == if s.pool.memory == Dmabuf then
                         QueueNext(s.(backlog := s.backlog + [Entry(token, if destination.Buffer? then fd else -1)]))
                       else s
    {
      hide QueueNext;
      if pool.memory == Dmabuf {
        backlog := backlog + [Entry(token, if destination.Buffer? then fd else -1)];
        QueueImportNext();
      }
    }

    method PutAccessUnit(id: nat, publish: Publish, destination: Destination, slot: nat) returns (token: nat)
      requires pool.device == device && slot < |pool.outputs|
      modifies this`nextToken, this`pending, this`targets, this`stats, pool`outputs, device`output
      ensures token == old(nextToken)
      ensures var s := old(Abs());
              Abs() == s.(pool := s.pool.(outputs := s.pool.outputs[slot := OutputSlot(true, token)]),
                          kernel := s.kernel.(output := s.kernel.output + multiset{slot}),
                          ledger := s.ledger.Issue(id, publish, destination),
                          stats := s.stats.(submitted := s.stats.submitted + 1))
    {
      token := IssueToken(id, publish, destination);
      device.QueueOutput(slot);
      pool.outputs := pool.outputs[slot := OutputSlot(true, token)];
    }

    method IssueToken(id: nat, publish: Publish, destination: Destination) returns (token: nat)
      modifies this`nextToken, this`pending, this`targets, this`stats
      ensures token == old(nextToken)
      ensures var s := old(Abs());
              Abs() == s.(ledger := s.ledger.Issue(id, publish, destination),
                          stats := s.stats.(submitted := s.stats.submitted + 1))
    {
      token := nextToken;
      nextToken := nextToken + 1;
      targets := targets[id := Target(token, true, false, false, publish, destination, Nothing)];
      pending := pending[token := id];
      stats := stats.(submitted := stats.submitted + 1);
    }

    lemma Replayed()
      requires Valid()
      ensures Legal(cfg, slots, history) && Replay(cfg, slots, history) == Abs()
      ensures Abs().phase == phase && Abs().pool.outputs == pool.outputs
    {
    }

    /** Waits, within the bound, until a resolution change is over (`first` is the run so far at that point), and
        then until an OUTPUT slot is free. The session can be in a resolution change again when it succeeds, but
        only if no slot was free when the first wait was over. */
    method AwaitSlot() returns (r: Result<nat>, ghost first: seq<Action>)
      requires Valid() && Settled() && !phase.Failed? && !phase.Finished?
      modifies this`backlog, this`pending, this`targets, this`log, this`stats, this`sourceChange, this`sawLast,
               this`phase,
               this`importRejected, this`history, this`generation, this`spent, pool, device
      ensures Valid() && Settled() && Serviced(old(history), history)
      ensures r.Ok? ==> Serviced(old(history), first) && Serviced(first, history) && Legal(cfg, slots, first)
      ensures r.Ok? ==> !Replay(cfg, slots, first).phase.Reconfiguring?
      ensures r.Ok? && FreeOutput(Replay(cfg, slots, first).pool.outputs, 0) < |Replay(cfg, slots,
              first).pool.outputs| ==>
                history == first && !phase.Reconfiguring?
      ensures r.Ok? ==> !phase.Failed? && !phase.Finished? && r.value == FreeOutput(pool.outputs, 0) < |pool.outputs|
    {
      hide Valid, Serviced, FreeOutput, Legal, Replay;
      first := history;
      var pumped := Pump();
      if pumped.Err? {
        return Err(pumped.status), first;
      }
      var budget: nat := *;
      while phase.Reconfiguring?
        invariant Valid() && Settled() && Serviced(old(history), history) && !phase.Failed? && !phase.Finished?
        decreases budget
      {
        if budget == 0 {
          return Err(SurfaceBusy), first;
        }
        budget := budget - 1;
        ghost var h := history;
        pumped := Pump();
        ServicedOn(old(history), h, history);
        if pumped.Err? {
          return Err(pumped.status), first;
        }
      }
      var slot := pool.FindFreeOutput();
      first := history;
      ghost var idle := Abs();
      Replayed();
      ServicedRefl(first);
      while slot == |pool.outputs|
        invariant Valid() && Settled() && Serviced(old(history), history) && !phase.Failed? && !phase.Finished?
        invariant slot == FreeOutput(pool.outputs, 0) <= |pool.outputs|
        invariant Serviced(old(history), first) && Serviced(first, history) && Legal(cfg, slots, first)
        invariant idle == Replay(cfg, slots, first) && !idle.phase.Reconfiguring?
        invariant FreeOutput(idle.pool.outputs, 0) == |idle.pool.outputs|
               || (history == first && pool.outputs == idle.pool.outputs && phase == idle.phase)
        decreases budget
      {
        if !(phase.Streaming? || phase.Configured?) {
          return Err(HwBusy), first;
        }
        if budget == 0 {
          return Err(TimedOut), first;
        }
        budget := budget - 1;
        ghost var h := history;
        pumped := Pump();
        ServicedOn(old(history), h, history);
        ServicedOn(first, h, history);
        if pumped.Err? {
          return Err(pumped.status), first;
        }
        slot := pool.FindFreeOutput();
      }
      r := Ok(slot);
    }

    /** The first access unit raises SOURCE_CHANGE; until then there is no CAPTURE pool. */
    method AwaitStart() returns (r: Result<()>)
      requires Valid() && Settled()
      modifies this`backlog, this`pending, this`targets, this`log, this`stats, this`sourceChange, this`sawLast,
               this`phase,
               this`importRejected, this`history, this`generation, this`spent, pool, device
      ensures Valid() && Settled() && Serviced(old(history), history)
      ensures r.Ok? ==> !phase.Configured?
    {
      hide Valid, Serviced;
      ServicedRefl(history);
      var budget: nat := *;
      while phase.Configured?
        invariant Valid() && Settled() && Serviced(old(history), history)
        decreases budget
      {
        if budget == 0 {
          return Err(TimedOut);
        }
        budget := budget - 1;
        ghost var h := history;
        r := Pump();
        ServicedOn(old(history), h, history);
        if r.Err? {
          return;
        }
      }
      r := Ok(());
    }

    /** One access unit. On success it was queued exactly once; on an error before that, not at all. */
    method Submit(id: nat, publish: Publish, destination: Destination, fits: bool) returns (r: Result<()>)
      requires Valid() && Settled()
      modifies this, pool, device
      ensures Valid() && Settled()
      ensures old(phase).Failed? ==> r == Err(DecodingError) && Abs() == old(Abs())
      ensures old(phase).Finished? ==> r == Err(OperationFailed) && Abs() == old(Abs())
      ensures !old(phase).Failed? && !old(phase).Finished? && !fits ==> r == Err(NotEnoughBuffer) && Abs() == old(Abs())
      ensures r.Ok? ==> OneSubmit(old(history), history, id, publish, destination) && !phase.Configured?
      ensures r.Err? ==> NoSubmit(old(history), history) || OneSubmit(old(history), history, id, publish, destination)
    {
      hide Legal, Replay, Serviced, Settled, FreeOutput, OneSubmit, NoSubmit;
      ghost var h0 := history;
      NoneYet(h0);
      if phase.Failed? {
        return Err(DecodingError);
      }
      if phase.Finished? {
        return Err(OperationFailed);
      }
      if !fits {
        return Err(NotEnoughBuffer);
      }
      if Find(id).pending {
        ReleaseTarget(id);
      }
      ghost var h1 := history;
      var slot, _ := AwaitSlot();
      NoneIn(h0, h1, history, id);
      if slot.Err? {
        return Err(slot.status);
      }
      Untouched(cfg, slots, h1, history, id);
      ghost var h2 := history;
      ghost var a := Enqueue(id, publish, destination, slot.value);
      ghost var h3 := history;
      r := AwaitStart();
      OneIn(h0, h2, a, history);
    }
  }
}
