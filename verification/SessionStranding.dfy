/** Which tokens are stranded, in terms of what was submitted: the map forgets them, and their targets are not
    told. */
module SessionStranding {
  import opened Slots
  import opened SessionModel
  import opened SessionTokens
  import opened SessionImport
  import opened SessionTheorems
  import opened SessionLockstep
  import opened SessionTargets

  // ---------------------------------------------------------------- targets stay as submitted

  /** Old tokens can only leave the map; the targets of those that stay keep their policy and buffer. */
  ghost predicate KeptOld(l: Ledger, l': Ledger) {
    forall t :: t in l'.pending && t < l.next ==>
      && t in l.pending && l'.pending[t] == l.pending[t]
      && l'.Get(l'.pending[t]).publish == l.Get(l.pending[t]).publish
      && l'.Get(l'.pending[t]).destination == l.Get(l.pending[t]).destination
  }

  lemma KeptOn(a: Ledger, b: Ledger, c: Ledger)
    requires KeptOld(a, b) && Kept(b, c)
             && (forall t :: t in c.pending ==> t in b.pending && c.pending[t] == b.pending[t])
    ensures KeptOld(a, c)
  {
  }

  lemma {:induction false} QueueNextKept(s: State)
    requires Conserved(s.ledger)
    ensures Kept(s.ledger, QueueNext(s).ledger)
    decreases |s.backlog|
  {
    hide Conserved, Idle, Ledger.Fail;
    SameKept(s.ledger);
    if s.pool.memory == Dmabuf && s.backlog != [] && Idle(s.pool.capture) {
      var e := s.backlog[0];
      if e.fd < 0 {
        QueueNextKept(s.(backlog := s.backlog[1..]));
      } else if Bufferless(s.ledger, e.token) {
        FailConserves(s.ledger, e.token);
        FailKept(s.ledger, e.token);
        QueueNextKept(CountError(s.(backlog := s.backlog[1..], ledger := s.ledger.Fail(e.token))));
      }
    }
  }

  /** A ledger that can only lose tokens. */
  lemma Lost(l: Ledger, l': Ledger)
    requires Kept(l, l') && forall t :: t in l'.pending ==> t in l.pending && l'.pending[t] == l.pending[t]
    ensures KeptOld(l, l')
  {
  }

  lemma IssueKept(l: Ledger, id: nat, publish: Publish, destination: Destination)
    requires Conserved(l) && !l.Get(id).pending
    ensures KeptOld(l, l.Issue(id, publish, destination))
  {
    forall t | t in l.pending
      ensures l.pending[t] != id
    {
      assert l.Get(l.pending[t]).pending;
    }
  }

  lemma SubmitKept(s: State, id: nat, publish: Publish, destination: Destination, fd: int)
    requires Conserved(s.ledger) && !s.ledger.Get(id).pending && FreeOutput(s.pool.outputs, 0) < |s.pool.outputs|
    ensures KeptOld(s.ledger, SubmitStep(s, id, publish, destination, fd).ledger)
  {
    hide QueueNext, Conserved, KeptOld, Kept;
    var issued := s.ledger.Issue(id, publish, destination);
    IssueConserves(s.ledger, id, publish, destination);
    IssueKept(s.ledger, id, publish, destination);
    forall x: State | x.ledger == issued
      ensures KeptOld(s.ledger, QueueNext(x).ledger)
    {
      QueueNextKept(x);
      QueueNextPending(x);
      KeptOn(s.ledger, issued, QueueNext(x).ledger);
    }
  }

  lemma {:induction false} FailExceptMap(l: Ledger, keep: set<nat>, n: nat)
    ensures forall t :: t in l.FailExcept(keep, n).pending ==>
            t in l.pending && l.FailExcept(keep, n).pending[t] == l.pending[t]
  {
    FailExceptPending(l, keep, n);
  }

  lemma DeliverMap(cfg: Config, s: State, d: Completion, owner: nat, copyFails: bool)
    ensures var l' := Deliver(cfg, s, d, owner, copyFails).ledger;
            forall t :: t in l'.pending ==> t in s.ledger.pending && l'.pending[t] == s.ledger.pending[t]
  {
    hide Ledger.Fail, PublishStep;
    FailMap(s.ledger, d.timestamp);
    FailMap(s.ledger.Fail(d.timestamp), owner);
    if d.timestamp in s.ledger.pending {
      PublishMap(cfg, s, d.timestamp, d.index, copyFails);
    }
  }

  lemma PublishMap(cfg: Config, s: State, token: nat, index: nat, copyFails: bool)
    requires token in s.ledger.pending
    ensures PublishStep(cfg, s, token, index, copyFails).ledger.pending == s.ledger.pending - {token}
  {
  }

  lemma DeliverKept(cfg: Config, s: State, d: Completion, owner: nat, copyFails: bool)
    requires Conserved(s.ledger)
    ensures Kept(s.ledger, Deliver(cfg, s, d, owner, copyFails).ledger)
  {
    hide Conserved, PublishStep, Ledger.Fail;
    SameKept(s.ledger);
    FailKept(s.ledger, d.timestamp);
    FailConserves(s.ledger, d.timestamp);
    FailKept(s.ledger.Fail(d.timestamp), owner);
    if d.timestamp in s.ledger.pending {
      PublishKept(cfg, s, d.timestamp, d.index, copyFails);
    }
  }

  lemma CaptureKept(cfg: Config, s: State, d: Completion, copyFails: bool)
    requires Conserved(s.ledger) && d.index < |s.pool.capture|
    ensures KeptOld(s.ledger, CaptureStep(cfg, s, d, copyFails).ledger)
  {
    hide QueueNext, Conserved, Deliver;
    var taken := Taken(s, d.index);
    QueueNextKept(taken);
    QueueNextConserves(taken);
    QueueNextPending(taken);
    var last := NoteLast(NextIfStreaming(taken), d.last);
    DeliverKept(cfg, last, d, s.pool.capture[d.index].importToken, copyFails);
    DeliverMap(cfg, last, d, s.pool.capture[d.index].importToken, copyFails);
  }

  lemma StepKept(cfg: Config, s: State, a: Action)
    requires Enabled(cfg, s, a) && Conserved(s.ledger)
    ensures KeptOld(s.ledger, Step(cfg, s, a).ledger)
  {
    hide Conserved, QueueNext, QueueScratch, Requeued, SubmitStep, CaptureStep, NewPool, Gathered, Kept, KeptOld,
         Ledger.Fail,
         Ledger.Release, Ledger.FailExcept;
    SameKept(s.ledger);
    match a
    case Submit(id, publish, destination, fd) => SubmitKept(s, id, publish, destination, fd);
    case CaptureReturn(d, copyFails) => CaptureKept(cfg, s, d, copyFails);
    case Release(id) =>
      ReleaseKept(s.ledger, id);
      ReleaseMap(s.ledger, id);
      Lost(s.ledger, s.ledger.Release(id));
    case OutputReturn(index, error) =>
      FailKept(s.ledger, s.pool.outputs[index].token);
      FailMap(s.ledger, s.pool.outputs[index].token);
      Lost(s.ledger, Step(cfg, s, a).ledger);
    case ConfigureCapture(layout, count, fds) =>
      var p := NewPool(cfg, s, layout, count);
      NewPoolKeeps(cfg, s, layout, count);
      var g := p.(backlog := Gathered(p.ledger, p.backlog, fds, p.ledger.next));
      QueueNextKept(g);
      QueueNextPending(g);
      Lost(s.ledger, Step(cfg, s, a).ledger);
    case DrainFeed(scratch) =>
      QueueNextKept(s);
      QueueNextPending(s);
      ScratchKeepsLedger(QueueNext(s), scratch);
      Lost(s.ledger, Step(cfg, s, a).ledger);
    case DrainEnd =>
      FailExceptKept(s.ledger, Owed(s.pool.outputs), s.ledger.next);
      FailExceptMap(s.ledger, Owed(s.pool.outputs), s.ledger.next);
      Lost(s.ledger, Step(cfg, s, a).ledger);
    case Timeout(id) =>
      TimeoutKept(s, id);
      FailMap(s.ledger, s.ledger.Get(id).token);
      Lost(s.ledger, Step(cfg, s, a).ledger);
    case Fail =>
      FailExceptKept(s.ledger, {}, s.ledger.next);
      FailExceptMap(s.ledger, {}, s.ledger.next);
      Lost(s.ledger, Step(cfg, s, a).ledger);
    case _ => Lost(s.ledger, Step(cfg, s, a).ledger);
  }

  lemma FailMap(l: Ledger, token: nat)
    ensures forall t :: t in l.Fail(token).pending ==> t in l.pending && l.Fail(token).pending[t] == l.pending[t]
  {
  }

  lemma ReleaseMap(l: Ledger, id: nat)
    ensures forall t :: t in l.Release(id).pending ==> t in l.pending && l.Release(id).pending[t] == l.pending[t]
  {
  }

  // ---------------------------------------------------------------- the backlog only loses entries at its head

  ghost predicate Tail(b: seq<Entry>, b': seq<Entry>) {
    |b'| <= |b| && b' == b[|b| - |b'|..]
  }

  lemma {:induction false} QueueNextTail(s: State)
    ensures Tail(s.backlog, QueueNext(s).backlog)
    decreases |s.backlog|
  {
    hide Idle;
    if s.pool.memory == Dmabuf && s.backlog != [] && Idle(s.pool.capture) {
      var e := s.backlog[0];
      if e.fd < 0 {
        QueueNextTail(s.(backlog := s.backlog[1..]));
      } else if Bufferless(s.ledger, e.token) {
        QueueNextTail(CountError(s.(backlog := s.backlog[1..], ledger := s.ledger.Fail(e.token))));
      }
    }
  }

  /** An action that is not the bitstream's or the firmware's adds nothing. */
  lemma OthersAddNothing(cfg: Config, s: State, a: Action)
    requires Enabled(cfg, s, a) && !a.Submit? && !a.CaptureReturn? && !a.ConfigureCapture?
    ensures Tail(s.backlog, Step(cfg, s, a).backlog)
    ensures forall t :: t in Step(cfg, s, a).ledger.pending ==> t in s.ledger.pending
  {
    hide QueueNext, QueueScratch, Requeued, Ledger.Fail, Ledger.Release, Ledger.FailExcept;
    match a
    case Release(id) => ReleaseMap(s.ledger, id);
    case OutputReturn(index, error) => FailMap(s.ledger, s.pool.outputs[index].token);
    case DrainFeed(scratch) =>
      QueueNextTail(s);
      QueueNextPending(s);
      ScratchAddsNothing(QueueNext(s), scratch);
    case DrainEnd => FailExceptMap(s.ledger, Owed(s.pool.outputs), s.ledger.next);
    case Timeout(id) => FailMap(s.ledger, s.ledger.Get(id).token);
    case Fail => FailExceptMap(s.ledger, {}, s.ledger.next);
    case _ =>
  }

  lemma ScratchAddsNothing(s: State, scratch: int)
    ensures QueueScratch(s, scratch).ledger == s.ledger && QueueScratch(s, scratch).backlog == s.backlog
  {
  }

  // ---------------------------------------------------------------- as submitted

  /** A pending target is the one that was submitted, with the policy and the buffer it was submitted with. */
  ghost predicate AsSubmitted(l: Ledger, a: Action, token: nat) {
    a.Submit? && (token in l.pending ==>
      && l.pending[token] == a.id
      && l.Get(a.id).publish == a.publish && l.Get(a.id).destination == a.destination)
  }

  lemma SubmitIssues(s: State, a: Action)
    requires a.Submit? && FreeOutput(s.pool.outputs, 0) < |s.pool.outputs|
    requires Conserved(s.ledger) && !s.ledger.Get(a.id).pending
    ensures AsSubmitted(SubmitStep(s, a.id, a.publish, a.destination, a.fd).ledger, a, s.ledger.next)
    ensures SubmitStep(s, a.id, a.publish, a.destination, a.fd).ledger.next == s.ledger.next + 1
  {
    hide QueueNext, Conserved;
    var issued := s.ledger.Issue(a.id, a.publish, a.destination);
    IssueConserves(s.ledger, a.id, a.publish, a.destination);
    forall x: State | x.ledger == issued
      ensures AsSubmitted(QueueNext(x).ledger, a, s.ledger.next) && QueueNext(x).ledger.next == issued.next
    {
      QueueNextKept(x);
      QueueNextPending(x);
    }
  }

  lemma {:induction false} StaysAsSubmitted(cfg: Config, outputs: nat, h: seq<Action>, i: nat, token: nat)
    requires Legal(cfg, outputs, h) && i < |h| && h[i].Submit? && Legal(cfg, outputs, h[..i])
    requires Replay(cfg, outputs, h[..i]).ledger.next == token
    ensures AsSubmitted(Replay(cfg, outputs, h).ledger, h[i], token) && token < Replay(cfg, outputs, h).ledger.next
    decreases |h|
  {
    hide Step, Enabled, AsSubmitted;
    var n := |h| - 1;
    var s := Replay(cfg, outputs, h[..n]);
    TokensAreConserved(cfg, outputs, h[..n]);
    hide Conserved;
    if i == n {
      SubmitIsEnabled(cfg, s, h[n]);
      SubmitIssues(s, h[n]);
    } else {
      assert h[..n][..i] == h[..i];
      StaysAsSubmitted(cfg, outputs, h[..n], i, token);
      StepKept(cfg, s, h[n]);
      StepPending(cfg, s, h[n]);
      OldSubmitted(s.ledger, Replay(cfg, outputs, h).ledger, h[i], token);
    }
  }

  lemma SubmitIsEnabled(cfg: Config, s: State, a: Action)
    requires a.Submit? && Enabled(cfg, s, a)
    ensures FreeOutput(s.pool.outputs, 0) < |s.pool.outputs| && !s.ledger.Get(a.id).pending
    ensures Step(cfg, s, a) == SubmitStep(s, a.id, a.publish, a.destination, a.fd)
  {
  }

  lemma OldSubmitted(l: Ledger, l': Ledger, a: Action, token: nat)
    requires KeptOld(l, l') && token < l.next && AsSubmitted(l, a, token)
    ensures AsSubmitted(l', a, token)
  {
  }

  // ---------------------------------------------------------------- stranding

  /** The completion finds nothing to copy into, or no engine to copy with. */
  predicate Strands(cfg: Config, s: State, a: Action, token: nat, publish: Publish, destination: Destination) {
    && a.CaptureReturn? && a.d.timestamp == token && a.d.payload && !a.d.error && token in s.ledger.pending
    && s.pool.memory == Mmap && !publish.Direct? && (destination.NoBuffer? || !cfg.copier)
  }

  lemma PublishStrands(cfg: Config, s: State, token: nat, index: nat, copyFails: bool, x: nat)
    requires Conserved(s.ledger) && token in s.ledger.pending
    ensures var t := s.ledger.Get(s.ledger.pending[token]);
            IsStranded(PublishStep(cfg, s, token, index, copyFails).ledger, x) && !IsStranded(s.ledger, x) <==>
              x == token && Copies(s, t) && (t.destination.NoBuffer? || !cfg.copier)
  {
    StrandedIsSettled(s.ledger, token);
  }

  lemma DeliverStrands(cfg: Config, s: State, d: Completion, owner: nat, copyFails: bool, x: nat)
    requires Conserved(s.ledger)
    ensures IsStranded(Deliver(cfg, s, d, owner, copyFails).ledger, x) && !IsStranded(s.ledger, x) <==>
              && d.timestamp == x && d.payload && !d.error && x in s.ledger.pending
              && var t := s.ledger.Get(s.ledger.pending[x]);
                 Copies(s, t) && (t.destination.NoBuffer? || !cfg.copier)
  {
    hide Conserved, PublishStep, Ledger.Fail, IsStranded, IsPublished;
    FailQuiet(s.ledger, d.timestamp);
    FailQuiet(s.ledger.Fail(d.timestamp), owner);
    if d.timestamp in s.ledger.pending {
      PublishStrands(cfg, s, d.timestamp, d.index, copyFails, x);
    }
  }

  lemma CaptureStrands(cfg: Config, s: State, d: Completion, copyFails: bool, x: nat)
    requires Conserved(s.ledger) && d.index < |s.pool.capture|
    ensures IsStranded(CaptureStep(cfg, s, d, copyFails).ledger, x) && !IsStranded(s.ledger, x) <==>
              && d.timestamp == x && d.payload && !d.error && x in s.ledger.pending
              && var t := s.ledger.Get(s.ledger.pending[x]);
                 Copies(s, t) && (t.destination.NoBuffer? || !cfg.copier)
  {
    hide Conserved, Deliver, IsStranded, IsPublished;
    var taken := Taken(s, d.index);
    var next := NextIfStreaming(taken);
    QueueNextConserves(taken);
    KeepsMemory(taken);
    QueueNextQuiet(taken);
    DeliverStrands(cfg, NoteLast(next, d.last), d, s.pool.capture[d.index].importToken, copyFails, x);
    assert s.pool.memory == Mmap ==> next == taken;
    assert IsStranded(next.ledger, x) ==> IsStranded(s.ledger, x);
  }

  /** Exactly which step of a run strands a token: the completion of its picture from an Mmap pool, if the
      target was submitted for anything but Direct and without a buffer, or there is no copy engine. */
  lemma StrandsWithoutBuffer(cfg: Config, outputs: nat, h: seq<Action>, a: Action, i: nat, token: nat)
    requires Legal(cfg, outputs, h) && Enabled(cfg, Replay(cfg, outputs, h), a)
    requires i < |h| && h[i].Submit? && Legal(cfg, outputs, h[..i]) && Replay(cfg, outputs, h[..i]).ledger.next == token
    ensures var s := Replay(cfg, outputs, h);
            IsStranded(Step(cfg, s, a).ledger, token) && !IsStranded(s.ledger, token) <==>
              Strands(cfg, s, a, token, h[i].publish, h[i].destination)
  {
    hide Replay, Legal, Conserved, CaptureStep, IsStranded, IsPublished;
    TokensAreConserved(cfg, outputs, h);
    StaysAsSubmitted(cfg, outputs, h, i, token);
    var s := Replay(cfg, outputs, h);
    if a.CaptureReturn? {
      CaptureStrands(cfg, s, a.d, a.copyFails, token);
    } else {
      OtherStepsQuiet(cfg, s, a);
    }
  }

  // ---------------------------------------------------------------- a run that strands

  const NO_ENGINE := Config(false, true, false)

  /** One picture to be copied, without a buffer: it is decoded, its token is gone, and its target, which was
      told nothing, still counts as pending. */
  lemma StrandingRun() returns (h: seq<Action>)
    ensures |h| == 4 && IsSubmitted(h[0]) && h[3].CaptureReturn? && !h[3].d.error
    ensures Legal(NO_ENGINE, 1, h)
    ensures var l := Replay(NO_ENGINE, 1, h).ledger;
            IsStranded(l, 1) && 1 !in l.pending && l.Get(0).pending && !l.Get(0).error && l.Get(0).token == 1
  {
    hide CaptureStep, ConfigureStep, Replay, Legal;
    h := StrandingStart();
    var s := Replay(NO_ENGINE, 1, h);
    var configure := ConfigureCapture(ANY_LAYOUT, 1, map[]);
    StartsCopying(s);
    RunExtends(NO_ENGINE, 1, h, configure);
    h := h + [configure];
    var d := Completion(0, 1, false, false, true);
    CopiesNothing(Replay(NO_ENGINE, 1, h), d);
    RunExtends(NO_ENGINE, 1, h, CaptureReturn(d, false));
    h := h + [CaptureReturn(d, false)];
  }

  predicate IsSubmitted(a: Action) {
    a == Submit(0, Copy, NoBuffer, -1)
  }

  /** The picture is in, and the firmware has announced its geometry. */
  ghost predicate Announced(s: State) {
    && s.phase.Configured? && s.sourceChange && s.pool.capture == [] && s.generation == 0
    && s.kernel.capture == multiset{}
    && s.ledger == Ledger(2, map[1 := 0], map[0 := Target(1, true, false, false, Copy, NoBuffer, Nothing)], [])
  }

  lemma StrandingStart() returns (h: seq<Action>)
    ensures h == [Submit(0, Copy, NoBuffer, -1), SourceChange] && Legal(NO_ENGINE, 1, h)
    ensures Announced(Replay(NO_ENGINE, 1, h))
  {
    var submit := Submit(0, Copy, NoBuffer, -1);
    assert Legal(NO_ENGINE, 1, []);
    assert FreeOutput(Replay(NO_ENGINE, 1, []).pool.outputs, 0) == 0;
    RunExtends(NO_ENGINE, 1, [], submit);
    RunExtends(NO_ENGINE, 1, [submit], SourceChange);
    h := [submit] + [SourceChange];
    assert [] + [submit] == [submit];
  }

  ghost predicate Copying(s: State) {
    && s.phase.Streaming? && s.pool.memory == Mmap && |s.pool.capture| == 1 && 0 in s.kernel.capture
    && s.ledger == Ledger(2, map[1 := 0], map[0 := Target(1, true, false, false, Copy, NoBuffer, Nothing)], [])
  }

  lemma StartsCopying(s: State)
    requires Announced(s)
    ensures Copying(ConfigureStep(NO_ENGINE, s, ANY_LAYOUT, 1, map[]))
  {
    OldestPending(s.ledger.pending, 0, 2, 1);
    var p := NewPool(NO_ENGINE, s, ANY_LAYOUT, 1);
    assert p.pool.memory == Mmap;
    assert p.ledger.HeldSlots(p.generation) == {};
    var queued := p.pool.capture[0 := IDLE_FRAME.(queued := true)];
    assert Requeued(queued, multiset{} + multiset{0}, {}, 1) == (queued, multiset{} + multiset{0});
    assert Requeued(p.pool.capture, multiset{}, {}, 0) == (queued, multiset{} + multiset{0});
  }

  lemma CopiesNothing(s: State, d: Completion)
    requires Copying(s) && d == Completion(0, 1, false, false, true)
    ensures var l := CaptureStep(NO_ENGINE, s, d, false).ledger;
            IsStranded(l, 1) && 1 !in l.pending && l.Get(0).pending && !l.Get(0).error && l.Get(0).token == 1
  {
    var n := NoteLast(NextIfStreaming(Taken(s, 0)), false);
    assert n.ledger == s.ledger && n.pool.memory == Mmap;
    var l := PublishStep(NO_ENGINE, n, 1, 0, false).ledger;
    assert l.log == [] + [Event(1, Stranded)] == [Event(1, Stranded)];
  }
}
