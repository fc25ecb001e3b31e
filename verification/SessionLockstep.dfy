/** One client buffer at a time: with a firmware that decodes access units in order, one picture each, into
    whatever buffer it is given, token and buffer agree. */
module SessionLockstep {
  import opened Layouts
  import opened Slots
  import opened SessionModel
  import opened SessionTokens
  import opened SessionSlots
  import opened SessionImport
  import opened SessionTheorems

  /** The tokens of the access units that the firmware has been given and has not decoded, in order. */
  function Undecoded(cfg: Config, outputs: nat, h: seq<Action>): seq<nat>
    requires Legal(cfg, outputs, h)
  {
    if h == [] then []
    else
      var n := |h| - 1;
      AfterAction(Replay(cfg, outputs, h[..n]), Undecoded(cfg, outputs, h[..n]), h[n])
  }

  function AfterAction(s: State, undecoded: seq<nat>, a: Action): seq<nat> {
    match a
    case Submit(_, _, _, _) => undecoded + [s.ledger.next]
    case CaptureReturn(d, _) => if d.payload && undecoded != [] then undecoded[1..] else undecoded
    case _ => undecoded
  }

  /** A firmware that follows the decode contract, a client that gives every picture a fitting buffer, and no
      change of geometry. A picture is the oldest undecoded access unit; LAST comes alone, after all of them. */
  predicate InOrder(s: State, undecoded: seq<nat>, a: Action) {
    match a
    case OutputReturn(_, error) => !error
    case CaptureReturn(d, _) =>
      && !d.error
      && (if d.payload then undecoded != [] && d.timestamp == undecoded[0] else s.phase.Draining? && undecoded == [])
    case Submit(_, publish, destination, fd) =>
      fd >= 0 && !publish.Direct? && destination.Buffer? && Compatible(destination.layout, s.pool.layout)
    case ConfigureCapture(_, _, _) => false
    case StreamOff => false
    case _ => true
  }

  ghost predicate InOrderFrom(cfg: Config, outputs: nat, h: seq<Action>, k: nat)
    requires Legal(cfg, outputs, h)
    decreases |h|
  {
    |h| > k ==>
      var n := |h| - 1;
      InOrderFrom(cfg, outputs, h[..n], k)
          && InOrder(Replay(cfg, outputs, h[..n]), Undecoded(cfg, outputs, h[..n]), h[n])
  }

  /** The tokens of the buffers that are with the firmware; 0 for the driver's own. */
  function InFlight(capture: seq<Frame>): seq<nat> {
    if capture == [] then []
    else
      var n := |capture| - 1;
      InFlight(capture[..n]) + (if capture[n].queued then [capture[n].importToken] else [])
  }

  function Tokens(backlog: seq<Entry>): (r: seq<nat>)
    ensures |r| == |backlog|
  {
    seq(|backlog|, i requires 0 <= i < |backlog| => backlog[i].token)
  }

  /** The entry can be handed over: it has a descriptor, and its target, if still there, a fitting buffer. */
  predicate Ready(l: Ledger, layout: Layout, e: Entry) {
    && e.fd >= 0 && e.token != 0
    && !Bufferless(l, e.token) && !Misfit(l, e.token, layout)
  }

  ghost predicate AllReady(s: State) {
    forall i :: 0 <= i < |s.backlog| ==> Ready(s.ledger, s.pool.layout, s.backlog[i])
  }

  /** The undecoded tokens are the one in flight followed by the backlog. */
  ghost predicate Aligned(s: State, undecoded: seq<nat>) {
    var f := InFlight(s.pool.capture);
    && |f| <= 1
    && (if f == [0] then undecoded == [] && s.backlog == [] && !s.phase.Streaming?
        else undecoded == f + Tokens(s.backlog))
  }

  ghost predicate Live(s: State, undecoded: seq<nat>) {
    && s.pool.memory == Dmabuf
    && Aligned(s, undecoded)
    && AllReady(s)
    && !s.phase.Configured? && !s.phase.Reconfiguring?
  }

  ghost predicate Lockstep(s: State, undecoded: seq<nat>) {
    && s.stats.misplaced == 0
    && (!s.phase.Failed? ==>
          && Live(s, undecoded)
          && (s.phase.Streaming? && s.backlog != [] ==> |InFlight(s.pool.capture)| == 1))
  }

  // ---------------------------------------------------------------- in flight

  lemma {:induction false} IdleInFlight(capture: seq<Frame>)
    ensures InFlight(capture) == [] <==> Idle(capture)
  {
    if capture != [] {
      IdleInFlight(capture[..|capture| - 1]);
    }
  }

  lemma {:induction false} QueueInFlight(capture: seq<Frame>, i: nat, f: Frame)
    requires i < |capture| && Idle(capture) && f.queued
    ensures InFlight(capture[i := f]) == [f.importToken]
  {
    var n := |capture| - 1;
    if i == n {
      assert capture[i := f][..n] == capture[..n];
      IdleInFlight(capture[..n]);
    } else {
      assert capture[i := f][..n] == capture[..n][i := f];
      QueueInFlight(capture[..n], i, f);
    }
  }

  lemma {:induction false} TakeInFlight(capture: seq<Frame>, i: nat, f: Frame)
    requires i < |capture| && |InFlight(capture)| <= 1 && capture[i].queued && !f.queued
    ensures InFlight(capture) == [capture[i].importToken] && InFlight(capture[i := f]) == []
  {
    var n := |capture| - 1;
    if i == n {
      assert capture[i := f][..n] == capture[..n];
    } else {
      assert capture[i := f][..n] == capture[..n][i := f];
      TakeInFlight(capture[..n], i, f);
    }
  }

  // ---------------------------------------------------------------- the ledger

  /** Tokens may only leave the map; the targets of those that stay keep their policy and buffer. */
  ghost predicate Kept(l: Ledger, l': Ledger) {
    forall t :: t in l'.pending ==>
      && t in l.pending
      && l'.Get(l'.pending[t]).publish == l.Get(l.pending[t]).publish
      && l'.Get(l'.pending[t]).destination == l.Get(l.pending[t]).destination
  }

  lemma SettleKept(l: Ledger, token: nat, fate: Fate, after: Target)
    requires Conserved(l) && token in l.pending
    ensures Kept(l, l.Settle(token, fate, after))
  {
    forall t | t in l.pending
      ensures l.Get(l.pending[t]).token == t
    {
    }
  }

  lemma FailKept(l: Ledger, token: nat)
    requires Conserved(l)
    ensures Kept(l, l.Fail(token))
  {
    hide Conserved;
    if token in l.pending {
      SettleKept(l, token, Errored, l.Get(l.pending[token]).(pending := false, error := true));
    }
  }

  /** Only a target without a buffer is failed. */
  lemma FailSpares(l: Ledger, token: nat, x: nat)
    requires Conserved(l) && Bufferless(l, token) && x in l.pending && !Bufferless(l, x)
    ensures x in l.Fail(token).pending && !Bufferless(l.Fail(token), x)
  {
    assert l.Get(l.pending[x]).token == x && l.Get(l.pending[token]).token == token;
  }

  lemma {:induction false} FailExceptKept(l: Ledger, keep: set<nat>, n: nat)
    requires Conserved(l)
    ensures Kept(l, l.FailExcept(keep, n))
  {
    hide Conserved;
    if n > 0 {
      FailExceptKept(l, keep, n - 1);
      FailExceptConserves(l, keep, n - 1);
      FailKept(l.FailExcept(keep, n - 1), n - 1);
    }
  }

  lemma ReleaseKept(l: Ledger, id: nat)
    requires Conserved(l)
    ensures Kept(l, l.Release(id))
  {
    forall t | t in l.pending
      ensures l.Get(l.pending[t]).token == t && l.Get(l.pending[t]).pending
    {
    }
  }

  lemma TimeoutKept(s: State, id: nat)
    requires Conserved(s.ledger)
    ensures Kept(s.ledger, TimeoutStep(s, id).ledger)
  {
    FailKept(s.ledger, s.ledger.Get(id).token);
    forall t | t in s.ledger.pending
      ensures s.ledger.Get(s.ledger.pending[t]).token == t
    {
    }
  }

  // ---------------------------------------------------------------- actions

  /** Queues and backlog stay, tokens may be settled. */
  lemma KeptLive(s: State, s': State, undecoded: seq<nat>)
    requires Live(s, undecoded) && Kept(s.ledger, s'.ledger)
    requires s'.pool.capture == s.pool.capture && s'.pool.memory == s.pool.memory && s'.pool.layout == s.pool.layout
    requires s'.backlog == s.backlog
             && (s'.phase == s.phase || s'.phase.Draining? || s'.phase.RestartPending? || s'.phase.Finished?)
    ensures Live(s', undecoded)
  {
    forall i | 0 <= i < |s'.backlog|
      ensures Ready(s'.ledger, s'.pool.layout, s'.backlog[i])
    {
    }
  }

  /** With every entry ready, queue_import_next hands over the head or finds nothing to do. */
  lemma QueueNextLive(s: State, undecoded: seq<nat>)
    requires Live(s, undecoded) && s.pool.capture != []
    ensures Live(QueueNext(s), undecoded) && QueueNext(s).stats == s.stats && QueueNext(s).ledger == s.ledger
    ensures QueueNext(s).phase == s.phase
    ensures QueueNext(s).backlog != [] ==> |InFlight(QueueNext(s).pool.capture)| == 1
    ensures Idle(QueueNext(s).pool.capture) ==> undecoded == []
  {
    IdleInFlight(s.pool.capture);
    if s.backlog != [] && Idle(s.pool.capture) {
      assert Ready(s.ledger, s.pool.layout, s.backlog[0]);
      GiveLive(s, undecoded);
    } else {
      assert QueueNext(s) == s;
    }
  }

  lemma GiveLive(s: State, undecoded: seq<nat>)
    requires Live(s, undecoded) && s.pool.capture != [] && s.backlog != [] && Idle(s.pool.capture)
    ensures Live(GiveBuffer(s), undecoded) && |InFlight(GiveBuffer(s).pool.capture)| == 1
    ensures GiveBuffer(s).stats == s.stats && GiveBuffer(s).ledger == s.ledger && GiveBuffer(s).phase == s.phase
    ensures !Idle(GiveBuffer(s).pool.capture)
  {
    hide InFlight;
    IdleInFlight(s.pool.capture);
    var e := s.backlog[0];
    assert Ready(s.ledger, s.pool.layout, e);
    var index := ImportSlot(s.pool.capture, e.fd);
    assert FirstFree(s.pool.capture, 0) == 0;
    QueueInFlight(s.pool.capture, index, Frame(true, e.token, e.fd));
    IdleInFlight(GiveBuffer(s).pool.capture);
    forall i | 0 <= i < |s.backlog| - 1
      ensures Ready(s.ledger, s.pool.layout, s.backlog[1..][i])
    {
      assert Ready(s.ledger, s.pool.layout, s.backlog[i + 1]);
    }
  }

  lemma SubmitLockstep(cfg: Config, s: State, u: seq<nat>, a: Action)
    requires cfg.decodeOrder && Lockstep(s, u) && Conserved(s.ledger) && Pooled(cfg, s)
    requires a.Submit? && Enabled(cfg, s, a) && InOrder(s, u, a)
    ensures Lockstep(Step(cfg, s, a), AfterAction(s, u, a))
  {
    hide InFlight, QueueNext, Conserved, Aligned;
    var slot := FreeOutput(s.pool.outputs, 0);
    var entry := Entry(s.ledger.next, a.fd);
    var issued := s.(pool := s.pool.(outputs := s.pool.outputs[slot := OutputSlot(true, s.ledger.next)]),
                     kernel := s.kernel.(output := s.kernel.output + multiset{slot}),
                     ledger := s.ledger.Issue(a.id, a.publish, a.destination),
                     stats := s.stats.(submitted := s.stats.submitted + 1),
                     backlog := s.backlog + [entry]);
    ListedLive(s, u, a, issued, entry);
    QueueNextLive(issued, u + [s.ledger.next]);
  }

  lemma ListedLive(s: State, u: seq<nat>, a: Action, s': State, entry: Entry)
    requires a.Submit? && Live(s, u) && s.phase.Streaming? && Conserved(s.ledger) && !s.ledger.Get(a.id).pending
    requires InOrder(s, u, a) && entry == Entry(s.ledger.next, a.fd)
    requires s'.ledger == s.ledger.Issue(a.id, a.publish, a.destination) && s'.phase == s.phase
    requires s'.backlog == s.backlog + [entry]
    requires s'.pool.capture == s.pool.capture && s'.pool.memory == s.pool.memory && s'.pool.layout == s.pool.layout
    ensures Live(s', u + [s.ledger.next])
  {
    hide InFlight;
    assert InFlight(s.pool.capture) + Tokens(s.backlog) + [s.ledger.next] == InFlight(s.pool.capture)
           + Tokens(s'.backlog);
    assert s.ledger.next > 0 && s.ledger.next !in s.ledger.pending;
    forall t | t in s.ledger.pending
      ensures s'.ledger.Get(s'.ledger.pending[t]) == s.ledger.Get(s.ledger.pending[t])
    {
      assert s.ledger.Get(s.ledger.pending[t]).pending;
    }
    forall i | 0 <= i < |s'.backlog|
      ensures Ready(s'.ledger, s'.pool.layout, s'.backlog[i])
    {
      if i < |s.backlog| {
        assert Ready(s.ledger, s.pool.layout, s.backlog[i]);
      }
    }
  }

  /** The buffer that comes back is the one in flight. */
  lemma TakenLive(cfg: Config, s: State, u: seq<nat>, d: Completion)
    requires Live(s, u) && Mirrors(s) && d.index in s.kernel.capture && d.index < |s.pool.capture|
    requires InOrder(s, u, CaptureReturn(d, false))
    ensures Live(Taken(s, d.index), AfterAction(s, u, CaptureReturn(d, false)))
    ensures InFlight(Taken(s, d.index).pool.capture) == []
    ensures d.payload ==> s.pool.capture[d.index].importToken == d.timestamp
  {
    hide InFlight;
    var f := s.pool.capture[d.index];
    TakeInFlight(s.pool.capture, d.index, Frame(false, 0, f.importFd));
    var taken := Taken(s, d.index);
    assert [f.importToken] != [0] ==> u == [f.importToken] + Tokens(s.backlog);
    assert f.importToken == 0 ==> [f.importToken] == [0];
    assert u != [] ==> u[1..] == Tokens(s.backlog) && u[0] == f.importToken;
    assert [] + Tokens(s.backlog) == Tokens(s.backlog);
    forall i | 0 <= i < |s.backlog|
      ensures Ready(taken.ledger, taken.pool.layout, taken.backlog[i])
    {
      assert Ready(s.ledger, s.pool.layout, s.backlog[i]);
    }
  }

  lemma CaptureLockstep(cfg: Config, s: State, u: seq<nat>, a: Action)
    requires Lockstep(s, u) && Conserved(s.ledger) && Owned(cfg, s)
    requires a.CaptureReturn? && Enabled(cfg, s, a) && InOrder(s, u, a)
    ensures Lockstep(Step(cfg, s, a), AfterAction(s, u, a))
  {
    hide InFlight, CaptureStep, Conserved, Owned, Live;
    CaptureLive(cfg, s, u, a.d, a.copyFails);
  }

  lemma CaptureLive(cfg: Config, s: State, u: seq<nat>, d: Completion, copyFails: bool)
    requires Live(s, u) && Conserved(s.ledger) && Owned(cfg, s) && (s.phase.Streaming? || s.phase.Draining?)
    requires d.index in s.kernel.capture && d.index < |s.pool.capture| && InOrder(s, u, CaptureReturn(d, copyFails))
    ensures var s' := CaptureStep(cfg, s, d, copyFails);
            && Live(s', AfterAction(s, u, CaptureReturn(d, copyFails))) && s'.stats.misplaced == s.stats.misplaced
            && s'.phase == s.phase
            && (s.phase.Streaming? && s'.backlog != [] ==> |InFlight(s'.pool.capture)| == 1)
  {
    hide InFlight, QueueNext, Conserved, Live, Deliver, Taken, Mirrors, Sound, Exclusive, Kept;
    var u' := AfterAction(s, u, CaptureReturn(d, false));
    TakenLive(cfg, s, u, d);
    var taken := Taken(s, d.index);
    TakenGeneration(s, d.index);
    TakenPhase(s, d.index);
    var next := NextIfStreaming(taken);
    QueueNextLive(taken, u');
    var last := NoteLast(next, d.last);
    DeliverLockstep(cfg, last, d, s.pool.capture[d.index].importToken, copyFails);
    DeliverKeeps(cfg, last, d, s.pool.capture[d.index].importToken, copyFails);
    KeptLive(next, CaptureStep(cfg, s, d, copyFails), u');
  }

  lemma TakenPhase(s: State, index: nat)
    requires index < |s.pool.capture|
    ensures Taken(s, index).phase == s.phase && Taken(s, index).stats == s.stats
    ensures |Taken(s, index).pool.capture| == |s.pool.capture|
  {
  }

  /** A picture in its own buffer is not misplaced. */
  lemma DeliverLockstep(cfg: Config, s: State, d: Completion, owner: nat, copyFails: bool)
    requires Conserved(s.ledger) && (d.payload ==> owner == d.timestamp)
    ensures Kept(s.ledger, Deliver(cfg, s, d, owner, copyFails).ledger)
    ensures Deliver(cfg, s, d, owner, copyFails).stats.misplaced == s.stats.misplaced
  {
    hide Conserved, Kept, PublishStep, Ledger.Fail, Copies;
    SameKept(s.ledger);
    FailKept(s.ledger, d.timestamp);
    if d.timestamp in s.ledger.pending {
      PublishKept(cfg, s, d.timestamp, d.index, copyFails);
    }
  }

  lemma PublishKept(cfg: Config, s: State, token: nat, index: nat, copyFails: bool)
    requires Conserved(s.ledger) && token in s.ledger.pending
    ensures Kept(s.ledger, PublishStep(cfg, s, token, index, copyFails).ledger)
    ensures PublishStep(cfg, s, token, index, copyFails).stats.misplaced == s.stats.misplaced
  {
    hide Conserved, Kept, Delivered, Copies;
    var t := s.ledger.Get(s.ledger.pending[token]);
    SettleKept(s.ledger, token, Stranded, t.(publish := Copy));
    SettleKept(s.ledger, token, Errored, t.(publish := Copy, pending := false, error := true));
    SettleKept(s.ledger, token, Published, Delivered(s, t, index));
  }

  lemma DrainFeedLockstep(cfg: Config, s: State, u: seq<nat>, scratch: int)
    requires Lockstep(s, u) && Pooled(cfg, s) && s.phase.Draining?
    ensures Lockstep(DrainFeedStep(s, scratch), u)
  {
    hide InFlight, QueueNext;
    QueueNextLive(s, u);
    var next := QueueNext(s);
    var index := FirstFree(next.pool.capture, 0);
    IdleInFlight(next.pool.capture);
    if Idle(next.pool.capture) && index < |next.pool.capture| {
      QueueInFlight(next.pool.capture, index, Frame(true, 0, scratch));
    }
  }

  lemma SettlingLockstep(cfg: Config, s: State, u: seq<nat>, a: Action)
    requires cfg.decodeOrder && Lockstep(s, u) && Conserved(s.ledger) && Enabled(cfg, s, a) && InOrder(s, u, a)
    requires a.Release? || a.Requeue? || a.SourceChange? || a.DrainBegin? || a.DrainEnd? || a.Timeout? || a.Finish?
          || a.OutputReturn? || a.Fail? || a.RejectImport?
    ensures Lockstep(Step(cfg, s, a), AfterAction(s, u, a))
  {
    hide InFlight, Conserved, AllReady, Aligned, Kept, Live, Ledger.FailExcept;
    var s' := Step(cfg, s, a);
    if !s'.phase.Failed? {
      SameKept(s.ledger);
      match a {
        case Release(id) => ReleaseKept(s.ledger, id);
        case DrainEnd => FailExceptKept(s.ledger, Owed(s.pool.outputs), s.ledger.next);
        case Timeout(id) => TimeoutKept(s, id);
        case _ =>
      }
      MemoryOf(s, u);
      KeptLive(s, s', u);
    }
  }

  lemma MemoryOf(s: State, u: seq<nat>)
    requires Live(s, u)
    ensures s.pool.memory == Dmabuf && !s.phase.Configured? && !s.phase.Reconfiguring?
  {
  }

  lemma SameKept(l: Ledger)
    ensures Kept(l, l)
  {
  }

  lemma StepLockstep(cfg: Config, s: State, u: seq<nat>, a: Action)
    requires cfg.decodeOrder && Lockstep(s, u) && Conserved(s.ledger) && Owned(cfg, s)
    requires Enabled(cfg, s, a) && InOrder(s, u, a)
    ensures Lockstep(Step(cfg, s, a), AfterAction(s, u, a))
  {
    PooledOf(cfg, s);
    hide Lockstep, Conserved, Owned, Step;
    match a
    case Submit(_, _, _, _) => SubmitLockstep(cfg, s, u, a);
    case CaptureReturn(_, _) => CaptureLockstep(cfg, s, u, a);
    case DrainFeed(scratch) =>
      DrainFeedLockstep(cfg, s, u, scratch);
    case _ => SettlingLockstep(cfg, s, u, a);
  }

  /** From a state in lockstep, every run with an in-order firmware at one geometry stays in lockstep: nothing
      is ever misplaced, and each buffer goes to the picture it belongs to. */
  lemma {:induction false} RunsInLockstep(cfg: Config, outputs: nat, h: seq<Action>, k: nat)
    requires cfg.decodeOrder && Legal(cfg, outputs, h) && k <= |h| && Legal(cfg, outputs, h[..k])
    requires Lockstep(Replay(cfg, outputs, h[..k]), Undecoded(cfg, outputs, h[..k]))
    requires InOrderFrom(cfg, outputs, h, k)
    ensures Lockstep(Replay(cfg, outputs, h), Undecoded(cfg, outputs, h))
    decreases |h|
  {
    hide Lockstep, Step, Enabled, AfterAction;
    if k == |h| {
      assert h[..k] == h;
    } else {
      var n := |h| - 1;
      assert h[..n][..k] == h[..k];
      RunsInLockstep(cfg, outputs, h[..n], k);
      RunsAreOwned(cfg, outputs, h[..n]);
      hide Conserved, Owned;
      StepLockstep(cfg, Replay(cfg, outputs, h[..n]), Undecoded(cfg, outputs, h[..n]), h[n]);
    }
  }

  // ---------------------------------------------------------------- entering lockstep

  /** 1, 2, ... up to `next`. */
  function Issued(next: nat): seq<nat>
    requires next >= 1
  {
    seq(next - 1, i requires 0 <= i < next - 1 => i + 1)
  }

  lemma NoneIssued()
    ensures Issued(1) == []
  {
  }

  lemma IssuedMore(next: nat)
    requires next >= 1
    ensures Issued(next + 1) == Issued(next) + [next]
  {
  }

  lemma RunPooled(cfg: Config, outputs: nat, h: seq<Action>)
    requires Legal(cfg, outputs, h)
    ensures Pooled(cfg, Replay(cfg, outputs, h))
  {
    RunsAreOwned(cfg, outputs, h);
  }

  /** Before the first pool, nothing has been decoded and nothing waits. */
  lemma {:induction false} BeforeThePool(cfg: Config, outputs: nat, h: seq<Action>)
    requires Legal(cfg, outputs, h)
    requires Replay(cfg, outputs, h).phase.Configured? && Replay(cfg, outputs, h).generation == 0
    ensures var s := Replay(cfg, outputs, h);
            && s.ledger.next >= 1 && Undecoded(cfg, outputs, h) == Issued(s.ledger.next)
            && s.backlog == [] && s.stats.misplaced == 0
    decreases |h|
  {
    hide Step, Enabled, Pooled, Issued;
    if h == [] {
      NoneIssued();
    } else {
      var n := |h| - 1;
      RunPooled(cfg, outputs, h[..n]);
      StaysConfigured(cfg, Replay(cfg, outputs, h[..n]), h[n]);
      BeforeThePool(cfg, outputs, h[..n]);
      IssuedMore(Replay(cfg, outputs, h[..n]).ledger.next);
    }
  }

  lemma StaysConfigured(cfg: Config, s: State, a: Action)
    requires Enabled(cfg, s, a) && Pooled(cfg, s)
    requires Step(cfg, s, a).phase.Configured? && Step(cfg, s, a).generation == 0
    ensures s.phase.Configured? && s.generation == 0 && !a.CaptureReturn?
    ensures Step(cfg, s, a).backlog == s.backlog && Step(cfg, s, a).stats.misplaced == s.stats.misplaced
    ensures Step(cfg, s, a).ledger.next == s.ledger.next + if a.Submit? then 1 else 0
  {
    hide QueueNext, Deliver, Requeued, Ledger.FailExcept, Gathered, NewPool, CaptureStep;
    if a.CaptureReturn? {
      CapturePhase(cfg, s, a.d, a.copyFails);
    } else if a.DrainFeed? {
      KeepsMemory(s);
    } else if a.Submit? {
      SubmitPhase(s, a.id, a.publish, a.destination, a.fd);
      assert s.pool.memory == Mmap;
    }
  }

  lemma CapturePhase(cfg: Config, s: State, d: Completion, copyFails: bool)
    requires d.index < |s.pool.capture|
    ensures CaptureStep(cfg, s, d, copyFails).phase == s.phase
  {
    hide QueueNext, Deliver;
    KeepsMemory(Taken(s, d.index));
    var next := NextIfStreaming(Taken(s, d.index));
    DeliverKeeps(cfg, NoteLast(next, d.last), d, s.pool.capture[d.index].importToken, copyFails);
  }

  /** Every picture submitted so far is still waited for and has a fitting buffer. */
  predicate Waiting(l: Ledger, fds: map<nat, int>, layout: Layout, token: nat) {
    && token in l.pending && FdOf(fds, token) >= 0
    && var t := l.Get(l.pending[token]);
       !t.publish.Direct? && t.destination.Buffer? && Compatible(t.destination.layout, layout)
  }

  ghost predicate AllWaiting(l: Ledger, fds: map<nat, int>, layout: Layout) {
    forall t: nat :: 1 <= t < l.next ==> Waiting(l, fds, layout, t)
  }

  ghost predicate Ascending(b: seq<Entry>, n: nat) {
    && (forall i :: 0 <= i < |b| ==> 0 < b[i].token < n)
    && (forall i, j :: 0 <= i < j < |b| ==> b[i].token < b[j].token)
  }

  /** `b` lists the pending pictures below `n` that have a buffer. */
  ghost predicate Lists(l: Ledger, fds: map<nat, int>, b: seq<Entry>, n: nat) {
    && Ascending(b, n)
    && (forall i :: 0 <= i < |b| ==>
          && b[i].token in l.pending && b[i].fd == FdOf(fds, b[i].token)
          && l.Get(l.pending[b[i].token]).destination.Buffer?)
    && (forall t :: t in l.pending && t < n && l.Get(l.pending[t]).destination.Buffer? ==> Listed(b, t))
  }

  lemma ListsMore(l: Ledger, fds: map<nat, int>, b: seq<Entry>, n: nat)
    requires Lists(l, fds, b, n) && n in l.pending && n > 0 && l.Get(l.pending[n]).destination.Buffer?
    ensures Lists(l, fds, b + [Entry(n, FdOf(fds, n))], n + 1)
  {
    var b' := b + [Entry(n, FdOf(fds, n))];
    forall t | Listed(b, t) || t == n
      ensures Listed(b', t)
    {
      if Listed(b, t) {
        var i :| 0 <= i < |b| && b[i].token == t;
        assert b'[i].token == t;
      } else {
        assert b'[|b|].token == n;
      }
    }
  }

  lemma ListsNothing(l: Ledger, fds: map<nat, int>)
    ensures Lists(l, fds, [], 0)
  {
  }

  lemma NotYetListed(l: Ledger, fds: map<nat, int>, b: seq<Entry>, n: nat)
    requires Lists(l, fds, b, n)
    ensures !Listed(b, n)
    ensures !(n in l.pending && l.Get(l.pending[n]).destination.Buffer?) ==> Lists(l, fds, b, n + 1)
  {
  }

  lemma {:induction false} GatheredEntries(l: Ledger, fds: map<nat, int>, n: nat)
    requires 0 !in l.pending
    ensures Lists(l, fds, Gathered(l, [], fds, n), n)
  {
    hide Lists, Listed;
    if n == 0 {
      ListsNothing(l, fds);
    } else {
      GatheredEntries(l, fds, n - 1);
      var b := Gathered(l, [], fds, n - 1);
      NotYetListed(l, fds, b, n - 1);
      if n - 1 in l.pending && l.Get(l.pending[n - 1]).destination.Buffer? {
        ListsMore(l, fds, b, n - 1);
      }
    }
  }

  lemma Find(b: seq<Entry>, token: nat) returns (i: nat)
    requires Listed(b, token)
    ensures i < |b| && b[i].token == token
  {
    i :| 0 <= i < |b| && b[i].token == token;
  }

  /** Ascending tokens that include all of 1, 2, ... are exactly those. */
  lemma {:induction false} AscendingAll(b: seq<Entry>, n: nat)
    requires n >= 1 && Ascending(b, n) && forall t: nat :: 1 <= t < n ==> Listed(b, t)
    ensures Tokens(b) == Issued(n)
  {
    hide Listed;
    if n > 1 {
      var last := Find(b, n - 1);
      LastIsLargest(b, n, last);
      var b' := b[..last];
      forall t: nat | 1 <= t < n - 1
        ensures Listed(b', t)
      {
        var i := Find(b, t);
        ListedAt(b', i);
      }
      AscendingAll(b', n - 1);
      assert Tokens(b) == Tokens(b') + [n - 1];
      assert Issued(n) == Issued(n - 1) + [n - 1];
    } else if b != [] {
      LastIsLargest(b, n, 0);
      assert false;
    }
  }

  lemma LastIsLargest(b: seq<Entry>, n: nat, i: nat)
    requires Ascending(b, n) && i < |b|
    ensures 0 < b[i].token < n
    ensures i < |b| - 1 ==> b[i].token < n - 1
  {
    if i < |b| - 1 {
      assert b[i].token < b[|b| - 1].token;
    }
  }

  lemma ListedAt(b: seq<Entry>, i: nat)
    requires i < |b|
    ensures Listed(b, b[i].token)
  {
  }

  lemma {:induction false} OldestPending(pending: map<nat, nat>, t: nat, bound: nat, x: nat)
    requires t <= x < bound && x in pending && forall y :: t <= y < x ==> y !in pending
    ensures FirstPending(pending, t, bound) == x
    decreases x - t
  {
    if t < x {
      OldestPending(pending, t + 1, bound, x);
    }
  }

  /** The state that enter_streaming hands to queue_import_next, for an Import pool. */
  function Entered(cfg: Config, s: State, layout: Layout, count: nat, fds: map<nat, int>): State {
    var p := NewPool(cfg, s, layout, count);
    p.(backlog := Gathered(p.ledger, p.backlog, fds, p.ledger.next), phase := Streaming)
  }

  lemma EnteredStep(cfg: Config, s: State, layout: Layout, count: nat, fds: map<nat, int>)
    requires GrantsImport(cfg, s.ledger, layout)
    ensures var g := Entered(cfg, s, layout, count, fds);
            && g.ledger == s.ledger && g.pool.memory == Dmabuf && g.pool.layout == layout && g.stats == s.stats
            && g.pool.capture == seq(count, _ => IDLE_FRAME) && Idle(g.pool.capture) && g.phase == Streaming
            && g.backlog == Gathered(s.ledger, s.backlog, fds, s.ledger.next)
            && ConfigureStep(cfg, s, layout, count, fds) == QueueNext(g).(sourceChange := false, sawLast := false)
  {
    hide QueueNext, Gathered, GrantsImport;
    var p := NewPool(cfg, s, layout, count);
    PhaseOfQueueNext(p.(backlog := Gathered(p.ledger, p.backlog, fds, p.ledger.next)), Streaming);
  }

  /** What enter_streaming gathers is what the firmware will decode, in order, and each can be handed over. */
  ghost predicate InStep(g: State, u: seq<nat>) {
    Tokens(g.backlog) == u && AllReady(g)
  }

  lemma EntryIsLive(cfg: Config, s: State, layout: Layout, count: nat, fds: map<nat, int>, u: seq<nat>)
    requires GrantsImport(cfg, s.ledger, layout) && count > 0 && s.stats.misplaced == 0
    requires InStep(Entered(cfg, s, layout, count, fds), u)
    ensures Lockstep(ConfigureStep(cfg, s, layout, count, fds), u)
  {
    hide QueueNext, Gathered, GrantsImport, InFlight, Entered, ConfigureStep;
    EnteredStep(cfg, s, layout, count, fds);
    var g := Entered(cfg, s, layout, count, fds);
    IdleInFlight(g.pool.capture);
    assert [] + Tokens(g.backlog) == Tokens(g.backlog);
    QueueNextLive(g, u);
  }

  /** If every picture waits, enter_streaming lists them all, and each can be handed over. */
  lemma GatheredReady(g: State, fds: map<nat, int>)
    requires g.ledger.next >= 1 && Lists(g.ledger, fds, g.backlog, g.ledger.next)
    requires AllWaiting(g.ledger, fds, g.pool.layout)
    ensures InStep(g, Issued(g.ledger.next))
  {
    hide Listed, Issued;
    forall t: nat | 1 <= t < g.ledger.next
      ensures Listed(g.backlog, t)
    {
      assert Waiting(g.ledger, fds, g.pool.layout, t);
    }
    AscendingAll(g.backlog, g.ledger.next);
    forall i | 0 <= i < |g.backlog|
      ensures Ready(g.ledger, g.pool.layout, g.backlog[i])
    {
      assert Waiting(g.ledger, fds, g.pool.layout, g.backlog[i].token);
    }
  }

  // ---------------------------------------------------------------- a run that breaks it

  lemma Extend(cfg: Config, outputs: nat, h: seq<Action>, a: Action)
    requires Legal(cfg, outputs, h) && Enabled(cfg, Replay(cfg, outputs, h), a)
    ensures Legal(cfg, outputs, h + [a])
    ensures Replay(cfg, outputs, h + [a]) == Step(cfg, Replay(cfg, outputs, h), a)
    ensures Undecoded(cfg, outputs, h + [a]) == AfterAction(Replay(cfg, outputs, h), Undecoded(cfg, outputs, h), a)
  {
    hide Step, Enabled, AfterAction;
    assert (h + [a])[..|h|] == h;
  }

  const ANY_LAYOUT := Layout(NV12, 1, 1, 1, 1, 0, 1)

  const QUALIFIED := Config(true, true, true)

  ghost predicate Free(s: State, outputs: nat, used: nat) {
    |s.pool.outputs| == outputs && forall i :: used <= i < outputs ==> !s.pool.outputs[i].queued
  }

  lemma FreeSlot(outputs: seq<OutputSlot>, i: nat, used: nat)
    requires i <= used < |outputs| && !outputs[used].queued
    ensures i <= FreeOutput(outputs, i) <= used
    decreases used - i
  {
    if i < used && outputs[i].queued {
      FreeSlot(outputs, i + 1, used);
    }
  }

  /** Two pictures before the pool exists, and the first released (a submit that timed out, say). */
  lemma ReleasedBeforeThePool() returns (h: seq<Action>)
    ensures h == [Submit(0, Import, Buffer(ANY_LAYOUT), 3), Release(0), Submit(1, Import, Buffer(ANY_LAYOUT), 4),
            SourceChange]
    ensures Legal(QUALIFIED, 4, h) && Undecoded(QUALIFIED, 4, h) == [1, 2]
    ensures var s := Replay(QUALIFIED, 4, h);
            && s.phase == Configured && s.ledger.next == 3 && s.backlog == [] && s.sourceChange
               && s.stats.misplaced == 0
            && s.ledger.pending == map[2 := 1] && s.pool.capture == [] && s.kernel.capture == multiset{}
            && s.ledger.Get(1) == Target(2, true, false, false, Import, Buffer(ANY_LAYOUT), Nothing)
            && !s.ledger.Get(2).pending && Free(s, 4, 2) && s.generation == 0
  {
    h := [];
    var s0 := Replay(QUALIFIED, 4, h);
    var a1 := Submit(0, Import, Buffer(ANY_LAYOUT), 3);
    FreeSlot(s0.pool.outputs, 0, 0);
    Extend(QUALIFIED, 4, h, a1);
    h := h + [a1];
    var s1 := Replay(QUALIFIED, 4, h);
    Extend(QUALIFIED, 4, h, Release(0));
    h := h + [Release(0)];
    var s2 := Replay(QUALIFIED, 4, h);
    var a3 := Submit(1, Import, Buffer(ANY_LAYOUT), 4);
    FreeSlot(s2.pool.outputs, 0, 1);
    Extend(QUALIFIED, 4, h, a3);
    h := h + [a3];
    var s3 := Replay(QUALIFIED, 4, h);
    Extend(QUALIFIED, 4, h, SourceChange);
    h := h + [SourceChange];
  }

  lemma OneEntry(l: Ledger, fds: map<nat, int>, n: nat)
    requires l.pending == map[2 := 1] && l.Get(1).destination.Buffer? && 2 in fds
    ensures Gathered(l, [], fds, n) == if n <= 2 then [] else [Entry(2, fds[2])]
  {
    if n > 0 {
      OneEntry(l, fds, n - 1);
    }
  }

  /** A client may do this before the pool exists: hand in pictures with fitting buffers, and take some back. */
  predicate Blameless(a: Action, layout: Layout) {
    match a
    case Submit(_, publish, destination, fd) =>
      fd >= 0 && publish.Import? && destination.Buffer? && Compatible(destination.layout, layout)
    case Release(_) => true
    case SourceChange => true
    case _ => false
  }

  /** The pool is built, and token 2 gets a buffer; the firmware puts picture 1 into it, and then picture 2
      into the buffer of token 3. Both are failed, though the firmware and the client did nothing wrong: up to
      the pool only fitting submits, a release and the event, from then on an in-order run. */
  lemma LockstepBreaks() returns (h: seq<Action>, k: nat)
    ensures Legal(QUALIFIED, 4, h) && 0 < k < |h| && h[k - 1].ConfigureCapture?
    ensures Legal(QUALIFIED, 4, h[..k]) && Legal(QUALIFIED, 4, h[..k - 1])
    ensures forall i :: 0 <= i < k - 1 ==> Blameless(h[i], h[k - 1].layout)
    ensures exists i :: 0 <= i < k - 1 && h[i].Release?
    ensures var early := Replay(QUALIFIED, 4, h[..k - 1]).ledger;
            forall t :: t in early.pending ==> Waiting(early, h[k - 1].fds, h[k - 1].layout, t)
    ensures var s := Replay(QUALIFIED, 4, h[..k]);
            s.phase.Streaming? && s.pool.memory == Dmabuf && s.generation == 0 && s.stats.misplaced == 0
    ensures InOrderFrom(QUALIFIED, 4, h, k)
    ensures Replay(QUALIFIED, 4, h).stats.misplaced == 1
  {
    hide Replay, Legal, InOrderFrom, Waiting;
    var before := ReleasedBeforeThePool();
    h := BreakingRun(before);
    k := |before| + 1;
    assert h[..k] == before + [BREAKING_POOL] && h[..k - 1] == before;
    assert h[1] == Release(0);
    var early := Replay(QUALIFIED, 4, before).ledger;
    TwoWaits(early);
  }

  const BREAKING_POOL: Action := ConfigureCapture(ANY_LAYOUT, 1, map[2 := 5])

  lemma TwoWaits(l: Ledger)
    requires l.pending == map[2 := 1] && l.Get(1) == Target(2, true, false, false, Import, Buffer(ANY_LAYOUT), Nothing)
    ensures forall t :: t in l.pending ==> Waiting(l, BREAKING_POOL.fds, BREAKING_POOL.layout, t)
  {
  }

  lemma BreakingRun(before: seq<Action>) returns (h: seq<Action>)
    requires Legal(QUALIFIED, 4, before) && Undecoded(QUALIFIED, 4, before) == [1, 2]
    requires var s := Replay(QUALIFIED, 4, before);
             && s.phase == Configured && s.ledger.next == 3 && s.backlog == [] && s.sourceChange
                && s.stats.misplaced == 0
             && s.ledger.pending == map[2 := 1] && s.pool.capture == [] && s.kernel.capture == multiset{}
             && s.ledger.Get(1) == Target(2, true, false, false, Import, Buffer(ANY_LAYOUT), Nothing)
             && !s.ledger.Get(2).pending && Free(s, 4, 2) && s.generation == 0
    ensures |before + [BREAKING_POOL]| < |h| && before + [BREAKING_POOL] <= h && Legal(QUALIFIED, 4, h)
    ensures Legal(QUALIFIED, 4, before + [BREAKING_POOL]) && InOrderFrom(QUALIFIED, 4, h, |before| + 1)
    ensures var s := Replay(QUALIFIED, 4, before + [BREAKING_POOL]);
            s.phase.Streaming? && s.pool.memory == Dmabuf && s.generation == 0 && s.stats.misplaced == 0
    ensures Replay(QUALIFIED, 4, h).stats.misplaced == 1
  {
    hide CaptureStep, SubmitStep, ConfigureStep, InOrderFrom, Replay, Undecoded, Legal;
    EntersWithTwo(QUALIFIED, Replay(QUALIFIED, 4, before));
    Extend(QUALIFIED, 4, before, BREAKING_POOL);
    h := before + [BREAKING_POOL];
    var k := |h|;
    StartInOrder(QUALIFIED, 4, h);
    Dropped(QUALIFIED, Replay(QUALIFIED, 4, h));
    h := Obediently(QUALIFIED, 4, h, Picture(1), k);
    FreeSlot(Replay(QUALIFIED, 4, h).pool.outputs, 0, 2);
    SubmitsThird(QUALIFIED, Replay(QUALIFIED, 4, h));
    h := Obediently(QUALIFIED, 4, h, Submit(2, Import, Buffer(ANY_LAYOUT), 6), k);
    Misplaces(QUALIFIED, Replay(QUALIFIED, 4, h));
    h := Obediently(QUALIFIED, 4, h, Picture(2), k);
  }

  lemma StartInOrder(cfg: Config, outputs: nat, h: seq<Action>)
    requires Legal(cfg, outputs, h)
    ensures InOrderFrom(cfg, outputs, h, |h|)
  {
  }

  /** One more action of an in-order run. */
  lemma Obediently(cfg: Config, outputs: nat, h: seq<Action>, a: Action, k: nat) returns (r: seq<Action>)
    requires Legal(cfg, outputs, h) && Enabled(cfg, Replay(cfg, outputs, h), a) && k <= |h|
    requires InOrderFrom(cfg, outputs, h, k) && InOrder(Replay(cfg, outputs, h), Undecoded(cfg, outputs, h), a)
    ensures r == h + [a] && Legal(cfg, outputs, r) && InOrderFrom(cfg, outputs, r, k)
    ensures Replay(cfg, outputs, r) == Step(cfg, Replay(cfg, outputs, h), a)
    ensures Undecoded(cfg, outputs, r) == AfterAction(Replay(cfg, outputs, h), Undecoded(cfg, outputs, h), a)
  {
    hide Step, Enabled, AfterAction, InOrder;
    r := h + [a];
    Extend(cfg, outputs, h, a);
    assert r[..|h|] == h;
  }

  /** Slot 0 comes back with the picture of `token`. */
  function Picture(token: nat): Action {
    CaptureReturn(Completion(0, token, false, false, true), false)
  }

  lemma Dropped(cfg: Config, s: State)
    requires Carrying(s, 2) && 1 !in s.ledger.pending
    ensures var s' := CaptureStep(cfg, s, Picture(1).d, false);
            && s'.ledger == s.ledger && s'.pool.outputs == s.pool.outputs && s'.phase == Streaming
            && s'.pool.memory == Dmabuf && s'.pool.layout == ANY_LAYOUT && s'.backlog == [] && s'.stats.misplaced == 0
            && |s'.pool.capture| == 1 && Idle(s'.pool.capture) && s'.kernel.capture == multiset{}
  {
    assert QueueNext(Taken(s, 0)) == Taken(s, 0);
  }

  lemma SubmitsThird(cfg: Config, s: State)
    requires s.phase == Streaming && s.pool.memory == Dmabuf && s.pool.layout == ANY_LAYOUT && s.backlog == []
    requires |s.pool.capture| == 1 && Idle(s.pool.capture) && s.kernel.capture == multiset{}
    requires s.stats.misplaced == 0 && s.ledger.next == 3 && s.ledger.pending == map[2 := 1]
    requires FreeOutput(s.pool.outputs, 0) < |s.pool.outputs|
    ensures var s' := SubmitStep(s, 2, Import, Buffer(ANY_LAYOUT), 6);
            Carrying(s', 3) && s'.ledger.pending == map[2 := 1, 3 := 2]
  {
    var slot := FreeOutput(s.pool.outputs, 0);
    var listed := s.(pool := s.pool.(outputs := s.pool.outputs[slot := OutputSlot(true, 3)]),
                     kernel := s.kernel.(output := s.kernel.output + multiset{slot}),
                     ledger := s.ledger.Issue(2, Import, Buffer(ANY_LAYOUT)),
                     stats := s.stats.(submitted := s.stats.submitted + 1),
                     backlog := [Entry(3, 6)]);
    assert ImportSlot(listed.pool.capture, 6) == 0;
    assert SubmitStep(s, 2, Import, Buffer(ANY_LAYOUT), 6) == QueueNext(listed);
    assert QueueNext(listed) == GiveBuffer(listed);
  }

  lemma Misplaces(cfg: Config, s: State)
    requires Carrying(s, 3) && s.ledger.pending == map[2 := 1, 3 := 2]
    ensures CaptureStep(cfg, s, Picture(2).d, false).stats.misplaced == 1
  {
    assert QueueNext(Taken(s, 0)) == Taken(s, 0);
  }

  /** The session is streaming with the buffer of `token` in flight and nothing waiting. */
  ghost predicate Carrying(s: State, token: nat) {
    && s.phase == Streaming && s.pool.memory == Dmabuf && s.pool.layout == ANY_LAYOUT
    && |s.pool.capture| == 1 && s.pool.capture[0].queued && s.pool.capture[0].importToken == token
    && s.kernel.capture == multiset{0} && s.backlog == [] && s.stats.misplaced == 0
  }

  lemma EntersWithTwo(cfg: Config, s: State)
    requires cfg == QUALIFIED && s.phase == Configured && s.sourceChange && s.backlog == []
    requires s.ledger.next == 3 && s.ledger.pending == map[2 := 1] && s.kernel.capture == multiset{}
    requires s.ledger.Get(1) == Target(2, true, false, false, Import, Buffer(ANY_LAYOUT), Nothing)
    requires s.stats.misplaced == 0
    ensures var s' := ConfigureStep(cfg, s, ANY_LAYOUT, 1, map[2 := 5]);
            && Carrying(s', 2) && s'.ledger == s.ledger && s'.pool.outputs == s.pool.outputs
            && s'.generation == s.generation
  {
    var fds := map[2 := 5];
    OldestPending(s.ledger.pending, 0, 3, 2);
    EnteredStep(cfg, s, ANY_LAYOUT, 1, fds);
    OneEntry(s.ledger, fds, 3);
    var g := Entered(cfg, s, ANY_LAYOUT, 1, fds);
    assert ImportSlot(g.pool.capture, 5) == 0;
    assert QueueNext(g) == GiveBuffer(g);
  }
}
