/** A resolution change and the tokens that the firmware still owes: they are pending after the drain, through
    the wait for held frames and the teardown, and in the new pool. */
module SessionReconfigure {
  import opened Layouts
  import opened Slots
  import opened SessionModel
  import opened SessionTokens
  import opened SessionSlots
  import opened SessionImport
  import opened SessionTheorems
  import opened SessionLockstep
  import opened SessionMisplaced
  import opened SessionStranding
  import opened SessionTargets

  // ---------------------------------------------------------------- the backlog

  /** queue_import_next fails `token`: its entry has a descriptor, but its target cannot be decoded into, and every
      entry before its own is passed over. */
  ghost predicate Refuses(s: State, token: nat) {
    && s.pool.memory == Dmabuf && Idle(s.pool.capture) && Bufferless(s.ledger, token)
    && exists i :: RefusedAt(s, token, i)
  }

  ghost predicate RefusedAt(s: State, token: nat, i: int) {
    && 0 <= i < |s.backlog| && s.backlog[i].token == token && s.backlog[i].fd >= 0
    && forall j :: 0 <= j < i ==> s.backlog[j].fd < 0 || Bufferless(s.ledger, s.backlog[j].token)
  }

  lemma PassedRefuses(s: State, p: State, token: nat)
    requires s.backlog != [] && p.pool == s.pool && p.backlog == s.backlog[1..]
    requires s.backlog[0].fd < 0 || (Bufferless(s.ledger, s.backlog[0].token) && s.backlog[0].token != token)
    requires Bufferless(p.ledger, token) <==> Bufferless(s.ledger, token)
    requires forall j :: 1 <= j < |s.backlog| ==>
               (Bufferless(p.ledger, s.backlog[j].token) <==> Bufferless(s.ledger, s.backlog[j].token))
    ensures Refuses(p, token) <==> Refuses(s, token)
  {
    hide Idle, Bufferless;
    forall i | RefusedAt(s, token, i)
      ensures RefusedAt(p, token, i - 1)
    {
    }
    forall i | RefusedAt(p, token, i)
      ensures RefusedAt(s, token, i + 1)
    {
      forall j | 0 <= j < i + 1
        ensures s.backlog[j].fd < 0 || Bufferless(s.ledger, s.backlog[j].token)
      {
        if j > 0 {
          assert p.backlog[j - 1] == s.backlog[j];
        }
      }
    }
  }

  lemma FailOthers(l: Ledger, token: nat, x: nat)
    requires Conserved(l) && x != token
    ensures x in l.Fail(token).pending <==> x in l.pending
    ensures Bufferless(l.Fail(token), x) <==> Bufferless(l, x)
  {
    if x in l.pending && token in l.pending {
      assert l.Get(l.pending[x]).token == x && l.Get(l.pending[token]).token == token;
    }
  }

  lemma {:induction false} QueueNextRefuses(s: State, token: nat)
    requires Conserved(s.ledger) && BacklogSound(s.backlog, s.ledger.next) && token in s.ledger.pending
    ensures token in QueueNext(s).ledger.pending <==> !Refuses(s, token)
    decreases |s.backlog|
  {
    hide Conserved, Idle, Ledger.Fail, Bufferless, Misfit, RefusedAt;
    if s.pool.memory == Dmabuf && s.backlog != [] && Idle(s.pool.capture) {
      var e := s.backlog[0];
      var p := s.(backlog := s.backlog[1..]);
      if e.fd < 0 {
        PassedRefuses(s, p, token);
        QueueNextRefuses(p, token);
      } else if Bufferless(s.ledger, e.token) {
        var failed := CountError(p.(ledger := s.ledger.Fail(e.token)));
        FailConserves(s.ledger, e.token);
        FailKeepsNext(s.ledger, e.token);
        if e.token == token {
          HeadRefused(s, token);
          QueueNextPending(failed);
          FailRemoves(s.ledger, token);
        } else {
          FailOthers(s.ledger, e.token, token);
          forall j | 1 <= j < |s.backlog|
            ensures Bufferless(failed.ledger, s.backlog[j].token) <==> Bufferless(s.ledger, s.backlog[j].token)
          {
            FailOthers(s.ledger, e.token, s.backlog[j].token);
          }
          PassedRefuses(s, failed, token);
          QueueNextRefuses(failed, token);
        }
      } else {
        HeadStops(s, token);
      }
    } else {
      NoBacklog(s, token);
    }
  }

  lemma FailRemoves(l: Ledger, token: nat)
    ensures token !in l.Fail(token).pending
  {
  }

  lemma HeadRefused(s: State, token: nat)
    requires s.pool.memory == Dmabuf && Idle(s.pool.capture) && s.backlog != []
    requires s.backlog[0].token == token && s.backlog[0].fd >= 0 && Bufferless(s.ledger, token)
    ensures Refuses(s, token)
  {
    hide Idle, Bufferless;
    assert RefusedAt(s, token, 0);
  }

  lemma HeadStops(s: State, token: nat)
    requires s.backlog != [] && s.backlog[0].fd >= 0 && !Bufferless(s.ledger, s.backlog[0].token)
    ensures !Refuses(s, token)
  {
    hide Idle, Bufferless;
  }

  lemma NoBacklog(s: State, token: nat)
    ensures s.backlog == [] ==> !Refuses(s, token)
  {
  }

  /** Exactly when building the new pool fails a pending token: the list that enter_streaming gathers refuses it.
      `RebuildFails` says the same of what was submitted. */
  lemma RebuildKeeps(cfg: Config, outputs: nat, h: seq<Action>, layout: Layout, count: nat, fds: map<nat, int>,
                     token: nat)
    requires Legal(cfg, outputs, h) && Enabled(cfg, Replay(cfg, outputs, h), ConfigureCapture(layout, count, fds))
    requires token in Replay(cfg, outputs, h).ledger.pending
    ensures var s := Replay(cfg, outputs, h);
            token in Step(cfg, s, ConfigureCapture(layout, count, fds)).ledger.pending <==>
              !Refuses(Entered(cfg, s, layout, count, fds), token)
  {
    RunsAreSingle(cfg, outputs, h);
    TokensAreConserved(cfg, outputs, h);
    hide Replay, Legal, Conserved, QueueNext, Gathered, GrantsImport, Refuses, Requeued, NewPool;
    var s := Replay(cfg, outputs, h);
    var p := NewPool(cfg, s, layout, count);
    var g := Entered(cfg, s, layout, count, fds);
    NewPoolKeeps(cfg, s, layout, count);
    SingleBacklog(s);
    PendingBelow(s.ledger);
    hide Single;
    GatheredSound(s.ledger, s.backlog, fds, s.ledger.next);
    if p.pool.memory == Dmabuf {
      QueueNextRefuses(g, token);
      PhaseOfQueueNext(p.(backlog := g.backlog), Streaming);
    } else {
      MmapKeeps(g, token);
    }
  }

  lemma MmapKeeps(s: State, token: nat)
    requires s.pool.memory == Mmap
    ensures !Refuses(s, token)
  {
  }

  // ---------------------------------------------------------------- in terms of what was submitted

  /** queue_import_next does not stop at an entry: it has no descriptor, or its target, still waiting, nothing to
      decode into. */
  predicate Passed(l: Ledger, token: nat, fd: int) {
    fd < 0 || Bufferless(l, token)
  }

  predicate HasBuffer(l: Ledger, token: nat)
    requires token in l.pending
  {
    l.Get(l.pending[token]).destination.Buffer?
  }

  /** Every entry that is queued before the rebuild is passed over. */
  ghost predicate AllPassed(l: Ledger, b: seq<Entry>, n: nat)
    requires n <= |b|
  {
    forall j :: 0 <= j < n ==> Passed(l, b[j].token, b[j].fd)
  }

  /** The token's turn comes before the first buffer is handed over: it is queued, or it is gathered after all that
      is queued and after the older pictures. */
  ghost predicate ComesUp(s: State, fds: map<nat, int>, token: nat) {
    || (exists i :: 0 <= i < |s.backlog| && s.backlog[i].token == token && s.backlog[i].fd >= 0
          && AllPassed(s.ledger, s.backlog, i))
    || (&& !Listed(s.backlog, token) && FdOf(fds, token) >= 0 && AllPassed(s.ledger, s.backlog, |s.backlog|)
        && forall t :: t in s.ledger.pending && t < token && !Listed(s.backlog, t) && HasBuffer(s.ledger, t) ==>
             Passed(s.ledger, t, FdOf(fds, t)))
  }

  /** The code's own list: what was queued, and behind it the pending pictures with a buffer, oldest first. */
  ghost predicate Gathers(l: Ledger, b: seq<Entry>, fds: map<nat, int>, g: seq<Entry>, n: nat) {
    && Appends(l, b, g, n)
    && (forall i :: |b| <= i < |g| ==>
          g[i].fd == FdOf(fds, g[i].token) && l.Get(l.pending[g[i].token]).destination.Buffer?)
    && (forall t :: t in l.pending && t < n && !Listed(b, t) && l.Get(l.pending[t]).destination.Buffer? ==>
          exists i :: |b| <= i < |g| && g[i].token == t)
  }

  lemma GathersMore(l: Ledger, b: seq<Entry>, fds: map<nat, int>, g: seq<Entry>, n: nat)
    requires Gathers(l, b, fds, g, n)
    ensures var more := n in l.pending && !Listed(g, n) && l.Get(l.pending[n]).destination.Buffer?;
            Gathers(l, b, fds, if more then g + [Entry(n, FdOf(fds, n))] else g, n + 1)
  {
    if n in l.pending && l.Get(l.pending[n]).destination.Buffer? {
      if Listed(g, n) {
        var i := Find(g, n);
        assert i < |b| ==> g[i] == b[i];
        assert i < |b|;
        ListedAt(b, i);
      } else {
        var g' := g + [Entry(n, FdOf(fds, n))];
        assert g'[|g|].token == n;
        if Listed(b, n) {
          ListedLonger(b, g, n);
          assert false;
        }
        forall t | t in l.pending && t < n + 1 && !Listed(b, t) && l.Get(l.pending[t]).destination.Buffer?
          ensures exists i :: |b| <= i < |g'| && g'[i].token == t
        {
          if t < n {
            var i :| |b| <= i < |g| && g[i].token == t;
            assert g'[i].token == t;
          }
        }
      }
    }
  }

  lemma ListedLonger(b: seq<Entry>, g: seq<Entry>, t: nat)
    requires b <= g && Listed(b, t)
    ensures Listed(g, t)
  {
    var i := Find(b, t);
    assert g[i] == b[i];
  }

  lemma {:induction false} GatheredGathers(l: Ledger, b: seq<Entry>, fds: map<nat, int>, n: nat)
    ensures Gathers(l, b, fds, Gathered(l, b, fds, n), n)
  {
    hide Listed, Gathers;
    if n == 0 {
      GathersNothing(l, b, fds);
    } else {
      GatheredGathers(l, b, fds, n - 1);
      GathersMore(l, b, fds, Gathered(l, b, fds, n - 1), n - 1);
    }
  }

  lemma GathersNothing(l: Ledger, b: seq<Entry>, fds: map<nat, int>)
    ensures Gathers(l, b, fds, b, 0)
  {
  }

  /** An entry with a descriptor belongs to a target with a buffer. */
  ghost predicate Buffered(l: Ledger, b: seq<Entry>) {
    forall i :: 0 <= i < |b| && b[i].fd >= 0 && b[i].token in l.pending ==>
      l.Get(l.pending[b[i].token]).destination.Buffer?
  }

  lemma TailBuffered(l: Ledger, b: seq<Entry>, l': Ledger, b': seq<Entry>)
    requires Tail(b, b') && KeptOld(l, l') && BacklogSound(b, l.next) && Buffered(l, b)
    ensures Buffered(l', b')
  {
    var k := |b| - |b'|;
    assert forall i :: 0 <= i < |b'| ==> b'[i] == b[i + k];
  }

  lemma NextBuffered(s: State)
    requires Conserved(s.ledger) && BacklogSound(s.backlog, s.ledger.next) && Buffered(s.ledger, s.backlog)
    ensures Buffered(QueueNext(s).ledger, QueueNext(s).backlog)
  {
    hide Conserved, BacklogSound, Buffered;
    QueueNextTail(s);
    QueueNextKept(s);
    QueueNextPending(s);
    Lost(s.ledger, QueueNext(s).ledger);
    TailBuffered(s.ledger, s.backlog, QueueNext(s).ledger, QueueNext(s).backlog);
  }

  lemma SubmitBuffered(s: State, a: Action)
    requires a.Submit? && FreeOutput(s.pool.outputs, 0) < |s.pool.outputs| && !s.ledger.Get(a.id).pending
    requires Conserved(s.ledger) && BacklogSound(s.backlog, s.ledger.next) && Buffered(s.ledger, s.backlog)
    ensures var n := SubmitStep(s, a.id, a.publish, a.destination, a.fd); Buffered(n.ledger, n.backlog)
  {
    hide QueueNext, Conserved;
    IssueConserves(s.ledger, a.id, a.publish, a.destination);
    IssueKept(s.ledger, a.id, a.publish, a.destination);
    PendingBelow(s.ledger);
    var slot := FreeOutput(s.pool.outputs, 0);
    var issued := s.(pool := s.pool.(outputs := s.pool.outputs[slot := OutputSlot(true, s.ledger.next)]),
                     kernel := s.kernel.(output := s.kernel.output + multiset{slot}),
                     ledger := s.ledger.Issue(a.id, a.publish, a.destination),
                     stats := s.stats.(submitted := s.stats.submitted + 1));
    var listed := issued.(backlog := s.backlog + [Entry(s.ledger.next, if a.destination.Buffer? then a.fd else -1)]);
    NextBuffered(listed);
  }

  lemma ConfigureBuffered(cfg: Config, s: State, a: Action)
    requires a.ConfigureCapture? && Conserved(s.ledger) && BacklogSound(s.backlog, s.ledger.next)
    requires Buffered(s.ledger, s.backlog)
    ensures var n := ConfigureStep(cfg, s, a.layout, a.count, a.fds); Buffered(n.ledger, n.backlog)
  {
    hide QueueNext, Conserved, Gathered, GrantsImport, Requeued, Listed;
    var p := NewPool(cfg, s, a.layout, a.count);
    NewPoolKeeps(cfg, s, a.layout, a.count);
    var g := p.(backlog := Gathered(p.ledger, p.backlog, a.fds, p.ledger.next));
    PendingBelow(s.ledger);
    GatheredGathers(s.ledger, s.backlog, a.fds, s.ledger.next);
    GatheredSound(s.ledger, s.backlog, a.fds, s.ledger.next);
    forall i | 0 <= i < |g.backlog| && g.backlog[i].fd >= 0 && g.backlog[i].token in s.ledger.pending
      ensures s.ledger.Get(s.ledger.pending[g.backlog[i].token]).destination.Buffer?
    {
      assert i < |s.backlog| ==> g.backlog[i] == s.backlog[i];
    }
    if p.pool.memory == Dmabuf {
      NextBuffered(g);
    }
  }

  lemma StepBuffered(cfg: Config, s: State, a: Action)
    requires Enabled(cfg, s, a) && Conserved(s.ledger) && BacklogSound(s.backlog, s.ledger.next)
    requires Buffered(s.ledger, s.backlog)
    ensures Buffered(Step(cfg, s, a).ledger, Step(cfg, s, a).backlog)
  {
    hide Conserved, Buffered, BacklogSound, SubmitStep, CaptureStep, ConfigureStep;
    if a.Submit? {
      SubmitBuffered(s, a);
    } else if a.ConfigureCapture? {
      ConfigureBuffered(cfg, s, a);
    } else {
      StepKept(cfg, s, a);
      if a.CaptureReturn? {
        CaptureTail(cfg, s, a.d, a.copyFails);
      } else {
        OthersAddNothing(cfg, s, a);
      }
      TailBuffered(s.ledger, s.backlog, Step(cfg, s, a).ledger, Step(cfg, s, a).backlog);
    }
  }

  lemma CaptureTail(cfg: Config, s: State, d: Completion, copyFails: bool)
    requires d.index < |s.pool.capture|
    ensures Tail(s.backlog, CaptureStep(cfg, s, d, copyFails).backlog)
  {
    hide QueueNext, Deliver;
    QueueNextTail(Taken(s, d.index));
    var last := NoteLast(NextIfStreaming(Taken(s, d.index)), d.last);
    DeliverKeeps(cfg, last, d, s.pool.capture[d.index].importToken, copyFails);
  }

  lemma {:induction false} RunsAreBuffered(cfg: Config, outputs: nat, h: seq<Action>)
    requires Legal(cfg, outputs, h)
    ensures Buffered(Replay(cfg, outputs, h).ledger, Replay(cfg, outputs, h).backlog)
    decreases |h|
  {
    hide Step, Enabled;
    if h != [] {
      var n := |h| - 1;
      RunsAreBuffered(cfg, outputs, h[..n]);
      RunsAreSingle(cfg, outputs, h[..n]);
      TokensAreConserved(cfg, outputs, h[..n]);
      SingleBacklog(Replay(cfg, outputs, h[..n]));
      hide Conserved, Owned, Single, Buffered, BacklogSound;
      StepBuffered(cfg, Replay(cfg, outputs, h[..n]), h[n]);
    }
  }

  /** The gathered list refuses a token exactly if the token comes up. */
  lemma RefusedComesUp(s: State, g: State, fds: map<nat, int>, token: nat)
    requires g.ledger == s.ledger && Gathers(s.ledger, s.backlog, fds, g.backlog, s.ledger.next)
    requires token in s.ledger.pending && token < s.ledger.next
    requires s.ledger.Get(s.ledger.pending[token]).destination.Buffer?
    ensures (exists i :: RefusedAt(g, token, i)) <==> ComesUp(s, fds, token)
  {
    hide Bufferless, Listed;
    var l, b := s.ledger, s.backlog;
    assert forall i :: 0 <= i < |b| ==> g.backlog[i] == b[i];
    forall i | RefusedAt(g, token, i)
      ensures ComesUp(s, fds, token)
    {
      if i < |b| {
        assert b[i].token == token && AllPassed(l, b, i);
      } else {
        RefusedBehind(s, g, fds, token, i);
      }
    }
    if ComesUp(s, fds, token) {
      UpIsRefused(s, g, fds, token);
    }
  }

  lemma RefusedBehind(s: State, g: State, fds: map<nat, int>, token: nat, i: nat)
    requires g.ledger == s.ledger && Gathers(s.ledger, s.backlog, fds, g.backlog, s.ledger.next)
    requires RefusedAt(g, token, i) && i >= |s.backlog| && token < s.ledger.next
    ensures ComesUp(s, fds, token)
  {
    hide Bufferless, Listed;
    var l, b := s.ledger, s.backlog;
    assert forall j :: 0 <= j < |b| ==> g.backlog[j] == b[j];
    forall t | t in l.pending && t < token && !Listed(b, t) && l.Get(l.pending[t]).destination.Buffer?
      ensures Passed(l, t, FdOf(fds, t))
    {
      var j :| |b| <= j < |g.backlog| && g.backlog[j].token == t;
      assert j < i;
    }
  }

  lemma UpIsRefused(s: State, g: State, fds: map<nat, int>, token: nat)
    requires g.ledger == s.ledger && Gathers(s.ledger, s.backlog, fds, g.backlog, s.ledger.next)
    requires token in s.ledger.pending && token < s.ledger.next && ComesUp(s, fds, token)
    requires s.ledger.Get(s.ledger.pending[token]).destination.Buffer?
    ensures exists i :: RefusedAt(g, token, i)
  {
    hide Bufferless, Listed;
    var l, b := s.ledger, s.backlog;
    assert forall i :: 0 <= i < |b| ==> g.backlog[i] == b[i];
    if i :| 0 <= i < |b| && b[i].token == token && b[i].fd >= 0 && AllPassed(l, b, i) {
      assert RefusedAt(g, token, i);
    } else {
      var i :| |b| <= i < |g.backlog| && g.backlog[i].token == token;
      forall j | 0 <= j < i
        ensures g.backlog[j].fd < 0 || Bufferless(l, g.backlog[j].token)
      {
        if j >= |b| {
          assert Passed(l, g.backlog[j].token, FdOf(fds, g.backlog[j].token));
        }
      }
      assert RefusedAt(g, token, i);
    }
  }

  /** Exactly when building a pool fails a pending token, in terms of what was submitted: it is an Import pool, the
      target was submitted with a buffer but for display (Direct), and its turn comes before any buffer is
      handed over. A target without any buffer is never failed here. */
  lemma RebuildFails(cfg: Config, outputs: nat, h: seq<Action>, k: nat, layout: Layout, count: nat,
                     fds: map<nat, int>, token: nat)
    requires Legal(cfg, outputs, h) && Enabled(cfg, Replay(cfg, outputs, h), ConfigureCapture(layout, count, fds))
    requires k < |h| && h[k].Submit? && Legal(cfg, outputs, h[..k]) && Replay(cfg, outputs, h[..k]).ledger.next == token
    requires token in Replay(cfg, outputs, h).ledger.pending
    ensures var s := Replay(cfg, outputs, h);
            token !in Step(cfg, s, ConfigureCapture(layout, count, fds)).ledger.pending <==>
              && GrantsImport(cfg, s.ledger, layout) && h[k].publish.Direct? && h[k].destination.Buffer?
              && ComesUp(s, fds, token)
  {
    RebuildKeeps(cfg, outputs, h, layout, count, fds, token);
    RunsAreBuffered(cfg, outputs, h);
    TokensAreConserved(cfg, outputs, h);
    StaysAsSubmitted(cfg, outputs, h, k, token);
    hide Replay, Legal, Conserved, Step, Enabled, Gathered, GrantsImport, ComesUp, RefusedAt, Entered, Listed, Gathers;
    var s := Replay(cfg, outputs, h);
    PendingBelow(s.ledger);
    GatheredGathers(s.ledger, s.backlog, fds, s.ledger.next);
    var g := Entered(cfg, s, layout, count, fds);
    if GrantsImport(cfg, s.ledger, layout) {
      EnteredStep(cfg, s, layout, count, fds);
      if h[k].destination.Buffer? {
        RefusedComesUp(s, g, fds, token);
      } else {
        BufferlessStays(s, g, fds, token);
      }
    } else {
      NotEntered(cfg, s, layout, count, fds);
      MmapKeeps(g, token);
    }
  }

  lemma NotEntered(cfg: Config, s: State, layout: Layout, count: nat, fds: map<nat, int>)
    requires !GrantsImport(cfg, s.ledger, layout)
    ensures Entered(cfg, s, layout, count, fds).pool.memory == Mmap
  {
    hide GrantsImport, Gathered;
  }

  /** A target without a buffer has no entry that could be refused. */
  lemma BufferlessStays(s: State, g: State, fds: map<nat, int>, token: nat)
    requires g.ledger == s.ledger && Gathers(s.ledger, s.backlog, fds, g.backlog, s.ledger.next)
    requires Buffered(s.ledger, s.backlog) && token in s.ledger.pending
    requires !s.ledger.Get(s.ledger.pending[token]).destination.Buffer?
    ensures !Refuses(g, token)
  {
    hide Bufferless, Listed, Idle;
    assert forall i :: 0 <= i < |s.backlog| ==> g.backlog[i] == s.backlog[i];
  }

  // ---------------------------------------------------------------- from the drain on

  /** What happens between the end of a drain and the new pool, and with other targets meanwhile. */
  predicate Meanwhile(l: Ledger, a: Action, token: nat) {
    match a
    case Release(id) => token in l.pending ==> l.pending[token] != id
    case Timeout(id) => token in l.pending ==> l.pending[token] != id
    case OutputReturn(_, error) => !error
    case Submit(_, _, _, _) => true
    case Requeue => true
    case SourceChange => true
    case StreamOff => true
    case Teardown => true
    case ConfigureCapture(_, _, _) => true
    case RejectImport => true
    case _ => false
  }

  /** The token's picture can be decoded into any pool there is: its target has a buffer, or the pool is the
      driver's own. */
  ghost predicate Safe(s: State, token: nat) {
    !Bufferless(s.ledger, token) || s.pool.memory == Mmap
  }

  /** A new pool is not an Import pool unless the target has a buffer. */
  ghost predicate StaysSafe(cfg: Config, s: State, a: Action, token: nat) {
    Bufferless(s.ledger, token) && a.ConfigureCapture? ==> !GrantsImport(cfg, s.ledger, a.layout)
  }

  /** queue_import_next spares a target with a buffer. */
  lemma {:induction false} QueueNextSpares(s: State, token: nat)
    requires Conserved(s.ledger) && token in s.ledger.pending && Safe(s, token)
    ensures token in QueueNext(s).ledger.pending && Safe(QueueNext(s), token)
    decreases |s.backlog|
  {
    hide Conserved, Idle, Ledger.Fail, Bufferless, Misfit;
    if s.pool.memory == Dmabuf && s.backlog != [] && Idle(s.pool.capture) {
      var e := s.backlog[0];
      if e.fd < 0 {
        QueueNextSpares(s.(backlog := s.backlog[1..]), token);
      } else if Bufferless(s.ledger, e.token) {
        FailConserves(s.ledger, e.token);
        FailSpares(s.ledger, e.token, token);
        QueueNextSpares(CountError(s.(backlog := s.backlog[1..], ledger := s.ledger.Fail(e.token))), token);
      }
    }
  }

  lemma SubmitSpares(s: State, a: Action, token: nat)
    requires a.Submit? && FreeOutput(s.pool.outputs, 0) < |s.pool.outputs| && !s.ledger.Get(a.id).pending
    requires Conserved(s.ledger) && token in s.ledger.pending && Safe(s, token)
    ensures var n := SubmitStep(s, a.id, a.publish, a.destination, a.fd);
            token in n.ledger.pending && Safe(n, token)
  {
    hide Conserved, QueueNext, Safe;
    var issued := s.ledger.Issue(a.id, a.publish, a.destination);
    IssueConserves(s.ledger, a.id, a.publish, a.destination);
    forall x: State | x.ledger == issued && x.pool.memory == s.pool.memory
      ensures token in QueueNext(x).ledger.pending && Safe(QueueNext(x), token) && Safe(x, token)
              && token in x.ledger.pending
    {
      IssueSpares(s, x, a, token);
      QueueNextSpares(x, token);
    }
  }

  lemma IssueSpares(s: State, x: State, a: Action, token: nat)
    requires a.Submit? && !s.ledger.Get(a.id).pending
    requires Conserved(s.ledger) && token in s.ledger.pending && Safe(s, token)
    requires x.ledger == s.ledger.Issue(a.id, a.publish, a.destination) && x.pool.memory == s.pool.memory
    ensures token in x.ledger.pending && Safe(x, token)
  {
    assert s.ledger.Get(s.ledger.pending[token]).pending;
    assert token < s.ledger.next;
  }

  lemma ConfigureSpares(cfg: Config, s: State, a: Action, token: nat)
    requires a.ConfigureCapture? && Conserved(s.ledger) && token in s.ledger.pending && StaysSafe(cfg, s, a, token)
    ensures var n := ConfigureStep(cfg, s, a.layout, a.count, a.fds);
            token in n.ledger.pending && Safe(n, token)
  {
    hide Conserved, QueueNext, Gathered, GrantsImport, Bufferless, Requeued;
    var p := NewPool(cfg, s, a.layout, a.count);
    var g := p.(backlog := Gathered(p.ledger, p.backlog, a.fds, p.ledger.next));
    if p.pool.memory == Dmabuf {
      QueueNextSpares(g, token);
    }
  }

  lemma MeanwhileSpares(cfg: Config, s: State, a: Action, token: nat)
    requires Enabled(cfg, s, a) && Conserved(s.ledger) && token in s.ledger.pending
    requires Meanwhile(s.ledger, a, token) && Safe(s, token) && StaysSafe(cfg, s, a, token)
    ensures token in Step(cfg, s, a).ledger.pending && Safe(Step(cfg, s, a), token)
  {
    hide QueueNext, Requeued, SubmitStep, ConfigureStep, GrantsImport, Conserved, Returned, Ledger.Fail;
    match a
    case Submit(_, _, _, _) => SubmitSpares(s, a, token);
    case ConfigureCapture(_, _, _) => ConfigureSpares(cfg, s, a, token);
    case Release(id) => ReleaseSpares(s.ledger, id, token);
    case Timeout(id) => TimeoutSpares(s, id, token);
    case _ =>
  }

  lemma ReleaseSpares(l: Ledger, id: nat, token: nat)
    requires Conserved(l) && token in l.pending && l.pending[token] != id
    ensures token in l.Release(id).pending && (Bufferless(l.Release(id), token) <==> Bufferless(l, token))
  {
    assert l.Get(l.pending[token]).token == token;
    if l.Get(id).pending && l.Get(id).token == token {
      StrandedIsSettled(l, token);
      assert false;
    }
  }

  lemma TimeoutSpares(s: State, id: nat, token: nat)
    requires Conserved(s.ledger) && token in s.ledger.pending && s.ledger.pending[token] != id
    ensures token in TimeoutStep(s, id).ledger.pending
    ensures Bufferless(TimeoutStep(s, id).ledger, token) <==> Bufferless(s.ledger, token)
  {
    FailOthers(s.ledger, s.ledger.Get(id).token, if s.ledger.Get(id).token == token then s.ledger.next else token);
  }

  ghost predicate MeanwhileFrom(cfg: Config, outputs: nat, h: seq<Action>, k: nat, token: nat)
    requires Legal(cfg, outputs, h)
    decreases |h|
  {
    |h| > k ==>
      var n := |h| - 1;
      var s := Replay(cfg, outputs, h[..n]);
      && MeanwhileFrom(cfg, outputs, h[..n], k, token)
      && Meanwhile(s.ledger, h[n], token) && StaysSafe(cfg, s, h[n], token)
  }

  /** From any point on, a pending token stays pending through everything that belongs to a resolution change. */
  lemma {:induction false} StaysPending(cfg: Config, outputs: nat, h: seq<Action>, k: nat, token: nat)
    requires Legal(cfg, outputs, h) && k <= |h| && Legal(cfg, outputs, h[..k])
    requires token in Replay(cfg, outputs, h[..k]).ledger.pending && Safe(Replay(cfg, outputs, h[..k]), token)
    requires MeanwhileFrom(cfg, outputs, h, k, token)
    ensures var l, l' := Replay(cfg, outputs, h[..k]).ledger, Replay(cfg, outputs, h).ledger;
            && token in l'.pending && Safe(Replay(cfg, outputs, h), token)
            && l'.pending[token] == l.pending[token] && l'.Get(l'.pending[token]).pending
            && l'.Get(l'.pending[token]).destination == l.Get(l.pending[token]).destination
    decreases |h|
  {
    hide Step, Enabled, Safe, StaysSafe, Meanwhile;
    TokensAreConserved(cfg, outputs, h);
    if k == |h| {
      assert h[..k] == h;
    } else {
      var n := |h| - 1;
      var s := Replay(cfg, outputs, h[..n]);
      assert h[..n][..k] == h[..k];
      StaysPending(cfg, outputs, h[..n], k, token);
      TokensAreConserved(cfg, outputs, h[..n]);
      PendingBelow(s.ledger);
      MeanwhileSpares(cfg, s, h[n], token);
      StepKept(cfg, s, h[n]);
    }
  }

  /** A token that is gone does not come back. */
  lemma {:induction false} StaysGone(cfg: Config, outputs: nat, h: seq<Action>, k: nat, token: nat)
    requires Legal(cfg, outputs, h) && k <= |h| && Legal(cfg, outputs, h[..k])
    requires token < Replay(cfg, outputs, h[..k]).ledger.next && token !in Replay(cfg, outputs, h[..k]).ledger.pending
    ensures token < Replay(cfg, outputs, h).ledger.next && token !in Replay(cfg, outputs, h).ledger.pending
    decreases |h|
  {
    hide Step, Enabled;
    if k == |h| {
      assert h[..k] == h;
    } else {
      var n := |h| - 1;
      assert h[..n][..k] == h[..k];
      StaysGone(cfg, outputs, h[..n], k, token);
      TokensAreConserved(cfg, outputs, h[..n]);
      hide Conserved;
      StepPending(cfg, Replay(cfg, outputs, h[..n]), h[n]);
    }
  }

  /** After the drain exactly the owed tokens are pending; and each of them stays pending while frames of the
      old geometry are held, through stream-off and teardown, and into the new pool, provided that its target
      has a buffer or the pools are the driver's own. */
  lemma OwedStayPending(cfg: Config, outputs: nat, h: seq<Action>, k: nat, token: nat)
    requires Legal(cfg, outputs, h) && k < |h| && h[k].DrainEnd?
    requires Legal(cfg, outputs, h[..k]) && Legal(cfg, outputs, h[..k + 1])
    requires token in Replay(cfg, outputs, h[..k]).ledger.pending
    requires Safe(Replay(cfg, outputs, h[..k + 1]), token) && MeanwhileFrom(cfg, outputs, h, k + 1, token)
    ensures token in Replay(cfg, outputs, h).ledger.pending <==>
            token in Owed(Replay(cfg, outputs, h[..k]).pool.outputs)
    ensures token !in Replay(cfg, outputs, h).ledger.pending ==>
            Event(token, Errored) in Replay(cfg, outputs, h[..k + 1]).ledger.log
  {
    hide Replay, Legal, Conserved, MeanwhileFrom, Safe, Owed;
    StepAt(cfg, outputs, h, k);
    DrainKeepsOwed(cfg, outputs, h[..k]);
    if token in Owed(Replay(cfg, outputs, h[..k]).pool.outputs) {
      StaysPending(cfg, outputs, h, k + 1, token);
    } else {
      TokensAreConserved(cfg, outputs, h[..k]);
      PendingBelow(Replay(cfg, outputs, h[..k]).ledger);
      StepPending(cfg, Replay(cfg, outputs, h[..k]), h[k]);
      StaysGone(cfg, outputs, h, k + 1, token);
    }
  }

  // ---------------------------------------------------------------- a submit during the change

  const ANY_ORDER := Config(false, true, false)

  /** A one-slot bitstream queue and a two-slot pool of the driver's own; `first` and `second` say which CAPTURE
      slots are with the firmware. */
  ghost predicate Stage(s: State, phase: Phase, full: bool, first: bool, second: bool) {
    && s.phase == phase && s.pool.memory == Mmap && s.generation == 0
    && |s.pool.outputs| == 1 && s.pool.outputs[0].queued == full
    && |s.pool.capture| == 2 && s.pool.capture[0].queued == first && s.pool.capture[1].queued == second
  }

  /** Target 0 displays the frame in slot 0; 1 and 2 are free, or 1 waits. */
  ghost predicate Displays(l: Ledger) {
    && l.Get(0).frame == Holding(Hold(0, 0)) && 0 in l.targets && !l.Get(0).pending
    && !l.Get(2).pending
  }

  lemma FirstSubmitted() returns (h: seq<Action>)
    ensures h == [Submit(0, Direct, NoBuffer, -1), SourceChange] && Legal(ANY_ORDER, 1, h)
    ensures var s := Replay(ANY_ORDER, 1, h);
            && s.phase.Configured? && s.sourceChange && s.generation == 0 && s.kernel.capture == multiset{}
            && s.pool.outputs == [OutputSlot(true, 1)]
            && s.ledger == Ledger(2, map[1 := 0], map[0 := Target(1, true, false, false, Direct, NoBuffer, Nothing)],
               [])
  {
    var submit := Submit(0, Direct, NoBuffer, -1);
    assert Legal(ANY_ORDER, 1, []);
    assert FreeOutput(Replay(ANY_ORDER, 1, []).pool.outputs, 0) == 0;
    RunExtends(ANY_ORDER, 1, [], submit);
    RunExtends(ANY_ORDER, 1, [submit], SourceChange);
    h := [submit] + [SourceChange];
    assert [] + [submit] == [submit];
  }

  lemma StartsStreaming(s: State)
    requires s.phase.Configured? && s.generation == 0 && s.pool.outputs == [OutputSlot(true, 1)]
    requires s.ledger == Ledger(2, map[1 := 0], map[0 := Target(1, true, false, false, Direct, NoBuffer, Nothing)], [])
    ensures var n := ConfigureStep(ANY_ORDER, s, ANY_LAYOUT, 2, map[]);
            Stage(n, Streaming, true, true, true) && n.ledger == s.ledger
  {
    OldestPending(s.ledger.pending, 0, 2, 1);
    var p := NewPool(ANY_ORDER, s, ANY_LAYOUT, 2);
    assert p.ledger.HeldSlots(p.generation) == {};
    var one := p.pool.capture[0 := IDLE_FRAME.(queued := true)];
    var two := one[1 := IDLE_FRAME.(queued := true)];
    var k := p.kernel.capture;
    assert Requeued(two, k + multiset{0} + multiset{1}, {}, 2) == (two, k + multiset{0} + multiset{1});
    assert Requeued(one, k + multiset{0}, {}, 1) == (two, k + multiset{0} + multiset{1});
    assert Requeued(p.pool.capture, k, {}, 0) == (two, k + multiset{0} + multiset{1});
  }

  /** The first picture is decoded and displayed, and the second submitted: the bitstream queue is full. */
  lemma DisplayedAndFull() returns (h: seq<Action>)
    ensures Legal(ANY_ORDER, 1, h)
    ensures Stage(Replay(ANY_ORDER, 1, h), Streaming, true, false, true) && Displays(Replay(ANY_ORDER, 1, h).ledger)
  {
    hide Replay, Legal, ConfigureStep;
    h := FirstSubmitted();
    var configure := ConfigureCapture(ANY_LAYOUT, 2, map[]);
    StartsStreaming(Replay(ANY_ORDER, 1, h));
    RunExtends(ANY_ORDER, 1, h, configure);
    h := h + [configure];
    h := SlotReturns(h, true, true);
    var s := Replay(ANY_ORDER, 1, h);
    var d := Completion(0, 1, false, false, true);
    RunsAreOwned(ANY_ORDER, 1, h);
    KernelHasSlot(ANY_ORDER, s, 0);
    RunExtends(ANY_ORDER, 1, h, CaptureReturn(d, false));
    h := h + [CaptureReturn(d, false)];
    Shown(s, d);
    s := Replay(ANY_ORDER, 1, h);
    var again := Submit(1, Direct, NoBuffer, -1);
    assert FreeOutput(s.pool.outputs, 0) == 0;
    RunExtends(ANY_ORDER, 1, h, again);
    h := h + [again];
  }

  /** The firmware gives the bitstream buffer back. */
  lemma SlotReturns(h: seq<Action>, first: bool, second: bool) returns (r: seq<Action>)
    requires Legal(ANY_ORDER, 1, h) && Stage(Replay(ANY_ORDER, 1, h), Streaming, true, first, second)
    ensures r == h + [OutputReturn(0, false)] && Legal(ANY_ORDER, 1, r)
    ensures Stage(Replay(ANY_ORDER, 1, r), Streaming, false, first, second)
    ensures Replay(ANY_ORDER, 1, r).ledger == Replay(ANY_ORDER, 1, h).ledger
  {
    hide Replay, Legal;
    RunsAreOwned(ANY_ORDER, 1, h);
    KernelHasOutput(ANY_ORDER, Replay(ANY_ORDER, 1, h), 0);
    RunExtends(ANY_ORDER, 1, h, OutputReturn(0, false));
    r := h + [OutputReturn(0, false)];
  }

  lemma Shown(s: State, d: Completion)
    requires Stage(s, Streaming, false, true, true) && d == Completion(0, 1, false, false, true)
    requires s.ledger == Ledger(2, map[1 := 0], map[0 := Target(1, true, false, false, Direct, NoBuffer, Nothing)], [])
    ensures var n := CaptureStep(ANY_ORDER, s, d, false);
            Stage(n, Streaming, false, false, true) && Displays(n.ledger) && !n.ledger.Get(1).pending
  {
    assert NextIfStreaming(Taken(s, 0)) == Taken(s, 0);
  }

  /** Nothing to hand out: one slot is with the firmware, the other displayed. */
  lemma NothingToRequeue(s: State)
    requires |s.pool.capture| == 2 && !s.pool.capture[0].queued && s.pool.capture[1].queued
    requires s.pool.memory == Mmap && s.generation == 0 && Displays(s.ledger)
    ensures RequeueStep(s) == s
  {
    var held := s.ledger.HeldSlots(0);
    assert s.ledger.targets[0].frame.hold.index in held;
    assert Requeued(s.pool.capture, s.kernel.capture, held, 2) == (s.pool.capture, s.kernel.capture);
    assert Requeued(s.pool.capture, s.kernel.capture, held, 1) == (s.pool.capture, s.kernel.capture);
  }

  /** A submit finds the bitstream queue full. While it waits, the slot comes back and a resolution change
      begins, which waits in turn for the displayed frame: the submit is accepted all the same. */
  lemma AcceptedWhileReconfiguring() returns (h: seq<Action>, k: nat)
    ensures k + 1 < |h| && Legal(ANY_ORDER, 1, h) && Legal(ANY_ORDER, 1, h[..k]) && Legal(ANY_ORDER, 1, h[..|h| - 1])
    ensures var s := Replay(ANY_ORDER, 1, h[..k]);
            s.phase.Streaming? && FreeOutput(s.pool.outputs, 0) == |s.pool.outputs|
    ensures forall i :: k <= i < |h| - 1 ==> !h[i].Submit? && !h[i].Release?
    ensures h[|h| - 1].Submit?
    ensures var s := Replay(ANY_ORDER, 1, h[..|h| - 1]);
            s.phase.Reconfiguring? && s.ledger.HeldSlots(s.generation) != {}
  {
    hide Replay, Legal, Step;
    var before := DisplayedAndFull();
    k := |before|;
    h := ChangeBegins(before);
    h := LastArrives(h);
    h := ChangeWaits(h);
    var again := Submit(2, Direct, NoBuffer, -1);
    StillShown(Replay(ANY_ORDER, 1, h));
    RunExtends(ANY_ORDER, 1, h, again);
    var r := h + [again];
    assert r[..k] == before && r[..|r| - 1] == h;
    h := r;
  }

  lemma StillShown(s: State)
    requires Stage(s, Reconfiguring, false, false, false) && Displays(s.ledger)
    ensures s.ledger.HeldSlots(s.generation) != {} && Enabled(ANY_ORDER, s, Submit(2, Direct, NoBuffer, -1))
  {
    assert FreeOutput(s.pool.outputs, 0) == 0;
    assert s.ledger.targets[0].frame.hold.index in s.ledger.HeldSlots(0);
  }

  /** The service loop and the start of the drain. */
  lemma ChangeBegins(h: seq<Action>) returns (r: seq<Action>)
    requires Legal(ANY_ORDER, 1, h) && Stage(Replay(ANY_ORDER, 1, h), Streaming, true, false, true)
    requires Displays(Replay(ANY_ORDER, 1, h).ledger)
    ensures r == h + [Requeue, SourceChange, OutputReturn(0, false), DrainBegin(OnChange), DrainFeed(0)]
    ensures Legal(ANY_ORDER, 1, r) && Stage(Replay(ANY_ORDER, 1, r), Draining, false, false, true)
    ensures Displays(Replay(ANY_ORDER, 1, r).ledger)
  {
    hide Replay, Legal, RequeueStep;
    NothingToRequeue(Replay(ANY_ORDER, 1, h));
    RunExtends(ANY_ORDER, 1, h, Requeue);
    r := h + [Requeue];
    RunExtends(ANY_ORDER, 1, r, SourceChange);
    r := r + [SourceChange];
    r := SlotReturns(r, false, true);
    RunExtends(ANY_ORDER, 1, r, DrainBegin(OnChange));
    r := r + [DrainBegin(OnChange)];
    NothingToRequeue(Replay(ANY_ORDER, 1, r));
    RunExtends(ANY_ORDER, 1, r, DrainFeed(0));
    r := r + [DrainFeed(0)];
  }

  lemma LastArrives(h: seq<Action>) returns (r: seq<Action>)
    requires Legal(ANY_ORDER, 1, h) && Stage(Replay(ANY_ORDER, 1, h), Draining, false, false, true)
    requires Displays(Replay(ANY_ORDER, 1, h).ledger)
    ensures r == h + [CaptureReturn(Completion(1, 0, false, true, false), false)] && Legal(ANY_ORDER, 1, r)
    ensures Stage(Replay(ANY_ORDER, 1, r), Draining, false, false, false) && Replay(ANY_ORDER, 1, r).sawLast
    ensures Displays(Replay(ANY_ORDER, 1, r).ledger)
  {
    hide Replay, Legal;
    RunsAreOwned(ANY_ORDER, 1, h);
    KernelHasSlot(ANY_ORDER, Replay(ANY_ORDER, 1, h), 1);
    var last := CaptureReturn(Completion(1, 0, false, true, false), false);
    RunExtends(ANY_ORDER, 1, h, last);
    r := h + [last];
  }

  lemma ChangeWaits(h: seq<Action>) returns (r: seq<Action>)
    requires Legal(ANY_ORDER, 1, h) && Stage(Replay(ANY_ORDER, 1, h), Draining, false, false, false)
    requires Replay(ANY_ORDER, 1, h).sawLast && Displays(Replay(ANY_ORDER, 1, h).ledger)
    ensures r == h + [DrainEnd] + [StreamOff] && Legal(ANY_ORDER, 1, r)
    ensures Stage(Replay(ANY_ORDER, 1, r), Reconfiguring, false, false, false)
            && Displays(Replay(ANY_ORDER, 1, r).ledger)
  {
    hide Replay, Legal, Ledger.FailExcept, LostBelow;
    var s := Replay(ANY_ORDER, 1, h);
    TokensAreConserved(ANY_ORDER, 1, h);
    FailExceptFollows(s.ledger, Owed(s.pool.outputs), s.ledger.next, 0);
    FailExceptFollows(s.ledger, Owed(s.pool.outputs), s.ledger.next, 2);
    FailExceptFrames(s.ledger, Owed(s.pool.outputs), s.ledger.next);
    RunExtends(ANY_ORDER, 1, h, DrainEnd);
    RunExtends(ANY_ORDER, 1, h + [DrainEnd], StreamOff);
    r := h + [DrainEnd] + [StreamOff];
  }
}
