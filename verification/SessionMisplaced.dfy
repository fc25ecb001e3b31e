/** When lockstep fails: exactly the Import pools that start without every early picture. From any other start
    there is a run, with an in-order firmware and a client that does its part, that misplaces a picture. */
module SessionMisplaced {
  import opened Layouts
  import opened Slots
  import opened SessionModel
  import opened SessionTokens
  import opened SessionSlots
  import opened SessionImport
  import opened SessionTheorems
  import opened SessionLockstep
  import opened SessionTargets

  /** However `h` goes on, with an in-order firmware nothing is misplaced. */
  ghost predicate NeverMisplaces(cfg: Config, outputs: nat, h: seq<Action>) {
    forall h' :: h <= h' && Legal(cfg, outputs, h') && InOrderFrom(cfg, outputs, h', |h|) ==>
      Replay(cfg, outputs, h').stats.misplaced == 0
  }

  /** The tokens that have, or will have, a client buffer, in the order of the buffers. */
  function Queue(s: State): seq<nat> {
    InFlight(s.pool.capture) + Tokens(s.backlog)
  }

  /** The head of the backlog waits for a pool of another geometry. */
  ghost predicate Blocked(s: State) {
    && s.backlog != [] && s.backlog[0].fd >= 0
    && !Bufferless(s.ledger, s.backlog[0].token) && Misfit(s.ledger, s.backlog[0].token, s.pool.layout)
  }

  /** A picture that is waited for comes before its buffer. */
  ghost predicate Inverted(s: State, u: seq<nat>) {
    && |Queue(s)| == |u|
    && exists j :: 0 <= j < |u| && u[j] in s.ledger.pending && u[j] !in Queue(s)[..j + 1]
  }

  /** The buffers will not match the pictures: there are too few, one of them will not be handed over, or they
      are in another order. */
  ghost predicate Troubled(s: State, u: seq<nat>) {
    || |Queue(s)| < |u|
    || (Idle(s.pool.capture) && Blocked(s))
    || (Queue(s) == u && !AllReady(s))
    || Inverted(s, u)
  }

  ghost predicate Rising(u: seq<nat>) {
    && (forall i :: 0 <= i < |u| ==> u[i] > 0)
    && (forall i, j :: 0 <= i < j < |u| ==> u[i] < u[j])
  }

  ghost predicate Doomed(s: State, u: seq<nat>) {
    && s.pool.memory == Dmabuf && s.pool.capture != [] && |InFlight(s.pool.capture)| <= 1
    && Rising(u)
    && (forall t :: t in s.ledger.pending ==> t in u)
    && Troubled(s, u)
  }

  /** The newest picture is waited for and has a buffer. */
  ghost predicate LastWaits(s: State, u: seq<nat>) {
    u != [] && u[|u| - 1] in s.ledger.pending && !Bufferless(s.ledger, u[|u| - 1])
  }

  // ---------------------------------------------------------------- queue_import_next

  /** An entry is passed over. */
  lemma PassedOver(s: State, p: State, u: seq<nat>)
    requires Doomed(s, u) && Idle(s.pool.capture) && s.backlog != [] && !Blocked(s)
    requires p.pool == s.pool && p.backlog == s.backlog[1..]
    requires forall t :: t in p.ledger.pending ==> t in s.ledger.pending
    ensures Doomed(p, u)
  {
    IdleInFlight(s.pool.capture);
    assert |Queue(p)| == |Queue(s)| - 1;
  }

  lemma FailForgets(l: Ledger, token: nat)
    ensures forall t :: t in l.Fail(token).pending ==> t in l.pending
  {
  }

  /** Handing over a buffer does not help. */
  lemma {:induction false} QueueNextDoomed(s: State, u: seq<nat>)
    requires Conserved(s.ledger) && Doomed(s, u)
    ensures var n := QueueNext(s);
            && Doomed(n, u) && (Idle(n.pool.capture) ==> n.backlog == [] || Blocked(n))
            && (LastWaits(s, u) ==> LastWaits(n, u))
            && n.stats.misplaced == s.stats.misplaced && n.phase == s.phase
    decreases |s.backlog|
  {
    hide InFlight, Conserved, Doomed, Bufferless, Misfit, Ledger.Fail, FirstFree, FirstCarrying, Idle, LastWaits,
         Tokens, ImportSlot;
    DoomedPool(s, u);
    if s.backlog != [] && Idle(s.pool.capture) {
      var e := s.backlog[0];
      var p := s.(backlog := s.backlog[1..]);
      if e.fd < 0 {
        PassedOver(s, p, u);
        SameLast(s, p, u);
        QueueNextDoomed(p, u);
      } else if Bufferless(s.ledger, e.token) {
        var failed := CountError(p.(ledger := s.ledger.Fail(e.token)));
        FailForgets(s.ledger, e.token);
        FailConserves(s.ledger, e.token);
        PassedOver(s, failed, u);
        SparedLast(s, failed, u, e.token);
        QueueNextDoomed(failed, u);
      } else if !Misfit(s.ledger, e.token, s.pool.layout) {
        GiveDoomed(s, u);
        SameLast(s, GiveBuffer(s), u);
      }
    }
  }

  lemma DoomedPool(s: State, u: seq<nat>)
    requires Doomed(s, u)
    ensures s.pool.memory == Dmabuf && s.pool.capture != []
  {
  }

  lemma SameLast(s: State, p: State, u: seq<nat>)
    requires p.ledger == s.ledger
    ensures LastWaits(s, u) ==> LastWaits(p, u)
  {
  }

  lemma SparedLast(s: State, p: State, u: seq<nat>, token: nat)
    requires Conserved(s.ledger) && Bufferless(s.ledger, token) && p.ledger == s.ledger.Fail(token)
    ensures LastWaits(s, u) ==> LastWaits(p, u)
  {
    hide Conserved, Bufferless;
    if LastWaits(s, u) {
      FailSpares(s.ledger, token, u[|u| - 1]);
    }
  }

  lemma GiveDoomed(s: State, u: seq<nat>)
    requires Doomed(s, u) && Idle(s.pool.capture) && s.backlog != []
    requires var e := s.backlog[0];
             e.fd >= 0 && !Bufferless(s.ledger, e.token) && !Misfit(s.ledger, e.token, s.pool.layout)
    ensures var n := GiveBuffer(s);
            && Doomed(n, u) && !Idle(n.pool.capture) && n.ledger == s.ledger
            && n.stats == s.stats && n.phase == s.phase
  {
    hide InFlight;
    var e := s.backlog[0];
    var index := ImportSlot(s.pool.capture, e.fd);
    assert FirstFree(s.pool.capture, 0) == 0;
    IdleInFlight(s.pool.capture);
    QueueInFlight(s.pool.capture, index, Frame(true, e.token, e.fd));
    var n := GiveBuffer(s);
    IdleInFlight(n.pool.capture);
    assert Queue(n) == Queue(s);
    if Queue(s) == u && !AllReady(s) {
      assert u[0] == e.token;
      var j :| 0 <= j < |s.backlog| && !Ready(s.ledger, s.pool.layout, s.backlog[j]);
      assert n.backlog[j - 1] == s.backlog[j];
    }
  }

  // ---------------------------------------------------------------- a drain that exposes it

  /** A buffer is with the firmware, and still there is trouble: it is the driver's own, or buffers are
      missing, or one behind it will not be handed over. */
  ghost predicate Fed(s: State, u: seq<nat>) {
    && s.pool.memory == Dmabuf && s.pool.capture != [] && |InFlight(s.pool.capture)| == 1
    && Rising(u)
    && (forall t :: t in s.ledger.pending ==> t in u)
    && (|| |s.backlog| + 1 < |u|
        || (InFlight(s.pool.capture) == [0] && (s.backlog == [] || Blocked(s)))
        || (Queue(s) == u && !AllReady(s))
        || Inverted(s, u))
  }

  lemma FeedDoomed(s: State, u: seq<nat>, scratch: int)
    requires Conserved(s.ledger) && Doomed(s, u) && LastWaits(s, u)
    ensures var f := DrainFeedStep(s, scratch);
            && Fed(f, u) && LastWaits(f, u) && f.stats.misplaced == s.stats.misplaced && f.phase == s.phase
  {
    hide InFlight, Conserved, QueueNext, Bufferless, Misfit, AllReady;
    QueueNextDoomed(s, u);
    var n := QueueNext(s);
    var index := FirstFree(n.pool.capture, 0);
    IdleInFlight(n.pool.capture);
    if Idle(n.pool.capture) {
      assert index == 0;
      QueueInFlight(n.pool.capture, index, Frame(true, 0, scratch));
    } else {
      assert QueueScratch(n, scratch) == n;
    }
  }

  lemma {:induction false} OneQueued(capture: seq<Frame>) returns (i: nat)
    requires |InFlight(capture)| == 1
    ensures i < |capture| && capture[i].queued && InFlight(capture) == [capture[i].importToken]
  {
    var n := |capture| - 1;
    if capture[n].queued {
      i := n;
    } else {
      i := OneQueued(capture[..n]);
    }
  }

  function PictureIn(index: nat, token: nat): Action {
    CaptureReturn(Completion(index, token, false, false, true), false)
  }

  /** The buffer is back and its slot empty. */
  ghost predicate Emptied(s: State, n: State) {
    && n.pool.memory == s.pool.memory && n.pool.layout == s.pool.layout && n.pool.capture != []
    && n.backlog == s.backlog && InFlight(n.pool.capture) == [] && Idle(n.pool.capture)
  }

  /** What is still undecoded is in trouble, too. */
  lemma NextDoomed(s: State, n: State, u: seq<nat>)
    requires Fed(s, u) && Emptied(s, n) && |u| > 1
    requires forall t :: t in n.ledger.pending <==> t in s.ledger.pending && t != u[0]
    requires InFlight(s.pool.capture) == [0] && Blocked(s) ==> Blocked(n)
    requires Queue(s) == u && !AllReady(s) ==> !AllReady(n)
    requires u[0] in s.ledger.pending ==> InFlight(s.pool.capture) == [u[0]]
    ensures Doomed(n, u[1..])
  {
    hide InFlight, Blocked, Idle, AllReady, Rising, Inverted, Tokens;
    LastIsLast(u);
    if Inverted(s, u) {
      StillInverted(s, n, u);
    }
    QueueTails(s, n);
    TailHas(u, s.ledger.pending.Keys, n.ledger.pending.Keys);
  }

  lemma QueueTails(s: State, n: State)
    requires Emptied(s, n) && |InFlight(s.pool.capture)| == 1
    ensures Queue(n) == Queue(s)[1..] && |Queue(s)| == |s.backlog| + 1
  {
    hide InFlight;
    assert [] + Tokens(s.backlog) == Tokens(s.backlog);
  }

  lemma TailHas(u: seq<nat>, was: set<nat>, now: set<nat>)
    requires u != [] && (forall t :: t in was ==> t in u) && forall t :: t in now ==> t in was && t != u[0]
    ensures forall t :: t in now ==> t in u[1..]
  {
  }

  lemma StillInverted(s: State, n: State, u: seq<nat>)
    requires Rising(u) && u != [] && Inverted(s, u) && Emptied(s, n) && |InFlight(s.pool.capture)| == 1
    requires forall t :: t in n.ledger.pending <==> t in s.ledger.pending && t != u[0]
    requires u[0] in s.ledger.pending ==> InFlight(s.pool.capture) == [u[0]]
    ensures Inverted(n, u[1..])
  {
    hide InFlight;
    var j :| 0 <= j < |u| && u[j] in s.ledger.pending && u[j] !in Queue(s)[..j + 1];
    assert Queue(n) == Queue(s)[1..];
    assert InFlight(s.pool.capture)[0] == Queue(s)[0] && Queue(s)[0] in Queue(s)[..j + 1];
    assert u[1..][j - 1] == u[j] && Queue(s)[..j + 1][1..] == Queue(n)[..j];
    assert forall x :: x in Queue(n)[..j] ==> x in Queue(s)[..j + 1];
  }

  /** The picture is not waited for. */
  lemma DroppedDoomed(s: State, n: State, u: seq<nat>)
    requires Fed(s, u) && LastWaits(s, u) && u[0] !in s.ledger.pending
    requires Emptied(s, n) && n.ledger == s.ledger
    ensures Doomed(n, u[1..]) && LastWaits(n, u[1..])
  {
    hide InFlight, Bufferless, Misfit, Idle, Doomed;
    LastIsLast(u);
    hide Rising, Fed;
    NextDoomed(s, n, u);
  }

  lemma FedRises(s: State, u: seq<nat>)
    requires Fed(s, u)
    ensures Rising(u)
    ensures InFlight(s.pool.capture) != [0] && InFlight(s.pool.capture) == u ==> Queue(s) == u && !AllReady(s)
  {
    hide Rising, AllReady, InFlight;
  }

  /** The picture is published from its own buffer. */
  lemma SettledDoomed(s: State, n: State, u: seq<nat>, after: Target)
    requires Conserved(s.ledger) && Fed(s, u) && LastWaits(s, u) && u[0] in s.ledger.pending
    requires InFlight(s.pool.capture) == [u[0]]
    requires Emptied(s, n) && n.ledger == s.ledger.Settle(u[0], Published, after)
    ensures Doomed(n, u[1..]) && LastWaits(n, u[1..])
  {
    hide InFlight, Conserved, Idle, Ledger.Settle, Doomed, Fed, Rising;
    FedRises(s, u);
    LastIsLast(u);
    OthersStay(s.ledger, u[0], after);
    if Queue(s) == u && !AllReady(s) {
      StillNotReady(s, n, u);
    }
    NextDoomed(s, n, u);
  }

  lemma StillNotReady(s: State, n: State, u: seq<nat>)
    requires u != [] && Rising(u) && Queue(s) == u && InFlight(s.pool.capture) == [u[0]] && !AllReady(s)
    requires n.backlog == s.backlog && n.pool.layout == s.pool.layout
    requires forall t :: t in s.ledger.pending && t != u[0] ==>
               && t in n.ledger.pending
               && n.ledger.Get(n.ledger.pending[t]) == s.ledger.Get(s.ledger.pending[t])
    ensures |u| > 1 && !AllReady(n)
  {
    hide InFlight;
    var j :| 0 <= j < |s.backlog| && !Ready(s.ledger, s.pool.layout, s.backlog[j]);
    assert s.backlog[j].token == u[j + 1] != u[0];
    assert !Ready(n.ledger, n.pool.layout, n.backlog[j]);
  }

  lemma OthersStay(l: Ledger, token: nat, after: Target)
    requires Conserved(l) && token in l.pending
    ensures var l' := l.Settle(token, Published, after);
            && l'.pending == l.pending - {token}
            && forall t :: t in l'.pending ==>
               l'.pending[t] == l.pending[t] && l'.Get(l'.pending[t]) == l.Get(l.pending[t])
  {
    assert l.Get(l.pending[token]).token == token;
  }

  /** The oldest picture comes back in the only buffer there is. */
  lemma ReturnDoomed(cfg: Config, s: State, u: seq<nat>, i: nat)
    requires Conserved(s.ledger) && Fed(s, u) && LastWaits(s, u) && s.phase.Draining?
    requires i < |s.pool.capture| && s.pool.capture[i].queued
    ensures var n := CaptureStep(cfg, s, PictureIn(i, u[0]).d, false);
            && n.phase == s.phase
            && (n.stats.misplaced == s.stats.misplaced + 1
                || (n.stats.misplaced == s.stats.misplaced && Doomed(n, u[1..]) && LastWaits(n, u[1..])))
  {
    hide InFlight, Conserved, AllReady, Bufferless, Misfit, MisplacedStep;
    var f := s.pool.capture[i];
    TakeInFlight(s.pool.capture, i, Frame(false, 0, f.importFd));
    var taken := Taken(s, i);
    IdleInFlight(taken.pool.capture);
    var n := CaptureStep(cfg, s, PictureIn(i, u[0]).d, false);
    LastIsLast(u);
    if u[0] !in s.ledger.pending {
      DroppedDoomed(s, n, u);
    } else if f.importToken != u[0] {
      Misplaced(NoteLast(taken, false), u[0], f.importToken);
    } else {
      var t := s.ledger.Get(s.ledger.pending[u[0]]);
      SettledDoomed(s, n, u, Delivered(NoteLast(taken, false), t, i));
    }
  }

  lemma Misplaced(s: State, token: nat, owner: nat)
    ensures MisplacedStep(s, token, owner).stats.misplaced == s.stats.misplaced + 1
    ensures MisplacedStep(s, token, owner).phase == s.phase
  {
  }

  lemma LastIsLast(u: seq<nat>)
    requires Rising(u) && u != []
    ensures u[0] != 0 && Rising(u[1..])
    ensures |u| > 1 ==> u[1..][|u| - 2] == u[|u| - 1] && u[0] != u[|u| - 1]
  {
  }

  /** One round: the drain feeds the firmware, and the oldest picture comes back. */
  lemma DrainRound(cfg: Config, outputs: nat, h: seq<Action>, k: nat) returns (r: seq<Action>)
    requires Legal(cfg, outputs, h) && k <= |h| && InOrderFrom(cfg, outputs, h, k)
    requires var s, u := Replay(cfg, outputs, h), Undecoded(cfg, outputs, h);
             s.phase.Draining? && Doomed(s, u) && LastWaits(s, u)
    ensures h <= r && Legal(cfg, outputs, r) && InOrderFrom(cfg, outputs, r, k)
    ensures var s, u := Replay(cfg, outputs, r), Undecoded(cfg, outputs, r);
            && u == Undecoded(cfg, outputs, h)[1..] && s.phase.Draining?
            && (s.stats.misplaced > 0 || (Doomed(s, u) && LastWaits(s, u)))
  {
    hide Replay, Legal, InOrderFrom, Conserved, Owned, Doomed, Fed, CaptureStep, DrainFeedStep, InFlight;
    var u := Undecoded(cfg, outputs, h);
    TokensAreConserved(cfg, outputs, h);
    FeedDoomed(Replay(cfg, outputs, h), u, 0);
    r := Obediently(cfg, outputs, h, DrainFeed(0), k);
    TokensAreConserved(cfg, outputs, r);
    RunsAreOwned(cfg, outputs, r);
    var s := Replay(cfg, outputs, r);
    FedHasOne(s, u);
    var i := OneQueued(s.pool.capture);
    KernelHasSlot(cfg, s, i);
    ReturnDoomed(cfg, s, u, i);
    r := Obediently(cfg, outputs, r, PictureIn(i, u[0]), k);
  }

  lemma FedHasOne(s: State, u: seq<nat>)
    requires Fed(s, u)
    ensures |InFlight(s.pool.capture)| == 1
  {
  }

  /** From a drain in trouble, some picture is misplaced: at the latest the last one. */
  lemma {:induction false} DrainMisplaces(cfg: Config, outputs: nat, h: seq<Action>, k: nat) returns (r: seq<Action>)
    requires Legal(cfg, outputs, h) && k <= |h| && InOrderFrom(cfg, outputs, h, k)
    requires var s, u := Replay(cfg, outputs, h), Undecoded(cfg, outputs, h);
             s.phase.Draining? && Doomed(s, u) && LastWaits(s, u)
    ensures h <= r && Legal(cfg, outputs, r) && InOrderFrom(cfg, outputs, r, k)
    ensures Replay(cfg, outputs, r).stats.misplaced > 0
    decreases |Undecoded(cfg, outputs, h)|
  {
    hide Replay, Legal, InOrderFrom, Doomed, Undecoded;
    r := DrainRound(cfg, outputs, h, k);
    if Replay(cfg, outputs, r).stats.misplaced == 0 {
      r := DrainMisplaces(cfg, outputs, r, k);
    }
  }

  // ---------------------------------------------------------------- one more picture

  lemma {:induction false} FreshTarget(used: set<nat>) returns (id: nat)
    ensures forall x :: x in used ==> x < id
    decreases |used|
  {
    id := 0;
    if used != {} {
      var x :| x in used;
      var above := FreshTarget(used - {x});
      assert forall y :: y in used ==> y == x || y in used - {x};
      id := if x < above then above else x + 1;
    }
  }

  lemma SubmitDoomed(s: State, u: seq<nat>, id: nat)
    requires Conserved(s.ledger) && Doomed(s, u) && id !in s.ledger.targets && forall t :: t in u ==> t < s.ledger.next
    requires FreeOutput(s.pool.outputs, 0) < |s.pool.outputs|
    ensures var u', n := u + [s.ledger.next], SubmitStep(s, id, Import, Buffer(s.pool.layout), 0);
            && Doomed(n, u') && LastWaits(n, u') && n.stats.misplaced == s.stats.misplaced && n.phase == s.phase
  {
    hide QueueNext, Doomed, Conserved;
    var slot := FreeOutput(s.pool.outputs, 0);
    var x := s.(pool := s.pool.(outputs := s.pool.outputs[slot := OutputSlot(true, s.ledger.next)]),
                kernel := s.kernel.(output := s.kernel.output + multiset{slot}),
                ledger := s.ledger.Issue(id, Import, Buffer(s.pool.layout)),
                stats := s.stats.(submitted := s.stats.submitted + 1),
                backlog := s.backlog + [Entry(s.ledger.next, 0)]);
    ListedDoomed(s, x, u, id);
    IssueConserves(s.ledger, id, Import, Buffer(s.pool.layout));
    QueueNextDoomed(x, u + [s.ledger.next]);
    DoomedPool(s, u);
  }

  lemma OldTargets(l: Ledger, id: nat, publish: Publish, destination: Destination)
    requires Conserved(l) && id !in l.targets
    ensures var l' := l.Issue(id, publish, destination);
            && l.next !in l.pending && l'.pending == l.pending[l.next := id]
            && l'.Get(id) == Target(l.next, true, false, false, publish, destination, Nothing)
            && forall t :: t in l.pending ==>
               l'.pending[t] == l.pending[t] && l'.Get(l.pending[t]) == l.Get(l.pending[t])
  {
    forall t | t in l.pending
      ensures l.pending[t] != id
    {
      assert l.Get(l.pending[t]).pending;
    }
  }

  lemma OneMore(u: seq<nat>, next: nat)
    requires next >= 1 && Rising(u) && forall t :: t in u ==> t < next
    ensures Rising(u + [next])
  {
    forall i | 0 <= i < |u|
      ensures u[i] < next
    {
      assert u[i] in u;
    }
  }

  lemma ListedDoomed(s: State, x: State, u: seq<nat>, id: nat)
    requires Conserved(s.ledger) && Doomed(s, u) && id !in s.ledger.targets && forall t :: t in u ==> t < s.ledger.next
    requires x.pool.capture == s.pool.capture && x.pool.memory == s.pool.memory && x.pool.layout == s.pool.layout
    requires x.ledger == s.ledger.Issue(id, Import, Buffer(s.pool.layout))
    requires x.backlog == s.backlog + [Entry(s.ledger.next, 0)]
    ensures Doomed(x, u + [s.ledger.next]) && LastWaits(x, u + [s.ledger.next])
  {
    hide InFlight, Conserved, Idle, Ledger.Issue, Rising, Issued, Troubled;
    OldTargets(s.ledger, id, Import, Buffer(s.pool.layout));
    PendingBelow(s.ledger);
    OneMore(u, s.ledger.next);
    ListedTrouble(s, x, u);
  }

  lemma ListedTrouble(s: State, x: State, u: seq<nat>)
    requires Troubled(s, u) && s.ledger.next !in s.ledger.pending
    requires x.pool.capture == s.pool.capture && x.pool.layout == s.pool.layout
    requires x.backlog == s.backlog + [Entry(s.ledger.next, 0)]
    requires forall t :: t in s.ledger.pending ==>
               t in x.ledger.pending && x.ledger.Get(x.ledger.pending[t]) == s.ledger.Get(s.ledger.pending[t])
    requires forall t :: t in x.ledger.pending ==> t in s.ledger.pending || t == s.ledger.next
    ensures Troubled(x, u + [s.ledger.next])
  {
    hide InFlight, Idle;
    assert Tokens(x.backlog) == Tokens(s.backlog) + [s.ledger.next];
    assert Queue(x) == Queue(s) + [s.ledger.next];
    if Queue(s) == u && !AllReady(s) {
      var j :| 0 <= j < |s.backlog| && !Ready(s.ledger, s.pool.layout, s.backlog[j]);
      assert x.backlog[j] == s.backlog[j];
      assert !Ready(x.ledger, x.pool.layout, x.backlog[j]);
    }
    if Inverted(s, u) {
      var j :| 0 <= j < |u| && u[j] in s.ledger.pending && u[j] !in Queue(s)[..j + 1];
      assert (u + [s.ledger.next])[j] == u[j] && Queue(x)[..j + 1] == Queue(s)[..j + 1];
    }
  }

  // ---------------------------------------------------------------- the start

  /** No token that is waited for, or whose entry is queued, has been decoded; the entries are in order. */
  ghost predicate Accounted(s: State, u: seq<nat>) {
    && (forall t :: t in s.ledger.pending ==> t in u)
    && Rising(Tokens(s.backlog)) && forall t :: t in Tokens(s.backlog) ==> t in u
  }

  /** enter_streaming keeps what is queued and appends pending pictures, oldest first. */
  ghost predicate Appends(l: Ledger, b: seq<Entry>, g: seq<Entry>, n: nat) {
    && b <= g
    && (forall i :: |b| <= i < |g| ==> g[i].token in l.pending && g[i].token < n && !Listed(b, g[i].token))
    && (forall i, j :: |b| <= i < j < |g| ==> g[i].token < g[j].token)
  }

  lemma {:induction false} GatheredAppends(l: Ledger, b: seq<Entry>, fds: map<nat, int>, n: nat)
    ensures Appends(l, b, Gathered(l, b, fds, n), n)
  {
    if n > 0 {
      GatheredAppends(l, b, fds, n - 1);
      var g := Gathered(l, b, fds, n - 1);
      if Listed(b, n - 1) {
        var i := Find(b, n - 1);
        assert g[i] == b[i];
        ListedAt(g, i);
      }
    }
  }

  ghost predicate Distinct(s: seq<nat>) {
    forall i, j :: 0 <= i < j < |s| ==> s[i] != s[j]
  }

  function Members(s: seq<nat>): set<nat> {
    set x | x in s
  }

  lemma {:induction false} DistinctSize(s: seq<nat>)
    requires Distinct(s)
    ensures |Members(s)| == |s|
  {
    if s != [] {
      var n := |s| - 1;
      DistinctSize(s[..n]);
      assert Members(s) == Members(s[..n]) + {s[n]};
    }
  }

  /** Pigeonhole. */
  lemma DistinctFills(s: seq<nat>, u: seq<nat>)
    requires Distinct(s) && Distinct(u) && forall x :: x in s ==> x in u
    ensures |s| <= |u|
    ensures |s| == |u| ==> forall x :: x in u ==> x in s
  {
    DistinctSize(s);
    DistinctSize(u);
    SubsetSize(Members(s), Members(u));
    assert forall x :: x in s <==> x in Members(s);
    assert forall x :: x in u <==> x in Members(u);
  }

  lemma SubsetSize(a: set<nat>, b: set<nat>)
    requires a <= b
    ensures |a| <= |b| && (|a| == |b| ==> a == b)
  {
    assert b == a + (b - a);
    if |a| == |b| {
      assert b - a == {};
    }
  }

  lemma {:induction false} FirstDifference(a: seq<nat>, b: seq<nat>) returns (j: nat)
    requires |a| == |b| && a != b
    ensures j < |a| && a[j] != b[j] && a[..j] == b[..j]
    decreases |a|
  {
    var n := |a| - 1;
    if a[..n] == b[..n] {
      assert a == a[..n] + [a[n]] && b == b[..n] + [b[n]];
      j := n;
    } else {
      j := FirstDifference(a[..n], b[..n]);
      assert a[..n][..j] == a[..j] && b[..n][..j] == b[..j];
    }
  }

  lemma AppendsDistinct(l: Ledger, b: seq<Entry>, g: seq<Entry>, n: nat)
    requires Appends(l, b, g, n) && Rising(Tokens(b))
    ensures Distinct(Tokens(g))
  {
    forall i, j | 0 <= i < j < |g|
      ensures g[i].token != g[j].token
    {
      if j < |b| {
        assert Tokens(b)[i] < Tokens(b)[j];
      } else if i < |b| {
        ListedAt(b, i);
      }
    }
  }

  /** If all are there but in another order, some pending picture comes before its buffer. */
  lemma Shuffled(g: State, b: seq<Entry>, u: seq<nat>)
    requires Appends(g.ledger, b, g.backlog, g.ledger.next) && Rising(Tokens(b)) && Rising(u)
    requires Queue(g) == Tokens(g.backlog) && |g.backlog| == |u| && Tokens(g.backlog) != u
    requires forall t :: t in Tokens(g.backlog) ==> t in u
    ensures Inverted(g, u)
  {
    hide InFlight, Listed, Queue;
    var t := Tokens(g.backlog);
    AppendsDistinct(g.ledger, b, g.backlog, g.ledger.next);
    DistinctFills(t, u);
    var j := FirstDifference(t, u);
    assert u[j] in t;
    var p :| 0 <= p < |t| && t[p] == u[j];
    assert forall i :: 0 <= i < j ==> t[..j][i] == t[i] && u[..j][i] == u[i];
    Larger(t, u, j);
    assert forall i :: 0 <= i < |b| ==> Tokens(b)[i] == t[i];
    forall i | 0 <= i < j + 1
      ensures t[i] != u[j]
    {
      assert t[i] != t[p];
    }
  }

  /** What stands in the place of `u[j]` belongs further back. */
  lemma Larger(t: seq<nat>, u: seq<nat>, j: nat)
    requires j < |t| == |u| && Rising(u) && Distinct(t) && t[..j] == u[..j] && t[j] != u[j] && t[j] in u
    ensures t[j] > u[j]
  {
    var q :| 0 <= q < |u| && u[q] == t[j];
    assert forall i :: 0 <= i < j ==> t[..j][i] == t[i] && u[..j][i] == u[i];
  }

  /** A pool that does not start in step is in trouble. */
  lemma GatheredTrouble(g: State, b: seq<Entry>, u: seq<nat>)
    requires Appends(g.ledger, b, g.backlog, g.ledger.next) && Idle(g.pool.capture)
    requires Rising(u) && Rising(Tokens(b)) && (forall t :: t in Tokens(b) ==> t in u)
    requires (forall t :: t in g.ledger.pending ==> t in u) && !InStep(g, u)
    ensures Troubled(g, u)
  {
    hide InFlight, Idle, Listed, AllReady, Rising, Inverted;
    IdleInFlight(g.pool.capture);
    assert Queue(g) == Tokens(g.backlog);
    forall i | 0 <= i < |g.backlog|
      ensures g.backlog[i].token in u
    {
      assert i < |b| ==> Tokens(b)[i] == g.backlog[i].token;
    }
    AppendsDistinct(g.ledger, b, g.backlog, g.ledger.next);
    RisesDistinct(u);
    DistinctFills(Tokens(g.backlog), u);
    if |g.backlog| == |u| && Tokens(g.backlog) != u {
      Shuffled(g, b, u);
    }
  }

  lemma RisesDistinct(u: seq<nat>)
    requires Rising(u)
    ensures Distinct(u)
  {
  }

  lemma EntryIsDoomed(cfg: Config, s: State, layout: Layout, count: nat, fds: map<nat, int>, u: seq<nat>)
    requires GrantsImport(cfg, s.ledger, layout) && count > 0 && Conserved(s.ledger)
    requires Rising(u) && Accounted(s, u) && !InStep(Entered(cfg, s, layout, count, fds), u)
    ensures var n := ConfigureStep(cfg, s, layout, count, fds);
            Doomed(n, u) && n.stats.misplaced == s.stats.misplaced && n.phase.Streaming?
  {
    hide QueueNext, Gathered, GrantsImport, InFlight, Entered, Conserved, ConfigureStep, Listed, Rising, Troubled,
         InStep;
    EnteredStep(cfg, s, layout, count, fds);
    var g := Entered(cfg, s, layout, count, fds);
    GatheredAppends(s.ledger, s.backlog, fds, s.ledger.next);
    IdleInFlight(g.pool.capture);
    GatheredTrouble(g, s.backlog, u);
    QueueNextDoomed(g, u);
    FlagsDoomed(QueueNext(g), u);
  }

  lemma FlagsDoomed(s: State, u: seq<nat>)
    requires Doomed(s, u)
    ensures Doomed(s.(sourceChange := false, sawLast := false), u)
  {
    hide InFlight;
  }

  // ---------------------------------------------------------------- room for one more

  lemma {:induction false} QueueNextSlots(s: State)
    ensures QueueNext(s).pool.outputs == s.pool.outputs
    decreases |s.backlog|
  {
    hide Idle;
    if s.pool.memory == Dmabuf && s.backlog != [] && Idle(s.pool.capture) {
      var e := s.backlog[0];
      if e.fd < 0 {
        QueueNextSlots(s.(backlog := s.backlog[1..]));
      } else if Bufferless(s.ledger, e.token) {
        QueueNextSlots(CountError(s.(backlog := s.backlog[1..], ledger := s.ledger.Fail(e.token))));
      }
    }
  }

  lemma SubmitSlots(s: State, id: nat, publish: Publish, destination: Destination, fd: int)
    requires FreeOutput(s.pool.outputs, 0) < |s.pool.outputs|
    ensures |SubmitStep(s, id, publish, destination, fd).pool.outputs| == |s.pool.outputs|
  {
    hide QueueNext;
    forall x: State
      ensures QueueNext(x).pool.outputs == x.pool.outputs
    {
      QueueNextSlots(x);
    }
  }

  lemma CaptureSlots(cfg: Config, s: State, d: Completion, copyFails: bool)
    requires d.index < |s.pool.capture|
    ensures CaptureStep(cfg, s, d, copyFails).pool.outputs == s.pool.outputs
  {
    hide QueueNext, Deliver;
    QueueNextSlots(Taken(s, d.index));
    var next := NextIfStreaming(Taken(s, d.index));
    DeliverKeeps(cfg, NoteLast(next, d.last), d, s.pool.capture[d.index].importToken, copyFails);
  }

  lemma StepSlots(cfg: Config, s: State, a: Action)
    requires Enabled(cfg, s, a)
    ensures |Step(cfg, s, a).pool.outputs| == |s.pool.outputs|
  {
    hide QueueNext, Deliver, Requeued, Ledger.FailExcept, Gathered, CaptureStep, SubmitStep, GrantsImport;
    match a
    case Submit(id, publish, destination, fd) => SubmitSlots(s, id, publish, destination, fd);
    case CaptureReturn(d, copyFails) => CaptureSlots(cfg, s, d, copyFails);
    case ConfigureCapture(layout, count, fds) =>
      var p := NewPool(cfg, s, layout, count);
      QueueNextSlots(p.(backlog := Gathered(p.ledger, p.backlog, fds, p.ledger.next)));
    case DrainFeed(scratch) => QueueNextSlots(s);
    case _ =>
  }

  /** An access unit needs an OUTPUT slot. */
  lemma {:induction false} SlotsStay(cfg: Config, outputs: nat, h: seq<Action>)
    requires Legal(cfg, outputs, h)
    ensures |Replay(cfg, outputs, h).pool.outputs| == outputs
    ensures Undecoded(cfg, outputs, h) != [] ==> outputs > 0
    decreases |h|
  {
    hide Step;
    if h != [] {
      var n := |h| - 1;
      SlotsStay(cfg, outputs, h[..n]);
      StepSlots(cfg, Replay(cfg, outputs, h[..n]), h[n]);
    }
  }

  /** The undecoded tokens are in order. */
  lemma {:induction false} UndecodedRises(cfg: Config, outputs: nat, h: seq<Action>)
    requires Legal(cfg, outputs, h)
    ensures Rising(Undecoded(cfg, outputs, h))
    ensures forall t :: t in Undecoded(cfg, outputs, h) ==> t < Replay(cfg, outputs, h).ledger.next
    decreases |h|
  {
    hide Step, Enabled;
    if h != [] {
      var n := |h| - 1;
      var s, u := Replay(cfg, outputs, h[..n]), Undecoded(cfg, outputs, h[..n]);
      UndecodedRises(cfg, outputs, h[..n]);
      TokensAreConserved(cfg, outputs, h[..n]);
      PendingBelow(s.ledger);
      StepPending(cfg, s, h[n]);
      hide Conserved;
      if h[n].Submit? {
        SubmitIssues(cfg, s, h[n]);
        OneMore(u, s.ledger.next);
      } else if u != [] {
        LastIsLast(u);
        assert forall t :: t in u[1..] ==> t in u;
      }
    }
  }

  lemma SubmitIssues(cfg: Config, s: State, a: Action)
    requires a.Submit? && Enabled(cfg, s, a)
    ensures Step(cfg, s, a).ledger.next == s.ledger.next + 1
  {
    SubmitPending(s, a.id, a.publish, a.destination, a.fd);
  }

  /** The first slot is free, or comes back. */
  lemma FreeOne(cfg: Config, outputs: nat, h: seq<Action>, k: nat) returns (r: seq<Action>)
    requires Legal(cfg, outputs, h) && k <= |h| && InOrderFrom(cfg, outputs, h, k)
    requires !Replay(cfg, outputs, h).phase.Failed? && |Replay(cfg, outputs, h).pool.outputs| > 0
    ensures h <= r && Legal(cfg, outputs, r) && InOrderFrom(cfg, outputs, r, k)
    ensures var s, n := Replay(cfg, outputs, h), Replay(cfg, outputs, r);
            && FreeOutput(n.pool.outputs, 0) < |n.pool.outputs|
            && n == s.(pool := s.pool.(outputs := n.pool.outputs), kernel := n.kernel)
            && Undecoded(cfg, outputs, r) == Undecoded(cfg, outputs, h)
  {
    hide Replay, Legal, InOrderFrom, Undecoded;
    r := h;
    var s := Replay(cfg, outputs, h);
    if s.pool.outputs[0].queued {
      RunsAreOwned(cfg, outputs, h);
      KernelHasOutput(cfg, s, 0);
      r := Obediently(cfg, outputs, h, OutputReturn(0, false), k);
    }
  }

  lemma OutputsAside(s: State, n: State, u: seq<nat>)
    requires Doomed(s, u) && n == s.(pool := s.pool.(outputs := n.pool.outputs), kernel := n.kernel)
    ensures Doomed(n, u)
  {
  }

  lemma DrainAside(s: State, u: seq<nat>, n: State)
    requires Doomed(s, u) && LastWaits(s, u) && n == s.(phase := n.phase, sawLast := n.sawLast, stats := n.stats)
    ensures Doomed(n, u) && LastWaits(n, u)
  {
  }

  /** The client submits one more picture, and the session is drained. */
  lemma OneMoreMisplaces(cfg: Config, outputs: nat, h: seq<Action>, k: nat) returns (r: seq<Action>)
    requires cfg.decodeOrder && Legal(cfg, outputs, h) && k <= |h| && InOrderFrom(cfg, outputs, h, k)
    requires var s, u := Replay(cfg, outputs, h), Undecoded(cfg, outputs, h);
             && s.phase.Streaming? && |s.pool.outputs| > 0 && Doomed(s, u)
             && forall t :: t in u ==> t < s.ledger.next
    ensures h <= r && Legal(cfg, outputs, r) && InOrderFrom(cfg, outputs, r, k)
    ensures Replay(cfg, outputs, r).stats.misplaced > 0
  {
    hide Replay, Legal, InOrderFrom, Undecoded, Conserved, Doomed, Issued, SubmitStep;
    r := FreeOne(cfg, outputs, h, k);
    var u, s := Undecoded(cfg, outputs, h), Replay(cfg, outputs, r);
    OutputsAside(Replay(cfg, outputs, h), s, u);
    TokensAreConserved(cfg, outputs, r);
    var id := FreshTarget(s.ledger.targets.Keys);
    SubmitDoomed(s, u, id);
    DoomedPool(s, u);
    r := Obediently(cfg, outputs, r, Submit(id, Import, Buffer(s.pool.layout), 0), k);
    u, s := Undecoded(cfg, outputs, r), Replay(cfg, outputs, r);
    r := Obediently(cfg, outputs, r, DrainBegin(OnFinish), k);
    DrainAside(s, u, Replay(cfg, outputs, r));
    r := DrainMisplaces(cfg, outputs, r, k);
  }

  /** The exact condition under which an Import pool works, whichever pool of the session it is, if nothing that
      is still waited for or queued has been decoded yet: what enter_streaming gathers is what the firmware has
      left to decode, in that order, with a descriptor and a fitting buffer for each. Then the session is in
      lockstep, and with an in-order firmware nothing is misplaced; otherwise some run misplaces a picture. */
  lemma PoolInStep(cfg: Config, outputs: nat, h: seq<Action>, layout: Layout, count: nat, fds: map<nat, int>)
    requires Legal(cfg, outputs, h)
    requires var s := Replay(cfg, outputs, h);
             && Enabled(cfg, s, ConfigureCapture(layout, count, fds)) && GrantsImport(cfg, s.ledger, layout)
             && s.stats.misplaced == 0 && Accounted(s, Undecoded(cfg, outputs, h))
    ensures var s, a, u := Replay(cfg, outputs, h), ConfigureCapture(layout, count, fds), Undecoded(cfg, outputs, h);
            && Legal(cfg, outputs, h + [a])
            && (NeverMisplaces(cfg, outputs, h + [a]) <==> InStep(Entered(cfg, s, layout, count, fds), u))
            && (Lockstep(Step(cfg, s, a), Undecoded(cfg, outputs, h + [a])) <==>
                  InStep(Entered(cfg, s, layout, count, fds), u))
  {
    TokensAreConserved(cfg, outputs, h);
    UndecodedRises(cfg, outputs, h);
    SlotsStay(cfg, outputs, h);
    hide Replay, Legal, Conserved, Lockstep, InStep, ConfigureStep, GrantsImport, NeverMisplaces, InOrderFrom,
         Undecoded, Entered;
    var s, a, u := Replay(cfg, outputs, h), ConfigureCapture(layout, count, fds), Undecoded(cfg, outputs, h);
    Extend(cfg, outputs, h, a);
    StartInOrder(cfg, outputs, h + [a]);
    GrantedInOrder(cfg, s.ledger, layout);
    if InStep(Entered(cfg, s, layout, count, fds), u) {
      EntryIsLive(cfg, s, layout, count, fds, u);
      LockstepIsSafe(cfg, outputs, h + [a]);
    } else {
      EntryIsDoomed(cfg, s, layout, count, fds, u);
      StepSlots(cfg, s, a);
      StepTokens(cfg, s, layout, count, fds);
      var r := OneMoreMisplaces(cfg, outputs, h + [a], |h + [a]|);
      NotSafe(cfg, outputs, h + [a], r);
      if Lockstep(Step(cfg, s, a), Undecoded(cfg, outputs, h + [a])) {
        LockstepIsSafe(cfg, outputs, h + [a]);
      }
    }
  }

  /** For the first pool the condition is about what was submitted: every picture so far is still waited for and
      was given a fitting buffer. A picture released or timed out before then, or one without a descriptor, a
      buffer or a fitting layout, is enough for some run to misplace a picture. */
  lemma LockstepFromTheStart(cfg: Config, outputs: nat, h: seq<Action>, layout: Layout, count: nat, fds: map<nat, int>)
    requires Legal(cfg, outputs, h)
    requires var s := Replay(cfg, outputs, h);
             && Enabled(cfg, s, ConfigureCapture(layout, count, fds))
             && s.generation == 0 && GrantsImport(cfg, s.ledger, layout)
    ensures var s, a := Replay(cfg, outputs, h), ConfigureCapture(layout, count, fds);
            && Legal(cfg, outputs, h + [a])
            && (NeverMisplaces(cfg, outputs, h + [a]) <==> AllWaiting(s.ledger, fds, layout))
            && (Lockstep(Step(cfg, s, a), Undecoded(cfg, outputs, h + [a])) <==> AllWaiting(s.ledger, fds, layout))
  {
    TokensAreConserved(cfg, outputs, h);
    BeforeThePool(cfg, outputs, h);
    hide Replay, Legal, Conserved, Lockstep, AllWaiting, ConfigureStep, GrantsImport, NeverMisplaces, Undecoded, InStep,
         Entered, Gathered, Lists, Issued;
    var s := Replay(cfg, outputs, h);
    PendingBelow(s.ledger);
    IssuedRises(s.ledger.next);
    NothingQueued(s, Issued(s.ledger.next));
    PoolInStep(cfg, outputs, h, layout, count, fds);
    var g := Entered(cfg, s, layout, count, fds);
    EnteredStep(cfg, s, layout, count, fds);
    GatheredEntries(s.ledger, fds, s.ledger.next);
    if AllWaiting(s.ledger, fds, layout) {
      GatheredReady(g, fds);
    } else if InStep(g, Issued(s.ledger.next)) {
      ReadyWait(g, fds, s.ledger.next);
    }
  }

  lemma NothingQueued(s: State, u: seq<nat>)
    requires s.backlog == [] && forall t :: t in s.ledger.pending ==> t in u
    ensures Accounted(s, u)
  {
  }

  /** An entry for every picture, and each can be handed over. */
  lemma ReadyWait(g: State, fds: map<nat, int>, n: nat)
    requires n == g.ledger.next >= 1 && Lists(g.ledger, fds, g.backlog, n) && InStep(g, Issued(n))
    ensures AllWaiting(g.ledger, fds, g.pool.layout)
  {
    hide Listed, Issued;
    forall t: nat | 1 <= t < n
      ensures Waiting(g.ledger, fds, g.pool.layout, t)
    {
      IssuedAt(n, t);
      assert Tokens(g.backlog)[t - 1] == g.backlog[t - 1].token == t;
      assert Ready(g.ledger, g.pool.layout, g.backlog[t - 1]);
    }
  }

  lemma IssuedAt(n: nat, t: nat)
    requires n >= 1
    ensures |Issued(n)| == n - 1 && (1 <= t < n ==> Issued(n)[t - 1] == t)
  {
  }

  lemma IssuedRises(n: nat)
    requires n >= 1
    ensures forall t :: 1 <= t < n ==> t in Issued(n)
  {
    forall t | 1 <= t < n
      ensures t in Issued(n)
    {
      assert Issued(n)[t - 1] == t;
    }
  }

  lemma GrantedInOrder(cfg: Config, l: Ledger, layout: Layout)
    requires GrantsImport(cfg, l, layout)
    ensures cfg.decodeOrder
  {
  }

  lemma StepTokens(cfg: Config, s: State, layout: Layout, count: nat, fds: map<nat, int>)
    requires GrantsImport(cfg, s.ledger, layout)
    ensures ConfigureStep(cfg, s, layout, count, fds).ledger.next == s.ledger.next
  {
    hide QueueNext, Gathered, GrantsImport, ConfigureStep;
    EnteredStep(cfg, s, layout, count, fds);
    QueueNextPending(Entered(cfg, s, layout, count, fds));
  }

  lemma NotSafe(cfg: Config, outputs: nat, h: seq<Action>, r: seq<Action>)
    requires h <= r && Legal(cfg, outputs, r) && InOrderFrom(cfg, outputs, r, |h|)
    requires Replay(cfg, outputs, r).stats.misplaced > 0
    ensures !NeverMisplaces(cfg, outputs, h)
  {
    hide InOrderFrom, Legal, Replay;
  }

  lemma LockstepIsSafe(cfg: Config, outputs: nat, h: seq<Action>)
    requires cfg.decodeOrder && Legal(cfg, outputs, h)
    requires Lockstep(Replay(cfg, outputs, h), Undecoded(cfg, outputs, h))
    ensures NeverMisplaces(cfg, outputs, h)
  {
    hide Legal, Replay, Undecoded, InOrderFrom, Lockstep;
    forall h' | h <= h' && Legal(cfg, outputs, h') && InOrderFrom(cfg, outputs, h', |h|)
      ensures Replay(cfg, outputs, h').stats.misplaced == 0
    {
      assert h'[..|h|] == h;
      RunsInLockstep(cfg, outputs, h', |h|);
      LockstepMisplaces(Replay(cfg, outputs, h'), Undecoded(cfg, outputs, h'));
    }
  }

  lemma LockstepMisplaces(s: State, u: seq<nat>)
    requires Lockstep(s, u)
    ensures s.stats.misplaced == 0
  {
    hide Live;
  }
}
