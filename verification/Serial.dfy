/**
 * The promise queue in front of the ratchet (impl/eh2/ratchet.ts): calls that give
 * way between reading and writing shared state, run one at a time in issue order.
 */
module Serial {
  import opened Keys
  import opened SkippedKeys
  import opened Ratchet
  import opened TsRatchet

  // ------------------------------------------------------------------------
  // calls made of sections
  // ------------------------------------------------------------------------

  /**
   * A call runs in sections; between two of them others may run. A section sees the
   * shared state and the call's own locals. A call that throws does nothing in the
   * sections it has left.
   */
  datatype Engine<!C, !S, !L> = Engine(start: C -> L, sections: C -> nat, section: (C, nat, S, L) -> (S, L))

  datatype Status<L> = Waiting | Running(at: nat, local: L) | Settled(local: L)

  datatype World<C, S, L> = World(shared: S, calls: seq<C>, status: seq<Status<L>>)

  datatype Event<C> = Issue(call: C) | Resume(i: nat)

  /** The sections from `at` on, uninterrupted. */
  function RunFrom<C, S, L>(e: Engine<C, S, L>, c: C, at: nat, s: S, l: L): (S, L)
    decreases e.sections(c) - at
  {
    if at >= e.sections(c) then (s, l)
    else
      var (t, k) := e.section(c, at, s, l);
      RunFrom(e, c, at + 1, t, k)
  }

  function RunCall<C, S, L>(e: Engine<C, S, L>, c: C, s: S): (S, L) {
    RunFrom(e, c, 0, s, e.start(c))
  }

  /** The shared state after running the calls one by one. */
  function StateAfter<C, S, L>(e: Engine<C, S, L>, calls: seq<C>, s: S): S {
    if calls == [] then s else RunCall(e, calls[|calls| - 1], StateAfter(e, calls[..|calls| - 1], s)).0
  }

  /** What call i gives when the calls run one by one. */
  function ResultOf<C, S, L>(e: Engine<C, S, L>, calls: seq<C>, i: nat, s: S): L
    requires i < |calls|
  {
    RunCall(e, calls[i], StateAfter(e, calls[..i], s)).1
  }

  // ------------------------------------------------------------------------
  // interleaving
  // ------------------------------------------------------------------------

  /** The queue lets a call start when the one issued before it has settled, however it settled. */
  predicate Ready<C, S, L>(w: World<C, S, L>, i: nat) {
    && i < |w.calls| == |w.status|
    && (w.status[i].Running? || (w.status[i].Waiting? && (i == 0 || w.status[i - 1].Settled?)))
  }

  /** Without the queue any unsettled call may go on. */
  predicate Unsettled<C, S, L>(w: World<C, S, L>, i: nat) {
    i < |w.calls| == |w.status| && !w.status[i].Settled?
  }

  predicate Possible<C, S, L>(w: World<C, S, L>, ev: Event<C>, queued: bool) {
    ev.Resume? ==> if queued then Ready(w, ev.i) else Unsettled(w, ev.i)
  }

  function Step<C, S, L>(e: Engine<C, S, L>, w: World<C, S, L>, ev: Event<C>): World<C, S, L> {
    match ev
    case Issue(c) => w.(calls := w.calls + [c], status := w.status + [Waiting])
    case Resume(i) =>
      if !(i < |w.calls| == |w.status|) then w
      else match w.status[i]
        case Settled(_) => w
        case Waiting => w.(status := w.status[i := Running(0, e.start(w.calls[i]))])
        case Running(at, l) =>
          if at >= e.sections(w.calls[i]) then w.(status := w.status[i := Settled(l)])
          else
            var (t, k) := e.section(w.calls[i], at, w.shared, l);
            w.(shared := t, status := w.status[i := Running(at + 1, k)])
  }

  function Run<C, S, L>(e: Engine<C, S, L>, w: World<C, S, L>, evs: seq<Event<C>>): World<C, S, L>
    decreases |evs|
  {
    if evs == [] then w else Run(e, Step(e, w, evs[0]), evs[1..])
  }

  predicate PossibleRun<C, S, L>(e: Engine<C, S, L>, w: World<C, S, L>, evs: seq<Event<C>>, queued: bool)
    decreases |evs|
  {
    evs == [] || (Possible(w, evs[0], queued) && PossibleRun(e, Step(e, w, evs[0]), evs[1..], queued))
  }

  function Idle<C, S, L>(s: S): World<C, S, L> {
    World(s, [], [])
  }

  // ------------------------------------------------------------------------
  // the queue is issue order
  // ------------------------------------------------------------------------

  /** Calls before k are done with their results, call k is what is left of it, later ones wait. */
  ghost predicate InOrder<C, S, L>(e: Engine<C, S, L>, w: World<C, S, L>, s: S, k: nat) {
    && k <= |w.calls| == |w.status|
    && (forall i: nat :: i < k ==> w.status[i] == Settled(ResultOf(e, w.calls, i, s)))
    && (forall i: nat :: k < i < |w.calls| ==> w.status[i] == Waiting)
    && (if k < |w.calls| && w.status[k].Running? then
          RunFrom(e, w.calls[k], w.status[k].at, w.shared, w.status[k].local) == RunCall(e, w.calls[k], StateAfter(e, w.calls[..k], s))
        else w.shared == StateAfter(e, w.calls[..k], s))
    && (k < |w.calls| ==> !w.status[k].Settled?)
  }

  lemma IssueKeeps<C, S, L>(e: Engine<C, S, L>, w: World<C, S, L>, s: S, k: nat, c: C)
    requires InOrder(e, w, s, k)
    ensures InOrder(e, Step(e, w, Issue(c)), s, k)
  {
    var v := Step(e, w, Issue(c));
    assert v.calls[..k] == w.calls[..k];
    forall i: nat | i < k ensures v.status[i] == Settled(ResultOf(e, v.calls, i, s)) {
      assert v.calls[..i] == w.calls[..i];
    }
  }

  lemma ResumeKeeps<C, S, L>(e: Engine<C, S, L>, w: World<C, S, L>, s: S, k: nat, i: nat)
    requires InOrder(e, w, s, k) && Ready(w, i)
    ensures InOrder(e, Step(e, w, Resume(i)), s, k) || InOrder(e, Step(e, w, Resume(i)), s, k + 1)
  {
    assert i == k;
    var v := Step(e, w, Resume(i));
    if w.status[k].Running? && w.status[k].at >= e.sections(w.calls[k]) {
      assert v.calls[..k + 1][..k] == v.calls[..k];
      assert InOrder(e, v, s, k + 1);
    } else {
      assert InOrder(e, v, s, k);
    }
  }

  lemma StepKeeps<C, S, L>(e: Engine<C, S, L>, w: World<C, S, L>, s: S, k: nat, ev: Event<C>) returns (j: nat)
    requires InOrder(e, w, s, k) && Possible(w, ev, true)
    ensures k <= j && InOrder(e, Step(e, w, ev), s, j)
  {
    match ev
    case Issue(c) =>
      IssueKeeps(e, w, s, k, c);
      j := k;
    case Resume(i) =>
      ResumeKeeps(e, w, s, k, i);
      j := if InOrder(e, Step(e, w, ev), s, k) then k else k + 1;
  }

  lemma {:induction false} RunKeeps<C, S, L>(e: Engine<C, S, L>, w: World<C, S, L>, s: S, k: nat, evs: seq<Event<C>>) returns (j: nat)
    requires InOrder(e, w, s, k) && PossibleRun(e, w, evs, true)
    ensures InOrder(e, Run(e, w, evs), s, j)
    decreases |evs|
  {
    if evs == [] {
      j := k;
    } else {
      var m := StepKeeps(e, w, s, k, evs[0]);
      j := RunKeeps(e, Step(e, w, evs[0]), s, m, evs[1..]);
    }
  }

  lemma IdleInOrder<C, S, L>(e: Engine<C, S, L>, s: S)
    ensures InOrder(e, Idle(s), s, 0)
  {
  }

  /**
   * However the calls' sections would interleave: every settled call gave what it gives
   * when all calls run one by one in issue order, and once all are settled so is the state.
   */
  lemma QueueIsIssueOrder<C, S, L>(e: Engine<C, S, L>, s: S, evs: seq<Event<C>>)
    requires PossibleRun(e, Idle(s), evs, true)
    ensures var w := Run(e, Idle(s), evs);
            && |w.status| == |w.calls|
            && (forall i: nat :: i < |w.calls| && w.status[i].Settled? ==> w.status[i] == Settled(ResultOf(e, w.calls, i, s)))
            && ((forall i: nat :: i < |w.calls| ==> w.status[i].Settled?) ==> w.shared == StateAfter(e, w.calls, s))
  {
    hide Run, PossibleRun, RunFrom, RunCall, StateAfter, ResultOf, Step;
    IdleInOrder(e, s);
    var k := RunKeeps(e, Idle(s), s, 0, evs);
    var w := Run(e, Idle(s), evs);
    assert w.calls[..|w.calls|] == w.calls;
  }

  /** No call can wedge the queue: while any is unsettled, exactly one may go on. */
  lemma NeverWedged<C, S, L>(e: Engine<C, S, L>, s: S, evs: seq<Event<C>>)
    requires PossibleRun(e, Idle(s), evs, true)
    requires var w := Run(e, Idle(s), evs); exists i: nat :: i < |w.calls| && Unsettled(w, i)
    ensures var w := Run(e, Idle(s), evs);
            exists i: nat :: Ready(w, i) && forall j: nat :: Ready(w, j) ==> j == i
  {
    var k := RunKeeps(e, Idle(s), s, 0, evs);
    var w := Run(e, Idle(s), evs);
    assert k < |w.calls|;
    assert Ready(w, k);
    forall j: nat | Ready(w, j) ensures j == k {
    }
  }

  // ------------------------------------------------------------------------
  // the promise chain behind the queue
  // ------------------------------------------------------------------------

  datatype Promised = Pending | Fulfilled | Rejected

  /** What `queue` holds: the resolved promise it starts with, or the guard behind the run of a call. */
  datatype Link = Resolved | Guard(i: nat)

  /** Each call's run hangs on the link that was the tail when it was issued, and its guard became the tail. */
  datatype Queue<C, S, L> = Queue(w: World<C, S, L>, links: seq<Link>, guards: seq<Promised>, tail: Link)

  datatype QueueEvent<C> = OfCalls(ev: Event<C>) | Release(i: nat)

  /** The promise of a call's own run. */
  function RunOf<L>(fails: L -> bool, st: Status<L>): Promised {
    match st
    case Settled(l) => if fails(l) then Rejected else Fulfilled
    case _ => Pending
  }

  /** A guard turns either end of the run it stands behind into a plain fulfilment. */
  function GuardOf(run: Promised): Promised {
    match run
    case Pending => Pending
    case Fulfilled => Fulfilled
    case Rejected => Fulfilled
  }

  function LinkState<C, S, L>(q: Queue<C, S, L>, link: Link): Promised {
    match link
    case Resolved => Fulfilled
    case Guard(i) => if i < |q.guards| then q.guards[i] else Pending
  }

  /** A call starts once its link is settled, either way; a guard is settled once its run is. */
  predicate QueuePossible<C, S, L>(fails: L -> bool, q: Queue<C, S, L>, ev: QueueEvent<C>) {
    match ev
    case OfCalls(Issue(_)) => true
    case OfCalls(Resume(i)) =>
      && i < |q.links| && i < |q.w.status|
      && (q.w.status[i].Running? || (q.w.status[i].Waiting? && LinkState(q, q.links[i]) != Pending))
    case Release(i) => i < |q.guards| && i < |q.w.status| && q.guards[i].Pending? && RunOf(fails, q.w.status[i]) != Pending
  }

  function QueueStep<C, S, L>(e: Engine<C, S, L>, fails: L -> bool, q: Queue<C, S, L>, ev: QueueEvent<C>): Queue<C, S, L> {
    match ev
    case OfCalls(Issue(c)) => Queue(Step(e, q.w, Issue(c)), q.links + [q.tail], q.guards + [Pending], Guard(|q.guards|))
    case OfCalls(Resume(i)) => q.(w := Step(e, q.w, Resume(i)))
    case Release(i) =>
      if i < |q.guards| && i < |q.w.status| then q.(guards := q.guards[i := GuardOf(RunOf(fails, q.w.status[i]))]) else q
  }

  function QueueRun<C, S, L>(e: Engine<C, S, L>, fails: L -> bool, q: Queue<C, S, L>, evs: seq<QueueEvent<C>>): Queue<C, S, L>
    decreases |evs|
  {
    if evs == [] then q else QueueRun(e, fails, QueueStep(e, fails, q, evs[0]), evs[1..])
  }

  predicate PossibleQueueRun<C, S, L>(e: Engine<C, S, L>, fails: L -> bool, q: Queue<C, S, L>, evs: seq<QueueEvent<C>>)
    decreases |evs|
  {
    evs == [] || (QueuePossible(fails, q, evs[0]) && PossibleQueueRun(e, fails, QueueStep(e, fails, q, evs[0]), evs[1..]))
  }

  function EmptyQueue<C, S, L>(s: S): Queue<C, S, L> {
    Queue(Idle(s), [], [], Resolved)
  }

  /** What happens to the calls themselves. */
  function OnCalls<C>(evs: seq<QueueEvent<C>>): seq<Event<C>> {
    if evs == [] then [] else (if evs[0].OfCalls? then [evs[0].ev] else []) + OnCalls(evs[1..])
  }

  function LinkBefore(i: nat): Link {
    if i == 0 then Resolved else Guard(i - 1)
  }

  /** Every call hangs on the guard of the call issued before it, and no guard is ahead of its run. */
  predicate Linked<C, S, L>(q: Queue<C, S, L>) {
    && |q.links| == |q.guards| == |q.w.calls| == |q.w.status|
    && q.tail == LinkBefore(|q.links|)
    && (forall i: nat :: i < |q.links| ==> q.links[i] == LinkBefore(i))
    && (forall i: nat :: i < |q.guards| ==> q.guards[i] == Pending || (q.guards[i] == Fulfilled && q.w.status[i].Settled?))
  }

  /** The chain lets call i go on now, or will once the guard it hangs on is released. */
  predicate ComesUp<C, S, L>(e: Engine<C, S, L>, fails: L -> bool, q: Queue<C, S, L>, i: nat) {
    || QueuePossible(fails, q, OfCalls(Resume(i)))
    || (i > 0 && QueuePossible(fails, q, Release(i - 1))
        && QueuePossible(fails, QueueStep(e, fails, q, Release(i - 1)), OfCalls(Resume(i))))
  }

  lemma LinkedStep<C, S, L>(e: Engine<C, S, L>, fails: L -> bool, q: Queue<C, S, L>, ev: QueueEvent<C>)
    requires Linked(q) && QueuePossible(fails, q, ev)
    ensures Linked(QueueStep(e, fails, q, ev))
    ensures ev.OfCalls? ==> Possible(q.w, ev.ev, true) && QueueStep(e, fails, q, ev).w == Step(e, q.w, ev.ev)
    ensures ev.Release? ==> QueueStep(e, fails, q, ev).w == q.w
  {
  }

  /** The chain lets the calls do only what the queue allows. */
  lemma {:induction false} ChainIsQueued<C, S, L>(e: Engine<C, S, L>, fails: L -> bool, q: Queue<C, S, L>, evs: seq<QueueEvent<C>>)
    requires Linked(q) && PossibleQueueRun(e, fails, q, evs)
    ensures Linked(QueueRun(e, fails, q, evs))
    ensures PossibleRun(e, q.w, OnCalls(evs), true) && Run(e, q.w, OnCalls(evs)) == QueueRun(e, fails, q, evs).w
    decreases |evs|
  {
    hide Step, QueueStep, QueuePossible, Possible, Linked;
    if evs != [] {
      LinkedStep(e, fails, q, evs[0]);
      ChainIsQueued(e, fails, QueueStep(e, fails, q, evs[0]), evs[1..]);
      if evs[0].OfCalls? {
        assert OnCalls(evs)[1..] == OnCalls(evs[1..]);
      } else {
        assert OnCalls(evs) == OnCalls(evs[1..]);
      }
    }
  }

  /**
   * And it lets them do all of it: a call is ready in the queue exactly when it comes up in
   * the chain, whether the call before it was fulfilled or rejected.
   */
  lemma ReadyByChain<C, S, L>(e: Engine<C, S, L>, fails: L -> bool, s: S, evs: seq<QueueEvent<C>>, i: nat)
    requires PossibleQueueRun(e, fails, EmptyQueue(s), evs)
    ensures var q := QueueRun(e, fails, EmptyQueue(s), evs); Ready(q.w, i) <==> ComesUp(e, fails, q, i)
  {
    ChainIsQueued(e, fails, EmptyQueue(s), evs);
    var q := QueueRun(e, fails, EmptyQueue(s), evs);
    if i < |q.links| {
      assert q.links[i] == LinkBefore(i);
    }
  }

  /**
   * The promise chain runs the calls in issue order: however they settle, every settled call
   * gave what it gives when all run one by one, and while any is unsettled exactly one comes up.
   */
  lemma ChainIsIssueOrder<C, S, L>(e: Engine<C, S, L>, fails: L -> bool, s: S, evs: seq<QueueEvent<C>>)
    requires PossibleQueueRun(e, fails, EmptyQueue(s), evs)
    ensures var q := QueueRun(e, fails, EmptyQueue(s), evs); var w := q.w;
            && |w.status| == |w.calls|
            && (forall i: nat :: i < |w.calls| && w.status[i].Settled? ==> w.status[i] == Settled(ResultOf(e, w.calls, i, s)))
            && ((forall i: nat :: i < |w.calls| ==> w.status[i].Settled?) ==> w.shared == StateAfter(e, w.calls, s))
            && ((exists i: nat :: i < |w.calls| && Unsettled(w, i)) ==>
                  exists i: nat :: ComesUp(e, fails, q, i) && forall j: nat :: ComesUp(e, fails, q, j) ==> j == i)
  {
    hide ComesUp, QueueRun, PossibleQueueRun, Linked, Ready, ResultOf, StateAfter, Run, PossibleRun;
    EmptyIsLinked<C, S, L>(s);
    ChainIsQueued(e, fails, EmptyQueue(s), evs);
    QueueIsIssueOrder(e, s, OnCalls(evs));
    var w := QueueRun(e, fails, EmptyQueue(s), evs).w;
    if exists i: nat :: i < |w.calls| && Unsettled(w, i) {
      NeverWedged(e, s, OnCalls(evs));
      forall j: nat ensures Ready(w, j) <==> ComesUp(e, fails, QueueRun(e, fails, EmptyQueue(s), evs), j) {
        ReadyByChain(e, fails, s, evs, j);
      }
    }
  }

  lemma EmptyIsLinked<C, S, L>(s: S)
    ensures Linked(EmptyQueue<C, S, L>(s))
  {
  }

  // ------------------------------------------------------------------------
  // the ratchet behind the queue
  // ------------------------------------------------------------------------

  datatype Call = EncryptCall(me: nat, kem: nat, now: nat, text: string) | DecryptCall(now: nat, m: nat, frame: Frame)

  /** What a call holds between two awaits, and what it answers. */
  datatype Local =
    | Nothing
    | Stepping | Agreed(dh: DhOut) | Stepped(ikm: Ikm, root: Key, chain: Key) | Issuing
    | AtChain | AtLink(ck: Key) | Headed(ck: Key, header: Header) | Bodied(frame: Frame)
    | Tried(seen: State) | Noting(text: string)
    | Sent(frame: Frame) | Got(outcome: TsOutcome) | Failed

  predicate TurnsNow(s: State) {
    s.stepBeforeSend || s.ckSend.None?
  }

  /**
   * `encrypt` from one await to the next: a new ratchet key, the DH, the root step, a KEM
   * key when it is time, the two chain keys, the header, the sealing. Each section reads and
   * writes the state as it then is.
   */
  function EncryptSection(c: Call, at: nat, s: State, l: Local): (State, Local)
    requires c.EncryptCall?
  {
    match l
    case Nothing => (s, if TurnsNow(s) then Stepping else AtChain)
    case Stepping => (s.(dhSelf := Some(c.me)), Agreed(Dh(c.me, s.dhPeer)))
    case Agreed(dh) =>
      var ikm := OwedIkm(s, dh);
      (s, Stepped(ikm, Root(s.rk, ikm), Chain(s.rk, ikm)))
    case Stepped(ikm, root, chain) =>
      var t := AfterStep(s, ikm, root, chain, c.now);
      (t, if TsTimeToIssue(t, c.now) then Issuing else AtChain)
    case Issuing => (s.(pqKey := Some(c.kem)), AtChain)
    case AtChain =>
      if at < 5 then (s, AtChain) else if s.ckSend.None? then (s, Failed) else (s, AtLink(s.ckSend.value))
    case AtLink(ck) =>
      if s.dhSelf.None? then (s, Failed) else (s.(ckSend := Some(Next(ck))), Headed(ck, HeaderOf(s)))
    case Headed(ck, header) => (s, Bodied(Frame(header, Sealed(Msg(ck), s.nSend, header, c.text))))
    case Bodied(frame) => (s.(nSend := s.nSend + 1), Sent(frame))
    case _ => (s, l)
  }

  function AfterStep(s: State, ikm: Ikm, root: Key, chain: Key, now: nat): State {
    var t := if ikm.Hybrid? then
        s.(pendingSs := None, pendingCt := None, ctInFlight := s.pendingCt,
           stepsSincePq := 0, lastPqAt := now, pqStepsDone := s.pqStepsDone + 1)
      else s.(stepsSincePq := s.stepsSincePq + 1);
    t.(rk := root, ckSend := Some(chain), pn := t.nSend, nSend := 0, stepBeforeSend := false)
  }

  /** What a frame does to the state once it has opened, short of the peer's encapsulation key. */
  function Committed(p: State, now: nat, h: Header): State {
    if Find(p.skipped, h.dhPub, h.n).Some? then p.(skipped := DropKey(p.skipped, h.dhPub, h.n))
    else if h.dhPub == p.dhPeer then
      if p.ckRecv.None? || h.n < p.nRecv then p
      else
        var k := h.n - p.nRecv;
        p.(skipped := PutKeys(p.skipped, p.opts.maxChains, h.dhPub, p.nRecv, PassedKeys(p.ckRecv.value, k), now),
           ckRecv := Some(Next(Walk(p.ckRecv.value, k))), nRecv := h.n + 1)
    else if p.dhSelf.Some? && TurnIkm(p, h).Some? then Turned(p, now, h, TurnIkm(p, h).value)
    else p
  }

  /** `decrypt`: the stash is pruned before the first await, the opened frame committed after the last, the peer's key noted behind it. */
  function DecryptSection(c: Call, s: State, l: Local): (State, Local)
    requires c.DecryptCall?
  {
    match l
    case Nothing =>
      if c.frame.Undecodable? then (s, Got(Answer(Refused))) else (Pruned(s, c.now), Tried(Pruned(s, c.now)))
    case Tried(p) =>
      if c.frame.Undecodable? then (s, l)
      else
        var r := DecryptPruned(p, c.now, c.m, c.frame.header, c.frame.body).1;
        if r.Opened? then (Committed(p, c.now, c.frame.header), Noting(r.text)) else (s, Got(Answer(r)))
    case Noting(text) =>
      if c.frame.Undecodable? then (s, l)
      else
        var pub := c.frame.header.pqPub;
        (NotePeerPq(s, pub, c.m), Got(if pub == Some(MalformedPub) && s.seenPeerPq != pub then BadPeerKey else Answer(Opened(text))))
    case _ => (s, l)
  }

  function Section(c: Call, at: nat, s: State, l: Local): (State, Local) {
    if c.EncryptCall? then EncryptSection(c, at, s, l) else DecryptSection(c, s, l)
  }

  function TheRatchet(): Engine<Call, State, Local> {
    Engine((c: Call) => Nothing, (c: Call) => if c.EncryptCall? then 9 else 3, Section)
  }

  /** The uninterrupted call, section by section. */
  lemma RunOn(c: Call, at: nat, s: State, l: Local)
    requires at < TheRatchet().sections(c)
    ensures RunFrom(TheRatchet(), c, at, s, l) == RunFrom(TheRatchet(), c, at + 1, Section(c, at, s, l).0, Section(c, at, s, l).1)
  {
  }

  lemma RunEnd(c: Call, at: nat, s: State, l: Local)
    requires at == TheRatchet().sections(c)
    ensures RunFrom(TheRatchet(), c, at, s, l) == (s, l)
  {
  }

  /** From the link on: the same whether or not a step came first. */
  lemma SendsFrom(c: Call, t: State)
    requires c.EncryptCall? && t.ckSend.Some? && t.dhSelf.Some?
    ensures RunFrom(TheRatchet(), c, 5, t, AtChain)
         == (t.(ckSend := Some(Next(t.ckSend.value)), nSend := t.nSend + 1), Sent(FrameOf(t.ckSend.value, HeaderOf(t), c.text)))
  {
    var ck := t.ckSend.value;
    var u := t.(ckSend := Some(Next(ck)));
    var f := FrameOf(ck, HeaderOf(t), c.text);
    RunOn(c, 5, t, AtChain);
    RunOn(c, 6, t, AtLink(ck));
    RunOn(c, 7, u, Headed(ck, HeaderOf(t)));
    RunOn(c, 8, u, Bodied(f));
    RunEnd(c, 9, u.(nSend := u.nSend + 1), Sent(f));
  }

  lemma StepsFrom(c: Call, s: State)
    requires c.EncryptCall? && TurnsNow(s)
    ensures RunFrom(TheRatchet(), c, 0, s, Nothing) == RunFrom(TheRatchet(), c, 5, TsOpenChain(s, c.me, c.kem, c.now), AtChain)
  {
    var t := s.(dhSelf := Some(c.me));
    var dh := Dh(c.me, s.dhPeer);
    var ikm := OwedIkm(s, dh);
    var u := AfterStep(t, ikm, Root(s.rk, ikm), Chain(s.rk, ikm), c.now);
    RunOn(c, 0, s, Nothing);
    RunOn(c, 1, s, Stepping);
    RunOn(c, 2, t, Agreed(dh));
    RunOn(c, 3, t, Stepped(ikm, Root(s.rk, ikm), Chain(s.rk, ikm)));
    if TsTimeToIssue(u, c.now) { RunOn(c, 4, u, Issuing); } else { RunOn(c, 4, u, AtChain); }
  }

  lemma StaysFrom(c: Call, s: State)
    requires c.EncryptCall? && !TurnsNow(s)
    ensures RunFrom(TheRatchet(), c, 0, s, Nothing) == RunFrom(TheRatchet(), c, 5, s, AtChain)
  {
    RunOn(c, 0, s, Nothing);
    RunOn(c, 1, s, AtChain);
    RunOn(c, 2, s, AtChain);
    RunOn(c, 3, s, AtChain);
    RunOn(c, 4, s, AtChain);
  }

  lemma CommitThenNote(p: State, now: nat, m: nat, h: Header, body: Body)
    requires DecryptPruned(p, now, m, h, body).1.Opened?
    ensures DecryptPruned(p, now, m, h, body).0 == NotePeerPq(Committed(p, now, h), h.pqPub, m)
    ensures Committed(p, now, h).seenPeerPq == p.seenPeerPq
  {
    hide PutKeys, PassedKeys, Walk, NotePeerPq, Open, DropKey;
  }

  lemma ReceivesFrom(c: Call, s: State)
    requires c.DecryptCall?
    ensures RunFrom(TheRatchet(), c, 0, s, Nothing) == var (t, o) := TsDecrypt(s, c.now, c.m, c.frame); (t, Got(o))
  {
    hide DecryptPruned, Committed, NotePeerPq, PruneKeys;
    RunOn(c, 0, s, Nothing);
    if c.frame.Undecodable? {
      RunOn(c, 1, s, Got(Answer(Refused)));
      RunOn(c, 2, s, Got(Answer(Refused)));
      RunEnd(c, 3, s, Got(Answer(Refused)));
    } else {
      var p, h := Pruned(s, c.now), c.frame.header;
      var (t, r) := DecryptPruned(p, c.now, c.m, h, c.frame.body);
      RunOn(c, 1, p, Tried(p));
      if r.Opened? {
        CommitThenNote(p, c.now, c.m, h, c.frame.body);
        RunOn(c, 2, Committed(p, c.now, h), Noting(r.text));
        var o := if h.pqPub == Some(MalformedPub) && s.seenPeerPq != h.pqPub then BadPeerKey else Answer(r);
        RunEnd(c, 3, t, Got(o));
      } else {
        RefusalChangesNothing(s, c.now, c.m, c.frame);
        RunOn(c, 2, p, Got(Answer(r)));
        RunEnd(c, 3, p, Got(Answer(r)));
      }
    }
  }

  /** Uninterrupted, a call's sections come to the engine's whole operation. */
  lemma CallIsOperation(c: Call, s: State)
    requires Keyed(s)
    ensures RunCall(TheRatchet(), c, s)
         == (match c
             case EncryptCall(me, kem, now, text) => var (t, f) := TsEncrypt(s, me, kem, now, text); (t, Sent(f))
             case DecryptCall(now, m, frame) => var (t, o) := TsDecrypt(s, now, m, frame); (t, Got(o)))
  {
    hide TsDecrypt, Section;
    match c
    case EncryptCall(me, kem, now, text) =>
      if TurnsNow(s) {
        StepsFrom(c, s);
        SendsFrom(c, TsOpenChain(s, me, kem, now));
      } else {
        StaysFrom(c, s);
        SendsFrom(c, s);
      }
    case DecryptCall(_, _, _) => ReceivesFrom(c, s);
  }

  // ------------------------------------------------------------------------
  // no key seals twice
  // ------------------------------------------------------------------------

  /** There is a key to announce the sending chain under, and the chain is no deeper than the root. */
  predicate SendOk(s: State) {
    Keyed(s) && (s.ckSend.Some? ==> Depth(s.ckSend.value) <= Depth(s.rk))
  }

  /** A key the sending side has already passed: not ahead on the live chain, and no deeper than the root. */
  ghost predicate Behind(s: State, key: Key) {
    && Depth(key) <= Depth(s.rk)
    && (s.ckSend.Some? ==> forall m: nat :: key != Msg(Walk(s.ckSend.value, m)))
  }

  function Nexts(k: Key): nat {
    if k.Next? then 1 + Nexts(k.ck) else 0
  }

  lemma {:induction false} NextsOfWalk(ck: Key, m: nat)
    ensures Nexts(Walk(ck, m)) == m + Nexts(ck)
  {
    if m == 0 {
    } else {
      NextsOfWalk(ck, m - 1);
    }
  }

  lemma WalkFromNext(ck: Key, m: nat)
    ensures Walk(Next(ck), m) == Walk(ck, m + 1)
  {
    assert Walk(ck, 1) == Next(Walk(ck, 0));
    WalkOn(ck, 1, m + 1);
  }

  lemma EncryptPasses(s: State, me: nat, kem: nat, now: nat, text: string)
    requires SendOk(s)
    ensures var (t, f) := TsEncrypt(s, me, kem, now, text);
            && SendOk(t) && f.Frame? && f.body.Sealed?
            && Behind(t, f.body.mk)
            && forall key :: Behind(s, key) ==> Behind(t, key) && key != f.body.mk
  {
    var u := if s.stepBeforeSend || s.ckSend.None? then TsOpenChain(s, me, kem, now) else s;
    var (t, f) := TsEncrypt(s, me, kem, now, text);
    var ck := u.ckSend.value;
    assert t.ckSend == Some(Next(ck)) && t.rk == u.rk && f.body.mk == Msg(ck);
    assert Depth(Next(ck)) == Depth(ck);
    forall m: nat ensures f.body.mk != Msg(Walk(Next(ck), m)) && Walk(Next(ck), m) == Walk(ck, m + 1) {
      WalkFromNext(ck, m);
      NextsOfWalk(ck, m + 1);
    }
    forall key | Behind(s, key) ensures Behind(t, key) && key != f.body.mk {
      if u == s {
        assert key != Msg(Walk(s.ckSend.value, 0));
        forall m: nat ensures key != Msg(Walk(Next(ck), m)) {
          assert key != Msg(Walk(s.ckSend.value, m + 1));
        }
      } else {
        assert Depth(ck) == 1 + Depth(s.rk);
        forall m: nat ensures key != Msg(Walk(Next(ck), m)) {
          WalkKeeps(Next(ck), Next(ck), m);
        }
      }
    }
  }

  lemma DecryptPasses(s: State, now: nat, m: nat, f: Frame)
    requires SendOk(s)
    ensures SendOk(TsDecrypt(s, now, m, f).0)
    ensures forall key :: Behind(s, key) ==> Behind(TsDecrypt(s, now, m, f).0, key)
  {
    DecryptKeepsKeyed(s, now, m, f);
    var t := TsDecrypt(s, now, m, f).0;
    assert t.ckSend == s.ckSend && (t.rk == s.rk || (t.rk.Root? && t.rk.prev == s.rk));
  }

  lemma CallPasses(c: Call, s: State)
    requires SendOk(s)
    ensures var (t, l) := RunCall(TheRatchet(), c, s);
            && SendOk(t)
            && (forall key :: Behind(s, key) ==> Behind(t, key))
            && (l.Sent? ==> l.frame.Frame? && l.frame.body.Sealed? && Behind(t, l.frame.body.mk)
                            && forall key :: Behind(s, key) ==> key != l.frame.body.mk)
  {
    CallIsOperation(c, s);
    match c
    case EncryptCall(me, kem, now, text) =>
      EncryptPasses(s, me, kem, now, text);
    case DecryptCall(now, m, frame) => DecryptPasses(s, now, m, frame);
  }

  lemma {:induction false} StatePasses(calls: seq<Call>, s: State)
    requires SendOk(s)
    ensures SendOk(StateAfter(TheRatchet(), calls, s))
  {
    if calls == [] {
    } else {
      var last := |calls| - 1;
      StatePasses(calls[..last], s);
      CallPasses(calls[last], StateAfter(TheRatchet(), calls[..last], s));
    }
  }

  /** The frame of an earlier call is behind every later state. */
  lemma {:induction false} EarlierIsBehind(calls: seq<Call>, s: State, i: nat)
    requires SendOk(s) && i < |calls| && ResultOf(TheRatchet(), calls, i, s).Sent?
    ensures var f := ResultOf(TheRatchet(), calls, i, s).frame;
            f.Frame? && f.body.Sealed? && Behind(StateAfter(TheRatchet(), calls, s), f.body.mk)
  {
    var last := |calls| - 1;
    StatePasses(calls[..last], s);
    CallPasses(calls[last], StateAfter(TheRatchet(), calls[..last], s));
    if i < last {
      assert calls[..last][..i] == calls[..i];
      EarlierIsBehind(calls[..last], s, i);
    }
  }

  /** Run one by one, no two sends seal under the same message key. */
  lemma SealsDiffer(calls: seq<Call>, s: State, i: nat, j: nat)
    requires SendOk(s) && i < j < |calls|
    requires ResultOf(TheRatchet(), calls, i, s).Sent? && ResultOf(TheRatchet(), calls, j, s).Sent?
    ensures var f, g := ResultOf(TheRatchet(), calls, i, s).frame, ResultOf(TheRatchet(), calls, j, s).frame;
            f.Frame? && f.body.Sealed? && g.Frame? && g.body.Sealed? && f.body.mk != g.body.mk
  {
    assert calls[..j][..i] == calls[..i];
    EarlierIsBehind(calls[..j], s, i);
    StatePasses(calls[..j], s);
    CallPasses(calls[j], StateAfter(TheRatchet(), calls[..j], s));
  }

  /**
   * From a completed handshake, however calls are issued, resumed and settled, and whatever
   * frames arrive in between: two frames sent through the promise chain are never sealed
   * under one message key.
   */
  lemma QueuedSealsDiffer(hs: HandshakeResult, opts: Opts, now: nat, fails: Local -> bool, evs: seq<QueueEvent<Call>>, i: nat, j: nat)
    requires hs.sk.Session? && (hs.role.Initiator? ==> hs.ekSelf.Some?) && opts.maxChains >= 1
    requires PossibleQueueRun(TheRatchet(), fails, EmptyQueue(FromHandshake(hs, opts, now)), evs)
    requires var w := QueueRun(TheRatchet(), fails, EmptyQueue(FromHandshake(hs, opts, now)), evs).w;
             && i < j < |w.calls| == |w.status|
             && w.status[i].Settled? && w.status[i].local.Sent? && w.status[j].Settled? && w.status[j].local.Sent?
    ensures var w := QueueRun(TheRatchet(), fails, EmptyQueue(FromHandshake(hs, opts, now)), evs).w;
            var f, g := w.status[i].local.frame, w.status[j].local.frame;
            f.Frame? && f.body.Sealed? && g.Frame? && g.body.Sealed? && f.body.mk != g.body.mk
  {
    var s := FromHandshake(hs, opts, now);
    ChainIsIssueOrder(TheRatchet(), fails, s, evs);
    SealsDiffer(QueueRun(TheRatchet(), fails, EmptyQueue(s), evs).w.calls, s, i, j);
  }

  // ------------------------------------------------------------------------
  // without the queue
  // ------------------------------------------------------------------------

  predicate SameSeal(f: Frame, g: Frame) {
    && f.Frame? && g.Frame? && f.body.Sealed? && g.body.Sealed?
    && f.body.mk == g.body.mk && f.body.n == g.body.n
  }

  function Lockstep<C>(k: nat): seq<Event<C>> {
    if k == 0 then [] else [Resume(0)] + ([Resume(1)] + Lockstep(k - 1))
  }

  /** Two calls issued together and resumed in turn. */
  function Crossing(a: Call, b: Call): seq<Event<Call>> {
    [Issue(a)] + ([Issue(b)] + ([Resume(0)] + ([Resume(1)] + Lockstep(10))))
  }

  lemma Onward<C, S, L>(e: Engine<C, S, L>, w: World<C, S, L>, ev: Event<C>, rest: seq<Event<C>>, queued: bool)
    ensures Run(e, w, [ev] + rest) == Run(e, Step(e, w, ev), rest)
    ensures PossibleRun(e, w, [ev] + rest, queued) == (Possible(w, ev, queued) && PossibleRun(e, Step(e, w, ev), rest, queued))
  {
    assert ([ev] + rest)[1..] == rest;
  }

  /** Two calls, section by section in turn. */
  function InTurn<C, S, L>(e: Engine<C, S, L>, a: C, b: C, at: nat, s: S, la: L, lb: L): (S, L, L)
    decreases e.sections(a) - at
  {
    if at >= e.sections(a) then (s, la, lb)
    else
      var (t, ka) := e.section(a, at, s, la);
      var (u, kb) := e.section(b, at, t, lb);
      InTurn(e, a, b, at + 1, u, ka, kb)
  }

  function Pair<C, S, L>(s: S, a: C, b: C, x: Status<L>, y: Status<L>): World<C, S, L> {
    World(s, [a, b], [x, y])
  }

  lemma {:induction false} LockstepRuns<C, S, L>(e: Engine<C, S, L>, a: C, b: C, at: nat, s: S, la: L, lb: L)
    requires e.sections(a) == e.sections(b) && at <= e.sections(a)
    ensures var w, evs := Pair(s, a, b, Running(at, la), Running(at, lb)), Lockstep<C>(e.sections(a) - at + 1);
            var (u, x, y) := InTurn(e, a, b, at, s, la, lb);
            PossibleRun(e, w, evs, false) && Run(e, w, evs) == Pair(u, a, b, Settled(x), Settled(y))
    decreases e.sections(a) - at
  {
    var w := Pair(s, a, b, Running(at, la), Running(at, lb));
    var rest := Lockstep<C>(e.sections(a) - at);
    Onward(e, w, Resume(0), [Resume(1)] + rest, false);
    var v := Step(e, w, Resume(0));
    Onward(e, v, Resume(1), rest, false);
    if at == e.sections(a) {
      assert v == Pair(s, a, b, Settled(la), Running(at, lb));
      assert Step(e, v, Resume(1)) == Pair(s, a, b, Settled(la), Settled(lb));
    } else {
      var (t, ka) := e.section(a, at, s, la);
      var (u, kb) := e.section(b, at, t, lb);
      assert v == Pair(t, a, b, Running(at + 1, ka), Running(at, lb));
      assert Step(e, v, Resume(1)) == Pair(u, a, b, Running(at + 1, ka), Running(at + 1, kb));
      LockstepRuns(e, a, b, at + 1, u, ka, kb);
    }
  }

  lemma TurnOn(a: Call, b: Call, at: nat, s: State, la: Local, lb: Local)
    requires a.EncryptCall? && b.EncryptCall? && at < 9
    ensures var (t, ka) := Section(a, at, s, la);
            var (u, kb) := Section(b, at, t, lb);
            InTurn(TheRatchet(), a, b, at, s, la, lb) == InTurn(TheRatchet(), a, b, at + 1, u, ka, kb)
  {
  }

  /** Both calls read the link before either moves it on. */
  lemma BothAtLink(s: State, a: Call, b: Call)
    requires a.EncryptCall? && b.EncryptCall? && !TurnsNow(s)
    ensures InTurn(TheRatchet(), a, b, 0, s, Nothing, Nothing)
         == InTurn(TheRatchet(), a, b, 6, s, AtLink(s.ckSend.value), AtLink(s.ckSend.value))
  {
    TurnOn(a, b, 0, s, Nothing, Nothing);
    TurnOn(a, b, 1, s, AtChain, AtChain);
    TurnOn(a, b, 2, s, AtChain, AtChain);
    TurnOn(a, b, 3, s, AtChain, AtChain);
    TurnOn(a, b, 4, s, AtChain, AtChain);
    TurnOn(a, b, 5, s, AtChain, AtChain);
  }

  /** Then both seal from it. */
  lemma BothSeal(s: State, a: Call, b: Call)
    requires Keyed(s) && a.EncryptCall? && b.EncryptCall? && !TurnsNow(s)
    ensures var ck := s.ckSend.value;
            InTurn(TheRatchet(), a, b, 6, s, AtLink(ck), AtLink(ck))
            == (s.(ckSend := Some(Next(ck)), nSend := s.nSend + 2),
                Sent(FrameOf(ck, HeaderOf(s), a.text)), Sent(FrameOf(ck, HeaderOf(s), b.text)))
  {
    var ck, h := s.ckSend.value, HeaderOf(s);
    var t := s.(ckSend := Some(Next(ck)));
    TurnOn(a, b, 6, s, AtLink(ck), AtLink(ck));
    TurnOn(a, b, 7, t, Headed(ck, h), Headed(ck, h));
    TurnOn(a, b, 8, t, Bodied(FrameOf(ck, h, a.text)), Bodied(FrameOf(ck, h, b.text)));
  }

  /** Both calls issued and started. */
  lemma CrossingStarts(s: State, a: Call, b: Call)
    ensures var w, v := Pair(s, a, b, Running(0, Nothing), Running(0, Nothing)), Idle<Call, State, Local>(s);
            && Run(TheRatchet(), v, Crossing(a, b)) == Run(TheRatchet(), w, Lockstep(10))
            && PossibleRun(TheRatchet(), v, Crossing(a, b), false) == PossibleRun(TheRatchet(), w, Lockstep(10), false)
  {
    hide Section, Lockstep, Run, PossibleRun;
    var e := TheRatchet();
    var w: World<Call, State, Local> := Idle(s);
    var rest := Lockstep<Call>(10);
    var w1, w2 := World(s, [a], [Waiting]), World(s, [a, b], [Waiting, Waiting]);
    var w3 := World(s, [a, b], [Running(0, Nothing), Waiting]);
    Onward(e, w, Issue(a), [Issue(b)] + ([Resume(0)] + ([Resume(1)] + rest)), false);
    assert Step(e, w, Issue(a)) == w1;
    Onward(e, w1, Issue(b), [Resume(0)] + ([Resume(1)] + rest), false);
    assert Step(e, w1, Issue(b)) == w2;
    Onward(e, w2, Resume(0), [Resume(1)] + rest, false);
    assert Step(e, w2, Resume(0)) == w3;
    Onward(e, w3, Resume(1), rest, false);
    assert Step(e, w3, Resume(1)) == Pair(s, a, b, Running(0, Nothing), Running(0, Nothing));
  }

  /** Without the queue two sends issued together read one link: both frames are sealed under one key and one counter. */
  lemma UnqueuedRepeatsKey(s: State, a: Call, b: Call)
    requires Keyed(s) && s.ckSend.Some? && !s.stepBeforeSend && a.EncryptCall? && b.EncryptCall?
    ensures PossibleRun(TheRatchet(), Idle(s), Crossing(a, b), false)
    ensures var w := Run(TheRatchet(), Idle(s), Crossing(a, b));
            && |w.status| == 2
            && w.status[0].Settled? && w.status[0].local.Sent? && w.status[1].Settled? && w.status[1].local.Sent?
            && SameSeal(w.status[0].local.frame, w.status[1].local.frame)
  {
    hide Section, InTurn, PossibleRun, Lockstep, Run, Crossing;
    BothAtLink(s, a, b);
    BothSeal(s, a, b);
    LockstepRuns(TheRatchet(), a, b, 0, s, Nothing, Nothing);
    CrossingStarts(s, a, b);
  }
}
