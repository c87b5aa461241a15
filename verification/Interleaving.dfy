/**
 Concurrent requests over one registry: every registry operation is an atomic
 step, and the schedule interleaves requests, sweeps and control-stream polls
 freely.  A request is a small program whose next operation is Pending and
 whose continuation, given the reply, is Resume.
 */
module Interleaving {
  import opened Options
  import opened RegistryModel
  import opened ServiceMap

  datatype Pc =
    | Learning(i: nat)
    | LinkSource(i: nat)
    | LinkDestination(i: nat, src: Option<string>)
    | LinkPeer(i: nat, src: Option<string>, dst: Option<string>)
    | Deciding(i: nat)
    | DecidingLink(i: nat, src: Option<string>)
    | Finished

  datatype Thread = Thread(req: Request, pc: Pc, kept: seq<Event>)

  function Start(req: Request): Thread {
    Thread(req, Learning(0), [])
  }

  predicate IsLink(req: Request, i: nat) {
    i < |req.events| && req.events[i].ServiceLinkState? && req.events[i].link.Some?
  }

  function LinkAt(req: Request, i: nat): Link {
    if i < |req.events| && req.events[i].ServiceLinkState? then LinkOf(req.events[i]) else Link("", "")
  }

  /** The registry operation a request performs next; None is a step that needs none. */
  function Pending(t: Thread): Option<Op> {
    var r, c := t.req, t.req.channel;
    match t.pc
    case Learning(i) =>
      if i < |r.events| && r.events[i].ServiceState? && r.events[i].service.Some? then
        Some(Remember(c, r.events[i].service.value.id, r.events[i].service.value.namespace))
      else None
    case LinkSource(i) => if IsLink(r, i) then Some(Lookup(c, LinkAt(r, i).source)) else None
    case LinkDestination(i, _) => Some(Lookup(c, LinkAt(r, i).destination))
    case LinkPeer(i, src, dst) =>
      var peer := Revealed(src, dst, LinkAt(r, i), r.scope);
      if peer.Some? then Some(RememberPeer(c, peer.value)) else None
    case Deciding(i) =>
      if i >= |r.events| then None
      else if r.events[i].ServiceState? && ServiceOf(r.events[i]).namespace !in r.scope && !r.requireBoth then
        Some(IsPeer(c, ServiceOf(r.events[i]).id))
      else if r.events[i].ServiceLinkState? then Some(Lookup(c, LinkAt(r, i).source))
      else None
    case DecidingLink(i, _) => Some(Lookup(c, LinkAt(r, i).destination))
    case Finished => None
  }

  function NamespaceIn(reply: Reply): Option<string> {
    if reply.Found? then reply.namespace else None
  }

  /** The verdict on an event that is not a link, given whether the service was recorded as a peer. */
  function Verdict(e: Event, peer: bool, r: Request): Option<Event> {
    Decide(View(map[], if peer && e.ServiceState? then {ServiceOf(e).id} else {}), e, r.scope, r.requireBoth)
  }

  function Resume(t: Thread, reply: Reply): Thread {
    var r := t.req;
    match t.pc
    case Learning(i) =>
      t.(pc := if i < |r.events| then Learning(i + 1) else if r.requireBoth then Deciding(0) else LinkSource(0))
    case LinkSource(i) =>
      t.(pc := if i >= |r.events| then Deciding(0) else if IsLink(r, i) then LinkDestination(i, NamespaceIn(reply)) else LinkSource(i + 1))
    case LinkDestination(i, src) => t.(pc := LinkPeer(i, src, NamespaceIn(reply)))
    case LinkPeer(i, _, _) => t.(pc := LinkSource(i + 1))
    case Deciding(i) =>
      if i >= |r.events| then t.(pc := Finished)
      else if r.events[i].ServiceLinkState? then t.(pc := DecidingLink(i, NamespaceIn(reply)))
      else t.(pc := Deciding(i + 1), kept := Append(t.kept, Verdict(r.events[i], reply == Flag(true), r)))
    case DecidingLink(i, src) =>
      if i >= |r.events| then t.(pc := Finished)
      else t.(pc := Deciding(i + 1),
              kept := Append(t.kept, DecideLink(r.events[i], src, NamespaceIn(reply), r.scope, r.requireBoth)))
    case Finished => t
  }

  // ----- The system -----

  datatype Sys = Sys(reg: State, threads: seq<Thread>)

  /** Whose turn it is, and what the clock reads. */
  datatype Move =
    | Turn(k: nat, at: Reading)
    | Control(channel: string, at: Reading)
    | SweepAt(at: Reading)

  ghost predicate TurnNext(cfg: Config, s: Sys, k: nat, at: Reading, s': Sys)
    requires k < |s.threads|
  {
    var t := s.threads[k];
    match Pending(t)
    case None => s' == s.(threads := s.threads[k := Resume(t, Done)])
    case Some(op) => exists reply ::
      Next(cfg, s.reg, op, at, s'.reg, reply) && s'.threads == s.threads[k := Resume(t, reply)]
  }

  ghost predicate SysNext(cfg: Config, s: Sys, move: Move, s': Sys) {
    match move
    case Turn(k, at) => k < |s.threads| && TurnNext(cfg, s, k, at, s')
    case Control(channel, at) =>
      s'.threads == s.threads && exists reply :: Next(cfg, s.reg, MarkEmptyScopeNotified(channel), at, s'.reg, reply)
    case SweepAt(at) => s'.threads == s.threads && Next(cfg, s.reg, Sweep, at, s'.reg, Done)
  }

  /** A registry that never forgets: no cap, and sweeps find nothing to do. */
  ghost predicate IdealNext(s: Sys, move: Move, s': Sys) {
    if move.SweepAt? then s' == s else SysNext(Config(0, 0), s, move, s')
  }

  ghost predicate Starting(s: Sys) {
    s.reg == INITIAL && forall k :: 0 <= k < |s.threads| ==> s.threads[k] == Start(s.threads[k].req)
  }

  ghost predicate StepOf(cfg: Config, trace: seq<Sys>, moves: seq<Move>, i: nat)
    requires i < |moves| && |trace| == |moves| + 1
  {
    SysNext(cfg, trace[i], moves[i], trace[i + 1])
  }

  /** A run of the bounded registry under the schedule moves. */
  ghost predicate Trace(cfg: Config, trace: seq<Sys>, moves: seq<Move>) {
    && |trace| == |moves| + 1 && Starting(trace[0])
    && forall i :: 0 <= i < |moves| ==> StepOf(cfg, trace, moves, i)
  }

  ghost predicate IdealStepOf(trace: seq<Sys>, moves: seq<Move>, i: nat)
    requires i < |moves| && |trace| == |moves| + 1
  {
    IdealNext(trace[i], moves[i], trace[i + 1])
  }

  /** A run of the ideal registry under the same kind of schedule. */
  ghost predicate IdealTrace(trace: seq<Sys>, moves: seq<Move>) {
    && |trace| == |moves| + 1 && Starting(trace[0])
    && forall i :: 0 <= i < |moves| ==> IdealStepOf(trace, moves, i)
  }

  function OperationOf(s: Sys, move: Move): Option<Op>
    requires move.Turn? ==> move.k < |s.threads|
  {
    match move
    case Turn(k, _) => Pending(s.threads[k])
    case Control(c, _) => Some(MarkEmptyScopeNotified(c))
    case SweepAt(_) => Some(Sweep)
  }

  /** What a step does to the registry: nothing, or one operation. */
  lemma StepIsOperation(cfg: Config, s: Sys, move: Move, s': Sys) returns (op: Option<Op>, at: Reading, reply: Reply)
    requires SysNext(cfg, s, move, s')
    ensures op.None? ==> s'.reg == s.reg
    ensures op.Some? ==> Next(cfg, s.reg, op.value, at, s'.reg, reply)
    ensures op == OperationOf(s, move)
    ensures |s'.threads| == |s.threads|
    ensures forall k :: 0 <= k < |s.threads| && (move.Turn? ==> move.k != k) ==> s'.threads[k] == s.threads[k]
    ensures move.Turn? ==> s'.threads[move.k] == Resume(s.threads[move.k], if op.Some? then reply else Done)
  {
    at, reply := move.at, Done;
    match move
    case Turn(k, _) =>
      op := Pending(s.threads[k]);
      if op.Some? {
        reply :| Next(cfg, s.reg, op.value, at, s'.reg, reply) && s'.threads == s.threads[k := Resume(s.threads[k], reply)];
      }
    case Control(c, _) =>
      op := Some(MarkEmptyScopeNotified(c));
      reply :| Next(cfg, s.reg, op.value, at, s'.reg, reply);
    case SweepAt(_) =>
      op := Some(Sweep);
  }

  /** A step leaves every request what it is. */
  lemma StepKeepsRequests(cfg: Config, s: Sys, move: Move, s': Sys, k: nat)
    requires SysNext(cfg, s, move, s') && k < |s.threads|
    ensures |s'.threads| == |s.threads| && s'.threads[k].req == s.threads[k].req
  {
    var op, at, reply := StepIsOperation(cfg, s, move, s');
  }

  /** Every reachable registry keeps its invariant. */
  lemma {:induction false} TraceInv(cfg: Config, trace: seq<Sys>, moves: seq<Move>, n: nat)
    requires Trace(cfg, trace, moves) && n <= |moves|
    ensures Inv(cfg, trace[n].reg)
    ensures |trace[n].threads| == |trace[0].threads|
    ensures forall k :: 0 <= k < |trace[0].threads| ==> trace[n].threads[k].req == trace[0].threads[k].req
  {
    if n > 0 {
      TraceInv(cfg, trace, moves, n - 1);
      assert StepOf(cfg, trace, moves, n - 1);
      forall k | 0 <= k < |trace[0].threads| ensures trace[n].threads[k].req == trace[0].threads[k].req {
        StepKeepsRequests(cfg, trace[n - 1], moves[n - 1], trace[n], k);
      }
      var op, at, reply := StepIsOperation(cfg, trace[n - 1], moves[n - 1], trace[n]);
      if op.Some? {
        NextKeepsInv(cfg, trace[n - 1].reg, op.value, at, trace[n].reg, reply);
      }
    }
  }
}
