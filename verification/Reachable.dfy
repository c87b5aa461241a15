/** What holds of every reachable state of the interleaved filter. */
module Reachable {
  import opened Options
  import opened RegistryModel
  import opened ServiceMap
  import opened ChannelView
  import opened FilterLaws
  import opened Dangling
  import opened Idempotence
  import opened Interleaving

  // ----- Peer soundness -----

  /** At step j request k had its turn. */
  predicate TurnOf(moves: seq<Move>, j: nat, k: nat) {
    j < |moves| && moves[j].Turn? && moves[j].k == k
  }

  /** At step j request k looked up the source of its link i, and src was on record. */
  ghost predicate SawSource(trace: seq<Sys>, moves: seq<Move>, j: nat, k: nat, i: nat, src: Option<string>) {
    && TurnOf(moves, j, k) && j < |trace| && k < |trace[j].threads|
    && var t := trace[j].threads[k];
       t.pc == LinkSource(i) && IsLink(t.req, i) && src == Known(ViewOf(trace[j].reg, t.req.channel), LinkAt(t.req, i).source)
  }

  /** At step j request k, having got src for the source, looked up the destination, and dst was on record. */
  ghost predicate SawDestination(trace: seq<Sys>, moves: seq<Move>, j: nat, k: nat, i: nat, src: Option<string>, dst: Option<string>) {
    && TurnOf(moves, j, k) && j < |trace| && k < |trace[j].threads|
    && var t := trace[j].threads[k];
       t.pc == LinkDestination(i, src) && dst == Known(ViewOf(trace[j].reg, t.req.channel), LinkAt(t.req, i).destination)
  }

  /** Request k looked up both ends of its link i, source first, at steps j1 and j2 before n. */
  ghost predicate SawEnds(trace: seq<Sys>, moves: seq<Move>, n: nat, k: nat, i: nat, src: Option<string>, dst: Option<string>, j1: nat, j2: nat) {
    j1 < j2 < n && SawSource(trace, moves, j1, k, i, src) && SawDestination(trace, moves, j2, k, i, src, dst)
  }

  /** What request k carries at step n it saw on record when it looked. */
  ghost predicate RegistersJustified(trace: seq<Sys>, moves: seq<Move>, n: nat, k: nat)
    requires n < |trace| && k < |trace[n].threads|
  {
    var t := trace[n].threads[k];
    match t.pc
    case LinkSource(_) => !t.req.requireBoth
    case LinkDestination(i, src) =>
      IsLink(t.req, i) && !t.req.requireBoth && exists j1: nat :: j1 < n && SawSource(trace, moves, j1, k, i, src)
    case LinkPeer(i, src, dst) =>
      IsLink(t.req, i) && !t.req.requireBoth && exists j1: nat, j2: nat :: SawEnds(trace, moves, n, k, i, src, dst, j1, j2)
    case _ => true
  }

  /** How a peer came to be: request k looked up the ends of its link i at j1 and j2 and recorded one of them at m. */
  datatype Reveal = Reveal(k: nat, i: nat, j1: nat, j2: nat, m: nat, src: string, dst: string)

  /**
   The request is a lenient one on the channel, it took these turns in this order
   before n, and exactly one end was on record in its scope: the peer is the other.
   */
  ghost predicate RevealedBy(trace: seq<Sys>, moves: seq<Move>, n: nat, w: Reveal, channel: string, peer: string) {
    && w.m < n && w.m < |trace| && w.k < |trace[w.m].threads| && TurnOf(moves, w.m, w.k)
    && SawEnds(trace, moves, w.m, w.k, w.i, Some(w.src), Some(w.dst), w.j1, w.j2)
    && var t := trace[w.m].threads[w.k];
       var link := LinkAt(t.req, w.i);
       && t.pc == LinkPeer(w.i, Some(w.src), Some(w.dst)) && IsLink(t.req, w.i)
       && t.req.channel == channel && !t.req.requireBoth
       && (|| (w.src in t.req.scope && w.dst !in t.req.scope && peer == link.destination)
           || (w.dst in t.req.scope && w.src !in t.req.scope && peer == link.source))
  }

  ghost predicate PeerJustified(trace: seq<Sys>, moves: seq<Move>, n: nat, channel: string, peer: string) {
    exists w :: RevealedBy(trace, moves, n, w, channel, peer)
  }

  /** Taking a turn keeps the registers justified: they are filled only by lookups. */
  lemma RegistersStep(cfg: Config, trace: seq<Sys>, moves: seq<Move>, n: nat, k: nat)
    requires n < |moves| && |trace| == |moves| + 1 && SysNext(cfg, trace[n], moves[n], trace[n + 1]) && k < |trace[n].threads|
    requires RegistersJustified(trace, moves, n, k)
    ensures k < |trace[n + 1].threads| && RegistersJustified(trace, moves, n + 1, k)
  {
    var op, at, reply := StepIsOperation(cfg, trace[n], moves[n], trace[n + 1]);
    var t := trace[n].threads[k];
    if !TurnOf(moves, n, k) {
      RegistersLast(trace, moves, n, k);
    } else if t.pc.LinkSource? && op.Some? {
      OwnStep(cfg, trace[n].reg, op.value, at, trace[n + 1].reg, reply);
      assert SawSource(trace, moves, n, k, t.pc.i, NamespaceIn(reply));
    } else if t.pc.LinkDestination? {
      OwnStep(cfg, trace[n].reg, op.value, at, trace[n + 1].reg, reply);
      var j1: nat :| j1 < n && SawSource(trace, moves, j1, k, t.pc.i, t.pc.src);
      assert SawEnds(trace, moves, n + 1, k, t.pc.i, t.pc.src, NamespaceIn(reply), j1, n);
    }
  }

  /** A request that has no turn keeps what it carries, and what it saw stays seen. */
  lemma RegistersLast(trace: seq<Sys>, moves: seq<Move>, n: nat, k: nat)
    requires n + 1 < |trace| && k < |trace[n].threads| && k < |trace[n + 1].threads|
    requires trace[n + 1].threads[k] == trace[n].threads[k] && RegistersJustified(trace, moves, n, k)
    ensures RegistersJustified(trace, moves, n + 1, k)
  {
    var t := trace[n].threads[k];
    if t.pc.LinkPeer? {
      var j1: nat, j2: nat :| SawEnds(trace, moves, n, k, t.pc.i, t.pc.src, t.pc.dst, j1, j2);
      assert SawEnds(trace, moves, n + 1, k, t.pc.i, t.pc.src, t.pc.dst, j1, j2);
    }
  }

  /** A peer appears only in the turn of a request that saw the ends of one of its links, and is the end out of scope. */
  lemma NewPeer(cfg: Config, trace: seq<Sys>, moves: seq<Move>, n: nat, c: string, p: string) returns (w: Reveal)
    requires n < |moves| && |trace| == |moves| + 1 && SysNext(cfg, trace[n], moves[n], trace[n + 1])
    requires forall k :: 0 <= k < |trace[n].threads| ==> RegistersJustified(trace, moves, n, k)
    requires p in ViewOf(trace[n + 1].reg, c).peers && p !in ViewOf(trace[n].reg, c).peers
    ensures RevealedBy(trace, moves, n + 1, w, c, p) && w.m == n && TurnOf(moves, n, w.k)
  {
    var op, at, reply := StepIsOperation(cfg, trace[n], moves[n], trace[n + 1]);
    assert op.Some?;
    PeerIsRemembered(cfg, trace[n].reg, op.value, at, trace[n + 1].reg, reply, c, p);
    var k := moves[n].k;
    var t := trace[n].threads[k];
    assert RegistersJustified(trace, moves, n, k);
    assert t.pc.LinkPeer? && Revealed(t.pc.src, t.pc.dst, LinkAt(t.req, t.pc.i), t.req.scope) == Some(p);
    var j1: nat, j2: nat :| SawEnds(trace, moves, n, k, t.pc.i, t.pc.src, t.pc.dst, j1, j2);
    w := Reveal(k, t.pc.i, j1, j2, n, t.pc.src.value, t.pc.dst.value);
  }

  lemma PeerIsRemembered(cfg: Config, s: State, op: Op, at: Reading, s': State, reply: Reply, c: string, p: string)
    requires Next(cfg, s, op, at, s', reply) && p in ViewOf(s', c).peers && p !in ViewOf(s, c).peers
    ensures op == RememberPeer(c, p)
  {
    if op.Sweep? || op.channel != c {
      OtherStep(cfg, s, op, at, s', reply, c);
      assert false;
    } else {
      OwnStep(cfg, s, op, at, s', reply);
    }
  }

  /**
   Peer soundness: in every reachable state each peer of a channel was revealed.
   A lenient request on that channel looked up both ends of one of its links, saw
   one on record in its own scope and the other out of it, and then recorded the other.
   */
  lemma {:induction false} PeerSoundness(cfg: Config, trace: seq<Sys>, moves: seq<Move>, n: nat)
    requires Trace(cfg, trace, moves) && n <= |moves|
    ensures forall c, p :: p in ViewOf(trace[n].reg, c).peers ==> PeerJustified(trace, moves, n, c, p)
    ensures forall k :: 0 <= k < |trace[n].threads| ==> RegistersJustified(trace, moves, n, k)
  {
    if n > 0 {
      PeerSoundness(cfg, trace, moves, n - 1);
      TraceInv(cfg, trace, moves, n - 1);
      TraceInv(cfg, trace, moves, n);
      assert StepOf(cfg, trace, moves, n - 1);
      forall k | 0 <= k < |trace[n].threads| ensures RegistersJustified(trace, moves, n, k) {
        RegistersStep(cfg, trace, moves, n - 1, k);
      }
      forall c, p | p in ViewOf(trace[n].reg, c).peers ensures PeerJustified(trace, moves, n, c, p) {
        if p in ViewOf(trace[n - 1].reg, c).peers {
          var w :| RevealedBy(trace, moves, n - 1, w, c, p);
          assert RevealedBy(trace, moves, n, w, c, p);
        } else {
          var w := NewPeer(cfg, trace, moves, n - 1, c, p);
        }
      }
    }
  }

  /** Once revealed, a service stays revealed for as long as its channel is tracked. */
  lemma {:induction false} PeersPersist(cfg: Config, trace: seq<Sys>, moves: seq<Move>, from: nat, n: nat, channel: string)
    requires Trace(cfg, trace, moves) && from <= n <= |moves|
    requires forall j :: from <= j <= n ==> channel in trace[j].reg.channels
    ensures ViewOf(trace[from].reg, channel).peers <= ViewOf(trace[n].reg, channel).peers
    decreases n
  {
    if from < n {
      PeersPersist(cfg, trace, moves, from, n - 1, channel);
      assert StepOf(cfg, trace, moves, n - 1);
      var op, at, reply := StepIsOperation(cfg, trace[n - 1], moves[n - 1], trace[n]);
      if op.Some? {
        if op.value.Sweep? || op.value.channel != channel {
          OtherStep(cfg, trace[n - 1].reg, op.value, at, trace[n].reg, reply, channel);
        } else {
          OwnStep(cfg, trace[n - 1].reg, op.value, at, trace[n].reg, reply);
        }
      }
    }
  }

  /**
   A revealed service stays shown: a lenient request that decides an announcement
   of a peer, its channel having stayed tracked since the peer was recorded, keeps
   it, whatever ran in between.
   */
  lemma PeerStaysShown(cfg: Config, trace: seq<Sys>, moves: seq<Move>, from: nat, n: nat, k: nat)
    requires Trace(cfg, trace, moves) && from <= n < |moves| && TurnOf(moves, n, k) && k < |trace[n].threads|
    requires
      var t := trace[n].threads[k];
      && t.pc.Deciding? && t.pc.i < |t.req.events| && t.req.events[t.pc.i].ServiceState? && !t.req.requireBoth
      && ServiceOf(t.req.events[t.pc.i]).id in ViewOf(trace[from].reg, t.req.channel).peers
      && forall j :: from <= j <= n ==> t.req.channel in trace[j].reg.channels
    ensures
      var t := trace[n].threads[k];
      k < |trace[n + 1].threads| && trace[n + 1].threads[k].kept == t.kept + [t.req.events[t.pc.i]]
  {
    var t := trace[n].threads[k];
    PeersPersist(cfg, trace, moves, from, n, t.req.channel);
    assert StepOf(cfg, trace, moves, n);
    var op, at, reply := StepIsOperation(cfg, trace[n], moves[n], trace[n + 1]);
    if op.Some? {
      OwnStep(cfg, trace[n].reg, op.value, at, trace[n + 1].reg, reply);
    }
  }

  // ----- A request nothing disturbs -----

  /** Where a request has got to, in terms of the uninterrupted poll. */
  ghost predicate OnTrack(t: Thread, r: Request, v: View, now: View) {
    var n := |r.events|;
    var learned := Learn(r.channel, v, r.events, n);
    && t.req == r
    && match t.pc
       case Learning(i) => i <= n && t.kept == [] && now == Learn(r.channel, v, r.events, i)
       case LinkSource(i) => !r.requireBoth && i <= n && t.kept == [] && now == Peers(learned, r.events, r.scope, i)
       case LinkDestination(i, src) =>
         && !r.requireBoth && IsLink(r, i) && t.kept == [] && now == Peers(learned, r.events, r.scope, i)
         && src == Known(now, LinkAt(r, i).source)
       case LinkPeer(i, src, dst) =>
         && !r.requireBoth && IsLink(r, i) && t.kept == [] && now == Peers(learned, r.events, r.scope, i)
         && src == Known(now, LinkAt(r, i).source) && dst == Known(now, LinkAt(r, i).destination)
       case Deciding(i) =>
         i <= n && now == Remembered(v, r) && t.kept == Keep(now, r.events, r.scope, r.requireBoth, i)
       case DecidingLink(i, src) =>
         && i < n && r.events[i].ServiceLinkState? && now == Remembered(v, r)
         && t.kept == Keep(now, r.events, r.scope, r.requireBoth, i) && src == Known(now, LinkAt(r, i).source)
       case Finished => now == Remembered(v, r) && t.kept == Kept(v, r)
  }

  /** The request's pending operation took effect on its channel's view and was answered from it. */
  ghost predicate TakesTurn(t: Thread, now: View, reply: Reply, after: View) {
    match Pending(t)
    case None => after == now && reply == Done
    case Some(op) => after == Effected(op, now) && (Answer(op, now).Some? ==> reply == Answer(op, now).value)
  }

  /** One turn of an undisturbed request is one step of the uninterrupted poll. */
  lemma TurnOnTrack(t: Thread, r: Request, v: View, now: View, reply: Reply, after: View)
    requires OnTrack(t, r, v, now) && Registered(r.channel, now) && TakesTurn(t, now, reply, after)
    ensures OnTrack(Resume(t, reply), r, v, after)
  {
    if t.pc.Learning? || t.pc.LinkSource? || t.pc.LinkDestination? || t.pc.LinkPeer? {
      GatheringOnTrack(t, r, v, now, reply, after);
    } else {
      DecidingOnTrack(t, r, v, now, reply, after);
    }
  }

  lemma GatheringOnTrack(t: Thread, r: Request, v: View, now: View, reply: Reply, after: View)
    requires OnTrack(t, r, v, now) && Registered(r.channel, now) && TakesTurn(t, now, reply, after)
    requires t.pc.Learning? || t.pc.LinkSource? || t.pc.LinkDestination? || t.pc.LinkPeer?
    ensures OnTrack(Resume(t, reply), r, v, after)
  {
    if t.pc.LinkPeer? {
      assert PeerOf(now, r.events[t.pc.i], r.scope) == Revealed(t.pc.src, t.pc.dst, LinkAt(r, t.pc.i), r.scope);
    }
  }

  lemma DecidingOnTrack(t: Thread, r: Request, v: View, now: View, reply: Reply, after: View)
    requires OnTrack(t, r, v, now) && TakesTurn(t, now, reply, after)
    requires t.pc.Deciding? || t.pc.DecidingLink? || t.pc.Finished?
    ensures OnTrack(Resume(t, reply), r, v, after)
  {
    if t.pc.Deciding? && t.pc.i < |r.events| && !r.events[t.pc.i].ServiceLinkState? {
      assert Verdict(r.events[t.pc.i], reply == Flag(true), r) == Decide(now, r.events[t.pc.i], r.scope, r.requireBoth);
    }
  }

  /** One step of the machine, undisturbed: the request's own turn, or one that leaves its channel's view alone. */
  lemma StepOnTrack(cfg: Config, s: Sys, move: Move, s': Sys, k: nat, r: Request, v: View)
    requires Inv(cfg, s.reg) && SysNext(cfg, s, move, s') && k < |s.threads|
    requires OnTrack(s.threads[k], r, v, ViewOf(s.reg, r.channel))
    requires !(move.Turn? && move.k == k) ==> ViewOf(s'.reg, r.channel) == ViewOf(s.reg, r.channel)
    ensures k < |s'.threads| && OnTrack(s'.threads[k], r, v, ViewOf(s'.reg, r.channel))
  {
    var op, at, reply := StepIsOperation(cfg, s, move, s');
    if move.Turn? && move.k == k {
      var answer := if op.Some? then reply else Done;
      TurnTaken(cfg, s.reg, s.threads[k], op, at, reply, s'.reg);
      TurnOnTrack(s.threads[k], r, v, ViewOf(s.reg, r.channel), answer, ViewOf(s'.reg, r.channel));
    }
  }

  lemma TurnTaken(cfg: Config, reg: State, t: Thread, op: Option<Op>, at: Reading, reply: Reply, reg': State)
    requires op == Pending(t) && (op.None? ==> reg' == reg) && (op.Some? ==> Next(cfg, reg, op.value, at, reg', reply))
    ensures TakesTurn(t, ViewOf(reg, t.req.channel), if op.Some? then reply else Done, ViewOf(reg', t.req.channel))
  {
    PendingOnOwnChannel(t);
    if op.Some? {
      OwnStep(cfg, reg, op.value, at, reg', reply);
    }
  }

  lemma PendingOnOwnChannel(t: Thread)
    ensures Pending(t).Some? ==> !Pending(t).value.Sweep? && Pending(t).value.channel == t.req.channel
  {
  }

  /** No step from from to n but request k's own changes the view of its channel. */
  ghost predicate Alone(trace: seq<Sys>, moves: seq<Move>, from: nat, n: nat, k: nat)
    requires from <= n <= |moves| && |trace| == |moves| + 1 && k < |trace[from].threads|
  {
    var c := trace[from].threads[k].req.channel;
    forall j :: from <= j < n && !TurnOf(moves, j, k) ==> ViewOf(trace[j + 1].reg, c) == ViewOf(trace[j].reg, c)
  }

  /** Request k is where the uninterrupted poll begun at from would be. */
  ghost predicate TrackedAt(trace: seq<Sys>, from: nat, n: nat, k: nat)
    requires from < |trace| && n < |trace| && k < |trace[from].threads|
  {
    var r := trace[from].threads[k].req;
    k < |trace[n].threads| && OnTrack(trace[n].threads[k], r, ViewOf(trace[from].reg, r.channel), ViewOf(trace[n].reg, r.channel))
  }

  /**
   A request whose channel no other step touches gets exactly the answer of the
   uninterrupted poll, however the rest of the system is interleaved with it.
   */
  lemma {:induction false} Undisturbed(cfg: Config, trace: seq<Sys>, moves: seq<Move>, from: nat, n: nat, k: nat)
    requires Trace(cfg, trace, moves) && from <= n <= |moves| && k < |trace[from].threads|
    requires trace[from].threads[k] == Start(trace[from].threads[k].req) && Alone(trace, moves, from, n, k)
    ensures TrackedAt(trace, from, n, k)
    decreases n
  {
    if from < n {
      Undisturbed(cfg, trace, moves, from, n - 1, k);
      UndisturbedStep(cfg, trace, moves, from, n - 1, k);
    }
  }

  lemma UndisturbedStep(cfg: Config, trace: seq<Sys>, moves: seq<Move>, from: nat, i: nat, k: nat)
    requires Trace(cfg, trace, moves) && from <= i < |moves| && k < |trace[from].threads|
    requires TrackedAt(trace, from, i, k) && Alone(trace, moves, from, i + 1, k)
    ensures TrackedAt(trace, from, i + 1, k)
  {
    var r := trace[from].threads[k].req;
    TraceInv(cfg, trace, moves, i);
    assert StepOf(cfg, trace, moves, i);
    StepOnTrack(cfg, trace[i], moves[i], trace[i + 1], k, r, ViewOf(trace[from].reg, r.channel));
  }

  /**
   No dangling edge on the machine: when a lenient request nothing disturbs has
   finished and kept a link, it also kept the last announcement of either endpoint.
   */
  lemma FinishedLeavesNoDanglingEdge(cfg: Config, trace: seq<Sys>, moves: seq<Move>, from: nat, n: nat, k: nat, link: Event, j: nat)
    requires Trace(cfg, trace, moves) && from <= n <= |moves| && k < |trace[from].threads|
    requires trace[from].threads[k] == Start(trace[from].threads[k].req) && !trace[from].threads[k].req.requireBoth
    requires Alone(trace, moves, from, n, k)
    requires k < |trace[n].threads| && trace[n].threads[k].pc.Finished? && link in trace[n].threads[k].kept && link.ServiceLinkState?
    requires
      var r := trace[from].threads[k].req;
      && j < |r.events|
      && exists id :: id in {LinkOf(link).source, LinkOf(link).destination} && LastAnnouncement(r, j, id)
    ensures trace[from].threads[k].req.events[j] in trace[n].threads[k].kept
  {
    var r := trace[from].threads[k].req;
    var v := ViewOf(trace[from].reg, r.channel);
    Undisturbed(cfg, trace, moves, from, n, k);
    TraceInv(cfg, trace, moves, from);
    KeptLinkKeepsEnds(v, r, link, j);
  }

  /** Event j is the batch's last announcement of id. */
  predicate LastAnnouncement(r: Request, j: nat, id: string)
    requires j < |r.events|
  {
    Announced(r.channel, r.events[j], id).Some? && forall k :: j < k < |r.events| ==> Announced(r.channel, r.events[k], id).None?
  }

  lemma KeptLinkKeepsEnds(v: View, r: Request, link: Event, j: nat)
    requires Registered(r.channel, v) && !r.requireBoth && link in Kept(v, r) && link.ServiceLinkState? && j < |r.events|
    requires exists id :: id in {LinkOf(link).source, LinkOf(link).destination} && LastAnnouncement(r, j, id)
    ensures r.events[j] in Kept(v, r)
  {
    var w, n := Remembered(v, r), |r.events|;
    var m :| 0 <= m < |Kept(v, r)| && Kept(v, r)[m] == link;
    var i := KeptFrom(w, r.events, r.scope, false, n, m);
    var id :| id in {LinkOf(link).source, LinkOf(link).destination} && LastAnnouncement(r, j, id);
    NoDanglingEdge(v, r, i, id);
    DecidedIsKept(w, r.events, r.scope, false, n, j);
  }
}
