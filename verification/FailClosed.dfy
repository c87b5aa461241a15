/**
 Forgetting fails closed: under every schedule of requests, sweeps and
 evictions, what a bounded registry lets through is part of what a registry
 that never forgets lets through on the same schedule.
 */
module FailClosed {
  import opened Options
  import opened Collections
  import opened RegistryModel
  import opened ServiceMap
  import opened ChannelView
  import opened Interleaving

  // ----- The order on knowledge -----

  predicate Below<T(==)>(a: Option<T>, b: Option<T>) {
    a.Some? ==> a == b
  }

  ghost predicate ViewBelow(a: View, b: View) {
    && (forall id :: id in a.namespaces ==> id in b.namespaces && b.namespaces[id] == a.namespaces[id])
    && a.peers <= b.peers
  }

  /** Each bounded namespace map is a sub-map, and each peer set a subset, of the ideal one. */
  ghost predicate RegistryBelow(a: State, b: State) {
    forall c :: ViewBelow(ViewOf(a, c), ViewOf(b, c))
  }

  predicate PcBelow(a: Pc, b: Pc) {
    match a
    case Learning(i) => b == a
    case LinkSource(i) => b == a
    case LinkDestination(i, src) => b.LinkDestination? && b.i == i && Below(src, b.src)
    case LinkPeer(i, src, dst) => b.LinkPeer? && b.i == i && Below(src, b.src) && Below(dst, b.dst)
    case Deciding(i) => b == a
    case DecidingLink(i, src) => b.DecidingLink? && b.i == i && Below(src, b.src)
    case Finished => b == a
  }

  ghost predicate ThreadBelow(a: Thread, b: Thread) {
    a.req == b.req && PcBelow(a.pc, b.pc) && Subsequence(a.kept, b.kept)
  }

  ghost predicate SysBelow(a: Sys, b: Sys) {
    && RegistryBelow(a.reg, b.reg)
    && |a.threads| == |b.threads|
    && forall k :: 0 <= k < |a.threads| ==> ThreadBelow(a.threads[k], b.threads[k])
  }

  // ----- Registry operations keep the order -----

  predicate ReplyBelow(a: Reply, b: Reply) {
    Below(NamespaceIn(a), NamespaceIn(b)) && (a == Flag(true) ==> b == Flag(true))
  }

  /** The ideal registry drops nothing. */
  lemma IdealKeeps(s: State, op: Op, at: Reading, s': State, reply: Reply, c: string)
    requires Next(Config(0, 0), s, op, at, s', reply) && !op.Sweep?
    ensures c != op.channel ==> ViewOf(s', c) == ViewOf(s, c)
  {
    if Target(op).Some? && Target(op).value !in s.channels {
      assert s'.channels - {op.channel} == s.channels;
    }
    if c != op.channel {
      OtherStep(Config(0, 0), s, op, at, s', reply, c);
    }
  }

  lemma BoundedForgets(cfg: Config, s: State, op: Op, at: Reading, s': State, reply: Reply, c: string)
    requires Next(cfg, s, op, at, s', reply) && (op.Sweep? || c != op.channel)
    ensures ViewOf(s', c) in {ViewOf(s, c), BLANK}
  {
    OtherStep(cfg, s, op, at, s', reply, c);
  }

  lemma SameOperation(cfg: Config, s: State, m: State, op: Op, at: Reading, s': State, m': State, r: Reply, q: Reply)
    requires RegistryBelow(s, m) && !op.Sweep?
    requires Next(cfg, s, op, at, s', r) && Next(Config(0, 0), m, op, at, m', q)
    ensures RegistryBelow(s', m')
    ensures op.Lookup? || op.IsPeer? ==> ReplyBelow(r, q)
  {
    OwnStep(cfg, s, op, at, s', r);
    OwnStep(Config(0, 0), m, op, at, m', q);
    assert ViewBelow(ViewOf(s, op.channel), ViewOf(m, op.channel));
    forall c ensures ViewBelow(ViewOf(s', c), ViewOf(m', c)) {
      assert ViewBelow(ViewOf(s, c), ViewOf(m, c));
      if c != op.channel {
        BoundedForgets(cfg, s, op, at, s', r, c);
        IdealKeeps(m, op, at, m', q, c);
      }
    }
  }

  lemma BoundedSweeps(cfg: Config, s: State, m: State, at: Reading, s': State)
    requires RegistryBelow(s, m) && Next(cfg, s, Sweep, at, s', Done)
    ensures RegistryBelow(s', m)
  {
    forall c ensures ViewBelow(ViewOf(s', c), ViewOf(m, c)) {
      assert ViewBelow(ViewOf(s, c), ViewOf(m, c));
      BoundedForgets(cfg, s, Sweep, at, s', Done, c);
    }
  }

  /** Where the bounded request has nothing to record, the ideal one may record a peer more. */
  lemma IdealRecordsMore(s: State, m: State, op: Op, at: Reading, m': State, q: Reply)
    requires RegistryBelow(s, m) && op.RememberPeer? && Next(Config(0, 0), m, op, at, m', q)
    ensures RegistryBelow(s, m')
  {
    OwnStep(Config(0, 0), m, op, at, m', q);
    forall c ensures ViewBelow(ViewOf(s, c), ViewOf(m', c)) {
      assert ViewBelow(ViewOf(s, c), ViewOf(m, c));
      IdealKeeps(m, op, at, m', q, c);
    }
  }

  // ----- Requests keep the order -----

  /** A request that knows less pends the same operation, except that it may reveal no peer. */
  lemma PendingBelow(a: Thread, b: Thread)
    requires ThreadBelow(a, b)
    ensures Pending(a) == Pending(b) || (Pending(a).None? && Pending(b).Some? && Pending(b).value.RememberPeer? && a.pc.LinkPeer?)
  {
  }

  lemma ResumeBelow(a: Thread, b: Thread, r: Reply, q: Reply)
    requires ThreadBelow(a, b)
    requires a.pc.LinkSource? || a.pc.LinkDestination? || a.pc.Deciding? || a.pc.DecidingLink? ==> ReplyBelow(r, q)
    ensures ThreadBelow(Resume(a, r), Resume(b, q))
  {
    var req := a.req;
    match a.pc
    case Deciding(i) =>
      if i < |req.events| && !req.events[i].ServiceLinkState? {
        var x, y := Verdict(req.events[i], r == Flag(true), req), Verdict(req.events[i], q == Flag(true), req);
        VerdictBelow(req.events[i], r == Flag(true), q == Flag(true), req);
        AppendBelow(a.kept, b.kept, x, y);
      }
    case DecidingLink(i, src) =>
      if i < |req.events| {
        var x := DecideLink(req.events[i], src, NamespaceIn(r), req.scope, req.requireBoth);
        var y := DecideLink(req.events[i], b.pc.src, NamespaceIn(q), req.scope, req.requireBoth);
        AppendBelow(a.kept, b.kept, x, y);
      }
    case _ =>
  }

  lemma VerdictBelow(e: Event, p: bool, q: bool, r: Request)
    requires p ==> q
    ensures Below(Verdict(e, p, r), Verdict(e, q, r))
  {
  }

  lemma AppendBelow(a: seq<Event>, b: seq<Event>, x: Option<Event>, y: Option<Event>)
    requires Subsequence(a, b) && Below(x, y)
    ensures Subsequence(Append(a, x), Append(b, y))
  {
    if y.Some? {
      SubsequenceExtends(a, b, y.value);
    }
  }

  // ----- The refinement -----

  lemma StepBelow(cfg: Config, s: Sys, m: Sys, move: Move, s': Sys, m': Sys)
    requires SysBelow(s, m) && SysNext(cfg, s, move, s') && IdealNext(m, move, m')
    ensures SysBelow(s', m')
  {
    var op, at, r := StepIsOperation(cfg, s, move, s');
    if move.SweepAt? {
      BoundedSweeps(cfg, s.reg, m.reg, move.at, s'.reg);
    } else {
      var mop, mat, q := StepIsOperation(Config(0, 0), m, move, m');
      if move.Control? {
        SameOperation(cfg, s.reg, m.reg, op.value, move.at, s'.reg, m'.reg, r, q);
      } else {
        TurnBelow(cfg, s, m, move, s', m');
      }
    }
  }

  lemma TurnBelow(cfg: Config, s: Sys, m: Sys, move: Move, s': Sys, m': Sys)
    requires SysBelow(s, m) && SysNext(cfg, s, move, s') && IdealNext(m, move, m') && move.Turn?
    ensures SysBelow(s', m')
  {
    var op, at, r := StepIsOperation(cfg, s, move, s');
    var mop, mat, q := StepIsOperation(Config(0, 0), m, move, m');
    var a, b := s.threads[move.k], m.threads[move.k];
    assert ThreadBelow(a, b);
    PendingBelow(a, b);
    if op.Some? {
      SameOperation(cfg, s.reg, m.reg, op.value, move.at, s'.reg, m'.reg, r, q);
    } else if mop.Some? {
      IdealRecordsMore(s.reg, m.reg, mop.value, move.at, m'.reg, q);
    }
    var r', q' := if op.Some? then r else Done, if mop.Some? then q else Done;
    OnlyQuestionsMatter(a, r', q', op, mop);
    ResumeBelow(a, b, r', q');
    forall k | 0 <= k < |s'.threads| ensures ThreadBelow(s'.threads[k], m'.threads[k]) {
      assert ThreadBelow(s.threads[k], m.threads[k]);
    }
  }

  /** Where a reply is used, both requests asked the same question or none. */
  lemma OnlyQuestionsMatter(a: Thread, r: Reply, q: Reply, op: Option<Op>, mop: Option<Op>)
    requires op == Pending(a)
    requires op == mop || a.pc.LinkPeer?
    requires op.None? ==> r == Done
    requires mop.None? ==> q == Done
    requires op.Some? && op == mop && (op.value.Lookup? || op.value.IsPeer?) ==> ReplyBelow(r, q)
    ensures a.pc.LinkSource? || a.pc.LinkDestination? || a.pc.Deciding? || a.pc.DecidingLink? ==> ReplyBelow(r, q)
  {
  }

  lemma NextBelow(cfg: Config, bounded: seq<Sys>, ideal: seq<Sys>, moves: seq<Move>, i: nat)
    requires Trace(cfg, bounded, moves) && IdealTrace(ideal, moves) && i < |moves|
    requires SysBelow(bounded[i], ideal[i])
    ensures SysBelow(bounded[i + 1], ideal[i + 1])
  {
    assert StepOf(cfg, bounded, moves, i) && IdealStepOf(ideal, moves, i);
    StepBelow(cfg, bounded[i], ideal[i], moves[i], bounded[i + 1], ideal[i + 1]);
  }

  lemma StartsBelow(s: Sys)
    requires Starting(s)
    ensures SysBelow(s, s)
  {
    forall k | 0 <= k < |s.threads| ensures ThreadBelow(s.threads[k], s.threads[k]) {
      assert s.threads[k].kept == [];
    }
  }

  /**
   Fail-closed refinement: at every point of every schedule, each request has
   kept a subsequence of what it would have kept had nothing been forgotten, and
   every bounded map is part of the ideal one.
   */
  lemma {:induction false} FailClosed(cfg: Config, bounded: seq<Sys>, ideal: seq<Sys>, moves: seq<Move>, n: nat)
    requires Trace(cfg, bounded, moves) && IdealTrace(ideal, moves) && n <= |moves|
    requires bounded[0] == ideal[0]
    ensures SysBelow(bounded[n], ideal[n])
  {
    if n == 0 {
      StartsBelow(bounded[0]);
    } else {
      FailClosed(cfg, bounded, ideal, moves, n - 1);
      NextBelow(cfg, bounded, ideal, moves, n - 1);
    }
  }

  // ----- There is an ideal run to compare with -----

  /** An ideal registry can perform any operation. */
  lemma IdealCan(s: State, op: Op, at: Reading) returns (s': State, reply: Reply)
    requires !op.Sweep?
    ensures Next(Config(0, 0), s, op, at, s', reply)
  {
    s', reply := s, Done;
    if Target(op).Some? {
      var c := Target(op).value;
      var b := Base(s.channels, c);
      var channels := s.channels[c := Effect(op, b, at.now)];
      if c in s.channels {
        s' := s.(channels := channels);
      } else {
        s' := s.(channels := channels, created := s.created + 1, gauge := |channels|);
        assert channels - {c} == s.channels;
      }
      reply := if op.MarkEmptyScopeNotified? then Flag(!b.notified) else Done;
    } else if op.IsPeer? {
      reply := Flag(op.channel in s.channels && op.service in s.channels[op.channel].peers);
    } else if op.Lookup? {
      reply := Found(None);
      if op.channel in s.channels {
        var ch := s.channels[op.channel];
        s' := s.(channels := s.channels[op.channel := ch.(lastSeen := at.now)]);
        reply := Found(if op.service in ch.namespaces then Some(ch.namespaces[op.service]) else None);
      }
    } else if op.MarkEmptyScopeNotified? {
      reply := Flag(false);
    }
  }

  lemma IdealMoves(s: Sys, move: Move) returns (s': Sys)
    requires move.Turn? ==> move.k < |s.threads|
    ensures IdealNext(s, move, s') && |s'.threads| == |s.threads|
  {
    match move
    case SweepAt(_) =>
      s' := s;
    case Control(c, at) =>
      var reg, reply := IdealCan(s.reg, MarkEmptyScopeNotified(c), at);
      s' := Sys(reg, s.threads);
    case Turn(k, at) =>
      var t := s.threads[k];
      if Pending(t).None? {
        s' := s.(threads := s.threads[k := Resume(t, Done)]);
      } else {
        var reg, reply := IdealCan(s.reg, Pending(t).value, at);
        s' := Sys(reg, s.threads[k := Resume(t, reply)]);
      }
  }

  /** Every schedule a bounded registry goes through, an ideal one goes through too. */
  lemma IdealExists(cfg: Config, bounded: seq<Sys>, moves: seq<Move>) returns (ideal: seq<Sys>)
    requires Trace(cfg, bounded, moves)
    ensures IdealTrace(ideal, moves) && ideal[0] == bounded[0]
  {
    ideal := IdealUpTo(cfg, bounded, moves, |moves|);
  }

  lemma {:induction false} IdealUpTo(cfg: Config, bounded: seq<Sys>, moves: seq<Move>, n: nat) returns (ideal: seq<Sys>)
    requires Trace(cfg, bounded, moves) && n <= |moves|
    ensures |ideal| == n + 1 && ideal[0] == bounded[0] && |ideal[n].threads| == |bounded[n].threads|
    ensures forall i :: 0 <= i < n ==> IdealNext(ideal[i], moves[i], ideal[i + 1])
  {
    if n == 0 {
      ideal := [bounded[0]];
    } else {
      ideal := IdealUpTo(cfg, bounded, moves, n - 1);
      assert StepOf(cfg, bounded, moves, n - 1);
      var op, at, reply := StepIsOperation(cfg, bounded[n - 1], moves[n - 1], bounded[n]);
      var s' := IdealMoves(ideal[n - 1], moves[n - 1]);
      var more := ideal + [s'];
      forall i | 0 <= i < n ensures IdealNext(more[i], moves[i], more[i + 1]) {
        if i < n - 1 {
          assert IdealNext(ideal[i], moves[i], ideal[i + 1]);
        }
      }
      ideal := more;
    }
  }

  /** The comparison always has its ideal run: every bounded run keeps a part of what some ideal run of its schedule keeps. */
  lemma FailsClosedOnEverySchedule(cfg: Config, bounded: seq<Sys>, moves: seq<Move>) returns (ideal: seq<Sys>)
    requires Trace(cfg, bounded, moves)
    ensures IdealTrace(ideal, moves) && forall n :: 0 <= n <= |moves| ==> SysBelow(bounded[n], ideal[n])
  {
    ideal := IdealExists(cfg, bounded, moves);
    forall n | 0 <= n <= |moves| ensures SysBelow(bounded[n], ideal[n]) {
      FailClosed(cfg, bounded, ideal, moves, n);
    }
  }
}
