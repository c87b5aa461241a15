/** The filter as the program runs it: loops over a batch, one registry operation at a time. */
module UiFilter {
  import opened Collections
  import opened Options
  import opened Visibility
  import opened RegistryModel
  import opened ServiceMap
  import opened ChannelView
  import R = Registry

  class Proxy {
    const services: R.Registry
    const requireBoth: bool
    const notifyEmptyScope: bool

    constructor (services: R.Registry, requireBoth: bool, notifyEmptyScope: bool)
      ensures this.services == services && this.requireBoth == requireBoth && this.notifyEmptyScope == notifyEmptyScope
    {
      this.services, this.requireBoth, this.notifyEmptyScope := services, requireBoth, notifyEmptyScope;
    }

    /** Filters one batch; clock gives the readings of successive registry operations. */
    method FilterServiceMapStream(channelId: string, events: seq<Event>, scope: set<string>, clock: nat -> Reading)
      returns (kept: seq<Event>)
      requires services.Valid()
      modifies services
      ensures services.Valid() && OnlyLearned(old(services.Current()), services.Current(), channelId)
      ensures
        var r, v := Request(channelId, scope, requireBoth, events), ViewOf(old(services.Current()), channelId);
        kept == Kept(v, r) && ViewOf(services.Current(), channelId) == Remembered(v, r)
    {
      ghost var v := ViewOf(services.Current(), channelId);
      var tick := 0;
      for i := 0 to |events|
        invariant services.Valid() && OnlyLearned(old(services.Current()), services.Current(), channelId)
        invariant ViewOf(services.Current(), channelId) == Learn(channelId, v, events, i)
      {
        if events[i].ServiceState? && events[i].service.Some? {
          var svc := events[i].service.value;
          ghost var before := services.Current();
          Remember(channelId, svc, clock(tick));
          LearnedOn(old(services.Current()), before, services.Current(), channelId);
          tick := tick + 1;
        }
      }
      ghost var learned := ViewOf(services.Current(), channelId);
      if !requireBoth {
        for i := 0 to |events|
          invariant services.Valid() && OnlyLearned(old(services.Current()), services.Current(), channelId)
          invariant ViewOf(services.Current(), channelId) == Peers(learned, events, scope, i)
        {
          if !events[i].ServiceLinkState? || events[i].link.None? {
            continue;
          }
          ghost var before := services.Current();
          FindPeer(channelId, events[i].link.value, scope, clock(tick), clock(tick + 1), clock(tick + 2));
          LearnedOn(old(services.Current()), before, services.Current(), channelId);
          tick := tick + 3;
        }
      }
      ghost var w := ViewOf(services.Current(), channelId);
      kept := [];
      for i := 0 to |events|
        invariant services.Valid() && OnlyLearned(old(services.Current()), services.Current(), channelId)
        invariant ViewOf(services.Current(), channelId) == w
        invariant kept == Keep(w, events, scope, requireBoth, i)
      {
        ghost var before := services.Current();
        var verdict := EventVisible(channelId, events[i], scope, clock(tick), clock(tick + 1));
        LearnedOn(old(services.Current()), before, services.Current(), channelId);
        tick := tick + 2;
        if verdict.Some? {
          kept := kept + [verdict.value];
        }
      }
    }

    /**
     Filters one control-stream message.  states is None when it carries no
     namespace list; an empty list may be replaced by a notice, once while the channel is tracked.
     */
    method FilterControlStream(channelId: string, states: Option<seq<string>>, scope: set<string>, at: Reading)
      returns (reply: ControlReply)
      requires services.Valid()
      modifies services
      ensures services.Valid()
      ensures reply == ControlAnswer(states, scope, notifyEmptyScope && Untold(old(services.channels), channelId))
      ensures if states.Some? && notifyEmptyScope && scope == {}
        then Next(services.Cfg(), old(services.Current()), Op.MarkEmptyScopeNotified(channelId), at, services.Current(), Flag(reply.NoPermission?))
        else services.Current() == old(services.Current())
    {
      if states.None? {
        return Unchanged;
      }
      var kept := [];
      for i := 0 to |states.value|
        invariant kept == InScope(states.value, scope, i)
        invariant services.Valid() && services.Current() == old(services.Current())
      {
        if states.value[i] in scope {
          kept := kept + [states.value[i]];
        }
      }
      if notifyEmptyScope && |scope| == 0 {
        var first := services.MarkEmptyScopeNotified(channelId, at.room, at.now);
        assert first <==> Untold(old(services.channels), channelId);
        if first {
          return NoPermission;
        }
      }
      return NamespaceList(kept);
    }

    method Remember(channelId: string, svc: Service, at: Reading)
      requires services.Valid()
      modifies services
      ensures services.Valid() && OnlyLearned(old(services.Current()), services.Current(), channelId)
      ensures var v := ViewOf(old(services.Current()), channelId);
        forall e: Event :: e.ServiceState? && e.service == Some(svc) ==> ViewOf(services.Current(), channelId) == LearnOne(channelId, v, e)
    {
      services.Remember(channelId, svc.id, svc.namespace, at.room, at.now);
      Stepped(services.Cfg(), old(services.Current()), Op.Remember(channelId, svc.id, svc.namespace), at, services.Current(), Done);
    }

    method Lookup(channelId: string, serviceId: string, at: Reading) returns (ns: Option<string>)
      requires services.Valid()
      modifies services
      ensures services.Valid() && OnlyLearned(old(services.Current()), services.Current(), channelId)
      ensures ViewOf(services.Current(), channelId) == ViewOf(old(services.Current()), channelId)
      ensures ns == Known(ViewOf(services.Current(), channelId), serviceId)
    {
      ns := services.Lookup(channelId, serviceId, at.now);
      Stepped(services.Cfg(), old(services.Current()), Op.Lookup(channelId, serviceId), at, services.Current(), Found(ns));
    }

    /** One link of pass 1b. */
    method FindPeer(channelId: string, link: Link, scope: set<string>, at0: Reading, at1: Reading, at2: Reading)
      requires services.Valid()
      modifies services
      ensures services.Valid() && OnlyLearned(old(services.Current()), services.Current(), channelId)
      ensures var v := ViewOf(old(services.Current()), channelId);
        ViewOf(services.Current(), channelId) == AddPeer(v, Revealed(Known(v, link.source), Known(v, link.destination), link, scope))
    {
      var src := Lookup(channelId, link.source, at0);
      var dst := Lookup(channelId, link.destination, at1);
      if src.None? || dst.None? {
        return;
      }
      if src.value in scope && dst.value !in scope {
        RememberPeer(channelId, link.destination, at2);
      }
      if dst.value in scope && src.value !in scope {
        RememberPeer(channelId, link.source, at2);
      }
    }

    method RememberPeer(channelId: string, serviceId: string, at: Reading)
      requires services.Valid() && serviceId in ViewOf(services.Current(), channelId).namespaces
      modifies services
      ensures services.Valid() && OnlyLearned(old(services.Current()), services.Current(), channelId)
      ensures ViewOf(services.Current(), channelId) == AddPeer(ViewOf(old(services.Current()), channelId), Some(serviceId))
    {
      services.RememberPeer(channelId, serviceId, at.room, at.now);
      Stepped(services.Cfg(), old(services.Current()), Op.RememberPeer(channelId, serviceId), at, services.Current(), Done);
    }

    /** Decides one event; the event kept may be trimmed. */
    method EventVisible(channelId: string, e: Event, scope: set<string>, at0: Reading, at1: Reading)
      returns (verdict: Option<Event>)
      requires services.Valid()
      modifies services
      ensures services.Valid() && OnlyLearned(old(services.Current()), services.Current(), channelId)
      ensures ViewOf(services.Current(), channelId) == ViewOf(old(services.Current()), channelId)
      ensures verdict == Decide(ViewOf(services.Current(), channelId), e, scope, requireBoth)
    {
      match e
      case FlowSeen(f) =>
        verdict := if PairVisible(f.source, f.destination, scope, requireBoth) then Some(e) else None;
      case FlowsSeen(flows) =>
        var keep := [];
        for i := 0 to |flows|
          invariant keep == VisibleFlows(flows, scope, requireBoth, i)
          invariant services.Valid() && services.Current() == old(services.Current())
        {
          if PairVisible(flows[i].source, flows[i].destination, scope, requireBoth) {
            keep := keep + [flows[i]];
          }
        }
        verdict := if |keep| == 0 then None else Some(FlowsSeen(keep));
      case NamespaceState(name, _) =>
        verdict := if name in scope then Some(e) else None;
      case ServiceState(service, _) =>
        var svc := ServiceOf(e);
        if svc.namespace in scope {
          verdict := Some(e);
        } else if requireBoth {
          verdict := None;
        } else {
          var peer := services.IsPeer(channelId, svc.id);
          Stepped(services.Cfg(), services.Current(), Op.IsPeer(channelId, svc.id), at0, services.Current(), Flag(peer));
          verdict := if peer then Some(e) else None;
        }
      case ServiceLinkState(_, _) =>
        var l := LinkOf(e);
        var src := Lookup(channelId, l.source, at0);
        var dst := Lookup(channelId, l.destination, at1);
        if src.None? || dst.None? {
          verdict := None;
        } else {
          verdict := if PairVisible(src.value, dst.value, scope, requireBoth) then Some(e) else None;
        }
      case Notification(_) =>
        verdict := Some(e);
      case Unrecognised(_) =>
        verdict := None;
    }
  }

  datatype ControlReply = Unchanged | NamespaceList(names: seq<string>) | NoPermission

  function InScope(names: seq<string>, scope: set<string>, n: nat): seq<string>
    requires n <= |names|
  {
    if n == 0 then []
    else if names[n - 1] in scope then InScope(names, scope, n - 1) + [names[n - 1]]
    else InScope(names, scope, n - 1)
  }

  /** The channel has not been told yet that its caller sees nothing. */
  predicate Untold(channels: Channels, channel: string) {
    channel != "" && !Base(channels, channel).notified
  }

  function ControlAnswer(states: Option<seq<string>>, scope: set<string>, mayNotify: bool): ControlReply {
    if states.None? then Unchanged
    else if mayNotify && scope == {} then NoPermission
    else NamespaceList(InScope(states.value, scope, |states.value|))
  }

  lemma {:induction false} InScopeInOrder(names: seq<string>, scope: set<string>, n: nat)
    requires n <= |names|
    ensures Subsequence(InScope(names, scope, n), names[..n])
  {
    if n > 0 {
      InScopeInOrder(names, scope, n - 1);
      assert names[..n] == names[..n - 1] + [names[n - 1]];
      SubsequenceExtends(InScope(names, scope, n - 1), names[..n - 1], names[n - 1]);
      assert InScope(names, scope, n) ==
        if names[n - 1] in scope then InScope(names, scope, n - 1) + [names[n - 1]] else InScope(names, scope, n - 1);
    }
  }

  lemma {:induction false} InScopeCounts(names: seq<string>, scope: set<string>, n: nat, ns: string)
    requires n <= |names|
    ensures multiset(InScope(names, scope, n))[ns] == if ns in scope then multiset(names[..n])[ns] else 0
  {
    if n > 0 {
      InScopeCounts(names, scope, n - 1, ns);
      var last, before := names[n - 1], InScope(names, scope, n - 1);
      assert names[..n] == names[..n - 1] + [last];
      assert InScope(names, scope, n) == if last in scope then before + [last] else before;
      assert multiset(before + [last]) == multiset(before) + multiset{last};
    }
  }

  /**
   The reply to a control message: unchanged exactly if it has no list; the notice
   exactly if notices are on, the caller may see nothing and the channel is not on
   record as told; otherwise the listed names in scope, in order and as often as they came.
   */
  lemma ControlReplyExactly(states: Option<seq<string>>, scope: set<string>, enabled: bool, channels: Channels, channel: string)
    ensures
      var reply := ControlAnswer(states, scope, enabled && Untold(channels, channel));
      && (reply.Unchanged? <==> states.None?)
      && (reply.NoPermission? <==>
            states.Some? && enabled && scope == {} && channel != "" && !(channel in channels && channels[channel].notified))
      && (reply.NamespaceList? ==>
            && Subsequence(reply.names, states.value)
            && forall ns :: multiset(reply.names)[ns] == if ns in scope then multiset(states.value)[ns] else 0)
  {
    if states.Some? {
      var names := states.value;
      assert names[..|names|] == names;
      InScopeInOrder(names, scope, |names|);
      forall ns ensures multiset(InScope(names, scope, |names|))[ns] == if ns in scope then multiset(names)[ns] else 0 {
        InScopeCounts(names, scope, |names|, ns);
      }
    }
  }

  /**
   Channels other than the given one are untouched, except that room may have been
   made at their expense, and whether the given one was told is unchanged.
   */
  ghost predicate OnlyLearned(before: State, after: State, channel: string) {
    && (forall c :: c in after.channels && c != channel ==> c in before.channels && after.channels[c] == before.channels[c])
    && Base(after.channels, channel).notified == Base(before.channels, channel).notified
  }

  lemma LearnedOn(a: State, b: State, c: State, channel: string)
    requires OnlyLearned(a, b, channel) && OnlyLearned(b, c, channel)
    ensures OnlyLearned(a, c, channel)
  {
  }

  /** One registry operation on a channel, seen from every channel. */
  lemma Stepped(cfg: Config, s: State, op: Op, at: Reading, s': State, reply: Reply)
    requires Next(cfg, s, op, at, s', reply) && !op.Sweep? && !op.MarkEmptyScopeNotified?
    ensures OnlyLearned(s, s', op.channel)
    ensures ViewOf(s', op.channel) == Effected(op, ViewOf(s, op.channel))
    ensures Answer(op, ViewOf(s, op.channel)).Some? ==> reply == Answer(op, ViewOf(s, op.channel)).value
  {
    OwnStep(cfg, s, op, at, s', reply);
    NoticeUntouched(cfg, s, op, at, s', reply);
    forall c | c != op.channel && c in s'.channels
      ensures c in s.channels && s'.channels[c] == s.channels[c]
    {
      OtherStep(cfg, s, op, at, s', reply, c);
    }
  }

  lemma NoticeUntouched(cfg: Config, s: State, op: Op, at: Reading, s': State, reply: Reply)
    requires Next(cfg, s, op, at, s', reply) && !op.Sweep? && !op.MarkEmptyScopeNotified?
    ensures Base(s'.channels, op.channel).notified == Base(s.channels, op.channel).notified
  {
    if Target(op).Some? {
      var c := Target(op).value;
      TouchedFrame(cfg, s, c, at, Effect(op, Base(s.channels, c), at.now), s');
    }
  }
}
