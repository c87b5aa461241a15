/**
 In strict mode a caller's outputs do not depend on foreign namespaces at all:
 erasing from a channel's whole history every event that belongs to or touches
 one changes nothing the caller receives.
 */
module Noninterference {
  import opened Options
  import opened Strings
  import opened Visibility
  import opened ServiceMap
  import opened FilterLaws
  import opened PeerScopes

  /** A namespace for each service ID: those on record at some time, or those the services have throughout. */
  type Homes = map<string, string>

  predicate ForeignId(homes: Homes, id: string, scope: set<string>) {
    id in homes && Foreign(homes[id], scope)
  }

  /** The event is of a foreign namespace, or joins something to one. */
  predicate Touches(homes: Homes, e: Event, scope: set<string>) {
    match e
    case FlowSeen(f) => Foreign(f.source, scope) || Foreign(f.destination, scope)
    case FlowsSeen(_) => false
    case NamespaceState(name, _) => Foreign(name, scope)
    case ServiceState(_, _) => Foreign(ServiceOf(e).namespace, scope)
    case ServiceLinkState(_, _) =>
      ForeignId(homes, LinkOf(e).source, scope) || ForeignId(homes, LinkOf(e).destination, scope)
    case Notification(_) => false
    case Unrecognised(_) => false
  }

  function NativeFlows(flows: seq<Flow>, scope: set<string>, n: nat): seq<Flow>
    requires n <= |flows|
  {
    if n == 0 then [] else
      var rest := NativeFlows(flows, scope, n - 1);
      if Foreign(flows[n - 1].source, scope) || Foreign(flows[n - 1].destination, scope) then rest else rest + [flows[n - 1]]
  }

  /** What is left of an event: nothing, or the event with a batch of flows stripped of foreign ones. */
  function EraseOne(homes: Homes, e: Event, scope: set<string>): Option<Event> {
    if Touches(homes, e, scope) then None
    else if e.FlowsSeen? then Some(FlowsSeen(NativeFlows(e.flows, scope, |e.flows|)))
    else Some(e)
  }

  function Erase(homes: Homes, events: seq<Event>, scope: set<string>, n: nat): seq<Event>
    requires n <= |events|
  {
    if n == 0 then [] else Append(Erase(homes, events, scope, n - 1), EraseOne(homes, events[n - 1], scope))
  }

  /** The history without foreign namespaces, link ends of poll i being judged by records[i]. */
  function ErasedBy(records: seq<Homes>, polls: seq<Request>, scope: set<string>): seq<Request>
    requires |records| == |polls|
  {
    seq(|polls|, i requires 0 <= i < |polls| => polls[i].(events := Erase(records[i], polls[i].events, scope, |polls[i].events|)))
  }

  /** What the channel has on record when it decides each poll. */
  function Records(polls: seq<Request>): seq<Homes> {
    seq(|polls|, i requires 0 <= i < |polls| => Memory(polls, i + 1).namespaces)
  }

  /** The history without what belonged to or touched foreign namespaces when it was decided. */
  function Erased(polls: seq<Request>, scope: set<string>): seq<Request> {
    ErasedBy(Records(polls), polls, scope)
  }

  /** The history is one channel's, in strict mode and within scope. */
  ghost predicate History(polls: seq<Request>, scope: set<string>, channel: string) {
    forall i :: 0 <= i < |polls| ==> polls[i].requireBoth && polls[i].channel == channel && polls[i].scope <= scope
  }

  /** Whatever is on record, homes tells whether it is foreign. */
  ghost predicate Judges(homes: Homes, v: View, scope: set<string>) {
    forall id :: id in v.namespaces ==> (ForeignId(homes, id, scope) <==> Foreign(v.namespaces[id], scope))
  }

  /** The purged memory agrees with the full one, except on services the full one knows to be foreign. */
  ghost predicate Purged(v: View, u: View, scope: set<string>) {
    forall id :: ForeignId(v.namespaces, id, scope) || Known(u, id) == Known(v, id)
  }

  // ----- Appending -----

  lemma {:induction false} LearnPrefix(channel: string, v: View, a: seq<Event>, e: Event, n: nat)
    requires n <= |a|
    ensures Learn(channel, v, a + [e], n) == Learn(channel, v, a, n)
  {
    if n > 0 { LearnPrefix(channel, v, a, e, n - 1); }
  }

  lemma {:induction false} KeepPrefix(v: View, a: seq<Event>, e: Event, scope: set<string>, requireBoth: bool, n: nat)
    requires n <= |a|
    ensures Keep(v, a + [e], scope, requireBoth, n) == Keep(v, a, scope, requireBoth, n)
  {
    if n > 0 { KeepPrefix(v, a, e, scope, requireBoth, n - 1); }
  }

  // ----- One poll -----

  lemma {:induction false} LearnPurged(homes: Homes, channel: string, v: View, u: View, events: seq<Event>, scope: set<string>, n: nat)
    requires n <= |events| && Purged(v, u, scope)
    ensures
      var erased := Erase(homes, events, scope, n);
      Purged(Learn(channel, v, events, n), Learn(channel, u, erased, |erased|), scope)
  {
    if n > 0 {
      LearnPurged(homes, channel, v, u, events, scope, n - 1);
      var before := Erase(homes, events, scope, n - 1);
      var left := EraseOne(homes, events[n - 1], scope);
      if left.Some? {
        LearnPrefix(channel, u, before, left.value, |before|);
      }
      LearnOnePurged(homes, channel, Learn(channel, v, events, n - 1), Learn(channel, u, before, |before|), events[n - 1], scope);
    }
  }

  lemma LearnOnePurged(homes: Homes, channel: string, v: View, u: View, e: Event, scope: set<string>)
    requires Purged(v, u, scope)
    ensures
      var left := EraseOne(homes, e, scope);
      Purged(LearnOne(channel, v, e), if left.Some? then LearnOne(channel, u, left.value) else u, scope)
  {
    var left := EraseOne(homes, e, scope);
    var v', u' := LearnOne(channel, v, e), if left.Some? then LearnOne(channel, u, left.value) else u;
    forall id ensures ForeignId(v'.namespaces, id, scope) || Known(u', id) == Known(v', id) {
      assert ForeignId(v.namespaces, id, scope) || Known(u, id) == Known(v, id);
    }
  }

  lemma {:induction false} FlowsPurged(flows: seq<Flow>, scope: set<string>, mine: set<string>, n: nat)
    requires n <= |flows| && mine <= scope
    ensures
      var native := NativeFlows(flows, scope, n);
      VisibleFlows(native, mine, true, |native|) == VisibleFlows(flows, mine, true, n)
  {
    if n > 0 {
      FlowsPurged(flows, scope, mine, n - 1);
      var before := NativeFlows(flows, scope, n - 1);
      VisibleFlowsPrefix(before, flows[n - 1], mine, |before|);
    }
  }

  lemma {:induction false} VisibleFlowsPrefix(a: seq<Flow>, f: Flow, scope: set<string>, n: nat)
    requires n <= |a|
    ensures VisibleFlows(a + [f], scope, true, n) == VisibleFlows(a, scope, true, n)
  {
    if n > 0 { VisibleFlowsPrefix(a, f, scope, n - 1); }
  }

  /** The verdict on an event is the verdict on what erasure leaves of it. */
  lemma DecidePurged(homes: Homes, v: View, u: View, e: Event, scope: set<string>, mine: set<string>)
    requires Purged(v, u, scope) && Judges(homes, v, scope) && mine <= scope
    ensures
      var left := EraseOne(homes, e, scope);
      Decide(v, e, mine, true) == if left.Some? then Decide(u, left.value, mine, true) else None
  {
    match e
    case FlowsSeen(flows) =>
      FlowsPurged(flows, scope, mine, |flows|);
    case ServiceLinkState(_, _) =>
      var l := LinkOf(e);
      assert ForeignId(v.namespaces, l.source, scope) || Known(u, l.source) == Known(v, l.source);
      assert ForeignId(v.namespaces, l.destination, scope) || Known(u, l.destination) == Known(v, l.destination);
    case _ =>
  }

  lemma {:induction false} KeepPurged(homes: Homes, v: View, u: View, events: seq<Event>, scope: set<string>, mine: set<string>, n: nat)
    requires n <= |events| && Purged(v, u, scope) && Judges(homes, v, scope) && mine <= scope
    ensures
      var erased := Erase(homes, events, scope, n);
      Keep(v, events, mine, true, n) == Keep(u, erased, mine, true, |erased|)
  {
    if n > 0 {
      KeepPurged(homes, v, u, events, scope, mine, n - 1);
      DecidePurged(homes, v, u, events[n - 1], scope, mine);
      var before := Erase(homes, events, scope, n - 1);
      var left := EraseOne(homes, events[n - 1], scope);
      if left.Some? {
        KeepPrefix(u, before, left.value, mine, true, |before|);
      }
    }
  }

  // ----- The whole history -----

  lemma {:induction false} MemoryPurged(records: seq<Homes>, polls: seq<Request>, scope: set<string>, channel: string, n: nat)
    requires n <= |polls| == |records| && History(polls, scope, channel)
    ensures Purged(Memory(polls, n), Memory(ErasedBy(records, polls, scope), n), scope)
  {
    if n > 0 {
      MemoryPurged(records, polls, scope, channel, n - 1);
      var p := polls[n - 1];
      LearnPurged(records[n - 1], channel, Memory(polls, n - 1), Memory(ErasedBy(records, polls, scope), n - 1), p.events, scope, |p.events|);
    }
  }

  lemma JudgedNoninterference(records: seq<Homes>, polls: seq<Request>, scope: set<string>, channel: string, n: nat)
    requires n < |polls| == |records| && History(polls, scope, channel) && Judges(records[n], Memory(polls, n + 1), scope)
    ensures var erased := ErasedBy(records, polls, scope); Kept(Memory(erased, n), erased[n]) == Kept(Memory(polls, n), polls[n])
  {
    MemoryPurged(records, polls, scope, channel, n + 1);
    KeepPurged(records[n], Memory(polls, n + 1), Memory(ErasedBy(records, polls, scope), n + 1), polls[n].events, scope,
               polls[n].scope, |polls[n].events|);
  }

  /**
   Strict-mode noninterference: every poll returns what it would have returned
   without whatever belonged to or touched a foreign namespace, for all histories,
   services that move included.  The polls' scopes may differ; foreign means
   foreign to all of them.
   */
  lemma StrictNoninterference(polls: seq<Request>, scope: set<string>, channel: string, n: nat)
    requires n < |polls| && History(polls, scope, channel)
    ensures Kept(Memory(Erased(polls, scope), n), Erased(polls, scope)[n]) == Kept(Memory(polls, n), polls[n])
  {
    JudgedNoninterference(Records(polls), polls, scope, channel, n);
  }

  // ----- Services that never move -----

  ghost predicate HomesHold(homes: Homes, channel: string, events: seq<Event>) {
    forall e, id :: e in events && Announced(channel, e, id).Some? ==>
      id in homes && homes[id] == Announced(channel, e, id).value
  }

  /** What is on record is where the services are. */
  lemma {:induction false} MemoryAtHome(homes: Homes, polls: seq<Request>, channel: string, n: nat, id: string)
    requires n <= |polls| && id in Memory(polls, n).namespaces
    requires forall i :: 0 <= i < |polls| ==> polls[i].channel == channel && HomesHold(homes, channel, polls[i].events)
    ensures id in homes && homes[id] == Memory(polls, n).namespaces[id]
  {
    var r, v := polls[n - 1], Memory(polls, n - 1);
    RememberedFacts(v, r);
    LearnsLast(channel, v, r.events, |r.events|, id);
    var i := LastAnnouncedIsSome(channel, r.events, |r.events|, id);
    if LastAnnounced(channel, r.events, |r.events|, id).None? {
      MemoryAtHome(homes, polls, channel, n - 1, id);
    } else {
      assert r.events[i] in r.events;
    }
  }

  /** If no service ever moves, links to foreign ones may be erased even before these are announced. */
  lemma FixedHomesNoninterference(homes: Homes, polls: seq<Request>, scope: set<string>, channel: string, n: nat)
    requires n < |polls| && History(polls, scope, channel)
    requires forall i :: 0 <= i < |polls| ==> HomesHold(homes, channel, polls[i].events)
    ensures
      var erased := ErasedBy(seq(|polls|, _ => homes), polls, scope);
      Kept(Memory(erased, n), erased[n]) == Kept(Memory(polls, n), polls[n])
  {
    forall id | id in Memory(polls, n + 1).namespaces
      ensures ForeignId(homes, id, scope) <==> Foreign(Memory(polls, n + 1).namespaces[id], scope)
    {
      MemoryAtHome(homes, polls, channel, n + 1, id);
    }
    JudgedNoninterference(seq(|polls|, _ => homes), polls, scope, channel, n);
  }

  // ----- Lenient mode -----

  /** The history is one channel's, in lenient mode and with one scope throughout. */
  ghost predicate OneScope(polls: seq<Request>, scope: set<string>, channel: string) {
    forall i :: 0 <= i < |polls| ==> LenientPoll(polls[i], scope, channel)
  }

  /** No poll of the history returns anything else when foreign namespaces are erased from it. */
  ghost predicate Unaffected(polls: seq<Request>, scope: set<string>) {
    forall n :: 0 <= n < |polls| ==>
      Kept(Memory(Erased(polls, scope), n), Erased(polls, scope)[n]) == Kept(Memory(polls, n), polls[n])
  }

  function Notifications(events: seq<Event>, n: nat): seq<Event>
    requires n <= |events|
  {
    if n == 0 then [] else
      Append(Notifications(events, n - 1), if events[n - 1].Notification? then Some(events[n - 1]) else None)
  }

  lemma {:induction false} NotificationsPrefix(a: seq<Event>, e: Event, n: nat)
    requires n <= |a|
    ensures Notifications(a + [e], n) == Notifications(a, n)
  {
    if n > 0 { NotificationsPrefix(a, e, n - 1); }
  }

  lemma {:induction false} NoFlowsForNobody(flows: seq<Flow>, n: nat)
    requires n <= |flows|
    ensures VisibleFlows(flows, {}, false, n) == []
  {
    if n > 0 { NoFlowsForNobody(flows, n - 1); }
  }

  /** A caller with no scope and no peers gets notifications only. */
  lemma {:induction false} NobodyGetsNotifications(v: View, events: seq<Event>, n: nat)
    requires n <= |events| && v.peers == {}
    ensures Keep(v, events, {}, false, n) == Notifications(events, n)
  {
    if n > 0 {
      NobodyGetsNotifications(v, events, n - 1);
      if events[n - 1].FlowsSeen? {
        NoFlowsForNobody(events[n - 1].flows, |events[n - 1].flows|);
      }
    }
  }

  lemma {:induction false} NotificationsStay(homes: Homes, events: seq<Event>, scope: set<string>, n: nat)
    requires n <= |events|
    ensures var erased := Erase(homes, events, scope, n); Notifications(erased, |erased|) == Notifications(events, n)
  {
    if n > 0 {
      NotificationsStay(homes, events, scope, n - 1);
      var before, left := Erase(homes, events, scope, n - 1), EraseOne(homes, events[n - 1], scope);
      if left.Some? {
        NotificationsPrefix(before, left.value, |before|);
      }
    }
  }

  lemma {:induction false} NobodyHasPeers(polls: seq<Request>, channel: string, n: nat)
    requires n <= |polls| && OneScope(polls, {}, channel)
    ensures Memory(polls, n).peers == {}
  {
    if n > 0 {
      NobodyHasPeers(polls, channel, n - 1);
      var r, v := polls[n - 1], Memory(polls, n - 1);
      LearnsLast(r.channel, v, r.events, |r.events|, "");
      PeersAreFarEnds(Learn(r.channel, v, r.events, |r.events|), r.events, {}, |r.events|);
    }
  }

  lemma NobodyUnaffected(polls: seq<Request>, channel: string)
    requires OneScope(polls, {}, channel)
    ensures Unaffected(polls, {})
  {
    var erased := Erased(polls, {});
    assert OneScope(erased, {}, channel);
    forall n | 0 <= n < |polls| ensures Kept(Memory(erased, n), erased[n]) == Kept(Memory(polls, n), polls[n]) {
      NobodyHasPeers(polls, channel, n + 1);
      NobodyHasPeers(erased, channel, n + 1);
      NobodyGetsNotifications(Memory(polls, n + 1), polls[n].events, |polls[n].events|);
      NobodyGetsNotifications(Memory(erased, n + 1), erased[n].events, |erased[n].events|);
      NotificationsStay(Records(polls)[n], polls[n].events, {}, |polls[n].events|);
    }
  }

  /** A service in scope that meets a foreign one: the caller is shown the latter, unless it is erased. */
  lemma MeetingInterferes(scope: set<string>, x: string, channel: string) returns (polls: seq<Request>)
    requires x in scope && channel != ""
    ensures OneScope(polls, scope, channel) && !Unaffected(polls, scope)
  {
    var y := Outside(scope);
    var poll := Request(channel, scope, false, Meeting(x, y));
    polls := [poll];
    var a, b, w := Announce("a", x), Announce("b", y), Remembered(BLANK, poll);
    MeetingReveals(BLANK, poll, x, y);
    assert Memory(polls, 1) == w && Records(polls)[0] == w.namespaces;
    DecidedIsKept(w, poll.events, scope, false, 3, 2);
    assert b in Kept(Memory(polls, 0), polls[0]);
    assert Erase(w.namespaces, poll.events, scope, 1) == [];
    assert Erase(w.namespaces, poll.events, scope, 2) == [a];
    assert Erase(w.namespaces, poll.events, scope, 3) == [a];
    var left := Erased(polls, scope)[0];
    assert left.events == [a];
    if b in Kept(BLANK, left) {
      KeptIsDecided(Remembered(BLANK, left), left.events, scope, false, 1, b);
      assert false;
    }
  }

  /** In lenient mode a caller is unaffected by foreign namespaces, in all histories, exactly if it may see nothing at all. */
  lemma LenientInterferesExactly(scope: set<string>)
    ensures scope == {} <==> forall polls, channel :: OneScope(polls, scope, channel) ==> Unaffected(polls, scope)
  {
    if scope == {} {
      forall polls, channel | OneScope(polls, scope, channel) ensures Unaffected(polls, scope) {
        NobodyUnaffected(polls, channel);
      }
    } else {
      var x :| x in scope;
      var polls := MeetingInterferes(scope, x, "c");
    }
  }
}
