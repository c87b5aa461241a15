/** What the passes of a poll compute, and why the order of a batch does not matter. */
module FilterLaws {
  import opened Options
  import opened Collections
  import opened Visibility
  import opened ServiceMap

  // ----- Learning keeps the last announcement -----

  /** The namespace this event announces for id on this channel, if any. */
  function Announced(channel: string, e: Event, id: string): Option<string> {
    if e.ServiceState? && e.service.Some? && channel != "" && id != "" && e.service.value.id == id
    then Some(e.service.value.namespace) else None
  }

  /** The last announcement of id among the first n events. */
  function LastAnnounced(channel: string, events: seq<Event>, n: nat, id: string): Option<string>
    requires n <= |events|
  {
    if n == 0 then None
    else if Announced(channel, events[n - 1], id).Some? then Announced(channel, events[n - 1], id)
    else LastAnnounced(channel, events, n - 1, id)
  }

  function OrElse<T>(a: Option<T>, b: Option<T>): Option<T> {
    if a.Some? then a else b
  }

  lemma {:induction false} LearnsLast(channel: string, v: View, events: seq<Event>, n: nat, id: string)
    requires n <= |events|
    ensures Known(Learn(channel, v, events, n), id) == OrElse(LastAnnounced(channel, events, n, id), Known(v, id))
    ensures Learn(channel, v, events, n).peers == v.peers
  {
    if n > 0 {
      LearnsLast(channel, v, events, n - 1, id);
    }
  }

  lemma {:induction false} LastAnnouncedIsSome(channel: string, events: seq<Event>, n: nat, id: string) returns (i: nat)
    requires n <= |events|
    ensures LastAnnounced(channel, events, n, id).Some? ==>
      i < n && Announced(channel, events[i], id) == LastAnnounced(channel, events, n, id)
    ensures LastAnnounced(channel, events, n, id).Some? ==>
      forall j :: i < j < n ==> Announced(channel, events[j], id).None?
    ensures LastAnnounced(channel, events, n, id).None? ==> forall j :: 0 <= j < n ==> Announced(channel, events[j], id).None?
  {
    i := 0;
    if n > 0 {
      if Announced(channel, events[n - 1], id).Some? {
        i := n - 1;
      } else {
        i := LastAnnouncedIsSome(channel, events, n - 1, id);
      }
    }
  }

  // ----- Peers are exactly the far ends -----

  lemma SameNamespacesSamePeer(v: View, u: View, e: Event, scope: set<string>)
    requires v.namespaces == u.namespaces
    ensures PeerOf(v, e, scope) == PeerOf(u, e, scope)
  {
  }

  /** Pass 1b changes no namespace and adds exactly the far ends of links with one end in scope. */
  lemma {:induction false} PeersAreFarEnds(v: View, events: seq<Event>, scope: set<string>, n: nat)
    requires n <= |events|
    ensures Peers(v, events, scope, n).namespaces == v.namespaces
    ensures forall p :: p in Peers(v, events, scope, n).peers <==>
      p in v.peers || exists i :: 0 <= i < n && PeerOf(v, events[i], scope) == Some(p)
  {
    if n > 0 {
      PeersAreFarEnds(v, events, scope, n - 1);
      var u := Peers(v, events, scope, n - 1);
      SameNamespacesSamePeer(v, u, events[n - 1], scope);
      forall p
        ensures p in Peers(v, events, scope, n).peers <==>
          p in v.peers || exists i :: 0 <= i < n && PeerOf(v, events[i], scope) == Some(p)
      {
        if PeerOf(v, events[n - 1], scope) == Some(p) {
          assert p in Peers(v, events, scope, n).peers;
        }
      }
    }
  }

  /** The two views a poll works with agree on namespaces, and peers only grow. */
  lemma RememberedFacts(v: View, r: Request)
    ensures Remembered(v, r).namespaces == Learn(r.channel, v, r.events, |r.events|).namespaces
    ensures v.peers <= Remembered(v, r).peers
    ensures r.requireBoth ==> Remembered(v, r).peers == v.peers
  {
    var learned := Learn(r.channel, v, r.events, |r.events|);
    LearnsLast(r.channel, v, r.events, |r.events|, "");
    PeersAreFarEnds(learned, r.events, r.scope, |r.events|);
  }

  // ----- One visibility rule -----

  /** Something that involves these namespaces may be shown: one of them is the caller's and, in strict mode, none is foreign. */
  predicate MayShow(involved: set<string>, scope: set<string>, requireBoth: bool) {
    (exists ns :: ns in involved && ns != "" && ns in scope) && (requireBoth ==> forall ns :: ns in involved ==> !Foreign(ns, scope))
  }

  /** The namespaces an event involves; None for a link with an endpoint never announced, and for what shows no namespace. */
  function Involved(v: View, e: Event): Option<set<string>> {
    match e
    case FlowSeen(f) => Some({f.source, f.destination})
    case NamespaceState(name, _) => Some({name})
    case ServiceState(_, _) => Some({ServiceOf(e).namespace})
    case ServiceLinkState(_, _) =>
      var src, dst := Known(v, LinkOf(e).source), Known(v, LinkOf(e).destination);
      if src.Some? && dst.Some? then Some({src.value, dst.value}) else None
    case _ => None
  }

  /** The rule: what involves namespaces is kept exactly when they may be shown; notifications and revealed services pass. */
  predicate ByTheRule(v: View, e: Event, scope: set<string>, requireBoth: bool) {
    || e.Notification?
    || (Involved(v, e).Some? && MayShow(Involved(v, e).value, scope, requireBoth))
    || (e.ServiceState? && !requireBoth && ServiceOf(e).id in v.peers)
  }

  /** A namespace or service event of no namespace, let through by a scope that holds the empty one. */
  predicate Unowned(e: Event, scope: set<string>) {
    "" in scope && ((e.NamespaceState? && e.name == "") || (e.ServiceState? && ServiceOf(e).namespace == ""))
  }

  /**
   One rule decides every event that is no batch of flows, and kept events are
   unchanged; only the branches of namespace and service events, which lack the
   non-empty check, let through more.
   */
  lemma OneRule(v: View, e: Event, scope: set<string>, requireBoth: bool)
    requires !e.FlowsSeen?
    ensures Decide(v, e, scope, requireBoth) == if ByTheRule(v, e, scope, requireBoth) || Unowned(e, scope) then Some(e) else None
  {
    if Involved(v, e).Some? && MayShow(Involved(v, e).value, scope, requireBoth) {
      var ns :| ns in Involved(v, e).value && ns != "" && ns in scope;
    }
  }

  /** The rule decides alone, for all events and memories, exactly when the empty namespace is not in scope. */
  lemma OneRuleExactly(scope: set<string>, requireBoth: bool)
    ensures "" !in scope <==>
      forall v, e: Event :: !e.FlowsSeen? ==> (Decide(v, e, scope, requireBoth) == Some(e) <==> ByTheRule(v, e, scope, requireBoth))
  {
    forall v, e: Event | !e.FlowsSeen? && "" !in scope
      ensures Decide(v, e, scope, requireBoth) == Some(e) <==> ByTheRule(v, e, scope, requireBoth)
    {
      OneRule(v, e, scope, requireBoth);
    }
    if "" in scope {
      OneRule(BLANK, NamespaceState("", 0), scope, requireBoth);
      assert Unowned(NamespaceState("", 0), scope) && !ByTheRule(BLANK, NamespaceState("", 0), scope, requireBoth);
    }
  }

  lemma FlowRule(f: Flow, scope: set<string>, requireBoth: bool)
    ensures FlowVisible(f, scope, requireBoth) <==> MayShow({f.source, f.destination}, scope, requireBoth)
  {
    if FlowVisible(f, scope, requireBoth) {
      var ns :| ns in {f.source, f.destination} && ns != "" && ns in scope;
    }
  }

  lemma {:induction false} BatchInOrder(flows: seq<Flow>, scope: set<string>, requireBoth: bool, n: nat)
    requires n <= |flows|
    ensures Subsequence(VisibleFlows(flows, scope, requireBoth, n), flows[..n])
  {
    if n > 0 {
      BatchInOrder(flows, scope, requireBoth, n - 1);
      assert flows[..n] == flows[..n - 1] + [flows[n - 1]];
      SubsequenceExtends(VisibleFlows(flows, scope, requireBoth, n - 1), flows[..n - 1], flows[n - 1]);
    }
  }

  lemma {:induction false} BatchCounts(flows: seq<Flow>, scope: set<string>, requireBoth: bool, n: nat, f: Flow)
    requires n <= |flows|
    ensures multiset(VisibleFlows(flows, scope, requireBoth, n))[f]
         == if FlowVisible(f, scope, requireBoth) then multiset(flows[..n])[f] else 0
  {
    if n > 0 {
      BatchCounts(flows, scope, requireBoth, n - 1, f);
      var last, before := flows[n - 1], VisibleFlows(flows, scope, requireBoth, n - 1);
      assert flows[..n] == flows[..n - 1] + [last];
      assert multiset(before + [last]) == multiset(before) + multiset{last};
    }
  }

  /** A batch of flows keeps, in order, exactly its visible flows, each as often as it came; none left drops the event. */
  lemma BatchKeepsVisible(flows: seq<Flow>, scope: set<string>, requireBoth: bool)
    ensures
      var keep := VisibleFlows(flows, scope, requireBoth, |flows|);
      && Subsequence(keep, flows)
      && (forall f :: multiset(keep)[f] ==
           if MayShow({f.source, f.destination}, scope, requireBoth) then multiset(flows)[f] else 0)
      && DecideFlows(flows, scope, requireBoth) == if keep == [] then None else Some(FlowsSeen(keep))
  {
    BatchInOrder(flows, scope, requireBoth, |flows|);
    assert flows[..|flows|] == flows;
    forall f
      ensures multiset(VisibleFlows(flows, scope, requireBoth, |flows|))[f] ==
        if MayShow({f.source, f.destination}, scope, requireBoth) then multiset(flows)[f] else 0
    {
      BatchCounts(flows, scope, requireBoth, |flows|, f);
      FlowRule(f, scope, requireBoth);
    }
  }

  /** The flow joins namespaces that may be shown. */
  predicate FlowShown(f: Flow, scope: set<string>, requireBoth: bool) {
    MayShow({f.source, f.destination}, scope, requireBoth)
  }

  /** keep has of the flows just those that may be shown, in order and each as often as it came. */
  ghost predicate Trims(flows: seq<Flow>, keep: seq<Flow>, scope: set<string>, requireBoth: bool) {
    && Subsequence(keep, flows)
    && forall f :: multiset(keep)[f] == if FlowShown(f, scope, requireBoth) then multiset(flows)[f] else 0
  }

  /**
   In either mode a batch of flows is dropped exactly if none of its flows may be
   shown, and is otherwise trimmed to those that may.
   */
  lemma BatchExactly(v: View, flows: seq<Flow>, scope: set<string>, requireBoth: bool)
    ensures Decide(v, FlowsSeen(flows), scope, requireBoth).None? <==> forall f :: f in flows ==> !FlowShown(f, scope, requireBoth)
    ensures
      var verdict := Decide(v, FlowsSeen(flows), scope, requireBoth);
      verdict.Some? ==> verdict.value.FlowsSeen? && Trims(flows, verdict.value.flows, scope, requireBoth)
  {
    BatchKeepsVisible(flows, scope, requireBoth);
    var keep := VisibleFlows(flows, scope, requireBoth, |flows|);
    if f :| f in flows && FlowShown(f, scope, requireBoth) {
      assert multiset(flows)[f] > 0 && multiset(keep)[f] == multiset(flows)[f];
      assert f in keep;
    }
    if keep != [] {
      var f := keep[0];
      assert multiset(keep)[f] > 0;
      assert FlowShown(f, scope, requireBoth) && multiset(flows)[f] > 0;
      assert f in flows;
    }
  }

  // ----- Keep is a filter -----

  /** Each event's fate, in batch order. */
  function Verdicts(v: View, r: Request): (verdicts: seq<Option<Event>>) {
    seq(|r.events|, i requires 0 <= i < |r.events| => Decide(Remembered(v, r), r.events[i], r.scope, r.requireBoth))
  }

  function Collect(verdicts: seq<Option<Event>>, n: nat): seq<Event>
    requires n <= |verdicts|
  {
    if n == 0 then [] else Append(Collect(verdicts, n - 1), verdicts[n - 1])
  }

  lemma {:induction false} KeepCollects(v: View, r: Request, n: nat)
    requires n <= |r.events|
    ensures Keep(Remembered(v, r), r.events, r.scope, r.requireBoth, n) == Collect(Verdicts(v, r), n)
  {
    if n > 0 {
      KeepCollects(v, r, n - 1);
    }
  }

  /** What is decided to be kept is kept, and what is kept was decided to be. */
  lemma {:induction false} DecidedIsKept(w: View, events: seq<Event>, scope: set<string>, requireBoth: bool, n: nat, j: nat)
    requires j < n <= |events| && Decide(w, events[j], scope, requireBoth).Some?
    ensures Decide(w, events[j], scope, requireBoth).value in Keep(w, events, scope, requireBoth, n)
  {
    if j < n - 1 {
      DecidedIsKept(w, events, scope, requireBoth, n - 1, j);
    }
  }

  lemma {:induction false} KeptIsDecided(w: View, events: seq<Event>, scope: set<string>, requireBoth: bool, n: nat, e: Event)
    requires n <= |events| && e in Keep(w, events, scope, requireBoth, n)
    ensures exists j :: 0 <= j < n && Decide(w, events[j], scope, requireBoth) == Some(e)
  {
    if Decide(w, events[n - 1], scope, requireBoth) != Some(e) {
      KeptIsDecided(w, events, scope, requireBoth, n - 1, e);
    }
  }

  // ----- Order independence -----

  /** No two events announce one service ID in two namespaces. */
  predicate Agree(channel: string, a: Event, b: Event) {
    (a.ServiceState? && a.service.Some?) ==>
      Announced(channel, b, a.service.value.id) in {None, Announced(channel, a, a.service.value.id)}
  }

  /** Within a batch each service ID is announced in one namespace only. */
  ghost predicate OneNamespaceEach(channel: string, events: seq<Event>) {
    forall i, j :: 0 <= i < |events| && 0 <= j < |events| ==> Agree(channel, events[i], events[j])
  }

  /** places is a permutation and events' holds the events of events in that order. */
  ghost predicate Permutes(events: seq<Event>, events': seq<Event>, places: seq<nat>) {
    && |events'| == |events| == |places|
    && (forall j :: 0 <= j < |places| ==> places[j] < |events| && events'[j] == events[places[j]])
    && (forall i :: 0 <= i < |events| ==> i in places)
  }

  lemma SameLast(channel: string, events: seq<Event>, events': seq<Event>, places: seq<nat>, id: string)
    requires Permutes(events, events', places) && OneNamespaceEach(channel, events)
    ensures LastAnnounced(channel, events, |events|, id) == LastAnnounced(channel, events', |events'|, id)
  {
    var i := LastAnnouncedIsSome(channel, events, |events|, id);
    var j := LastAnnouncedIsSome(channel, events', |events'|, id);
    if LastAnnounced(channel, events, |events|, id).Some? {
      assert i in places;
      var k :| 0 <= k < |places| && places[k] == i;
      assert Announced(channel, events'[k], id) == Announced(channel, events[i], id);
    }
    if LastAnnounced(channel, events', |events'|, id).Some? {
      assert Announced(channel, events[places[j]], id) == Announced(channel, events'[j], id);
      assert Agree(channel, events[i], events[places[j]]);
    }
  }

  lemma MapsAgree(a: map<string, string>, b: map<string, string>)
    requires forall id :: (id in a <==> id in b) && (id in a ==> a[id] == b[id])
    ensures a == b
  {
  }

  lemma SameLearned(v: View, r: Request, r': Request, places: seq<nat>)
    requires Permutes(r.events, r'.events, places) && OneNamespaceEach(r.channel, r.events)
    requires r' == r.(events := r'.events)
    ensures Learn(r.channel, v, r.events, |r.events|) == Learn(r.channel, v, r'.events, |r'.events|)
  {
    var a, b := Learn(r.channel, v, r.events, |r.events|), Learn(r.channel, v, r'.events, |r'.events|);
    forall id ensures Known(a, id) == Known(b, id) && a.peers == b.peers {
      LearnsLast(r.channel, v, r.events, |r.events|, id);
      LearnsLast(r.channel, v, r'.events, |r'.events|, id);
      SameLast(r.channel, r.events, r'.events, places, id);
    }
    forall id ensures (id in a.namespaces <==> id in b.namespaces) && (id in a.namespaces ==> a.namespaces[id] == b.namespaces[id]) {
      assert Known(a, id) == Known(b, id);
    }
    MapsAgree(a.namespaces, b.namespaces);
    assert Known(a, "") == Known(b, "");
  }

  lemma SamePeers(v: View, r: Request, r': Request, places: seq<nat>)
    requires Permutes(r.events, r'.events, places) && r' == r.(events := r'.events)
    ensures Peers(v, r.events, r.scope, |r.events|) == Peers(v, r'.events, r.scope, |r'.events|)
  {
    var a, b := Peers(v, r.events, r.scope, |r.events|), Peers(v, r'.events, r.scope, |r'.events|);
    PeersAreFarEnds(v, r.events, r.scope, |r.events|);
    PeersAreFarEnds(v, r'.events, r.scope, |r'.events|);
    forall p ensures p in a.peers <==> p in b.peers {
      if i :| 0 <= i < |r.events| && PeerOf(v, r.events[i], r.scope) == Some(p) {
        assert i in places;
        var j :| 0 <= j < |places| && places[j] == i;
        assert PeerOf(v, r'.events[j], r.scope) == Some(p);
      }
      if j :| 0 <= j < |r'.events| && PeerOf(v, r'.events[j], r.scope) == Some(p) {
        assert PeerOf(v, r.events[places[j]], r.scope) == Some(p);
      }
    }
  }

  /**
   Permuting a batch that gives each ID one namespace permutes the verdicts alike
   and leaves the same memory: a link may precede the services it names.
   */
  lemma OrderIndependence(v: View, r: Request, r': Request, places: seq<nat>)
    requires Permutes(r.events, r'.events, places) && OneNamespaceEach(r.channel, r.events)
    requires r' == r.(events := r'.events)
    ensures Remembered(v, r') == Remembered(v, r)
    ensures forall j :: 0 <= j < |places| ==> Verdicts(v, r')[j] == Verdicts(v, r)[places[j]]
    ensures Kept(v, r) == Collect(Verdicts(v, r), |r.events|) && Kept(v, r') == Collect(Verdicts(v, r'), |r'.events|)
  {
    SameLearned(v, r, r', places);
    SamePeers(Learn(r.channel, v, r.events, |r.events|), r, r', places);
    KeepCollects(v, r, |r.events|);
    KeepCollects(v, r', |r'.events|);
  }

  /** The batch with event i moved to the end. */
  function MovedLast(events: seq<Event>, i: nat): seq<Event>
    requires i < |events|
  {
    events[..i] + events[i + 1..] + [events[i]]
  }

  lemma MovingPermutes(events: seq<Event>, i: nat) returns (places: seq<nat>)
    requires i < |events|
    ensures Permutes(events, MovedLast(events, i), places)
  {
    var n := |events|;
    places := seq(n, j requires 0 <= j < n => if j < i then j else if j < n - 1 then j + 1 else i);
    forall k | 0 <= k < n ensures k in places {
      var j := if k < i then k else if k == i then n - 1 else k - 1;
      assert places[j] == k;
    }
  }

  /** The condition is exact: a batch is remembered alike in every order only if each ID has one namespace. */
  lemma OrderIndependenceExact(v: View, r: Request)
    ensures OneNamespaceEach(r.channel, r.events) <==>
      forall events', places :: Permutes(r.events, events', places) ==>
        Remembered(v, r.(events := events')).namespaces == Remembered(v, r).namespaces
  {
    if OneNamespaceEach(r.channel, r.events) {
      forall events', places | Permutes(r.events, events', places)
        ensures Remembered(v, r.(events := events')).namespaces == Remembered(v, r).namespaces
      {
        OrderIndependence(v, r, r.(events := events'), places);
      }
    } else {
      var i, j :| 0 <= i < |r.events| && 0 <= j < |r.events| && !Agree(r.channel, r.events[i], r.events[j]);
      var id := r.events[i].service.value.id;
      MovedDecides(v, r, i, id);
      MovedDecides(v, r, j, id);
      var p := MovingPermutes(r.events, i);
      var q := MovingPermutes(r.events, j);
    }
  }

  lemma MovedDecides(v: View, r: Request, i: nat, id: string)
    requires i < |r.events| && Announced(r.channel, r.events[i], id).Some?
    ensures Known(Remembered(v, r.(events := MovedLast(r.events, i))), id) == Announced(r.channel, r.events[i], id)
  {
    var r' := r.(events := MovedLast(r.events, i));
    LearnsLast(r.channel, v, r'.events, |r'.events|, id);
    RememberedFacts(v, r');
  }
}
