/** Filtering a filtered batch changes nothing. */
module Idempotence {
  import opened Options
  import opened ServiceMap
  import opened FilterLaws

  /** Whether an announcement of id in ns is shown to the caller. */
  predicate Shown(v: View, id: string, ns: string, scope: set<string>, requireBoth: bool) {
    ns in scope || (!requireBoth && id in v.peers)
  }

  /** If the last announcement of an ID is shown, it is still the last; otherwise what remains is in scope. */
  predicate LastSurvives(before: Option<string>, after: Option<string>, v: View, id: string, scope: set<string>, requireBoth: bool) {
    if before.None? then after.None?
    else if Shown(v, id, before.value, scope, requireBoth) then after == before
    else after.None? || after.value in scope
  }

  lemma {:induction false} LastAnnouncedPrefix(channel: string, a: seq<Event>, e: Event, n: nat, id: string)
    requires n <= |a|
    ensures LastAnnounced(channel, a + [e], n, id) == LastAnnounced(channel, a, n, id)
  {
    if n > 0 {
      LastAnnouncedPrefix(channel, a, e, n - 1, id);
    }
  }

  lemma LastAnnouncedAppend(channel: string, a: seq<Event>, e: Event, id: string)
    ensures LastAnnounced(channel, a + [e], |a| + 1, id)
         == OrElse(Announced(channel, e, id), LastAnnounced(channel, a, |a|, id))
  {
    LastAnnouncedPrefix(channel, a, e, |a|, id);
  }

  lemma {:induction false} KeptKeepsLast(channel: string, w: View, events: seq<Event>, scope: set<string>, requireBoth: bool, n: nat, id: string)
    requires n <= |events|
    ensures
      var k := Keep(w, events, scope, requireBoth, n);
      LastSurvives(LastAnnounced(channel, events, n, id), LastAnnounced(channel, k, |k|, id), w, id, scope, requireBoth)
  {
    if n > 0 {
      KeptKeepsLast(channel, w, events, scope, requireBoth, n - 1, id);
      var k := Keep(w, events, scope, requireBoth, n - 1);
      var verdict := Decide(w, events[n - 1], scope, requireBoth);
      if verdict.Some? {
        LastAnnouncedAppend(channel, k, verdict.value, id);
      }
    }
  }

  /** What the second poll knows of an ID: the same, or a namespace in scope where the first knew one that is not. */
  lemma SecondLook(v: View, r: Request, id: string)
    ensures
      var w := Remembered(v, r);
      var w' := Remembered(w, r.(events := Kept(v, r)));
      || Known(w', id) == Known(w, id)
      || (&& Known(w, id).Some? && Known(w, id).value !in r.scope && (r.requireBoth || id !in w.peers)
          && Known(w', id).Some? && Known(w', id).value in r.scope)
  {
    var w := Remembered(v, r);
    var k := Kept(v, r);
    RememberedFacts(v, r);
    RememberedFacts(w, r.(events := k));
    LearnsLast(r.channel, v, r.events, |r.events|, id);
    LearnsLast(r.channel, w, k, |k|, id);
    KeptKeepsLast(r.channel, w, r.events, r.scope, r.requireBoth, |r.events|, id);
  }

  /** A visible link reveals its foreign end, so that end is a peer after the poll. */
  lemma VisibleLinkRevealed(v: View, r: Request, i: nat)
    requires i < |r.events| && r.events[i].ServiceLinkState? && !r.requireBoth
    requires Decide(Remembered(v, r), r.events[i], r.scope, false).Some? && r.events[i].link.Some?
    ensures
      var w, l := Remembered(v, r), r.events[i].link.value;
      && (Known(w, l.source).value !in r.scope ==> l.source in w.peers)
      && (Known(w, l.destination).value !in r.scope ==> l.destination in w.peers)
  {
    var learned := Learn(r.channel, v, r.events, |r.events|);
    PeersAreFarEnds(learned, r.events, r.scope, |r.events|);
    var p := PeerOf(learned, r.events[i], r.scope);
    if p.Some? {
      assert p.value in Remembered(v, r).peers;
    }
  }

  /** A link naming no endpoints is kept only by a memory of the empty ID, which no channel has. */
  predicate NoEmptyId(v: View) {
    "" !in v.namespaces
  }

  lemma RememberedNoEmptyId(v: View, r: Request)
    requires NoEmptyId(v)
    ensures NoEmptyId(Remembered(v, r))
  {
    RememberedFacts(v, r);
    LearnsLast(r.channel, v, r.events, |r.events|, "");
    var i := LastAnnouncedIsSome(r.channel, r.events, |r.events|, "");
    assert Known(Remembered(v, r), "") == None;
  }

  /** A link kept by the first poll is kept by the second, which learns no new peer from it. */
  lemma LinkKeptAgain(v: View, r: Request, i: nat)
    requires NoEmptyId(v) && i < |r.events| && r.events[i].ServiceLinkState?
    requires Decide(Remembered(v, r), r.events[i], r.scope, r.requireBoth).Some?
    ensures
      var w := Remembered(v, r);
      var w' := Remembered(w, r.(events := Kept(v, r)));
      && Decide(w', r.events[i], r.scope, r.requireBoth) == Some(r.events[i])
      && (!r.requireBoth && PeerOf(w', r.events[i], r.scope).Some? ==> PeerOf(w', r.events[i], r.scope).value in w.peers)
  {
    RememberedNoEmptyId(v, r);
    var l := r.events[i].link.value;
    SecondLook(v, r, l.source);
    SecondLook(v, r, l.destination);
    if !r.requireBoth {
      VisibleLinkRevealed(v, r, i);
    }
  }

  // ----- Every kept event is kept again -----

  lemma {:induction false} FlowsKeptAgain(flows: seq<Flow>, scope: set<string>, requireBoth: bool, n: nat)
    requires n <= |flows|
    ensures
      forall f :: f in VisibleFlows(flows, scope, requireBoth, n) ==> FlowVisible(f, scope, requireBoth)
  {
    if n > 0 {
      FlowsKeptAgain(flows, scope, requireBoth, n - 1);
    }
  }

  lemma {:induction false} AllVisibleAllKept(flows: seq<Flow>, scope: set<string>, requireBoth: bool, n: nat)
    requires n <= |flows| && forall f :: f in flows ==> FlowVisible(f, scope, requireBoth)
    ensures VisibleFlows(flows, scope, requireBoth, n) == flows[..n]
  {
    if n > 0 {
      AllVisibleAllKept(flows, scope, requireBoth, n - 1);
    }
  }

  lemma EventKeptAgain(v: View, r: Request, i: nat)
    requires NoEmptyId(v) && i < |r.events| && Decide(Remembered(v, r), r.events[i], r.scope, r.requireBoth).Some?
    ensures
      var w := Remembered(v, r);
      var w' := Remembered(w, r.(events := Kept(v, r)));
      var kept := Decide(w, r.events[i], r.scope, r.requireBoth);
      && Decide(w', kept.value, r.scope, r.requireBoth) == kept
      && (!r.requireBoth && PeerOf(w', kept.value, r.scope).Some? ==> PeerOf(w', kept.value, r.scope).value in w.peers)
  {
    var w := Remembered(v, r);
    RememberedFacts(w, r.(events := Kept(v, r)));
    match r.events[i]
    case FlowsSeen(flows) =>
      FlowsKeptAgain(flows, r.scope, r.requireBoth, |flows|);
      var k := VisibleFlows(flows, r.scope, r.requireBoth, |flows|);
      AllVisibleAllKept(k, r.scope, r.requireBoth, |k|);
      assert k[..|k|] == k;
    case ServiceLinkState(_, _) =>
      LinkKeptAgain(v, r, i);
    case _ =>
  }

  /** Every event of the filtered batch is some event's verdict. */
  lemma {:induction false} KeptFrom(w: View, events: seq<Event>, scope: set<string>, requireBoth: bool, n: nat, m: nat) returns (i: nat)
    requires n <= |events| && m < |Keep(w, events, scope, requireBoth, n)|
    ensures i < n && Decide(w, events[i], scope, requireBoth) == Some(Keep(w, events, scope, requireBoth, n)[m])
  {
    if m < |Keep(w, events, scope, requireBoth, n - 1)| {
      i := KeptFrom(w, events, scope, requireBoth, n - 1, m);
    } else {
      i := n - 1;
    }
  }

  lemma {:induction false} AllKept(w: View, events: seq<Event>, scope: set<string>, requireBoth: bool, n: nat)
    requires n <= |events| && forall m :: 0 <= m < |events| ==> Decide(w, events[m], scope, requireBoth) == Some(events[m])
    ensures Keep(w, events, scope, requireBoth, n) == events[..n]
  {
    if n > 0 {
      AllKept(w, events, scope, requireBoth, n - 1);
    }
  }

  /**
   Refiltering a filtered batch on the same channel, scope and mode returns it
   unchanged and adds no peer, even if the batch announced an ID twice.
   */
  lemma Idempotent(v: View, r: Request)
    requires NoEmptyId(v)
    ensures
      var again := r.(events := Kept(v, r));
      && Kept(Remembered(v, r), again) == Kept(v, r)
      && Remembered(Remembered(v, r), again).peers == Remembered(v, r).peers
  {
    var w, k := Remembered(v, r), Kept(v, r);
    var again := r.(events := k);
    var w' := Remembered(w, again);
    forall m | 0 <= m < |k|
      ensures Decide(w', k[m], r.scope, r.requireBoth) == Some(k[m])
      ensures !r.requireBoth && PeerOf(w', k[m], r.scope).Some? ==> PeerOf(w', k[m], r.scope).value in w.peers
    {
      var i := KeptFrom(w, r.events, r.scope, r.requireBoth, |r.events|, m);
      EventKeptAgain(v, r, i);
    }
    AllKept(w', k, r.scope, r.requireBoth, |k|);
    NoNewPeers(w, again);
  }

  lemma NoNewPeers(w: View, r: Request)
    requires forall m :: 0 <= m < |r.events| && !r.requireBoth && PeerOf(Remembered(w, r), r.events[m], r.scope).Some? ==>
                PeerOf(Remembered(w, r), r.events[m], r.scope).value in w.peers
    ensures Remembered(w, r).peers == w.peers
  {
    RememberedFacts(w, r);
    if !r.requireBoth {
      var learned := Learn(r.channel, w, r.events, |r.events|);
      LearnsLast(r.channel, w, r.events, |r.events|, "");
      PeersAreFarEnds(learned, r.events, r.scope, |r.events|);
      forall p | p in Remembered(w, r).peers ensures p in w.peers {
        if p !in w.peers {
          var m :| 0 <= m < |r.events| && PeerOf(learned, r.events[m], r.scope) == Some(p);
          SameNamespacesSamePeer(learned, Remembered(w, r), r.events[m], r.scope);
        }
      }
    }
  }
}
