/** In lenient mode no edge is left dangling, and nothing is revealed without a visible edge. */
module Dangling {
  import opened Options
  import opened Strings
  import opened ServiceMap
  import opened FilterLaws
  import opened Idempotence

  /** A channel's memory as the registry keeps it: no empty service ID, nothing at all for the empty channel. */
  predicate Registered(channel: string, v: View) {
    "" !in v.namespaces && (channel == "" ==> v == BLANK)
  }

  lemma RememberedRegistered(v: View, r: Request)
    requires Registered(r.channel, v)
    ensures Registered(r.channel, Remembered(v, r))
  {
    RememberedNoEmptyId(v, r);
    if r.channel == "" {
      NothingLearned(v, r.events, |r.events|);
      if !r.requireBoth {
        PeersAreFarEnds(v, r.events, r.scope, |r.events|);
        assert Peers(v, r.events, r.scope, |r.events|).peers == {};
      }
    }
  }

  lemma {:induction false} NothingLearned(v: View, events: seq<Event>, n: nat)
    requires n <= |events|
    ensures Learn("", v, events, n) == v
  {
    if n > 0 { NothingLearned(v, events, n - 1); }
  }

  /**
   No dangling edge: if a link is kept, the last announcement of each of its
   endpoints in the same batch is kept, and a foreign endpoint stays revealed.
   */
  lemma NoDanglingEdge(v: View, r: Request, i: nat, id: string)
    requires Registered(r.channel, v) && !r.requireBoth && i < |r.events|
    requires r.events[i].ServiceLinkState? && Decide(Remembered(v, r), r.events[i], r.scope, false).Some?
    requires id in {LinkOf(r.events[i]).source, LinkOf(r.events[i]).destination}
    ensures
      var w := Remembered(v, r);
      && id in w.namespaces && (w.namespaces[id] in r.scope || id in w.peers)
      && forall j :: 0 <= j < |r.events| && Announced(r.channel, r.events[j], id).Some?
           && (forall k :: j < k < |r.events| ==> Announced(r.channel, r.events[k], id).None?)
           ==> Decide(w, r.events[j], r.scope, false) == Some(r.events[j])
  {
    var w := Remembered(v, r);
    RememberedNoEmptyId(v, r);
    VisibleLinkRevealed(v, r, i);
    RememberedFacts(v, r);
    LearnsLast(r.channel, v, r.events, |r.events|, id);
    forall j | 0 <= j < |r.events| && Announced(r.channel, r.events[j], id).Some?
      && (forall k :: j < k < |r.events| ==> Announced(r.channel, r.events[k], id).None?)
      ensures Decide(w, r.events[j], r.scope, false) == Some(r.events[j])
    {
      var last := LastAnnouncedIsSome(r.channel, r.events, |r.events|, id);
      assert last == j;
      assert Known(w, id) == Announced(r.channel, r.events[j], id);
    }
  }

  /** While the channel remembers its peers, every later announcement of a revealed service is kept. */
  lemma RevealedStaysShown(w: View, r: Request, j: nat, id: string)
    requires id in w.peers && !r.requireBoth && j < |r.events| && Announced(r.channel, r.events[j], id).Some?
    ensures Decide(Remembered(w, r), r.events[j], r.scope, false) == Some(r.events[j])
  {
    RememberedFacts(w, r);
  }

  /**
   Nothing is revealed without a visible edge, for any memory and link, exactly
   when the empty namespace is not in scope: pass 1b lacks the non-empty check
   of the visibility rule.
   */
  lemma RevealedOnlyByVisibleEdge(scope: set<string>)
    ensures "" !in scope <==>
      forall v: View, e: Event :: PeerOf(v, e, scope).Some? ==> Decide(v, e, scope, false) == Some(e)
  {
    if "" in scope {
      var theirs := Outside(scope);
      var v, e := View(map["a" := "", "b" := theirs], {}), ServiceLinkState(Some(Link("a", "b")), 0);
      assert PeerOf(v, e, scope) == Some("b");
      assert Decide(v, e, scope, false).None?;
    }
  }
}
