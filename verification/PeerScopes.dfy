/**
 Which scope a revealed service answers to.  Peers are recorded under the scope
 of the poll that saw the link and stay when the channel's scope changes.
 */
module PeerScopes {
  import opened Options
  import opened Strings
  import opened ServiceMap
  import opened FilterLaws
  import opened Dangling

  /** A history of one channel in lenient mode; poll i has the scope scopes[i]. */
  ghost predicate LenientHistory(polls: seq<Request>, scopes: seq<set<string>>, channel: string) {
    |polls| == |scopes| && forall i :: 0 <= i < |polls| ==> LenientPoll(polls[i], scopes[i], channel)
  }

  predicate LenientPoll(r: Request, scope: set<string>, channel: string) {
    !r.requireBoth && r.channel == channel && r.scope == scope
  }

  predicate OnRecordIn(v: View, id: string, scope: set<string>) {
    id in v.namespaces && v.namespaces[id] in scope
  }

  /** A link of poll i ends at id, and its other end was on record in scope when that poll looked. */
  ghost predicate LinkedAt(polls: seq<Request>, i: nat, id: string, scope: set<string>)
    requires i < |polls|
  {
    exists l: Link :: SeenIn(polls[i].events, l) && Joins(Memory(polls, i + 1), l, id, scope)
  }

  /** The link ends at id and its other end is on record in scope. */
  predicate Joins(v: View, l: Link, id: string, scope: set<string>) {
    (l.destination == id && OnRecordIn(v, l.source, scope)) || (l.source == id && OnRecordIn(v, l.destination, scope))
  }

  predicate SeenIn(events: seq<Event>, l: Link) {
    exists e :: e in events && e.ServiceLinkState? && e.link == Some(l)
  }

  /** Some poll up to n linked id to a service on record in scope. */
  ghost predicate LinkedTo(polls: seq<Request>, n: nat, id: string, scope: set<string>)
    requires n < |polls|
  {
    exists i: nat :: i <= n && LinkedAt(polls, i, id, scope)
  }

  /** Every service poll n shows is in that poll's scope or was linked to a service in it. */
  ghost predicate ShowsItsOwn(polls: seq<Request>, n: nat)
    requires n < |polls|
  {
    forall e :: e in Kept(Memory(polls, n), polls[n]) && e.ServiceState? ==>
      ServiceOf(e).namespace in polls[n].scope || LinkedTo(polls, n, ServiceOf(e).id, polls[n].scope)
  }

  // ----- A scope that never shrank -----

  /** A peer was linked to a service in the scope of an earlier poll. */
  lemma {:induction false} PeersWereLinked(polls: seq<Request>, n: nat, id: string) returns (i: nat)
    requires n <= |polls| && id in Memory(polls, n).peers
    ensures i < n && LinkedAt(polls, i, id, polls[i].scope)
  {
    var r, v := polls[n - 1], Memory(polls, n - 1);
    RememberedFacts(v, r);
    var learned := Learn(r.channel, v, r.events, |r.events|);
    LearnsLast(r.channel, v, r.events, |r.events|, id);
    if id in v.peers {
      i := PeersWereLinked(polls, n - 1, id);
    } else {
      PeersAreFarEnds(learned, r.events, r.scope, |r.events|);
      var j :| 0 <= j < |r.events| && PeerOf(learned, r.events[j], r.scope) == Some(id);
      i := n - 1;
      assert r.events[j] in r.events && SeenIn(r.events, r.events[j].link.value);
    }
  }

  lemma LinkedInWider(polls: seq<Request>, i: nat, id: string, scope: set<string>, wider: set<string>)
    requires i < |polls| && LinkedAt(polls, i, id, scope) && scope <= wider
    ensures LinkedAt(polls, i, id, wider)
  {
  }

  lemma GrowingScopeShowsItsOwn(polls: seq<Request>, scopes: seq<set<string>>, channel: string, n: nat)
    requires n < |scopes| && LenientHistory(polls, scopes, channel)
    requires forall i :: 0 <= i < n ==> scopes[i] <= scopes[n]
    ensures ShowsItsOwn(polls, n)
  {
    var r, w := polls[n], Memory(polls, n + 1);
    forall e | e in Kept(Memory(polls, n), r) && e.ServiceState? && ServiceOf(e).namespace !in r.scope
      ensures LinkedTo(polls, n, ServiceOf(e).id, r.scope)
    {
      KeptIsDecided(w, r.events, r.scope, r.requireBoth, |r.events|, e);
      assert LenientPoll(polls[n], scopes[n], channel);
      var i := PeersWereLinked(polls, n + 1, ServiceOf(e).id);
      assert LenientPoll(polls[i], scopes[i], channel);
      LinkedInWider(polls, i, ServiceOf(e).id, polls[i].scope, r.scope);
    }
  }

  // ----- A scope that shrank -----

  const LINK: Event := ServiceLinkState(Some(Link("a", "b")), 0)

  function Announce(id: string, ns: string): Event {
    ServiceState(Some(Service(id, ns)), 0)
  }

  /** A batch that links a in x to b in y. */
  function Meeting(x: string, y: string): seq<Event> {
    [LINK, Announce("a", x), Announce("b", y)]
  }

  /** Such a batch reveals b to a scope that holds x and not y. */
  lemma MeetingReveals(v: View, r: Request, x: string, y: string)
    requires r.events == Meeting(x, y) && !r.requireBoth && r.channel != "" && x in r.scope && y !in r.scope
    ensures "b" in Remembered(v, r).peers
    ensures Known(Remembered(v, r), "a") == Some(x) && Known(Remembered(v, r), "b") == Some(y)
  {
    var learned := Learn(r.channel, v, r.events, 3);
    LearnsLast(r.channel, v, r.events, 3, "a");
    LearnsLast(r.channel, v, r.events, 3, "b");
    assert LastAnnounced(r.channel, r.events, 2, "a") == Some(x);
    RememberedFacts(v, r);
    PeersAreFarEnds(learned, r.events, r.scope, 3);
    assert PeerOf(learned, r.events[0], r.scope) == Some("b");
  }

  /** Poll m sees the meeting, poll n an announcement of b, and the others nothing. */
  function Batch(m: nat, n: nat, x: string, y: string, i: nat): seq<Event> {
    if i == m then Meeting(x, y) else if i == n then [Announce("b", y)] else []
  }

  lemma {:induction false} MeetingRemembered(polls: seq<Request>, m: nat, n: nat, x: string, y: string, k: nat)
    requires m < k <= n < |polls| && x in polls[m].scope && y !in polls[m].scope && polls[m].channel != ""
    requires forall i :: 0 <= i < |polls| ==> !polls[i].requireBoth && polls[i].events == Batch(m, n, x, y, i)
    ensures "b" in Memory(polls, k).peers
  {
    if k == m + 1 {
      MeetingReveals(Memory(polls, m), polls[m], x, y);
    } else {
      MeetingRemembered(polls, m, n, x, y, k - 1);
      RememberedFacts(Memory(polls, k - 1), polls[k - 1]);
    }
  }

  /**
   Peers outlive a scope that shrinks: if poll m's scope held something poll n's
   does not, poll n can show a service nothing in its own scope was ever linked to.
   */
  lemma PeersOutliveScope(scopes: seq<set<string>>, channel: string, m: nat, n: nat) returns (polls: seq<Request>)
    requires m < n < |scopes| && channel != "" && !(scopes[m] <= scopes[n])
    ensures LenientHistory(polls, scopes, channel) && !ShowsItsOwn(polls, n)
  {
    var x :| x in scopes[m] && x !in scopes[n];
    var y := Outside(scopes[m] + scopes[n]);
    polls := seq(|scopes|, i requires 0 <= i < |scopes| => Request(channel, scopes[i], false, Batch(m, n, x, y, i)));
    MeetingRemembered(polls, m, n, x, y, n);
    var b := Announce("b", y);
    RevealedStaysShown(Memory(polls, n), polls[n], 0, "b");
    assert Kept(Memory(polls, n), polls[n]) == Append(Keep(Remembered(Memory(polls, n), polls[n]), polls[n].events, scopes[n], false, 0), Some(b));
    NothingElseLinked(polls, m, n, x, y);
  }

  /** The meeting is the only link, and its end a is on record out of the later scope. */
  lemma NothingElseLinked(polls: seq<Request>, m: nat, n: nat, x: string, y: string)
    requires m < n < |polls| && x in polls[m].scope && y !in polls[m].scope && x !in polls[n].scope && polls[m].channel != ""
    requires forall i :: 0 <= i < |polls| ==> !polls[i].requireBoth && polls[i].events == Batch(m, n, x, y, i)
    ensures !LinkedTo(polls, n, "b", polls[n].scope)
  {
    if i: nat :| i <= n && LinkedAt(polls, i, "b", polls[n].scope) {
      var l: Link :| SeenIn(polls[i].events, l) && Joins(Memory(polls, i + 1), l, "b", polls[n].scope);
      assert i == m && l == Link("a", "b");
      MeetingReveals(Memory(polls, m), polls[m], x, y);
      assert false;
    }
  }

  // ----- The exact condition -----

  /**
   For all lenient histories of a channel with given scopes, poll n shows just
   services in its scope or linked to one in it, if and only if no earlier scope
   held anything poll n's does not.
   */
  lemma PeersFollowScopeExactly(scopes: seq<set<string>>, channel: string, n: nat)
    requires n < |scopes| && channel != ""
    ensures (forall polls :: LenientHistory(polls, scopes, channel) ==> ShowsItsOwn(polls, n))
       <==> forall i :: 0 <= i < n ==> scopes[i] <= scopes[n]
  {
    if forall i :: 0 <= i < n ==> scopes[i] <= scopes[n] {
      forall polls | LenientHistory(polls, scopes, channel) ensures ShowsItsOwn(polls, n) {
        GrowingScopeShowsItsOwn(polls, scopes, channel, n);
      }
    } else {
      var m :| 0 <= m < n && !(scopes[m] <= scopes[n]);
      var polls := PeersOutliveScope(scopes, channel, m, n);
    }
  }
}
