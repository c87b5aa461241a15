/**
 What one uninterrupted service-map poll does: learn, find peers, decide.

 A channel's memory is a View.  The three passes are functions of the first n
 events of the batch, the form the loops of the program are proved against.
 */
module ServiceMap {
  import opened Options
  import opened Visibility

  datatype Service = Service(id: string, namespace: string)
  datatype Link = Link(source: string, destination: string)
  datatype Flow = Flow(source: string, destination: string, payload: int)

  /** A decoded event; payload is everything the filter never looks at. */
  datatype Event =
    | FlowSeen(flow: Flow)
    | FlowsSeen(flows: seq<Flow>)
    | NamespaceState(name: string, payload: int)
    | ServiceState(service: Option<Service>, payload: int)
    | ServiceLinkState(link: Option<Link>, payload: int)
    | Notification(payload: int)
    | Unrecognised(payload: int)

  /** What a channel remembers: service ID to namespace, and the foreign services revealed to it. */
  datatype View = View(namespaces: map<string, string>, peers: set<string>)

  const BLANK: View := View(map[], {})

  datatype Request = Request(channel: string, scope: set<string>, requireBoth: bool, events: seq<Event>)

  function Known(v: View, id: string): Option<string> {
    if id in v.namespaces then Some(v.namespaces[id]) else None
  }

  // ----- Pass 1: learn -----

  function LearnOne(channel: string, v: View, e: Event): View {
    if e.ServiceState? && e.service.Some? && channel != "" && e.service.value.id != "" then
      v.(namespaces := v.namespaces[e.service.value.id := e.service.value.namespace])
    else v
  }

  function Learn(channel: string, v: View, events: seq<Event>, n: nat): View
    requires n <= |events|
  {
    if n == 0 then v else LearnOne(channel, Learn(channel, v, events, n - 1), events[n - 1])
  }

  // ----- Pass 1b: find peers -----

  /** The service a link reveals: the far end of a link with exactly one end in scope. */
  function Revealed(src: Option<string>, dst: Option<string>, link: Link, scope: set<string>): Option<string> {
    if src.None? || dst.None? then None
    else if src.value in scope && dst.value !in scope then Some(link.destination)
    else if dst.value in scope && src.value !in scope then Some(link.source)
    else None
  }

  function PeerOf(v: View, e: Event, scope: set<string>): Option<string> {
    if e.ServiceLinkState? && e.link.Some? then
      Revealed(Known(v, e.link.value.source), Known(v, e.link.value.destination), e.link.value, scope)
    else None
  }

  function AddPeer(v: View, peer: Option<string>): View {
    if peer.Some? then v.(peers := v.peers + {peer.value}) else v
  }

  function Peers(v: View, events: seq<Event>, scope: set<string>, n: nat): View
    requires n <= |events|
  {
    if n == 0 then v else
      var u := Peers(v, events, scope, n - 1);
      AddPeer(u, PeerOf(u, events[n - 1], scope))
  }

  // ----- Pass 2: decide -----

  predicate FlowVisible(f: Flow, scope: set<string>, requireBoth: bool) {
    PairVisible(f.source, f.destination, scope, requireBoth)
  }

  function VisibleFlows(flows: seq<Flow>, scope: set<string>, requireBoth: bool, n: nat): seq<Flow>
    requires n <= |flows|
  {
    if n == 0 then [] else
      var rest := VisibleFlows(flows, scope, requireBoth, n - 1);
      if FlowVisible(flows[n - 1], scope, requireBoth) then rest + [flows[n - 1]] else rest
  }

  function DecideFlows(flows: seq<Flow>, scope: set<string>, requireBoth: bool): Option<Event> {
    var keep := VisibleFlows(flows, scope, requireBoth, |flows|);
    if keep == [] then None else Some(FlowsSeen(keep))
  }

  function DecideLink(e: Event, src: Option<string>, dst: Option<string>, scope: set<string>, requireBoth: bool): Option<Event> {
    if src.None? || dst.None? || !PairVisible(src.value, dst.value, scope, requireBoth) then None else Some(e)
  }

  /** The namespace and the ID a service event shows; a missing service shows empty ones. */
  function ServiceOf(e: Event): Service
    requires e.ServiceState?
  {
    if e.service.Some? then e.service.value else Service("", "")
  }

  function LinkOf(e: Event): Link
    requires e.ServiceLinkState?
  {
    if e.link.Some? then e.link.value else Link("", "")
  }

  /** The event as the caller gets it, or None to drop it. */
  function Decide(v: View, e: Event, scope: set<string>, requireBoth: bool): Option<Event> {
    match e
    case FlowSeen(f) => if FlowVisible(f, scope, requireBoth) then Some(e) else None
    case FlowsSeen(flows) => DecideFlows(flows, scope, requireBoth)
    case NamespaceState(name, _) => if name in scope then Some(e) else None
    case ServiceState(_, _) =>
      var svc := ServiceOf(e);
      if svc.namespace in scope || (!requireBoth && svc.id in v.peers) then Some(e) else None
    case ServiceLinkState(_, _) =>
      var l := LinkOf(e);
      DecideLink(e, Known(v, l.source), Known(v, l.destination), scope, requireBoth)
    case Notification(_) => Some(e)
    case Unrecognised(_) => None
  }

  function Append(kept: seq<Event>, verdict: Option<Event>): seq<Event> {
    if verdict.Some? then kept + [verdict.value] else kept
  }

  function Keep(v: View, events: seq<Event>, scope: set<string>, requireBoth: bool, n: nat): seq<Event>
    requires n <= |events|
  {
    if n == 0 then [] else
      Append(Keep(v, events, scope, requireBoth, n - 1), Decide(v, events[n - 1], scope, requireBoth))
  }

  // ----- The whole poll -----

  /** The channel's memory after a poll. */
  function Remembered(v: View, r: Request): View {
    var learned := Learn(r.channel, v, r.events, |r.events|);
    if r.requireBoth then learned else Peers(learned, r.events, r.scope, |r.events|)
  }

  /** The events the caller gets. */
  function Kept(v: View, r: Request): seq<Event> {
    Keep(Remembered(v, r), r.events, r.scope, r.requireBoth, |r.events|)
  }

  /** The channel's memory after the first n polls of its history. */
  function Memory(polls: seq<Request>, n: nat): View
    requires n <= |polls|
  {
    if n == 0 then BLANK else Remembered(Memory(polls, n - 1), polls[n - 1])
  }
}
