/**
 The per-channel registry as a labelled transition relation.

 Every exported operation of the registry runs under one mutex, so it is one
 atomic step here.  The relation is nondeterministic exactly where the program
 is: among equally old channels, the one evicted depends on map iteration order.
 A step carries two clock readings because admission reads the clock once to
 make room and once more to stamp the channel.
 */
module RegistryModel {
  import opened Options

  /** What is remembered for one client channel. */
  datatype Channel = Channel(
    lastSeen: int,
    namespaces: map<string, string>,
    peers: set<string>,
    notified: bool)

  type Channels = map<string, Channel>

  /** maxChannels <= 0 disables the cap. */
  datatype Config = Config(ttl: int, maxChannels: int)

  /** created and expired are history counters; evicted and gauge are exported metrics. */
  datatype State = State(channels: Channels, created: nat, expired: nat, evicted: nat, gauge: nat)

  datatype Reading = Reading(room: int, now: int)

  datatype Op =
    | Remember(channel: string, service: string, namespace: string)
    | RememberPeer(channel: string, service: string)
    | MarkEmptyScopeNotified(channel: string)
    | IsPeer(channel: string, service: string)
    | Lookup(channel: string, service: string)
    | Sweep

  datatype Reply = Done | Flag(yes: bool) | Found(namespace: Option<string>)

  const INITIAL: State := State(map[], 0, 0, 0, 0)

  const FRESH: Channel := Channel(0, map[], {}, false)

  // ----- Making room -----

  predicate Expired(ch: Channel, cutoff: int) {
    ch.lastSeen < cutoff
  }

  function Unexpired(channels: Channels, cutoff: int): Channels {
    map id | id in channels && !Expired(channels[id], cutoff) :: channels[id]
  }

  /** after keeps some of the entries of before, unchanged. */
  ghost predicate Restricts(before: Channels, after: Channels) {
    after.Keys <= before.Keys && forall id :: id in after ==> after[id] == before[id]
  }

  /** No entry dropped between before and after was seen later than an entry kept. */
  ghost predicate DropsOldest(before: Channels, after: Channels) {
    forall kept, gone ::
      kept in after && kept in before && gone in before && gone !in after
      ==> before[gone].lastSeen <= before[kept].lastSeen
  }

  /** Room for one more channel: expired ones go first, then the least recently seen. */
  ghost predicate MadeRoom(cfg: Config, before: Channels, after: Channels, expired: int, evicted: int, room: int) {
    if cfg.maxChannels <= 0 || |before| < cfg.maxChannels then
      after == before && expired == 0 && evicted == 0
    else
      var live := Unexpired(before, room - cfg.ttl);
      && expired == |before| - |live|
      && evicted == |live| - |after|
      && (if |live| < cfg.maxChannels then after == live
          else Restricts(live, after) && DropsOldest(live, after) && |after| == cfg.maxChannels - 1)
  }

  // ----- Steps -----

  function Base(channels: Channels, channel: string): Channel {
    if channel in channels then channels[channel] else FRESH
  }

  /** channel now holds value; it was admitted first if it was not tracked. */
  ghost predicate Touched(cfg: Config, s: State, channel: string, at: Reading, value: Channel, s': State) {
    if channel in s.channels then
      s' == s.(channels := s.channels[channel := value])
    else
      && channel in s'.channels && s'.channels[channel] == value
      && s'.expired >= s.expired && s'.evicted >= s.evicted
      && MadeRoom(cfg, s.channels, s'.channels - {channel}, s'.expired - s.expired, s'.evicted - s.evicted, at.room)
      && s'.created == s.created + 1
      && s'.gauge == |s'.channels|
  }

  /** The channel an operation writes, admitting it if need be; empty IDs are ignored. */
  function Target(op: Op): Option<string> {
    match op
    case Remember(c, service, _) => if c != "" && service != "" then Some(c) else None
    case RememberPeer(c, service) => if c != "" && service != "" then Some(c) else None
    case MarkEmptyScopeNotified(c) => if c != "" then Some(c) else None
    case _ => None
  }

  /** What an operation makes of its target's record. */
  function Effect(op: Op, b: Channel, now: int): Channel
    requires Target(op).Some?
  {
    match op
    case Remember(_, service, namespace) => b.(lastSeen := now, namespaces := b.namespaces[service := namespace])
    case RememberPeer(_, service) => b.(lastSeen := now, peers := b.peers + {service})
    case MarkEmptyScopeNotified(_) => b.(lastSeen := now, notified := true)
  }

  ghost predicate Next(cfg: Config, s: State, op: Op, at: Reading, s': State, reply: Reply) {
    if Target(op).Some? then
      var c := Target(op).value;
      var b := Base(s.channels, c);
      && reply == (if op.MarkEmptyScopeNotified? then Flag(!b.notified) else Done)
      && Touched(cfg, s, c, at, Effect(op, b, at.now), s')
    else
      match op
      case IsPeer(c, service) =>
        s' == s && reply == Flag(c in s.channels && service in s.channels[c].peers)
      case Lookup(c, service) =>
        if c !in s.channels then s' == s && reply == Found(None) else
          && s' == s.(channels := s.channels[c := s.channels[c].(lastSeen := at.now)])
          && reply == Found(if service in s.channels[c].namespaces then Some(s.channels[c].namespaces[service]) else None)
      case Sweep =>
        && reply == Done
        && s'.channels == Unexpired(s.channels, at.now - cfg.ttl)
        && s'.expired == s.expired + |s.channels| - |s'.channels|
        && s' == s.(channels := s'.channels, expired := s'.expired, gauge := |s'.channels|)
      case _ => s' == s && reply == (if op.MarkEmptyScopeNotified? then Flag(false) else Done)
  }

  /** The cap, the gauge and the books. */
  ghost predicate Counted(cfg: Config, s: State) {
    && (cfg.maxChannels > 0 ==> |s.channels| <= cfg.maxChannels)
    && s.gauge == |s.channels|
    && s.created == |s.channels| + s.expired + s.evicted
  }

  /** Empty IDs are never recorded. */
  ghost predicate Named(channels: Channels) {
    "" !in channels && forall c :: c in channels ==> "" !in channels[c].namespaces && "" !in channels[c].peers
  }

  /** What every operation keeps. */
  ghost predicate Inv(cfg: Config, s: State) {
    Counted(cfg, s) && Named(s.channels)
  }

  lemma SubsetSize<T>(a: set<T>, b: set<T>)
    requires a <= b
    ensures |a| <= |b|
  {
    assert b == a + (b - a);
  }

  lemma RestrictSize(before: Channels, after: Channels)
    requires after.Keys <= before.Keys
    ensures |after| <= |before|
  {
    SubsetSize(after.Keys, before.Keys);
  }

  /** A touch writes its target, leaves every other tracked channel as it was, and drops only to admit. */
  lemma TouchedFrame(cfg: Config, s: State, channel: string, at: Reading, value: Channel, s': State)
    requires Touched(cfg, s, channel, at, value, s')
    ensures channel in s'.channels && s'.channels[channel] == value
    ensures forall id :: id in s'.channels && id != channel ==> id in s.channels && s'.channels[id] == s.channels[id]
    ensures channel in s.channels ==> s'.channels.Keys == s.channels.Keys
  {
    if channel !in s.channels {
      var mid := s'.channels - {channel};
      assert forall id :: id in s'.channels && id != channel ==> id in mid && s'.channels[id] == mid[id];
    }
  }

  lemma TouchedKeepsInv(cfg: Config, s: State, channel: string, at: Reading, value: Channel, s': State)
    requires Inv(cfg, s) && channel != "" && Touched(cfg, s, channel, at, value, s') && "" !in value.namespaces && "" !in value.peers
    ensures Inv(cfg, s')
  {
    TouchedKeepsCounts(cfg, s, channel, at, value, s');
    TouchedFrame(cfg, s, channel, at, value, s');
  }

  lemma TouchedKeepsCounts(cfg: Config, s: State, channel: string, at: Reading, value: Channel, s': State)
    requires Counted(cfg, s) && Touched(cfg, s, channel, at, value, s')
    ensures Counted(cfg, s')
  {
    if channel in s.channels {
      assert s'.channels.Keys == s.channels.Keys;
      assert |s'.channels| == |s'.channels.Keys| == |s.channels.Keys|;
    } else {
      var mid := s'.channels - {channel};
      assert s'.channels.Keys == mid.Keys + {channel};
      assert |s'.channels| == |s'.channels.Keys| == |mid.Keys| + 1;
    }
  }

  /** Every operation keeps the registry invariant. */
  lemma NextKeepsInv(cfg: Config, s: State, op: Op, at: Reading, s': State, reply: Reply)
    requires Inv(cfg, s) && Next(cfg, s, op, at, s', reply)
    ensures Inv(cfg, s')
  {
    if Target(op).Some? {
      var c := Target(op).value;
      TouchedKeepsInv(cfg, s, c, at, Effect(op, Base(s.channels, c), at.now), s');
    } else if op.Lookup? && op.channel in s.channels {
      TouchedKeepsInv(cfg, s, op.channel, at, s.channels[op.channel].(lastSeen := at.now), s');
    } else if op.Sweep? {
      RestrictSize(s.channels, s'.channels);
    }
  }

  // ----- Runs -----

  datatype Step = Step(op: Op, at: Reading, reply: Reply, after: State)

  /** The state after the first i steps of a run. */
  function After(init: State, run: seq<Step>, i: nat): State
    requires i <= |run|
  {
    if i == 0 then init else run[i - 1].after
  }

  ghost predicate StepAt(cfg: Config, init: State, run: seq<Step>, i: nat)
    requires i < |run|
  {
    Next(cfg, After(init, run, i), run[i].op, run[i].at, run[i].after, run[i].reply)
  }

  ghost predicate IsRun(cfg: Config, init: State, run: seq<Step>) {
    forall i :: 0 <= i < |run| ==> StepAt(cfg, init, run, i)
  }
}
