/** What holds of the registry over whole runs of arbitrarily interleaved operations. */
module RegistryRuns {
  import opened Options
  import opened RegistryModel

  // ----- One admission -----

  predicate NothingExpired(cfg: Config, s: State, now: int) {
    forall id :: id in s.channels ==> !Expired(s.channels[id], now - cfg.ttl)
  }

  /**
   Eviction is correct: the cap holds afterwards and the newcomer is tracked; a
   live channel goes only if nothing expired was there to go instead, it is the
   least recently seen of all that were tracked, and it goes alone.
   */
  lemma EvictionCorrect(cfg: Config, s: State, op: Op, at: Reading, s': State, reply: Reply, gone: string)
    requires Inv(cfg, s) && Next(cfg, s, op, at, s', reply)
    requires Target(op).Some? && Target(op).value !in s.channels && cfg.maxChannels > 0
    ensures Target(op).value in s'.channels && |s'.channels| <= cfg.maxChannels
    ensures gone in s.channels && gone !in s'.channels && !Expired(s.channels[gone], at.room - cfg.ttl) ==>
      && NothingExpired(cfg, s, at.room)
      && (forall id :: id in s.channels ==> s.channels[gone].lastSeen <= s.channels[id].lastSeen)
      && s'.channels.Keys == s.channels.Keys - {gone} + {Target(op).value}
  {
    NextKeepsInv(cfg, s, op, at, s', reply);
    var c := Target(op).value;
    if gone in s.channels && gone !in s'.channels && !Expired(s.channels[gone], at.room - cfg.ttl) {
      var kept := s'.channels - {c};
      LiveDropped(cfg, s.channels, kept, s'.expired - s.expired, s'.evicted - s.evicted, at.room, gone);
      assert s'.channels.Keys == kept.Keys + {c};
      assert forall id :: id in s.channels ==> id == gone || id in kept;
    }
  }

  /** If room was made by dropping a live channel, nothing had expired and it alone was dropped. */
  lemma LiveDropped(cfg: Config, before: Channels, kept: Channels, expired: int, evicted: int, room: int, gone: string)
    requires cfg.maxChannels > 0 && |before| <= cfg.maxChannels && MadeRoom(cfg, before, kept, expired, evicted, room)
    requires gone in before && gone !in kept && !Expired(before[gone], room - cfg.ttl)
    ensures Unexpired(before, room - cfg.ttl) == before
    ensures DropsOldest(before, kept) && kept.Keys == before.Keys - {gone}
  {
    var live := Unexpired(before, room - cfg.ttl);
    assert gone in live;
    assert Restricts(live, kept) && |kept| == cfg.maxChannels - 1 && |live| >= cfg.maxChannels;
    assert |live| == |live.Keys| && |before| == |before.Keys| && |kept| == |kept.Keys|;
    SameKeys(live.Keys, before.Keys);
    assert live == before;
    assert |before.Keys - {gone}| == |before.Keys| - 1;
    SameKeys(kept.Keys, before.Keys - {gone});
  }

  /** The tracked channels that were, or were not, idle past the TTL. */
  function ExpiredOf(channels: Channels, cutoff: int): set<string> {
    set id | id in channels && channels[id].lastSeen < cutoff
  }

  function LiveOf(channels: Channels, cutoff: int): set<string> {
    set id | id in channels && channels[id].lastSeen >= cutoff
  }

  /**
   Expired channels go first: an admission at the cap keeps no other channel idle
   past the TTL, counts each of those as expired, and as evictions exactly the live
   channels it drops.  Below the cap an admission drops and counts nothing.
   */
  lemma ExpiredGoFirst(cfg: Config, s: State, op: Op, at: Reading, s': State, reply: Reply)
    requires Inv(cfg, s) && Next(cfg, s, op, at, s', reply) && Target(op).Some? && Target(op).value !in s.channels
    ensures
      var cutoff := at.room - cfg.ttl;
      if cfg.maxChannels > 0 && |s.channels| >= cfg.maxChannels then
        && s'.channels.Keys - {Target(op).value} <= LiveOf(s.channels, cutoff)
        && s'.expired == s.expired + |ExpiredOf(s.channels, cutoff)|
        && s'.evicted == s.evicted + |LiveOf(s.channels, cutoff) - s'.channels.Keys|
      else
        s'.channels.Keys == s.channels.Keys + {Target(op).value} && s'.expired == s.expired && s'.evicted == s.evicted
  {
    AdmissionMadeRoom(cfg, s, op, at, s', reply);
    RoomForNewcomer(cfg, s.channels, s'.channels, Target(op).value, s'.expired - s.expired, s'.evicted - s.evicted, at.room);
  }

  lemma RoomForNewcomer(cfg: Config, before: Channels, after: Channels, c: string, expired: int, evicted: int, room: int)
    requires c in after && c !in before && MadeRoom(cfg, before, after - {c}, expired, evicted, room)
    ensures
      var live := LiveOf(before, room - cfg.ttl);
      if cfg.maxChannels > 0 && |before| >= cfg.maxChannels then
        && after.Keys - {c} <= live
        && expired == |ExpiredOf(before, room - cfg.ttl)| && evicted == |live - after.Keys|
      else
        after.Keys == before.Keys + {c} && expired == 0 && evicted == 0
  {
    var kept := after - {c};
    assert after.Keys == kept.Keys + {c};
    if cfg.maxChannels > 0 && |before| >= cfg.maxChannels {
      RoomCounts(cfg, before, kept, expired, evicted, room);
      assert LiveOf(before, room - cfg.ttl) - after.Keys == LiveOf(before, room - cfg.ttl) - kept.Keys;
    }
  }

  lemma AdmissionMadeRoom(cfg: Config, s: State, op: Op, at: Reading, s': State, reply: Reply)
    requires Next(cfg, s, op, at, s', reply) && Target(op).Some? && Target(op).value !in s.channels
    ensures Target(op).value in s'.channels
    ensures MadeRoom(cfg, s.channels, s'.channels - {Target(op).value}, s'.expired - s.expired, s'.evicted - s.evicted, at.room)
  {
  }

  lemma RoomCounts(cfg: Config, before: Channels, kept: Channels, expired: int, evicted: int, room: int)
    requires cfg.maxChannels > 0 && |before| >= cfg.maxChannels && MadeRoom(cfg, before, kept, expired, evicted, room)
    ensures kept.Keys <= LiveOf(before, room - cfg.ttl)
    ensures expired == |ExpiredOf(before, room - cfg.ttl)| && evicted == |LiveOf(before, room - cfg.ttl) - kept.Keys|
  {
    var live, gone := LiveOf(before, room - cfg.ttl), ExpiredOf(before, room - cfg.ttl);
    var left := Unexpired(before, room - cfg.ttl);
    LiveAndExpired(before, room - cfg.ttl);
    assert kept.Keys <= left.Keys;
    KeptOfLive(live, kept);
  }

  lemma LiveAndExpired(channels: Channels, cutoff: int)
    ensures Unexpired(channels, cutoff).Keys == LiveOf(channels, cutoff)
    ensures |Unexpired(channels, cutoff)| == |LiveOf(channels, cutoff)|
    ensures |channels| == |LiveOf(channels, cutoff)| + |ExpiredOf(channels, cutoff)|
  {
    var live, gone, left := LiveOf(channels, cutoff), ExpiredOf(channels, cutoff), Unexpired(channels, cutoff);
    assert left.Keys == live && |left| == |left.Keys|;
    assert channels.Keys == live + gone && live !! gone && |channels| == |channels.Keys|;
  }

  lemma KeptOfLive(live: set<string>, kept: Channels)
    requires kept.Keys <= live
    ensures |live - kept.Keys| == |live| - |kept|
  {
    assert live == kept.Keys + (live - kept.Keys) && |kept| == |kept.Keys|;
  }

  lemma SameKeys<T>(a: set<T>, b: set<T>)
    requires a <= b && |a| >= |b|
    ensures a == b
  {
    assert b == a + (b - a);
  }

  // ----- Conservation -----

  /** After every operation of every run the registry invariant holds: the cap, an exact gauge, and
      every channel ever created tracked, dropped as expired, or counted as evicted. */
  lemma {:induction false} Conservation(cfg: Config, run: seq<Step>, n: nat)
    requires IsRun(cfg, INITIAL, run) && n <= |run|
    ensures Inv(cfg, After(INITIAL, run, n))
  {
    if n > 0 {
      Conservation(cfg, run, n - 1);
      StepKeepsInv(cfg, run, n - 1);
    }
  }

  lemma StepKeepsInv(cfg: Config, run: seq<Step>, i: nat)
    requires IsRun(cfg, INITIAL, run) && i < |run| && Inv(cfg, After(INITIAL, run, i))
    ensures Inv(cfg, run[i].after)
  {
    assert StepAt(cfg, INITIAL, run, i);
    NextKeepsInv(cfg, After(INITIAL, run, i), run[i].op, run[i].at, run[i].after, run[i].reply);
  }

  /** How often channel was told, in the first n steps, that its caller sees nothing. */
  function Notices(run: seq<Step>, n: nat, channel: string): nat
    requires n <= |run|
  {
    if n == 0 then 0 else
      Notices(run, n - 1, channel)
      + if run[n - 1].op == MarkEmptyScopeNotified(channel) && run[n - 1].reply == Flag(true) then 1 else 0
  }

  /** The channel is on record as told. */
  predicate IsTold(s: State, channel: string) {
    channel in s.channels && s.channels[channel].notified
  }

  function Told(s: State, channel: string): nat {
    if IsTold(s, channel) then 1 else 0
  }

  /** How often, in the first n steps, channel was dropped with its notice on record, for either reason. */
  function ToldDrops(run: seq<Step>, n: nat, channel: string): nat
    requires n <= |run|
  {
    if n == 0 then 0 else
      ToldDrops(run, n - 1, channel)
      + if IsTold(After(INITIAL, run, n - 1), channel) && channel !in After(INITIAL, run, n).channels then 1 else 0
  }

  lemma NoticeStep(cfg: Config, s: State, op: Op, at: Reading, s': State, reply: Reply, channel: string)
    requires Next(cfg, s, op, at, s', reply)
    ensures (if op == MarkEmptyScopeNotified(channel) && reply == Flag(true) then 1 else 0) + Told(s, channel)
         == (if IsTold(s, channel) && channel !in s'.channels then 1 else 0) + Told(s', channel)
  {
    if Target(op).Some? {
      var c := Target(op).value;
      TouchedFrame(cfg, s, c, at, Effect(op, Base(s.channels, c), at.now), s');
    }
  }

  /** A channel is told exactly once for each time its notice was forgotten, and once more if it is on record. */
  lemma {:induction false} NoticesExact(cfg: Config, run: seq<Step>, n: nat, channel: string)
    requires IsRun(cfg, INITIAL, run) && n <= |run|
    ensures Notices(run, n, channel) == ToldDrops(run, n, channel) + Told(After(INITIAL, run, n), channel)
  {
    if n > 0 {
      NoticesExact(cfg, run, n - 1, channel);
      assert StepAt(cfg, INITIAL, run, n - 1);
      var last := run[n - 1];
      NoticeStep(cfg, After(INITIAL, run, n - 1), last.op, last.at, last.after, last.reply, channel);
    }
  }

  /** In an empty registry any channel is admitted and told. */
  lemma ToldFirst(cfg: Config, s: State, channel: string, at: Reading) returns (s': State)
    requires s.channels == map[] && channel != ""
    ensures s' == s.(channels := map[channel := Channel(at.now, map[], {}, true)], created := s.created + 1, gauge := 1)
    ensures Next(cfg, s, MarkEmptyScopeNotified(channel), at, s', Flag(true))
  {
    s' := s.(channels := map[channel := Channel(at.now, map[], {}, true)], created := s.created + 1, gauge := 1);
    assert s'.channels - {channel} == map[];
  }

  lemma SweptAway(cfg: Config, s: State, channel: string, at: Reading) returns (s': State)
    requires s.channels.Keys == {channel} && Expired(s.channels[channel], at.now - cfg.ttl)
    ensures s' == s.(channels := map[], expired := s.expired + 1, gauge := 0) && Next(cfg, s, Sweep, at, s', Done)
  {
    s' := s.(channels := map[], expired := s.expired + 1, gauge := 0);
    assert Unexpired(s.channels, at.now - cfg.ttl) == map[];
    assert |s.channels| == |s.channels.Keys|;
  }

  /** Not just once, then: a channel swept in between is told a second time. */
  lemma ToldTwice(cfg: Config, channel: string) returns (run: seq<Step>)
    requires channel != ""
    ensures IsRun(cfg, INITIAL, run) && |run| == 3 && Notices(run, 3, channel) == 2
  {
    var late := Reading(2 + cfg.ttl, 2 + cfg.ttl);
    var first := ToldFirst(cfg, INITIAL, channel, Reading(1, 1));
    var swept := SweptAway(cfg, first, channel, late);
    var second := ToldFirst(cfg, swept, channel, late);
    run := [Step(MarkEmptyScopeNotified(channel), Reading(1, 1), Flag(true), first),
            Step(Sweep, late, Done, swept),
            Step(MarkEmptyScopeNotified(channel), late, Flag(true), second)];
    assert StepAt(cfg, INITIAL, run, 0) && StepAt(cfg, INITIAL, run, 1) && StepAt(cfg, INITIAL, run, 2);
    assert Notices(run, 1, channel) == 1 && Notices(run, 2, channel) == 1;
  }

  // ----- Idleness -----

  /** An operation on the channel that reads or writes its record; asking for a peer does not count. */
  predicate Refreshes(op: Op, channel: string) {
    Target(op) == Some(channel) || (op.Lookup? && op.channel == channel)
  }

  /** When the channel was last refreshed in the first n steps. */
  function LastRefresh(run: seq<Step>, n: nat, channel: string): Option<int>
    requires n <= |run|
  {
    if n == 0 then None
    else if Refreshes(run[n - 1].op, channel) then Some(run[n - 1].at.now)
    else LastRefresh(run, n - 1, channel)
  }

  /** An operation sets lastSeen of a channel it refreshes and of no other. */
  lemma RefreshStep(cfg: Config, s: State, op: Op, at: Reading, s': State, reply: Reply, channel: string)
    requires Next(cfg, s, op, at, s', reply) && channel in s'.channels
    ensures if Refreshes(op, channel) then s'.channels[channel].lastSeen == at.now
            else channel in s.channels && s'.channels[channel].lastSeen == s.channels[channel].lastSeen
  {
    if Target(op).Some? {
      WriteRefreshes(cfg, s, op, at, s', reply, channel);
    } else if op.Sweep? {
      assert channel in s.channels && s'.channels[channel] == s.channels[channel];
    }
  }

  lemma WriteRefreshes(cfg: Config, s: State, op: Op, at: Reading, s': State, reply: Reply, channel: string)
    requires Next(cfg, s, op, at, s', reply) && channel in s'.channels && Target(op).Some?
    ensures if Target(op).value == channel then s'.channels[channel].lastSeen == at.now
            else channel in s.channels && s'.channels[channel].lastSeen == s.channels[channel].lastSeen
  {
    var c := Target(op).value;
    TouchedFrame(cfg, s, c, at, Effect(op, Base(s.channels, c), at.now), s');
  }

  /** lastSeen is what it says: the time of the last operation that refreshed the channel. */
  lemma {:induction false} SeenExactly(cfg: Config, run: seq<Step>, n: nat, channel: string)
    requires IsRun(cfg, INITIAL, run) && n <= |run| && channel in After(INITIAL, run, n).channels
    ensures LastRefresh(run, n, channel) == Some(After(INITIAL, run, n).channels[channel].lastSeen)
  {
    assert n > 0 && StepAt(cfg, INITIAL, run, n - 1);
    var last := run[n - 1];
    RefreshStep(cfg, After(INITIAL, run, n - 1), last.op, last.at, last.after, last.reply, channel);
    if !Refreshes(last.op, channel) {
      SeenExactly(cfg, run, n - 1, channel);
    }
  }

  /** A sweep drops exactly the channels no operation has refreshed for longer than the TTL. */
  lemma SweptIfIdle(cfg: Config, run: seq<Step>, n: nat, channel: string)
    requires IsRun(cfg, INITIAL, run) && n < |run| && run[n].op.Sweep? && channel in After(INITIAL, run, n).channels
    ensures channel !in run[n].after.channels <==>
      LastRefresh(run, n, channel).Some? && LastRefresh(run, n, channel).value < run[n].at.now - cfg.ttl
  {
    SeenExactly(cfg, run, n, channel);
    assert StepAt(cfg, INITIAL, run, n);
  }

  // ----- Who is tracked, and why not -----

  /** Only writes admit: a tracked channel was written, not just looked up. */
  lemma {:induction false} TrackedWasWritten(cfg: Config, run: seq<Step>, n: nat, channel: string) returns (i: nat)
    requires IsRun(cfg, INITIAL, run) && n <= |run| && channel in After(INITIAL, run, n).channels
    ensures i < n && Target(run[i].op) == Some(channel)
  {
    assert n > 0 && StepAt(cfg, INITIAL, run, n - 1);
    var last, s := run[n - 1], After(INITIAL, run, n - 1);
    i := n - 1;
    if Target(last.op) != Some(channel) {
      StaysOrNew(cfg, s, last.op, last.at, last.after, last.reply, channel);
      i := TrackedWasWritten(cfg, run, n - 1, channel);
    }
  }

  lemma StaysOrNew(cfg: Config, s: State, op: Op, at: Reading, s': State, reply: Reply, channel: string)
    requires Next(cfg, s, op, at, s', reply) && channel in s'.channels
    ensures channel in s.channels || Target(op) == Some(channel)
  {
    if Target(op).Some? {
      var c := Target(op).value;
      TouchedFrame(cfg, s, c, at, Effect(op, Base(s.channels, c), at.now), s');
    }
  }

  /** A channel is dropped only by a sweep that finds it idle past the TTL, or to admit another to a registry at its cap. */
  lemma WhyDropped(cfg: Config, run: seq<Step>, n: nat, channel: string)
    requires IsRun(cfg, INITIAL, run) && n < |run|
    requires channel in After(INITIAL, run, n).channels && channel !in After(INITIAL, run, n + 1).channels
    ensures
      var s, step := After(INITIAL, run, n), run[n];
      if step.op.Sweep? then
        LastRefresh(run, n, channel).Some? && LastRefresh(run, n, channel).value < step.at.now - cfg.ttl
      else
        Target(step.op).Some? && Target(step.op).value !in s.channels && 0 < cfg.maxChannels == |s.channels|
  {
    Conservation(cfg, run, n);
    assert StepAt(cfg, INITIAL, run, n);
    var s, step := After(INITIAL, run, n), run[n];
    if step.op.Sweep? {
      SweptIfIdle(cfg, run, n, channel);
    } else if Target(step.op).Some? && Target(step.op).value !in s.channels {
      ExpiredGoFirst(cfg, s, step.op, step.at, step.after, step.reply);
    }
  }
}
