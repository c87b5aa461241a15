/** How registries of different caps compare when they see the same operations. */
module CapInclusion {
  import opened Collections
  import opened Options
  import opened RegistryModel
  import opened RegistryRuns

  predicate CapAtMost(small: Config, large: Config) {
    && small.ttl == large.ttl && small.maxChannels > 0
    && (large.maxChannels <= 0 || small.maxChannels <= large.maxChannels)
  }

  predicate WithinCap(cfg: Config, s: State) {
    cfg.maxChannels > 0 ==> |s.channels| <= cfg.maxChannels
  }

  /** The same operations at the same clock readings; the states and replies may differ. */
  predicate SameSchedule(run: seq<Step>, run': seq<Step>) {
    |run| == |run'| && forall i :: 0 <= i < |run| ==> run[i].op == run'[i].op && run[i].at == run'[i].at
  }

  predicate StrictClock(run: seq<Step>) {
    && (forall i :: 0 <= i < |run| ==> 0 < run[i].at.room <= run[i].at.now)
    && forall i, j :: 0 <= i < j < |run| ==> run[i].at.now < run[j].at.room
  }

  /** No operation of the run finds a channel idle for longer than the TTL. */
  ghost predicate NeverIdle(cfg: Config, init: State, run: seq<Step>) {
    forall i :: 0 <= i < |run| ==> FreshAt(cfg, init, run, i)
  }

  predicate FreshAt(cfg: Config, init: State, run: seq<Step>, i: nat)
    requires i < |run|
  {
    NothingExpired(cfg, After(init, run, i), run[i].at.room) && NothingExpired(cfg, After(init, run, i), run[i].at.now)
  }

  /** Every stamp is in the past and names its channel, so no two channels share one. */
  ghost predicate Stamped(channels: Channels, owner: map<int, string>, now: int) {
    && (forall id :: id in channels ==> channels[id].lastSeen in owner && owner[channels[id].lastSeen] == id)
    && (forall t :: t in owner ==> t < now)
  }

  /** a records part of what b records. */
  ghost predicate KnowsLess(a: Channel, b: Channel) {
    && (forall id :: id in a.namespaces ==> id in b.namespaces && b.namespaces[id] == a.namespaces[id])
    && a.peers <= b.peers && (a.notified ==> b.notified)
  }

  ghost predicate RecordBelow(a: Channel, b: Channel) {
    a.lastSeen == b.lastSeen && KnowsLess(a, b)
  }

  /**
   The smaller registry tracks some of the larger one's channels, all of them while
   it has room; it saw each at the same time and records part of the same.
   */
  ghost predicate Included(small: Config, s: State, l: State) {
    && s.channels.Keys <= l.channels.Keys
    && (forall id :: id in s.channels ==> RecordBelow(s.channels[id], l.channels[id]))
    && (|s.channels| < small.maxChannels ==> s.channels.Keys == l.channels.Keys)
  }

  lemma NothingExpiredKeepsAll(channels: Channels, cutoff: int)
    requires forall id :: id in channels ==> !Expired(channels[id], cutoff)
    ensures Unexpired(channels, cutoff) == channels
  {
  }

  ghost predicate IsOldest(channels: Channels, id: string) {
    id in channels && forall other :: other in channels ==> channels[id].lastSeen <= channels[other].lastSeen
  }

  /** With nothing expired, admitting to a full registry drops one least recently seen channel, otherwise nothing. */
  lemma AdmitDropsOldest(cfg: Config, s: State, c: string, at: Reading, v: Channel, s': State) returns (gone: Option<string>)
    requires WithinCap(cfg, s) && c !in s.channels && Touched(cfg, s, c, at, v, s') && NothingExpired(cfg, s, at.room)
    ensures gone.Some? <==> cfg.maxChannels > 0 && |s.channels| == cfg.maxChannels
    ensures gone.Some? ==> IsOldest(s.channels, gone.value)
    ensures forall id :: id in s'.channels <==> id == c || (id in s.channels && gone != Some(id))
    ensures |s'.channels| == if gone.Some? then |s.channels| else |s.channels| + 1
  {
    var kept := s'.channels - {c};
    RoomWithoutExpiry(cfg, s.channels, kept, s'.expired - s.expired, s'.evicted - s.evicted, at.room);
    assert s'.channels.Keys == kept.Keys + {c};
    assert |s'.channels| == |s'.channels.Keys| == |kept.Keys| + 1;
    gone := None;
    if cfg.maxChannels > 0 && |s.channels| == cfg.maxChannels {
      var g := OneOldestDropped(s.channels, kept);
      gone := Some(g);
    }
  }

  lemma RoomWithoutExpiry(cfg: Config, before: Channels, kept: Channels, expired: int, evicted: int, room: int)
    requires MadeRoom(cfg, before, kept, expired, evicted, room) && (cfg.maxChannels > 0 ==> |before| <= cfg.maxChannels)
    requires forall id :: id in before ==> !Expired(before[id], room - cfg.ttl)
    ensures if cfg.maxChannels > 0 && |before| == cfg.maxChannels
            then Restricts(before, kept) && DropsOldest(before, kept) && |kept| == |before| - 1 else kept == before
  {
    NothingExpiredKeepsAll(before, room - cfg.ttl);
  }

  lemma OneOldestDropped(before: Channels, kept: Channels) returns (gone: string)
    requires Restricts(before, kept) && DropsOldest(before, kept) && |kept| == |before| - 1
    ensures IsOldest(before, gone) && forall id :: id in kept <==> id in before && id != gone
  {
    assert |kept.Keys| == |kept| && |before.Keys| == |before|;
    gone := TheMissingOne(before.Keys, kept.Keys);
  }

  lemma TheMissingOne<T>(all: set<T>, kept: set<T>) returns (g: T)
    requires kept <= all && |kept| == |all| - 1
    ensures g in all && g !in kept && forall x :: x in all ==> x == g || x in kept
  {
    assert all == kept + (all - kept);
    g :| g in all - kept;
    assert all - kept == {g} + (all - kept - {g});
  }

  /** Whatever the larger registry may evict of the smaller one's channels is all the smaller one may evict. */
  ghost predicate Agreeable(large: Config, s: Channels, l: Channels) {
    large.maxChannels <= 0 || forall gone, goneL :: IsOldest(s, gone) && IsOldest(l, goneL) && goneL in s ==> gone == goneL
  }

  /** Distinct stamps leave one victim. */
  lemma SameVictim(large: Config, s: Channels, l: Channels, owner: map<int, string>, now: int)
    requires s.Keys <= l.Keys && forall id :: id in s ==> s[id].lastSeen == l[id].lastSeen
    requires Stamped(l, owner, now)
    ensures Agreeable(large, s, l)
  {
    forall gone, goneL | IsOldest(s, gone) && IsOldest(l, goneL) && goneL in s ensures gone == goneL {
      assert l[gone].lastSeen == l[goneL].lastSeen;
    }
  }

  /** So does a cap of one. */
  lemma OnlyVictim(small: Config, large: Config, s: State, l: State)
    requires WithinCap(small, s) && (small.maxChannels == 1 || large.maxChannels <= 0)
    ensures Agreeable(large, s.channels, l.channels)
  {
    if small.maxChannels == 1 {
      assert |s.channels| == |s.channels.Keys| <= 1;
      forall a, b | a in s.channels && b in s.channels ensures a == b {
        SameKeys({a}, s.channels.Keys);
      }
    }
  }

  /** Inclusion survives one write of c in both registries, stamped alike. */
  lemma InclusionTouch(small: Config, large: Config, s: State, l: State,
                       c: string, at: Reading, v: Channel, w: Channel, s': State, l': State)
    requires CapAtMost(small, large) && WithinCap(small, s) && WithinCap(large, l) && Included(small, s, l)
    requires Agreeable(large, s.channels, l.channels) && NothingExpired(large, l, at.room)
    requires Touched(small, s, c, at, v, s') && Touched(large, l, c, at, w, l')
    requires RecordBelow(v, w)
    ensures Included(small, s', l')
  {
    TouchedFrame(small, s, c, at, v, s');
    TouchedFrame(large, l, c, at, w, l');
    assert s'.channels.Keys <= l'.channels.Keys
      && (|s'.channels| < small.maxChannels ==> s'.channels.Keys == l'.channels.Keys) by {
      if c in s.channels {
        SameSizes(s.channels, s'.channels);
      } else if c in l.channels {
        var gone := AdmitDropsOldest(small, s, c, at, v, s');
      } else {
        InclusionAdmit(small, large, s, l, c, at, v, w, s', l');
      }
    }
  }

  lemma InclusionAdmit(small: Config, large: Config, s: State, l: State,
                       c: string, at: Reading, v: Channel, w: Channel, s': State, l': State)
    requires CapAtMost(small, large) && WithinCap(small, s) && WithinCap(large, l) && Included(small, s, l)
    requires Agreeable(large, s.channels, l.channels) && NothingExpired(large, l, at.room)
    requires c !in l.channels && Touched(small, s, c, at, v, s') && Touched(large, l, c, at, w, l')
    ensures s'.channels.Keys <= l'.channels.Keys
    ensures |s'.channels| < small.maxChannels ==> s'.channels.Keys == l'.channels.Keys
  {
    var gone := AdmitDropsOldest(small, s, c, at, v, s');
    var goneL := AdmitDropsOldest(large, l, c, at, w, l');
    if s.channels.Keys == l.channels.Keys {
      SameSizes(s.channels, l.channels);
    }
    assert goneL.Some? && goneL.value in s.channels ==> gone == goneL;
  }

  lemma SameSizes(a: Channels, b: Channels)
    requires a.Keys == b.Keys
    ensures |a| == |b|
  {
    assert |a| == |a.Keys| && |b| == |b.Keys|;
  }

  /** Writes are stamped with the latest reading, so stamps stay distinct and in the past. */
  lemma StampedAfter(cfg: Config, s: State, owner: map<int, string>, op: Op, at: Reading, s': State, reply: Reply)
    returns (owner': map<int, string>)
    requires Next(cfg, s, op, at, s', reply) && Stamped(s.channels, owner, at.room) && at.room <= at.now
    ensures forall later :: at.now < later ==> Stamped(s'.channels, owner', later)
  {
    if Target(op).Some? {
      var c := Target(op).value;
      TouchedFrame(cfg, s, c, at, Effect(op, Base(s.channels, c), at.now), s');
      owner' := StampedTouch(s.channels, owner, c, at, s'.channels);
    } else if op.Lookup? && op.channel in s.channels {
      owner' := StampedTouch(s.channels, owner, op.channel, at, s'.channels);
    } else {
      owner' := owner;
    }
  }

  lemma StampedTouch(before: Channels, owner: map<int, string>, c: string, at: Reading, after: Channels)
    returns (owner': map<int, string>)
    requires Stamped(before, owner, at.room) && at.room <= at.now
    requires c in after && after[c].lastSeen == at.now
    requires forall id :: id in after && id != c ==> id in before && after[id] == before[id]
    ensures forall later :: at.now < later ==> Stamped(after, owner', later)
  {
    owner' := owner[at.now := c];
  }

  lemma InclusionStep(small: Config, large: Config, s: State, l: State,
                      op: Op, at: Reading, s': State, l': State, r: Reply, q: Reply)
    requires CapAtMost(small, large) && WithinCap(small, s) && WithinCap(large, l) && Included(small, s, l)
    requires Agreeable(large, s.channels, l.channels)
    requires NothingExpired(large, l, at.room) && NothingExpired(large, l, at.now)
    requires Next(small, s, op, at, s', r) && Next(large, l, op, at, l', q)
    ensures Included(small, s', l')
  {
    if Target(op).Some? {
      InclusionWrite(small, large, s, l, op, at, s', l', r, q);
    } else if op.Lookup? {
      InclusionLookup(small, large, s, l, op, at, s', l', r, q);
    } else if op.Sweep? {
      InclusionSweep(small, large, s, l, op, at, s', l', r, q);
    }
  }

  lemma InclusionSweep(small: Config, large: Config, s: State, l: State, op: Op, at: Reading, s': State, l': State, r: Reply, q: Reply)
    requires op.Sweep? && small.ttl == large.ttl && Included(small, s, l) && NothingExpired(large, l, at.now)
    requires Next(small, s, op, at, s', r) && Next(large, l, op, at, l', q)
    ensures Included(small, s', l')
  {
    NothingExpiredKeepsAll(s.channels, at.now - small.ttl);
    NothingExpiredKeepsAll(l.channels, at.now - large.ttl);
    assert s'.channels == s.channels && l'.channels == l.channels;
  }

  /** One operation on records of which one is part of the other leaves them so, and seen at once. */
  lemma EffectBelow(op: Op, a: Channel, b: Channel, now: int)
    requires Target(op).Some? && KnowsLess(a, b)
    ensures RecordBelow(Effect(op, a, now), Effect(op, b, now))
  {
  }

  lemma InclusionWrite(small: Config, large: Config, s: State, l: State,
                       op: Op, at: Reading, s': State, l': State, r: Reply, q: Reply)
    requires CapAtMost(small, large) && WithinCap(small, s) && WithinCap(large, l) && Included(small, s, l)
    requires Agreeable(large, s.channels, l.channels) && NothingExpired(large, l, at.room) && Target(op).Some?
    requires Next(small, s, op, at, s', r) && Next(large, l, op, at, l', q)
    ensures Included(small, s', l')
  {
    var c := Target(op).value;
    EffectBelow(op, Base(s.channels, c), Base(l.channels, c), at.now);
    InclusionTouch(small, large, s, l, c, at, Effect(op, Base(s.channels, c), at.now), Effect(op, Base(l.channels, c), at.now), s', l');
  }

  /** A lookup that misses the smaller registry may refresh the larger one; inclusion does not mind. */
  lemma InclusionLookup(small: Config, large: Config, s: State, l: State, op: Op, at: Reading, s': State, l': State, r: Reply, q: Reply)
    requires op.Lookup? && Included(small, s, l)
    requires Next(small, s, op, at, s', r) && Next(large, l, op, at, l', q)
    ensures Included(small, s', l')
  {
    assert s'.channels.Keys == s.channels.Keys && l'.channels.Keys == l.channels.Keys;
    SameSizes(s.channels, s'.channels);
  }

  lemma InclusionAt(small: Config, large: Config, run: seq<Step>, run': seq<Step>, i: nat)
    requires CapAtMost(small, large) && SameSchedule(run, run') && i < |run|
    requires IsRun(small, INITIAL, run) && IsRun(large, INITIAL, run') && NeverIdle(large, INITIAL, run')
    requires IncludedAt(small, run, run', i)
    requires Agreeable(large, After(INITIAL, run, i).channels, After(INITIAL, run', i).channels)
    ensures IncludedAt(small, run, run', i + 1)
  {
    var s, l := After(INITIAL, run, i), After(INITIAL, run', i);
    CapHolds(small, run, i);
    CapHolds(large, run', i);
    assert StepAt(small, INITIAL, run, i) && StepAt(large, INITIAL, run', i) && FreshAt(large, INITIAL, run', i);
    InclusionStep(small, large, s, l, run[i].op, run[i].at, run[i].after, run'[i].after, run[i].reply, run'[i].reply);
  }

  lemma CapHolds(cfg: Config, run: seq<Step>, n: nat)
    requires IsRun(cfg, INITIAL, run) && n <= |run|
    ensures WithinCap(cfg, After(INITIAL, run, n))
  {
    Conservation(cfg, run, n);
  }

  ghost predicate IncludedAt(small: Config, run: seq<Step>, run': seq<Step>, n: nat)
    requires n <= |run| && n <= |run'|
  {
    Included(small, After(INITIAL, run, n), After(INITIAL, run', n))
  }

  /**
   LRU inclusion: on one schedule of operations, a smaller registry never tracks
   a channel a larger one has forgotten; both agree when it was last seen, and
   the smaller one's record of it is part of the larger one's.
   */
  lemma {:induction false} LruInclusion(small: Config, large: Config, run: seq<Step>, run': seq<Step>, n: nat)
    requires CapAtMost(small, large) && SameSchedule(run, run') && StrictClock(run') && n <= |run|
    requires IsRun(small, INITIAL, run) && IsRun(large, INITIAL, run') && NeverIdle(large, INITIAL, run')
    ensures IncludedAt(small, run, run', n)
  {
    if n > 0 {
      LruInclusion(small, large, run, run', n - 1);
      var owner := StampedRun(large, run', n - 1, run'[n - 1].at.room);
      SameVictim(large, After(INITIAL, run, n - 1).channels, After(INITIAL, run', n - 1).channels, owner, run'[n - 1].at.room);
      InclusionAt(small, large, run, run', n - 1);
    }
  }

  lemma {:induction false} StampedRun(cfg: Config, run: seq<Step>, n: nat, later: int) returns (owner: map<int, string>)
    requires IsRun(cfg, INITIAL, run) && StrictClock(run) && n <= |run|
    requires n > 0 ==> run[n - 1].at.now < later
    ensures Stamped(After(INITIAL, run, n).channels, owner, later)
  {
    owner := map[];
    if n > 0 {
      var last := run[n - 1];
      owner := StampedRun(cfg, run, n - 1, last.at.room);
      assert StepAt(cfg, INITIAL, run, n - 1);
      owner := StampedAfter(cfg, After(INITIAL, run, n - 1), owner, last.op, last.at, last.after, last.reply);
    }
  }

  // ----- Tied clock readings -----

  /** Readings never go back, but may repeat. */
  predicate SteadyClock(run: seq<Step>) {
    && (forall i :: 0 <= i < |run| ==> 0 < run[i].at.room <= run[i].at.now)
    && forall i, j :: 0 <= i < j < |run| ==> run[i].at.now <= run[j].at.room
  }

  ghost predicate TiedRuns(small: Config, large: Config, run: seq<Step>, run': seq<Step>) {
    && SameSchedule(run, run') && SteadyClock(run')
    && IsRun(small, INITIAL, run) && IsRun(large, INITIAL, run') && NeverIdle(large, INITIAL, run')
  }

  /** Inclusion holds at every point of every two runs on one schedule, tied readings or not. */
  ghost predicate ToleratesTies(small: Config, large: Config) {
    forall run, run', n: nat :: TiedRuns(small, large, run, run') && n <= |run| ==> IncludedAt(small, run, run', n)
  }

  /** Caps that tolerate ties: the smaller registry never has a choice of victim, or the larger one never evicts. */
  lemma TiesToleratedExactly(small: Config, large: Config)
    requires CapAtMost(small, large) && small.ttl >= 0
    ensures ToleratesTies(small, large) <==> small.maxChannels == 1 || large.maxChannels <= 0
  {
    if small.maxChannels == 1 || large.maxChannels <= 0 {
      forall run, run', n: nat | TiedRuns(small, large, run, run') && n <= |run| ensures IncludedAt(small, run, run', n) {
        TiedInclusion(small, large, run, run', n);
      }
    } else {
      var run, run' := TieBreaks(small, large);
    }
  }

  lemma {:induction false} TiedInclusion(small: Config, large: Config, run: seq<Step>, run': seq<Step>, n: nat)
    requires CapAtMost(small, large) && TiedRuns(small, large, run, run') && n <= |run|
    requires small.maxChannels == 1 || large.maxChannels <= 0
    ensures IncludedAt(small, run, run', n)
  {
    if n > 0 {
      TiedInclusion(small, large, run, run', n - 1);
      CapHolds(small, run, n - 1);
      OnlyVictim(small, large, After(INITIAL, run, n - 1), After(INITIAL, run', n - 1));
      InclusionAt(small, large, run, run', n - 1);
    }
  }

  // ----- A tie that ends inclusion -----

  const NOW: Reading := Reading(1, 1)

  function Id(i: nat): string {
    seq(i + 1, _ => 'c')
  }

  /** All channels were seen at one reading. */
  predicate AtOnce(s: State) {
    forall id :: id in s.channels ==> s.channels[id].lastSeen == 1
  }

  const NEWCOMER: Channel := Channel(1, map[], {}, true)

  /** A new channel is told and so admitted, at the expense of any chosen one if there is no room. */
  lemma Admission(cfg: Config, s: State, c: string, gone: string) returns (s': State)
    requires cfg.maxChannels > 0 && cfg.ttl >= 0 && WithinCap(cfg, s) && AtOnce(s) && c != "" && c !in s.channels
    requires |s.channels| == cfg.maxChannels ==> gone in s.channels
    ensures Touched(cfg, s, c, NOW, NEWCOMER, s')
    ensures s'.channels == (if |s.channels| < cfg.maxChannels then s.channels else s.channels - {gone})[c := NEWCOMER]
  {
    if |s.channels| == cfg.maxChannels {
      s' := Evicting(cfg, s, c, gone);
    } else {
      var channels := s.channels[c := NEWCOMER];
      s' := State(channels, s.created + 1, s.expired, s.evicted, |channels|);
      assert channels - {c} == s.channels;
    }
  }

  lemma Evicting(cfg: Config, s: State, c: string, gone: string) returns (s': State)
    requires cfg.maxChannels == |s.channels| > 0 && cfg.ttl >= 0 && AtOnce(s) && c !in s.channels && gone in s.channels
    ensures Touched(cfg, s, c, NOW, NEWCOMER, s') && s'.channels == (s.channels - {gone})[c := NEWCOMER]
  {
    var kept := s.channels - {gone};
    s' := State(kept[c := NEWCOMER], s.created + 1, s.expired, s.evicted + 1, |kept[c := NEWCOMER]|);
    assert s'.channels - {c} == kept;
    RemoveSize(s.channels, gone);
    NothingExpiredKeepsAll(s.channels, 1 - cfg.ttl);
  }

  lemma WithNewcomer(cfg: Config, s: State, c: string, gone: string, s': State)
    requires cfg.maxChannels > 0 && |s.channels| <= cfg.maxChannels && AtOnce(s) && c !in s.channels
    requires |s.channels| == cfg.maxChannels ==> gone in s.channels
    requires s'.channels == (if |s.channels| < cfg.maxChannels then s.channels else s.channels - {gone})[c := NEWCOMER]
    ensures AtOnce(s')
    ensures s'.channels.Keys == (if |s.channels| < cfg.maxChannels then s.channels.Keys else s.channels.Keys - {gone}) + {c}
    ensures |s'.channels| == if |s.channels| < cfg.maxChannels then |s.channels| + 1 else |s.channels|
  {
    if |s.channels| < cfg.maxChannels {
      OneMore(s.channels, c);
    } else {
      RemoveSize(s.channels, gone);
      OneMore(s.channels - {gone}, c);
    }
  }

  lemma OneMore(kept: Channels, c: string)
    requires c !in kept
    ensures |kept[c := NEWCOMER]| == |kept| + 1 && kept[c := NEWCOMER].Keys == kept.Keys + {c}
  {
    assert kept[c := NEWCOMER].Keys == kept.Keys + {c};
    assert |kept[c := NEWCOMER]| == |kept[c := NEWCOMER].Keys| && |kept| == |kept.Keys|;
  }

  lemma ToldAsNewcomer(cfg: Config, s: State, c: string, s': State)
    requires c != "" && c !in s.channels && Touched(cfg, s, c, NOW, NEWCOMER, s')
    ensures Next(cfg, s, MarkEmptyScopeNotified(c), NOW, s', Flag(true))
  {
    assert Effect(MarkEmptyScopeNotified(c), FRESH, 1) == NEWCOMER;
  }

  lemma Appended(cfg: Config, run: seq<Step>, step: Step)
    requires IsRun(cfg, INITIAL, run) && Next(cfg, After(INITIAL, run, |run|), step.op, step.at, step.after, step.reply)
    ensures IsRun(cfg, INITIAL, run + [step])
    ensures forall i :: 0 <= i <= |run| ==> After(INITIAL, run + [step], i) == After(INITIAL, run, i)
  {
    var more := run + [step];
    assert more[|run|] == step && forall i :: 0 <= i < |run| ==> more[i] == run[i];
    forall i | 0 <= i < |more| ensures StepAt(cfg, INITIAL, more, i) {
      if i < |run| {
        assert StepAt(cfg, INITIAL, run, i);
      }
    }
  }

  /** The first m channels are told at one reading. */
  predicate TellsInTurn(run: seq<Step>) {
    forall i :: 0 <= i < |run| ==> run[i].op == MarkEmptyScopeNotified(Id(i)) && run[i].at == NOW
  }

  ghost predicate AllAtOnce(run: seq<Step>) {
    forall i :: 0 <= i <= |run| ==> AtOnce(After(INITIAL, run, i))
  }

  /** A run that tells one channel after the other at one reading, until and after the registry is full. */
  ghost predicate Filling(cfg: Config, run: seq<Step>) {
    && IsRun(cfg, INITIAL, run) && TellsInTurn(run) && AllAtOnce(run)
    && forall id :: id in After(INITIAL, run, |run|).channels ==> |id| <= |run|
  }

  /** One more channel is told, at the expense of gone if there is no room. */
  lemma Extended(cfg: Config, run: seq<Step>, gone: string) returns (more: seq<Step>)
    requires cfg.maxChannels > 0 && cfg.ttl >= 0 && Filling(cfg, run)
    requires |After(INITIAL, run, |run|).channels| == cfg.maxChannels ==> gone in After(INITIAL, run, |run|).channels
    ensures |more| == |run| + 1 && Filling(cfg, more)
    ensures
      var before, after := After(INITIAL, run, |run|).channels, After(INITIAL, more, |more|).channels;
      && after.Keys == (if |before| < cfg.maxChannels then before.Keys else before.Keys - {gone}) + {Id(|run|)}
      && |after| == if |before| < cfg.maxChannels then |before| + 1 else |before|
  {
    var s, c := After(INITIAL, run, |run|), Id(|run|);
    CapHolds(cfg, run, |run|);
    var s' := Admission(cfg, s, c, gone);
    ToldAsNewcomer(cfg, s, c, s');
    WithNewcomer(cfg, s, c, gone, s');
    more := StillFilling(cfg, run, s');
  }

  lemma StillFilling(cfg: Config, run: seq<Step>, s': State) returns (more: seq<Step>)
    requires Filling(cfg, run) && AtOnce(s') && forall id :: id in s'.channels ==> |id| <= |run| + 1
    requires Next(cfg, After(INITIAL, run, |run|), MarkEmptyScopeNotified(Id(|run|)), NOW, s', Flag(true))
    ensures |more| == |run| + 1 && Filling(cfg, more) && After(INITIAL, more, |more|) == s'
  {
    var step := Step(MarkEmptyScopeNotified(Id(|run|)), NOW, Flag(true), s');
    Appended(cfg, run, step);
    more := run + [step];
  }

  lemma {:induction false} Filled(cfg: Config, m: nat) returns (run: seq<Step>)
    requires cfg.maxChannels > 0 && cfg.ttl >= 0
    ensures |run| == m && Filling(cfg, run) && (m > 0 ==> Id(m - 1) in After(INITIAL, run, m).channels)
    ensures |After(INITIAL, run, m).channels| == if m < cfg.maxChannels then m else cfg.maxChannels
  {
    run := [];
    if m > 0 {
      run := Filled(cfg, m - 1);
      var s := After(INITIAL, run, m - 1);
      var gone := if s.channels.Keys == {} then "" else var id :| id in s.channels; id;
      run := Extended(cfg, run, gone);
    }
  }

  /** At caps of two and more, one schedule of tied readings lets the two registries evict different channels. */
  lemma TieBreaks(small: Config, large: Config) returns (run: seq<Step>, run': seq<Step>)
    requires CapAtMost(small, large) && small.ttl >= 0 && small.maxChannels > 1 && large.maxChannels > 0
    ensures TiedRuns(small, large, run, run') && !IncludedAt(small, run, run', |run|)
  {
    var x;
    run, run', x := Forks(small, large);
    Apart(small, run, run', |run|, x);
    BothTied(small, large, run, run');
  }

  /** Two registries filled on one schedule, of which the larger then evicts a channel that the smaller keeps. */
  lemma Forks(small: Config, large: Config) returns (run: seq<Step>, run': seq<Step>, x: string)
    requires CapAtMost(small, large) && small.ttl >= 0 && small.maxChannels > 1 && large.maxChannels > 0
    ensures |run| == |run'| && Filling(small, run) && Filling(large, run')
    ensures x in After(INITIAL, run, |run|).channels && x !in After(INITIAL, run', |run|).channels
  {
    var m := large.maxChannels;
    x := Id(m - 1);
    run := Filled(small, m);
    run' := Filled(large, m);
    var y := Another(After(INITIAL, run, m).channels, x);
    run := Extended(small, run, y);
    run' := Extended(large, run', x);
    assert |x| < |Id(m)|;
  }

  lemma BothTied(small: Config, large: Config, run: seq<Step>, run': seq<Step>)
    requires large.ttl >= 0 && |run| == |run'| && Filling(small, run) && Filling(large, run')
    ensures TiedRuns(small, large, run, run')
  {
    OneSchedule(run, run');
    NothingIdle(large, run');
  }

  lemma Apart(small: Config, run: seq<Step>, run': seq<Step>, n: nat, x: string)
    requires n <= |run| && n <= |run'| && x in After(INITIAL, run, n).channels && x !in After(INITIAL, run', n).channels
    ensures !IncludedAt(small, run, run', n)
  {
  }

  lemma OneSchedule(run: seq<Step>, run': seq<Step>)
    requires |run| == |run'| && TellsInTurn(run) && TellsInTurn(run')
    ensures SameSchedule(run, run') && SteadyClock(run')
  {
  }

  lemma NothingIdle(cfg: Config, run: seq<Step>)
    requires cfg.ttl >= 0 && TellsInTurn(run) && AllAtOnce(run)
    ensures NeverIdle(cfg, INITIAL, run)
  {
    forall i | 0 <= i < |run| ensures FreshAt(cfg, INITIAL, run, i) {
      assert AtOnce(After(INITIAL, run, i));
    }
  }

  lemma Another(channels: Channels, x: string) returns (y: string)
    requires x in channels && |channels| > 1
    ensures y in channels && y != x
  {
    RemoveSize(channels, x);
    var rest := channels - {x};
    assert |rest| == |rest.Keys|;
    y :| y in rest.Keys;
  }
}
