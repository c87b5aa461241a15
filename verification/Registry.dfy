/**
 The registry as the mutable object the program keeps, with the loops that make
 room by deleting.  Each operation is proved to be a step of RegistryModel.
 */
module Registry {
  import opened Collections
  import opened Options
  import opened RegistryModel

  class Registry {
    const ttl: int
    const maxChannels: int
    var channels: map<string, Channel>
    var gauge: nat
    var evictions: nat
    /** How many channels were ever admitted, and how many were dropped as expired. */
    ghost var created: nat
    ghost var expired: nat

    constructor (ttl: int, maxChannels: int)
      ensures Valid() && Current() == INITIAL
      ensures this.ttl == ttl && this.maxChannels == maxChannels
    {
      this.ttl, this.maxChannels := ttl, maxChannels;
      channels, gauge, evictions, created, expired := map[], 0, 0, 0, 0;
    }

    ghost function Cfg(): Config {
      Config(ttl, maxChannels)
    }

    ghost function Current(): State
      reads this
    {
      State(channels, created, expired, evictions, gauge)
    }

    ghost predicate Valid()
      reads this
    {
      Inv(Cfg(), Current())
    }

    /** Deletes every channel last seen before cutoff. */
    method DropExpired(cutoff: int)
      modifies this`channels, this`expired
      ensures channels == Unexpired(old(channels), cutoff)
      ensures expired == old(expired) + |old(channels)| - |channels|
    {
      ghost var was := channels;
      var todo := channels.Keys;
      while todo != {}
        invariant todo <= channels.Keys && Restricts(was, channels) && expired == old(expired)
        invariant forall id :: id in was && id !in todo ==> (id in channels <==> !Expired(was[id], cutoff))
        decreases todo
      {
        var id :| id in todo;
        todo := todo - {id};
        if channels[id].lastSeen < cutoff {
          channels := channels - {id};
        }
      }
      assert channels == Unexpired(was, cutoff);
      RestrictSize(was, channels);
      expired := expired + (|was| - |channels|);
    }

    /** The least recently seen channel; the empty ID means there is none. */
    method Oldest() returns (oldestId: string)
      requires "" !in channels
      ensures oldestId == "" <==> channels.Keys == {}
      ensures oldestId != "" ==> oldestId in channels
      ensures oldestId != "" ==> forall id :: id in channels ==> channels[oldestId].lastSeen <= channels[id].lastSeen
    {
      oldestId := "";
      var oldest := 0;
      var todo := channels.Keys;
      while todo != {}
        invariant todo <= channels.Keys
        invariant oldestId == "" <==> todo == channels.Keys
        invariant oldestId != "" ==> oldestId in channels && oldest == channels[oldestId].lastSeen
        invariant oldestId != "" ==> forall id :: id in channels && id !in todo ==> oldest <= channels[id].lastSeen
        decreases todo
      {
        var id :| id in todo;
        todo := todo - {id};
        if oldestId == "" || channels[id].lastSeen < oldest {
          oldestId, oldest := id, channels[id].lastSeen;
        }
      }
    }

    /** Ensures there is space for one more channel. */
    method MakeRoom(room: int)
      requires "" !in channels
      modifies this`channels, this`evictions, this`expired
      ensures expired >= old(expired) && evictions >= old(evictions)
      ensures MadeRoom(Cfg(), old(channels), channels, expired - old(expired), evictions - old(evictions), room)
    {
      if maxChannels <= 0 || |channels| < maxChannels {
        return;
      }
      DropExpired(room - ttl);
      RestrictSize(old(channels), channels);
      if |channels| < maxChannels {
        return;
      }
      DropOldest();
    }

    /** Drops least recently seen channels until one more fits. */
    method DropOldest()
      requires "" !in channels && |channels| >= maxChannels > 0
      modifies this`channels, this`evictions
      ensures Restricts(old(channels), channels) && DropsOldest(old(channels), channels) && |channels| == maxChannels - 1
      ensures evictions == old(evictions) + |old(channels)| - |channels|
    {
      while |channels| >= maxChannels
        invariant Restricts(old(channels), channels) && DropsOldest(old(channels), channels)
        invariant |channels| >= maxChannels - 1
        invariant evictions == old(evictions) + |old(channels)| - |channels|
        decreases |channels|
      {
        var oldestId := Oldest();
        if oldestId == "" {
          assert false;
          return;
        }
        RemoveSize(channels, oldestId);
        channels := channels - {oldestId};
        evictions := evictions + 1;
      }
    }

    /** The channel's record, admitting the channel if it is not tracked. */
    method ChannelLocked(channelId: string, room: int) returns (ch: Channel)
      requires "" !in channels && channelId != ""
      modifies this
      ensures channelId in channels && channels[channelId] == ch == Base(old(channels), channelId)
      ensures Touched(Cfg(), old(Current()), channelId, Reading(room, 0), ch, Current())
    {
      if channelId in channels {
        ch := channels[channelId];
        assert channels[channelId := ch] == channels;
        return;
      }
      MakeRoom(room);
      ghost var roomy := channels;
      ch := FRESH;
      channels := channels[channelId := ch];
      created := created + 1;
      gauge := |channels|;
      Admitted(Cfg(), old(Current()), channelId, room, roomy, Current());
    }

    /** Records a service ID's namespace for this channel. */
    method Remember(channelId: string, serviceId: string, namespace: string, room: int, now: int)
      requires Valid()
      modifies this
      ensures Valid()
      ensures Next(Cfg(), old(Current()), Op.Remember(channelId, serviceId, namespace), Reading(room, now), Current(), Done)
    {
      if channelId == "" || serviceId == "" {
        return;
      }
      var ch := ChannelLocked(channelId, room);
      Write(channelId, ch.(lastSeen := now, namespaces := ch.namespaces[serviceId := namespace]), old(Current()), room, now);
    }

    /** Records a service linked to the caller's scope from outside it. */
    method RememberPeer(channelId: string, serviceId: string, room: int, now: int)
      requires Valid()
      modifies this
      ensures Valid()
      ensures Next(Cfg(), old(Current()), Op.RememberPeer(channelId, serviceId), Reading(room, now), Current(), Done)
    {
      if channelId == "" || serviceId == "" {
        return;
      }
      var ch := ChannelLocked(channelId, room);
      Write(channelId, ch.(lastSeen := now, peers := ch.peers + {serviceId}), old(Current()), room, now);
    }

    /** Whether this channel still needs telling that its caller can see nothing. */
    method MarkEmptyScopeNotified(channelId: string, room: int, now: int) returns (first: bool)
      requires Valid()
      modifies this
      ensures Valid()
      ensures Next(Cfg(), old(Current()), Op.MarkEmptyScopeNotified(channelId), Reading(room, now), Current(), Flag(first))
    {
      if channelId == "" {
        return false;
      }
      var ch := ChannelLocked(channelId, room);
      first := !ch.notified;
      Write(channelId, ch.(lastSeen := now, notified := true), old(Current()), room, now);
    }

    method IsPeer(channelId: string, serviceId: string) returns (yes: bool)
      requires Valid()
      ensures forall at :: Next(Cfg(), Current(), Op.IsPeer(channelId, serviceId), at, Current(), Flag(yes))
    {
      if channelId !in channels {
        return false;
      }
      return serviceId in channels[channelId].peers;
    }

    /** The namespace recorded for a service ID, refreshing a channel that is tracked. */
    method Lookup(channelId: string, serviceId: string, now: int) returns (ns: Option<string>)
      requires Valid()
      modifies this
      ensures Valid()
      ensures forall room :: Next(Cfg(), old(Current()), Op.Lookup(channelId, serviceId), Reading(room, now), Current(), Found(ns))
    {
      if channelId !in channels {
        return None;
      }
      channels := channels[channelId := channels[channelId].(lastSeen := now)];
      ns := if serviceId in channels[channelId].namespaces
            then Some(channels[channelId].namespaces[serviceId]) else None;
      NextKeepsInv(Cfg(), old(Current()), Op.Lookup(channelId, serviceId), Reading(0, now), Current(), Found(ns));
    }

    /** Drops channels idle for longer than the TTL. */
    method Sweep(now: int)
      requires Valid()
      modifies this
      ensures Valid()
      ensures Next(Cfg(), old(Current()), Op.Sweep, Reading(now, now), Current(), Done)
    {
      DropExpired(now - ttl);
      gauge := |channels|;
      NextKeepsInv(Cfg(), old(Current()), Op.Sweep, Reading(now, now), Current(), Done);
    }

    /** Stores a tracked channel's record; with the admission before it, one Touched step from s. */
    method Write(channelId: string, value: Channel, ghost s: State, ghost room: int, ghost now: int)
      requires Inv(Cfg(), s) && channelId != "" && channelId in channels && "" !in value.namespaces && "" !in value.peers
      requires Touched(Cfg(), s, channelId, Reading(room, 0), Base(s.channels, channelId), Current())
      modifies this`channels
      ensures Touched(Cfg(), s, channelId, Reading(room, now), value, Current())
      ensures Valid()
    {
      ghost var admitted := Current();
      channels := channels[channelId := value];
      Rewritten(Cfg(), s, channelId, Reading(room, now), admitted, value, Current());
      TouchedKeepsInv(Cfg(), s, channelId, Reading(room, now), value, Current());
    }
  }

  /** Making room and then adding a fresh record admits the channel. */
  lemma Admitted(cfg: Config, s: State, channel: string, room: int, roomy: Channels, s': State)
    requires channel !in s.channels && s'.expired >= s.expired && s'.evicted >= s.evicted
    requires MadeRoom(cfg, s.channels, roomy, s'.expired - s.expired, s'.evicted - s.evicted, room)
    requires s'.channels == roomy[channel := FRESH] && s'.created == s.created + 1 && s'.gauge == |s'.channels|
    ensures Touched(cfg, s, channel, Reading(room, 0), FRESH, s')
  {
    assert channel !in roomy;
    assert s'.channels - {channel} == roomy;
  }

  /** Admitting a channel and then writing its record is one Touched step. */
  lemma Rewritten(cfg: Config, s: State, channel: string, at: Reading, admitted: State, value: Channel, s': State)
    requires Touched(cfg, s, channel, Reading(at.room, 0), Base(s.channels, channel), admitted)
    requires channel in admitted.channels && s' == admitted.(channels := admitted.channels[channel := value])
    ensures Touched(cfg, s, channel, at, value, s')
  {
    if channel in s.channels {
      assert s.channels[channel := Base(s.channels, channel)] == s.channels;
    } else {
      assert s'.channels - {channel} == admitted.channels - {channel};
      assert s'.channels.Keys == admitted.channels.Keys;
      assert |s'.channels| == |s'.channels.Keys| == |admitted.channels.Keys|;
    }
  }
}
