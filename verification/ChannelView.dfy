/** What registry operations look like from one channel. */
module ChannelView {
  import opened Options
  import opened RegistryModel
  import opened ServiceMap

  function ViewOf(s: State, channel: string): View {
    if channel in s.channels then View(s.channels[channel].namespaces, s.channels[channel].peers) else BLANK
  }

  /** How an operation on the channel changes its view, when it is the channel's own. */
  function Effected(op: Op, v: View): View {
    match op
    case Remember(c, service, namespace) =>
      if c != "" && service != "" then v.(namespaces := v.namespaces[service := namespace]) else v
    case RememberPeer(c, service) =>
      if c != "" && service != "" then v.(peers := v.peers + {service}) else v
    case _ => v
  }

  function Answer(op: Op, v: View): Option<Reply> {
    match op
    case Lookup(_, service) => Some(Found(Known(v, service)))
    case IsPeer(_, service) => Some(Flag(service in v.peers))
    case _ => None
  }

  /** A channel's own operations change its view as a function and are answered from it, evictions or not. */
  lemma OwnStep(cfg: Config, s: State, op: Op, at: Reading, s': State, reply: Reply)
    requires Next(cfg, s, op, at, s', reply) && !op.Sweep?
    ensures ViewOf(s', op.channel) == Effected(op, ViewOf(s, op.channel))
    ensures Answer(op, ViewOf(s, op.channel)).Some? ==> reply == Answer(op, ViewOf(s, op.channel)).value
  {
    if Target(op).Some? {
      var c := Target(op).value;
      TouchedFrame(cfg, s, c, at, Effect(op, Base(s.channels, c), at.now), s');
    }
  }

  /** Operations on other channels leave a channel's record alone or drop it. */
  lemma OtherStep(cfg: Config, s: State, op: Op, at: Reading, s': State, reply: Reply, channel: string)
    requires Next(cfg, s, op, at, s', reply) && (op.Sweep? || op.channel != channel)
    ensures channel in s'.channels ==> channel in s.channels && s'.channels[channel] == s.channels[channel]
  {
    if Target(op).Some? {
      var c := Target(op).value;
      TouchedFrame(cfg, s, c, at, Effect(op, Base(s.channels, c), at.now), s');
    }
  }
}
