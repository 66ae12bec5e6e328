/** The monitor variable as objects: channels that are closed and replaced, subscriptions updated in place. */
module Monitor {
  import Spec = MonitorSpec

  class Channel {
    var closed: bool

    constructor ()
      ensures !closed
    {
      closed := false;
    }

    /** Closing a closed channel panics. */
    method Close()
      requires !closed
      modifies this
      ensures closed
    {
      closed := true;
    }
  }

  class Subscription {
    var lastVersionRead: nat
    var channel: Channel

    constructor (channel: Channel)
      ensures lastVersionRead == 0 && this.channel == channel
    {
      lastVersionRead := 0;
      this.channel := channel;
    }
  }

  class MonitorVariable<V> {
    var currentValue: V
    var currentVersion: nat
    var channel: Channel
    // Every channel this variable ever made, and every subscription to it.
    ghost var channels: set<Channel>
    ghost var subs: set<Subscription>

    ghost function Abs(): Spec.State<Channel, Subscription, V>
      reads this, channels, subs
    {
      Spec.State(currentValue, currentVersion, channel, set c | c in channels && c.closed,
                 map s | s in subs :: Spec.Sub(s.lastVersionRead, s.channel))
    }

    ghost predicate Valid()
      reads this, channels, subs
    {
      && channel in channels && (forall s | s in subs :: s.channel in channels)
      && Spec.Inv(Abs())
    }

    constructor (unset: V)
      ensures Valid() && fresh(channels)
      ensures Abs() == Spec.State(unset, 0, channel, {}, map[])
    {
      currentValue, currentVersion := unset, 0;
      channel := new Channel();
      channels, subs := {channel}, {};
    }

    method Set(newValue: V)
      requires Valid()
      modifies this, channel
      ensures Valid()
      ensures Abs() == Spec.Set(old(Abs()), newValue, channel) && fresh(channel)
      ensures channels == old(channels) + {channel} && subs == old(subs)
    {
      currentValue := newValue;
      currentVersion := currentVersion + 1;
      channel.Close();
      channel := new Channel();
      channels := channels + {channel};
    }

    method Subscribe() returns (sub: Subscription)
      requires Valid()
      modifies this`channels, this`subs
      ensures Valid() && fresh(sub) && (currentVersion > 0 ==> fresh(sub.channel))
      ensures Abs() == Spec.Subscribe(old(Abs()), sub, sub.channel)
      ensures subs == old(subs) + {sub}
    {
      hide Spec.Inv;
      ghost var before := Abs();
      if currentVersion > 0 {
        var closedCh := new Channel();
        closedCh.Close();
        sub := new Subscription(closedCh);
        channels := channels + {closedCh};
      } else {
        sub := new Subscription(channel);
      }
      subs := subs + {sub};
      assert Abs().subs == before.subs[sub := Spec.Sub(0, sub.channel)];
      assert Abs() == Spec.Subscribe(before, sub, sub.channel);
      Spec.SubscribeKeepsInv(before, sub, sub.channel);
    }

    /** The channel to wait on: closed exactly if there is a value the subscription has not read. */
    method NewValueReady(s: Subscription) returns (c: Channel)
      requires Valid() && s in subs
      ensures c == s.channel && c.closed == (s.lastVersionRead < currentVersion)
    {
      ReadyOf(s);
      c := s.channel;
    }

    lemma ReadyOf(s: Subscription)
      requires Valid() && s in subs
      ensures s.channel.closed == (s.lastVersionRead < currentVersion)
    {
      assert Abs().subs[s] == Spec.Sub(s.lastVersionRead, s.channel);
      assert Spec.Ready(Abs(), s) == s.channel.closed;
    }

    method Value(s: Subscription) returns (value: V, version: nat)
      requires Valid() && s in subs
      modifies s
      ensures Valid() && value == currentValue && version == currentVersion
      ensures Abs() == Spec.Read(old(Abs()), s)
    {
      value, version := currentValue, currentVersion;
      s.lastVersionRead := currentVersion;
      s.channel := channel;
    }
  }
}
