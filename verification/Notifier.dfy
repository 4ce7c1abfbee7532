/** The configuration notifier: a version counter and one single-slot channel per subscriber, changed
    under a mutex.  Run alone, Notify leaves the newest version in every slot; how its steps interleave
    with the receivers is the subject of ConfigWatch. */
module Notifier {
  import opened Text

  // A Go channel with a buffer of one, as seen by non-blocking sends and receives.
  class Channel {
    var slot: Option<int>

    constructor ()
      ensures slot == None
    {
      slot := None;
    }

    method TrySend(v: int) returns (sent: bool)
      modifies this
      ensures sent == old(slot).None?
      ensures slot == if sent then Some(v) else old(slot)
    {
      sent := slot.None?;
      if sent { slot := Some(v); }
    }

    method TryReceive() returns (v: Option<int>)
      modifies this
      ensures v == old(slot) && slot == None
    {
      v := slot;
      slot := None;
    }
  }

  class Notifier {
    var version: int
    var subscribers: set<Channel>

    constructor ()
      ensures version == 1 && subscribers == {}
    {
      version, subscribers := 1, {};
    }

    method Subscribe() returns (channel: Channel)
      modifies this
      ensures fresh(channel) && channel.slot == None
      ensures version == old(version) && subscribers == old(subscribers) + {channel}
    {
      channel := new Channel();
      subscribers := subscribers + {channel};
    }

    method Unsubscribe(channel: Channel)
      modifies this
      ensures version == old(version) && subscribers == old(subscribers) - {channel}
    {
      if channel in subscribers { subscribers := subscribers - {channel}; }
    }

    // Whatever the slots held, each subscriber is left with exactly the new version.
    method Notify() returns (v: int)
      modifies this, subscribers
      ensures v == version == old(version) + 1 && subscribers == old(subscribers)
      ensures forall c :: c in subscribers ==> c.slot == Some(version)
    {
      version := version + 1;
      var todo := subscribers;
      while todo != {}
        invariant todo <= subscribers == old(subscribers) && version == old(version) + 1
        invariant forall c :: c in subscribers - todo ==> c.slot == Some(version)
        decreases todo
      {
        var c :| c in todo;
        var sent := c.TrySend(version);
        if !sent {
          var dropped := c.TryReceive();
          sent := c.TrySend(version);
        }
        todo := todo - {c};
      }
      v := version;
    }
  }
}
