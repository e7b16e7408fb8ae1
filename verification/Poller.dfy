/** Registration of channels with epoll (`net/Channel`, `net/Poller`).  The kernel's
    interest set answers as `epoll_ctl` does, so an illegal call shows up as a
    refusal; none ever happens. */
module Poller {

  const NONE_EVENT: bv8 := 0
  const READ_EVENT: bv8 := 3   // POLLIN | POLLPRI
  const WRITE_EVENT: bv8 := 4  // POLLOUT

  datatype Status = New | Added | Deleted
  datatype Operation = Add | Mod | Del

  class Channel {
    const fd: int
    var events: bv8
    var status: Status

    constructor (fd: int)
      ensures this.fd == fd && events == NONE_EVENT && status == New
    {
      this.fd, events, status := fd, NONE_EVENT, New;
    }
  }

  lemma SomeMember<T>(s: set<T>) returns (x: T)
    requires s != {}
    ensures x in s
  {
    x :| x in s;
  }

  class Poller {
    var channels: map<int, Channel>
    var interest: map<int, bv8>   // the kernel's side: registered descriptors and masks
    var refusals: nat             // epoll_ctl calls the kernel has refused
    ghost var known: set<Channel> // every channel this loop works with

    /** The two sides agree about every channel of the loop. */
    ghost predicate Valid()
      reads this, known
    {
      && (forall c, d :: c in known && d in known && c.fd == d.fd ==> c == d)
      && (forall c :: c in known ==> Agrees(c))
      && (forall fd :: fd in channels ==> channels[fd] in known && channels[fd].fd == fd)
      && interest.Keys <= channels.Keys
    }

    /** Valid, but for the mask of `c`, which has just changed. */
    ghost predicate ValidBut(c: Channel)
      reads this, known
    {
      && c in known
      && (forall d, e :: d in known && e in known && d.fd == e.fd ==> d == e)
      && (forall d :: d in known && d != c ==> Agrees(d))
      && (forall fd :: fd in channels ==> channels[fd] in known && channels[fd].fd == fd)
      && interest.Keys <= channels.Keys
      && (c.status == New <==> c.fd !in channels)
      && (c.status != New ==> channels[c.fd] == c)
      && (c.status == Added <==> c.fd in interest)
    }

    ghost predicate Agrees(c: Channel)
      reads this, c
    {
      && (c.status == New <==> c.fd !in channels)
      && (c.status != New ==> channels[c.fd] == c)
      && (c.status == Added <==> c.fd in interest)
      && (c.status == Added ==> interest[c.fd] == c.events)
      && (c.status == Deleted ==> c.events == NONE_EVENT)
    }

    /** Everything about the other channels is as before. */
    twostate predicate OthersKept(c: Channel)
      reads this, known
    {
      && known == old(known) && refusals == old(refusals)
      && (forall d :: d in known && d != c ==> unchanged(d))
      && (forall fd :: fd != c.fd ==> (fd in interest <==> fd in old(interest)))
      && (forall fd :: fd != c.fd && fd in interest ==> interest[fd] == old(interest)[fd])
    }

    constructor ()
      ensures Valid() && known == {} && refusals == 0 && channels == map[] && interest == map[]
    {
      channels, interest, refusals, known := map[], map[], 0, {};
    }

    /** A new channel joins.  Descriptor numbers come back once they are closed, so an earlier
        channel may have had this one; it must have been removed, as `updateChannel` asserts
        when the new channel registers, and the loop is done with it. */
    method NewChannel(fd: int) returns (c: Channel)
      requires Valid() && fd !in channels
      modifies this`known
      ensures Valid() && fresh(c) && c.fd == fd && c.status == New && c.events == NONE_EVENT
      ensures known == (set d | d in old(known) && d.fd != fd) + {c}
    {
      c := new Channel(fd);
      known := (set d | d in known && d.fd != fd) + {c};
    }

    /** `epoll_ctl`: ADD of a present descriptor, or MOD or DEL of an absent one, is refused. */
    method EpollCtl(op: Operation, fd: int, mask: bv8)
      modifies this`interest, this`refusals
      ensures refusals == old(refusals) + if (op == Add) == (fd in old(interest)) then 1 else 0
      ensures interest ==
              if (op == Add) == (fd in old(interest)) then old(interest)
              else if op == Del then old(interest) - {fd} else old(interest)[fd := mask]
    {
      if (op == Add) == (fd in interest) {
        refusals := refusals + 1;
      } else if op == Del {
        interest := interest - {fd};
      } else {
        interest := interest[fd := mask];
      }
    }

    /** Called after `c.events` has changed.  The asserts are the source's own. */
    method UpdateChannel(c: Channel)
      requires ValidBut(c)
      modifies this, c`status
      ensures Valid() && OthersKept(c)
      ensures c.status == if old(c.status) == Added && c.events == NONE_EVENT then Deleted else Added
    {
      if c.status != Added {
        if c.status == New {
          assert c.fd !in channels;
        } else {
          assert c.fd in channels && channels[c.fd] == c;
        }
        Register(c);
      } else {
        assert c.fd in channels && channels[c.fd] == c;
        Change(c);
      }
      Settle(c);
    }

    /** The last two statements of `updateChannel`, which change nothing. */
    method Settle(c: Channel)
      requires Valid() && c in known && c.status != New
      modifies this`channels, c`status
      ensures Valid() && channels == old(channels) && c.status == old(c.status)
    {
      assert channels[c.fd := c] == channels;
      c.status := if c.status == New then Added else c.status;
      channels := channels[c.fd := c];
    }

    method Register(c: Channel)
      requires ValidBut(c) && c.status != Added
      modifies this`channels, this`interest, this`refusals, c`status
      ensures Valid() && OthersKept(c) && c.status == Added
    {
      if c.status == New {
        channels := channels[c.fd := c];
      }
      c.status := Added;
      EpollCtl(Add, c.fd, c.events);
    }

    method Change(c: Channel)
      requires ValidBut(c) && c.status == Added
      modifies this`interest, this`refusals, c`status
      ensures Valid() && OthersKept(c) && c.status == if c.events == NONE_EVENT then Deleted else Added
    {
      if c.events == NONE_EVENT {
        EpollCtl(Del, c.fd, c.events);
        c.status := Deleted;
      } else {
        EpollCtl(Mod, c.fd, c.events);
      }
    }

    method EnableReading(c: Channel)
      requires Valid() && c in known
      modifies this, c
      ensures Valid() && OthersKept(c)
      ensures c.status == Added && c.events == old(c.events) | READ_EVENT
      ensures c.events & 1 == 1 && c.events & 4 == old(c.events) & 4
      ensures c.fd in interest && interest[c.fd] == c.events
    {
      c.events := c.events | READ_EVENT;
      assert c.events != NONE_EVENT;
      UpdateChannel(c);
    }

    method EnableWriting(c: Channel)
      requires Valid() && c in known
      modifies this, c
      ensures Valid() && OthersKept(c)
      ensures c.status == Added && c.events == old(c.events) | WRITE_EVENT
      ensures c.events & 4 == 4 && c.events & 1 == old(c.events) & 1
      ensures c.fd in interest && interest[c.fd] == c.events
    {
      c.events := c.events | WRITE_EVENT;
      assert c.events != NONE_EVENT;
      UpdateChannel(c);
    }

    /** Dropping the last interest of a registered channel takes it out of the kernel's
        set; on any other channel the call registers it. */
    method DisableReading(c: Channel)
      requires Valid() && c in known
      modifies this, c
      ensures Valid() && OthersKept(c)
      ensures c.events == old(c.events) & !READ_EVENT
      ensures c.events & 1 == 0 && c.events & 4 == old(c.events) & 4
      ensures c.fd !in interest <==> old(c.status) == Added && c.events == NONE_EVENT
    {
      c.events := c.events & !READ_EVENT;
      UpdateChannel(c);
    }

    method DisableWriting(c: Channel)
      requires Valid() && c in known
      modifies this, c
      ensures Valid() && OthersKept(c)
      ensures c.events == old(c.events) & !WRITE_EVENT
      ensures c.events & 4 == 0 && c.events & 1 == old(c.events) & 1
      ensures c.fd !in interest <==> old(c.status) == Added && c.events == NONE_EVENT
    {
      c.events := c.events & !WRITE_EVENT;
      UpdateChannel(c);
    }

    /** Documented to take the descriptor out of the kernel's set, which it does exactly
        when the channel was registered; a second call in a row puts it back with an
        empty mask. */
    method DisableAll(c: Channel)
      requires Valid() && c in known
      modifies this, c
      ensures Valid() && OthersKept(c)
      ensures c.events == NONE_EVENT
      ensures c.fd !in interest <==> old(c.status) == Added
      ensures c.status == if old(c.status) == Added then Deleted else Added
    {
      c.events := NONE_EVENT;
      UpdateChannel(c);
    }

    method RemoveChannel(c: Channel)
      requires Valid() && c in known
      modifies this, c`status
      ensures Valid() && OthersKept(c)
      ensures c.status == New && c.fd !in channels && c.fd !in interest
    {
      if c.status == Added {
        EpollCtl(Del, c.fd, NONE_EVENT);
      }
      channels := channels - {c.fd};
      c.status := New;
    }

    /** `connectDestroyed`'s use of both: whatever came before, nothing is left behind. */
    method Unregister(c: Channel)
      requires Valid() && c in known
      modifies this, c
      ensures Valid() && OthersKept(c)
      ensures c.status == New && c.fd !in channels && c.fd !in interest
    {
      DisableAll(c);
      RemoveChannel(c);
    }

    /** The destructor's assertion that no channel is left holds exactly when every
        channel has been removed, and then the kernel's set is empty too. */
    lemma EmptyIffAllRemoved()
      requires Valid()
      ensures channels == map[] <==> forall c :: c in known ==> c.status == New
      ensures channels == map[] ==> interest == map[]
    {
      if channels != map[] {
        var fd := SomeMember(channels.Keys);
        assert Agrees(channels[fd]) && channels[fd].status != New;
      }
      if channels == map[] {
        assert interest.Keys == {};
      }
    }
  }
}
