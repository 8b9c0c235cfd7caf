/** The relay and its connections as objects, method by method equal to their values. */
module SignallingHub {
  import opened Wrappers
  import opened TokenBuckets
  import opened Signalling
  import RateLimiter

  class HubInbox {
    ghost const slot: nat
    ghost const owner: string
    var queue: seq<Envelope>
    var closed: bool

    ghost function Value(): Box
      reads this
    {
      Box(owner, queue, closed)
    }

    constructor (ghost owner: string, ghost slot: nat)
      ensures Value() == Box(owner, [], false) && this.slot == slot
    {
      this.owner, this.slot, queue, closed := owner, slot, [], false;
    }

    method Close()
      modifies this`closed
      ensures Value() == old(Value()).(closed := true)
    {
      if !closed {
        closed := true;
      }
    }

    /** The channel send of a call that found this inbox, then or some time before. On a closed channel it panics. */
    method Offer(env: Envelope) returns (accepted: bool)
      requires !closed
      modifies this`queue
      ensures (Value(), if accepted then Accepted else Rejected(InboxFull)) == Fill(old(Value()), env)
    {
      if |queue| < INBOX_CAPACITY {
        queue := queue + [env];
        return true;
      }
      return false;
    }

    method Receive() returns (r: Received)
      modifies this`queue
      ensures (Value(), r) == Drain(old(Value()))
    {
      if queue != [] {
        r := Got(queue[0]);
        queue := queue[1..];
      } else {
        r := if closed then Ended else Waiting;
      }
    }
  }

  class Hub {
    var inboxes: map<string, HubInbox>
    /** Every inbox ever handed out, each at its slot. */
    ghost var created: seq<HubInbox>

    ghost predicate Valid()
      reads this, created
    {
      && (forall i | 0 <= i < |created| :: created[i].slot == i)
      && (forall hash | hash in inboxes :: Owns(inboxes[hash]))
    }

    ghost predicate Owns(box: HubInbox)
      reads this
    {
      box.slot < |created| && created[box.slot] == box
    }

    ghost function Boxes(): seq<Box>
      reads this, created
    {
      seq(|created|, i requires 0 <= i < |created| reads this, created => created[i].Value())
    }

    ghost function Live(): map<string, nat>
      reads this
    {
      map hash | hash in inboxes :: inboxes[hash].slot
    }

    ghost function View(): (h: State)
      requires Valid()
      reads this, created
      ensures Indexed(h)
    {
      State(Boxes(), Live())
    }

    constructor ()
      ensures Valid() && View() == EMPTY
    {
      inboxes, created := map[], [];
    }

    /** What the view shows when one inbox closed and the map kept its entries. */
    twostate lemma OnlyClosed(box: HubInbox)
      requires old(Valid()) && Valid() && created == old(created) && Owns(box)
      requires forall o | o in created && o != box :: o.Value() == old(o.Value())
      requires box.Value() == old(box.Value()).(closed := true)
      ensures Boxes() == Signalling.Close(old(View()), box.slot).boxes
    {
    }

    method Attach(hash: string) returns (box: HubInbox)
      requires Valid()
      modifies this`inboxes, this`created
      ensures Valid() && fresh(box) && created == old(created) + [box] && box.slot == |old(created)|
      ensures Boxes() == old(Boxes()) + [Box(hash, [], false)]
      ensures Live() == old(Live())[hash := |old(created)|]
    {
      ghost var n := |created|;
      box := new HubInbox(hash, n);
      created := created + [box];
      inboxes := inboxes[hash := box];
    }

    method Register(cancelled: bool, hash: string) returns (r: Result<HubInbox, Fault>)
      requires Valid()
      modifies this, created
      ensures Valid() && old(created) <= created
      ensures View() == Signalling.Register(old(View()), cancelled, hash).0
      ensures match (r, Signalling.Register(old(View()), cancelled, hash).1)
              case (Success(box), Success(k)) => fresh(box) && created == old(created) + [box] && box.slot == k
              case (Failure(f), Failure(f')) => f == f' && created == old(created)
              case _ => false
    {
      if cancelled {
        return Failure(Cancelled);
      }
      if |hash| < 16 || |hash| > 64 {
        return Failure(BadHash);
      }
      if hash in inboxes {
        inboxes[hash].Close();
        OnlyClosed(inboxes[hash]);
      }
      var box := Attach(hash);
      return Success(box);
    }

    /** The lookup of a send, under the hub's lock. */
    method Look(cancelled: bool, toHash: string) returns (r: Result<HubInbox, Fault>)
      requires Valid()
      ensures match (r, Signalling.Look(View(), cancelled, toHash))
              case (Success(box), Success(k)) => toHash in inboxes && box == inboxes[toHash] && box.slot == k
              case (Failure(f), Failure(f')) => f == f'
              case _ => false
    {
      if cancelled {
        return Failure(Cancelled);
      }
      if toHash !in inboxes {
        return Failure(PeerNotConnected);
      }
      return Success(inboxes[toHash]);
    }

    /** The lookup and the channel send with nothing in between; no run of the hub has closed the inbox found. */
    method Send(cancelled: bool, toHash: string, env: Envelope) returns (error: Option<Fault>)
      requires Valid()
      requires toHash in inboxes ==> !inboxes[toHash].closed
      modifies created
      ensures Valid()
      ensures var (h, outcome) := Signalling.Send(old(View()), cancelled, toHash, env);
        View() == h && outcome == if error.None? then Accepted else Rejected(error.value)
    {
      var found := Look(cancelled, toHash);
      if found.Failure? {
        return Some(found.error);
      }
      var box := found.value;
      assert Boxes()[box.slot] == box.Value();
      var accepted := box.Offer(env);
      assert Boxes() == old(Boxes())[box.slot := box.Value()];
      return if accepted then None else Some(InboxFull);
    }

    method Unregister(hash: string)
      requires Valid()
      modifies this`inboxes, created
      ensures Valid() && created == old(created)
      ensures View() == Signalling.Unregister(old(View()), hash)
    {
      if hash in inboxes {
        var box := inboxes[hash];
        box.Close();
        OnlyClosed(box);
        inboxes := inboxes - {hash};
        assert Live() == old(Live()) - {hash};
      }
    }

    method ConnectedCount() returns (n: nat)
      requires Valid()
      ensures n == |View().inboxes|
    {
      assert View().inboxes.Keys == inboxes.Keys;
      return |inboxes|;
    }

    method IsConnected(hash: string) returns (ok: bool)
      requires Valid()
      ensures ok <==> hash in View().inboxes
    {
      return hash in inboxes;
    }
  }

  class Connection {
    const hash: string
    const limits: Limits
    var buckets: map<string, RateLimiter.TokenBucket>
    var reading: bool

    ghost predicate Valid()
      reads this, buckets.Values
    {
      && (forall s | s in buckets :: buckets[s].max == limits.burst as real && buckets[s].rate == limits.rate)
      && (forall s, t | s in buckets && t in buckets && s != t :: buckets[s] != buckets[t])
    }

    ghost function Buckets(): map<string, Bucket>
      reads this`buckets, buckets.Values
    {
      map s | s in buckets :: buckets[s].Value()
    }

    ghost function View(): Conn
      reads this, buckets.Values
    {
      Conn(hash, Buckets(), reading)
    }

    constructor (hash: string, limits: Limits)
      ensures Valid() && View() == Conn(hash, map[], true) && this.limits == limits
    {
      this.hash, this.limits, buckets, reading := hash, limits, map[], true;
    }

    method GetBucket(session: string, made: real) returns (b: RateLimiter.TokenBucket)
      requires Valid()
      modifies this`buckets
      ensures Valid() && session in buckets && b == buckets[session]
      ensures session in old(buckets) ==> buckets == old(buckets)
      ensures session !in old(buckets) ==>
        fresh(b) && buckets == old(buckets)[session := b] && b.Value() == Bucket(limits.burst as real, made)
    {
      if session !in buckets {
        var tb := new RateLimiter.TokenBucket(limits.burst as real, limits.rate, made);
        buckets := buckets[session := tb];
      }
      return buckets[session];
    }

    /** Charges one frame to the bucket of its session. */
    method Charge(a: Arrival) returns (ok: bool)
      requires Valid()
      modifies this`buckets, buckets.Values
      ensures Valid() && fresh(buckets.Values - old(buckets.Values))
      ensures var (b, allowed) := Allow(BucketFor(old(View()), limits, a), limits.burst as real, limits.rate, a.now);
        Buckets() == old(Buckets())[a.env.session := b] && ok == allowed
    {
      hide Allow;
      var tb := GetBucket(a.env.session, a.made);
      assert tb.Value() == BucketFor(old(View()), limits, a);
      ok := tb.Allow(a.now);
    }

    method Judge(a: Arrival) returns (v: Verdict)
      requires Valid()
      modifies this, buckets.Values
      ensures Valid() && fresh(buckets.Values - old(buckets.Values))
      ensures (View(), v) == Signalling.Judge(old(View()), limits, a)
    {
      hide Allow;
      if !Wellformed(a.env) {
        return Dropped;
      }
      if a.env.from != hash {
        return Unregistered;
      }
      if a.env.kind == ICE {
        var ok := Charge(a);
        if !ok {
          reading := false;
          return RateLimited;
        }
      }
      return if a.env.to != "" then Route else Unaddressed;
    }
  }
}
