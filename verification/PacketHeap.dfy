/** The pool and queue functions of snull.c on the heap. A `System` records the operations carried
    out so far; it is valid when they are a legal run and memory holds exactly the pointers that
    the run leaves, so every fact of `PacketPool.Conservation` holds of the heap. */
module PacketHeap {
  import opened PacketPool

  ghost function Owners(xs: set<List>): set<Device> {
    set x | x in xs :: x.d
  }

  ghost function HeadOf(x: List): Packet?
    reads x.d
  {
    match x
    case Pool(d) => d.ppool
    case Queue(d) => d.rxQueue
  }

  /** Memory holds these pointers. */
  ghost predicate Holds(next: map<Packet, Packet?>, head: map<List, Packet?>)
    reads next.Keys, Owners(head.Keys)
  {
    && (forall p :: p in next ==> p.next == next[p])
    && (forall x :: x in head ==> HeadOf(x) == head[x])
  }

  /** What the heap code may read off a list head, in any run. */
  lemma HeadTells(devs: set<Device>, ops: seq<Op>, x: List)
    requires Legal(devs, ops) && x in Lists(devs)
    ensures var w := After(devs, ops);
      && x in w.lists && x in w.head && (w.head[x] == null <==> w.lists[x] == [])
      && (w.lists[x] != [] ==> Enabled(w, Take(x)) && w.head[x] == First(w, x) && First(w, x) in w.place)
      && (w.lists[x] != [] && x.Pool? ==> First(w, x).dev == x.d)
      && w.next.Keys == w.place.Keys
  {
    Conservation(devs, ops);
    HeadMeans(After(devs, ops), x);
  }

  ghost function Elements(s: seq<Packet>): set<Packet> {
    set p | p in s
  }

  lemma TailElements(s: seq<Packet>, k: nat)
    requires k < |s|
    ensures Elements(s[k..]) == Elements(s[k + 1..]) + {s[k]}
    ensures s[..k + 1][..k] == s[..k]
  {
    assert s[k..] == [s[k]] + s[k + 1..];
  }

  lemma NothingLeft(devs: set<Device>, ops: seq<Op>, d: Device, s: seq<Packet>, k: nat)
    requires Legal(devs, ops) && d in devs && k <= |s|
    requires var w := After(devs, ops);
      (Pool(d) in w.head ==> w.head[Pool(d)] == null) && (Pool(d) in w.lists ==> w.lists[Pool(d)] == s[..k])
    ensures s[..k] == [] && s[k..] == s
  {
    HeadTells(devs, ops, Pool(d));
  }

  class System {
    const devs: set<Device>
    var locked: set<Device>
    ghost var ops: seq<Op>
    ghost var w: World

    ghost predicate Valid()
      reads this, w.next.Keys, Owners(w.head.Keys)
    {
      Legal(devs, ops) && w == After(devs, ops) && Holds(w.next, w.head)
    }

    /** Devices start with empty lists and free locks. */
    constructor (devs: set<Device>)
      requires forall d :: d in devs ==> d.ppool == null && d.rxQueue == null
      ensures Valid() && this.devs == devs && ops == [] && locked == {}
    {
      this.devs, locked, ops, w := devs, {}, [], Boot(devs);
    }

    /** Record one more operation. */
    ghost method Log(op: Op)
      requires Legal(devs, ops) && w == After(devs, ops) && Enabled(w, op)
      modifies this`ops, this`w
      ensures Legal(devs, ops) && w == After(devs, ops)
      ensures ops == old(ops) + [op] && w == Next(old(w), op)
    {
      Extend(devs, ops, op);
      ops, w := ops + [op], Next(w, op);
    }

    /** pkt->next = head; head = pkt */
    method LinkFront(x: List, pkt: Packet)
      requires Valid() && Enabled(w, Put(x, pkt))
      modifies this`ops, this`w, pkt`next, x.d
      ensures Valid() && ops == old(ops) + [Put(x, pkt)] && w == Next(old(w), Put(x, pkt))
    {
      match x {
        case Pool(d) =>
          pkt.next := d.ppool;
          d.ppool := pkt;
        case Queue(d) =>
          pkt.next := d.rxQueue;
          d.rxQueue := pkt;
      }
      Log(Put(x, pkt));
    }

    /** pkt = head; head = pkt->next */
    method UnlinkFront(x: List) returns (pkt: Packet)
      requires Valid() && Enabled(w, Take(x)) && HeadOf(x) == First(w, x) && x in w.head
      modifies this`ops, this`w, x.d
      ensures Valid() && ops == old(ops) + [Take(x)] && w == Next(old(w), Take(x))
      ensures pkt == First(old(w), x)
    {
      match x {
        case Pool(d) =>
          pkt := d.ppool;
          d.ppool := pkt.next;
        case Queue(d) =>
          pkt := d.rxQueue;
          d.rxQueue := pkt.next;
      }
      Log(Take(x));
    }

    /** An empty pool returns null with the device's lock still held. */
    method GetTxBuffer(d: Device) returns (pkt: Packet?)
      requires Valid() && d in devs && d !in locked
      modifies this`ops, this`w, this`locked, d
      ensures Valid() && Pool(d) in old(w.lists)
      ensures old(w.lists)[Pool(d)] == [] ==>
                pkt == null && locked == old(locked) + {d} && ops == old(ops) && w == old(w)
      ensures old(w.lists)[Pool(d)] != [] ==>
                && pkt == First(old(w), Pool(d)) && pkt.dev == d && locked == old(locked)
                && ops == old(ops) + [Take(Pool(d))] && w == Next(old(w), Take(Pool(d)))
    {
      HeadTells(devs, ops, Pool(d));
      locked := locked + {d};
      if d.ppool == null {
        return null;
      }
      pkt := UnlinkFront(Pool(d));
      locked := locked - {d};
    }

    /** Whatever list a packet was taken from, it goes back to the pool of its own device. */
    method ReleaseBuffer(pkt: Packet)
      requires Valid() && pkt in w.place && w.place[pkt] == Hand && pkt.dev in devs && pkt.dev !in locked
      modifies this`ops, this`w, this`locked, pkt`next, pkt.dev
      ensures Valid() && locked == old(locked)
      ensures ops == old(ops) + [Put(Pool(pkt.dev), pkt)]
      ensures Pool(pkt.dev) in w.lists && w.lists[Pool(pkt.dev)] == old(w.lists)[Pool(pkt.dev)] + [pkt]
    {
      HeadTells(devs, ops, Pool(pkt.dev));
      locked := locked + {pkt.dev};
      LinkFront(Pool(pkt.dev), pkt);
      locked := locked - {pkt.dev};
    }

    method EnqueueBuf(d: Device, pkt: Packet)
      requires Valid() && d in devs && pkt in w.place && w.place[pkt] == Hand && d !in locked
      modifies this`ops, this`w, this`locked, pkt`next, d
      ensures Valid() && locked == old(locked)
      ensures ops == old(ops) + [Put(Queue(d), pkt)] && w == Next(old(w), Put(Queue(d), pkt))
    {
      HeadTells(devs, ops, Queue(d));
      locked := locked + {d};
      LinkFront(Queue(d), pkt);
      locked := locked - {d};
    }

    /** Takes the packet enqueued last, so the queue is in fact a stack. */
    method DequeueBuf(d: Device) returns (pkt: Packet?)
      requires Valid() && d in devs && d !in locked
      modifies this`ops, this`w, this`locked, d
      ensures Valid() && locked == old(locked) && Queue(d) in old(w.lists)
      ensures old(w.lists)[Queue(d)] == [] ==> pkt == null && ops == old(ops) && w == old(w)
      ensures old(w.lists)[Queue(d)] != [] ==>
                && pkt == First(old(w), Queue(d))
                && ops == old(ops) + [Take(Queue(d))] && w == Next(old(w), Take(Queue(d)))
    {
      HeadTells(devs, ops, Queue(d));
      locked := locked + {d};
      pkt := d.rxQueue;
      if pkt != null {
        pkt := UnlinkFront(Queue(d));
      }
      locked := locked - {d};
    }

    /** kmalloc of a packet for d. */
    method MakePacket(d: Device) returns (pkt: Packet)
      requires Valid() && d in devs
      modifies this`ops, this`w
      ensures Valid() && fresh(pkt) && pkt.dev == d && pkt !in old(w.place)
      ensures ops == old(ops) + [Make(pkt)] && w == Next(old(w), Make(pkt))
    {
      HeadTells(devs, ops, Pool(d));
      pkt := new Packet(d);
      Log(Make(pkt));
    }

    /** Make a packet for d and put it in d's pool. */
    method Add(d: Device) returns (pkt: Packet)
      requires Valid() && d in devs
      modifies this`ops, this`w, d
      ensures Valid() && fresh(pkt) && pkt.dev == d
      ensures w.place.Keys == old(w.place).Keys + {pkt} && pkt !in old(w.place)
      ensures Pool(d) in old(w.lists) && w.lists == old(w.lists)[Pool(d) := old(w.lists)[Pool(d)] + [pkt]]
    {
      pkt := MakePacket(d);
      HeadTells(devs, ops, Pool(d));
      LinkFront(Pool(d), pkt);
    }

    /** The pool's head is set to null, and the packets it held are lost. */
    method ResetPool(d: Device)
      requires Valid() && d in devs
      modifies this`ops, this`w, d
      ensures Valid() && ops == old(ops) + [Forget(Pool(d))]
      ensures Pool(d) in old(w.lists) && w.lists == old(w.lists)[Pool(d) := []]
      ensures w.place.Keys == old(w.place).Keys
    {
      HeadTells(devs, ops, Pool(d));
      d.ppool := null;
      Log(Forget(Pool(d)));
    }

    /** d's pool holds the packets `made`, all of them d's and new; no other list has changed. */
    ghost predicate Stocked(was: World, d: Device, made: seq<Packet>)
      reads this`w
    {
      && Pool(d) in was.lists && w.lists == was.lists[Pool(d) := made]
      && was.place.Keys <= w.place.Keys
      && forall p :: p in made ==> p.dev == d && p !in was.place
    }

    /** One turn of setup. */
    method AddMore(d: Device, ghost was: World, ghost made: seq<Packet>) returns (ghost more: seq<Packet>)
      requires Valid() && d in devs && Stocked(was, d, made)
      modifies this`ops, this`w, d
      ensures Valid() && |more| == |made| + 1 && Stocked(was, d, more)
    {
      var pkt := Add(d);
      more := made + [pkt];
    }

    /** Resets the pool and makes up to poolSize packets, stopping at the first allocation that fails;
        `memory` is how many succeed. */
    method SetupPool(d: Device, poolSize: int, memory: nat) returns (ghost made: seq<Packet>)
      requires Valid() && d in devs
      modifies this`ops, this`w, d
      ensures Valid() && Stocked(old(w), d, made)
      ensures |made| == if poolSize < 0 then 0 else if poolSize < memory then poolSize else memory
    {
      ResetPool(d);
      made := [];
      var i := 0;
      while i < poolSize
        invariant Valid() && Stocked(old(w), d, made)
        invariant |made| == i <= memory && (i <= poolSize || i == 0)
      {
        if i == memory {
          return;
        }
        made := AddMore(d, old(w), made);
        i := i + 1;
      }
    }

    /** k packets of a pool that held s are left, and those above them are gone. */
    ghost predicate Left(was: World, d: Device, k: nat)
      reads this`w
    {
      && Pool(d) in was.lists && k <= |was.lists[Pool(d)]|
      && w.lists == was.lists[Pool(d) := was.lists[Pool(d)][..k]]
      && w.place == was.place - Elements(was.lists[Pool(d)][k..])
    }

    /** Unlink the first packet of the pool and free it. */
    method FreeFirst(d: Device)
      requires Valid() && d in devs && d.ppool != null
      modifies this`ops, this`w, d
      ensures Valid() && Pool(d) in old(w.lists) && old(w.lists)[Pool(d)] != []
      ensures var s := old(w.lists)[Pool(d)];
        w.lists == old(w.lists)[Pool(d) := s[..|s| - 1]] && w.place == old(w.place) - {s[|s| - 1]}
    {
      HeadTells(devs, ops, Pool(d));
      var pkt := UnlinkFront(Pool(d));
      Log(Drop(pkt));
    }

    /** One turn of teardown. */
    method RemoveFirst(d: Device, ghost was: World, ghost k: nat)
      requires Valid() && d in devs && d.ppool != null && Left(was, d, k)
      modifies this`ops, this`w, d
      ensures Valid() && k > 0 && Left(was, d, k - 1)
    {
      FreeFirst(d);
      TailElements(was.lists[Pool(d)], k - 1);
    }

    /** The loop of teardown, on a pool that holds k packets. */
    method RemoveAll(d: Device, ghost was: World, ghost k: nat) returns (ghost left: nat)
      requires Valid() && d in devs && Left(was, d, k)
      modifies this`ops, this`w, d
      ensures Valid() && d.ppool == null && Left(was, d, left)
    {
      left := k;
      while d.ppool != null
        invariant Valid() && Left(was, d, left)
        decreases left
      {
        RemoveFirst(d, was, left);
        left := left - 1;
      }
    }

    /** Frees exactly the packets in the pool; those on queues and in hands are left as they are. */
    method TeardownPool(d: Device)
      requires Valid() && d in devs
      modifies this`ops, this`w, d
      ensures Valid() && d.ppool == null && Pool(d) in old(w.lists)
      ensures w.lists == old(w.lists)[Pool(d) := []]
      ensures w.place == old(w.place) - Elements(old(w.lists)[Pool(d)])
    {
      HeadTells(devs, ops, Pool(d));
      ghost var s := w.lists[Pool(d)];
      assert s[..|s|] == s && s[|s|..] == [];
      ghost var k := RemoveAll(d, w, |s|);
      NothingLeft(devs, ops, d, s, k);
    }
  }
}
