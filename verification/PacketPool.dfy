/** The packet pools of snull.c. Each device has two intrusive singly linked lists, its free pool
    and its receive queue, threaded through the same `next` field; packets move between the lists
    of all devices and the hands of callers. This module is about the lists and pointers as values;
    class `System` in PacketHeap.dfy is about the heap. */
module PacketPool {

  class Packet {
    var next: Packet?
    const dev: Device

    constructor (dev: Device)
      ensures this.dev == dev && next == null
    {
      this.dev := dev;
      next := null;
    }
  }

  /** The two list heads of struct snull_priv. */
  class Device {
    var ppool: Packet?
    var rxQueue: Packet?

    constructor ()
      ensures ppool == null && rxQueue == null
    {
      ppool, rxQueue := null, null;
    }
  }

  /** One of the two lists of a device. */
  datatype List = Pool(d: Device) | Queue(d: Device)

  /** On a list, at this height above its end; with a caller; or cut off when setup reset the head
      of a pool that still held packets. */
  datatype Place = On(list: List, height: nat) | Hand | Lost

  /** The pointers (`next` of every packet, head of every list); the contents of the lists they
      are meant to be, each from its last packet to its first; and the place of every packet. */
  datatype World = World(next: map<Packet, Packet?>, head: map<List, Packet?>,
                         lists: map<List, seq<Packet>>, place: map<Packet, Place>)

  // ---- what a consistent world is ----

  ghost predicate At(w: World, p: Packet, x: List, k: nat) {
    x in w.lists && k < |w.lists[x]| && w.lists[x][k] == p
  }

  /** Lists and places agree. Since `place` is a function, no packet is on two lists or twice on
      one: the lists are pairwise disjoint and without cycles, and every packet is on exactly one
      of them, in a caller's hand, or lost. A pool holds only packets of its own device. */
  ghost predicate Placed(w: World) {
    && (forall x, k :: x in w.lists && 0 <= k < |w.lists[x]| ==>
          w.lists[x][k] in w.place && w.place[w.lists[x][k]] == On(x, k))
    && (forall p :: p in w.place && w.place[p].On? ==> At(w, p, w.place[p].list, w.place[p].height))
    && (forall x, k :: x in w.lists && x.Pool? && 0 <= k < |w.lists[x]| ==> w.lists[x][k].dev == x.d)
    && (forall p :: p in w.place ==> Pool(p.dev) in w.lists)
  }

  /** Following the pointers from h runs through s, from its end to its start. */
  ghost predicate Chain(next: map<Packet, Packet?>, h: Packet?, s: seq<Packet>) {
    if s == [] then h == null
    else
      var p := s[|s| - 1];
      h == p && p in next && Chain(next, next[p], s[..|s| - 1])
  }

  ghost predicate Linked(w: World) {
    && w.next.Keys == w.place.Keys && w.head.Keys == w.lists.Keys
    && (forall x :: x in w.lists ==> Chain(w.next, w.head[x], w.lists[x]))
  }

  ghost predicate Consistent(w: World) {
    Placed(w) && Linked(w)
  }

  // ---- the operations ----

  datatype Op =
    | Make(made: Packet)            // kmalloc of a packet for a device
    | Put(x: List, pkt: Packet)     // pkt->next = head; head = pkt
    | Take(from: List)              // pkt = head; head = pkt->next
    | Drop(freed: Packet)           // kfree
    | Forget(cut: List)             // head = NULL

  ghost function First(w: World, x: List): Packet
    requires x in w.lists && w.lists[x] != []
  {
    w.lists[x][|w.lists[x]| - 1]
  }

  ghost predicate Enabled(w: World, op: Op) {
    match op
    case Make(p) => p !in w.place && Pool(p.dev) in w.lists
    case Put(x, p) => x in w.lists && x in w.head && p in w.place && w.place[p] == Hand && (x.Pool? ==> p.dev == x.d)
    case Take(x) => x in w.lists && w.lists[x] != [] && First(w, x) in w.next
    case Drop(p) => p in w.place && w.place[p] == Hand
    case Forget(x) => x in w.lists
  }

  ghost function Pushed(w: World, x: List, p: Packet): World
    requires x in w.lists && x in w.head
  {
    World(w.next[p := w.head[x]], w.head[x := p],
          w.lists[x := w.lists[x] + [p]], w.place[p := On(x, |w.lists[x]|)])
  }

  ghost function Popped(w: World, x: List): World
    requires x in w.lists && w.lists[x] != [] && First(w, x) in w.next
  {
    var s, p := w.lists[x], First(w, x);
    World(w.next, w.head[x := w.next[p]], w.lists[x := s[..|s| - 1]], w.place[p := Hand])
  }

  ghost function Cut(w: World, x: List): World {
    World(w.next, w.head[x := null], w.lists[x := []],
          map p | p in w.place :: if w.place[p].On? && w.place[p].list == x then Lost else w.place[p])
  }

  ghost function Next(w: World, op: Op): World
    requires Enabled(w, op)
  {
    match op
    case Make(p) => w.(next := w.next[p := null], place := w.place[p := Hand])
    case Put(x, p) => Pushed(w, x, p)
    case Take(x) => Popped(w, x)
    case Drop(p) => w.(next := w.next - {p}, place := w.place - {p})
    case Forget(x) => Cut(w, x)
  }

  lemma PushKeepsPlaced(w: World, x: List, p: Packet)
    requires Placed(w) && Enabled(w, Put(x, p))
    ensures Placed(Pushed(w, x, p))
  {
    var q := Pushed(w, x, p);
    forall r | r in q.place && q.place[r].On? ensures At(q, r, q.place[r].list, q.place[r].height) {
      if r != p { assert At(w, r, w.place[r].list, w.place[r].height); }
    }
  }

  lemma PopKeepsPlaced(w: World, x: List)
    requires Placed(w) && Enabled(w, Take(x))
    ensures Placed(Popped(w, x))
  {
    var q := Popped(w, x);
    assert w.place[First(w, x)] == On(x, |w.lists[x]| - 1);
    forall r | r in q.place && q.place[r].On? ensures At(q, r, q.place[r].list, q.place[r].height) {
      assert At(w, r, w.place[r].list, w.place[r].height);
    }
  }

  lemma CutKeepsPlaced(w: World, x: List)
    requires Placed(w)
    ensures Placed(Cut(w, x)) || x !in w.lists
  {
    var q := Cut(w, x);
    forall r | r in q.place && q.place[r].On? ensures At(q, r, q.place[r].list, q.place[r].height) {
      assert At(w, r, w.place[r].list, w.place[r].height);
    }
  }

  /** A chain does not depend on the pointer of a packet that is not on it. */
  lemma {:induction false} ChainIgnoresOthers(
    a: map<Packet, Packet?>, b: map<Packet, Packet?>, h: Packet?, s: seq<Packet>)
    requires Chain(a, h, s)
    requires forall i :: 0 <= i < |s| && s[i] in a ==> s[i] in b && b[s[i]] == a[s[i]]
    ensures Chain(b, h, s)
  {
    if s == [] {
    } else {
      var n := |s| - 1;
      assert s[n] in a;
      ChainIgnoresOthers(a, b, a[s[n]], s[..n]);
    }
  }

  lemma OffListKept(w: World, p: Packet, b: map<Packet, Packet?>)
    requires Consistent(w) && (p in w.place ==> !w.place[p].On?)
    requires forall r :: r in w.next && r != p ==> r in b && b[r] == w.next[r]
    ensures forall x :: x in w.lists ==> Chain(b, w.head[x], w.lists[x])
  {
    forall x | x in w.lists ensures Chain(b, w.head[x], w.lists[x]) {
      assert p !in w.lists[x];
      ChainIgnoresOthers(w.next, b, w.head[x], w.lists[x]);
    }
  }

  lemma PushKeepsLinked(w: World, x: List, p: Packet)
    requires Consistent(w) && Enabled(w, Put(x, p))
    ensures Linked(Pushed(w, x, p))
  {
    OffListKept(w, p, Pushed(w, x, p).next);
    assert (w.lists[x] + [p])[..|w.lists[x]|] == w.lists[x];
  }

  lemma PopKeepsLinked(w: World, x: List)
    requires Consistent(w) && Enabled(w, Take(x))
    ensures Linked(Popped(w, x))
  {
    assert Chain(w.next, w.head[x], w.lists[x]);
    assert w.place[First(w, x)].On?;
  }

  lemma CutKeepsLinked(w: World, x: List)
    requires Linked(w) && x in w.lists
    ensures Linked(Cut(w, x))
  {
  }

  /** A packet off every list can come or go. */
  lemma StillPlaced(w: World, q: World, p: Packet)
    requires Placed(w) && q.lists == w.lists && (p in w.place ==> !w.place[p].On?)
    requires p in q.place ==> !q.place[p].On? && Pool(p.dev) in w.lists
    requires forall r :: r != p ==> (r in q.place <==> r in w.place)
    requires forall r :: r in q.place && r != p ==> q.place[r] == w.place[r]
    ensures Placed(q)
  {
    forall r | r in q.place && q.place[r].On? ensures At(q, r, q.place[r].list, q.place[r].height) {
      assert At(w, r, w.place[r].list, w.place[r].height);
    }
  }

  lemma MakeKeeps(w: World, p: Packet)
    requires Consistent(w) && Enabled(w, Make(p))
    ensures Consistent(Next(w, Make(p)))
  {
    OffListKept(w, p, w.next[p := null]);
    StillPlaced(w, Next(w, Make(p)), p);
  }

  lemma DropKeeps(w: World, p: Packet)
    requires Consistent(w) && Enabled(w, Drop(p))
    ensures Consistent(Next(w, Drop(p)))
  {
    OffListKept(w, p, w.next - {p});
    StillPlaced(w, Next(w, Drop(p)), p);
  }

  lemma StepKeepsConsistent(w: World, op: Op)
    requires Consistent(w) && Enabled(w, op)
    ensures Consistent(Next(w, op))
  {
    match op
    case Make(p) => MakeKeeps(w, p);
    case Put(x, p) =>
      PushKeepsPlaced(w, x, p);
      PushKeepsLinked(w, x, p);
    case Take(x) =>
      PopKeepsLinked(w, x);
      PopKeepsPlaced(w, x);
    case Drop(p) => DropKeeps(w, p);
    case Forget(x) =>
      CutKeepsPlaced(w, x);
      CutKeepsLinked(w, x);
  }

  /** The head pointer of a list is null exactly when the list is empty, and otherwise points to its
      first packet, which is then on no other list. */
  lemma HeadMeans(w: World, x: List)
    requires Consistent(w) && x in w.lists
    ensures x in w.head && (w.head[x] == null <==> w.lists[x] == [])
    ensures w.lists[x] != [] ==> Enabled(w, Take(x)) && w.head[x] == First(w, x)
    ensures w.lists[x] != [] && x.Pool? ==> First(w, x).dev == x.d
  {
    assert Chain(w.next, w.head[x], w.lists[x]);
  }

  lemma MapRestored<K, V>(m: map<K, V>, k: K, v: V)
    requires k in m
    ensures m[k := v][k := m[k]] == m
  {
  }

  /** Releasing a packet undoes getting it. */
  lemma PutUndoesTake(w: World, x: List)
    requires Consistent(w) && Enabled(w, Take(x)) && (x.Pool? ==> First(w, x).dev == x.d)
    ensures Enabled(Next(w, Take(x)), Put(x, First(w, x)))
    ensures Next(Next(w, Take(x)), Put(x, First(w, x))) == w
  {
    var p, s := First(w, x), w.lists[x];
    assert w.place[p] == On(x, |s| - 1) && w.head[x] == p by { HeadMeans(w, x); }
    assert s[..|s| - 1] + [p] == s;
    MapRestored(w.next, p, w.next[p]);
    MapRestored(w.head, x, w.next[p]);
    MapRestored(w.lists, x, s[..|s| - 1]);
    MapRestored(w.place, p, Hand);
  }

  // ---- whole runs ----

  ghost function Lists(devs: set<Device>): set<List> {
    (set d | d in devs :: Pool(d)) + (set d | d in devs :: Queue(d))
  }

  /** Devices with empty lists, before any packet is made. */
  ghost function Boot(devs: set<Device>): World {
    World(map[], map x | x in Lists(devs) :: null, map x | x in Lists(devs) :: [], map[])
  }

  ghost predicate Legal(devs: set<Device>, ops: seq<Op>)
    decreases |ops|, 0
  {
    ops == [] || (Legal(devs, ops[..|ops| - 1]) && Enabled(After(devs, ops[..|ops| - 1]), ops[|ops| - 1]))
  }

  ghost function After(devs: set<Device>, ops: seq<Op>): World
    requires Legal(devs, ops)
    decreases |ops|, 1
  {
    if ops == [] then Boot(devs) else Next(After(devs, ops[..|ops| - 1]), ops[|ops| - 1])
  }

  /** Pool conservation. After any sequence of operations on any devices, each packet made and not
      freed has exactly one place, the pointers spell out the lists, and pools hold their own. */
  lemma {:induction false} Conservation(devs: set<Device>, ops: seq<Op>)
    requires Legal(devs, ops)
    ensures Consistent(After(devs, ops)) && After(devs, ops).lists.Keys == Lists(devs)
  {
    if ops == [] {
    } else {
      var n := |ops| - 1;
      Conservation(devs, ops[..n]);
      StepKeepsConsistent(After(devs, ops[..n]), ops[n]);
    }
  }

  /** In particular no packet is on two lists or twice on one, so no list runs in a circle; every
      packet in a pool belongs to the pool's device; and a null head means an empty list. */
  lemma ListsAreDisjoint(devs: set<Device>, ops: seq<Op>, x: List, y: List, i: nat, j: nat)
    requires Legal(devs, ops) && x in Lists(devs) && y in Lists(devs)
    ensures var w := After(devs, ops);
      && x in w.lists && y in w.lists && x in w.head
      && (i < |w.lists[x]| && j < |w.lists[y]| && w.lists[x][i] == w.lists[y][j] ==> x == y && i == j)
      && (i < |w.lists[x]| && x.Pool? ==> w.lists[x][i].dev == x.d)
      && (w.head[x] == null <==> w.lists[x] == [])
  {
    Conservation(devs, ops);
    HeadMeans(After(devs, ops), x);
  }

  lemma Extend(devs: set<Device>, ops: seq<Op>, op: Op)
    requires Legal(devs, ops) && Enabled(After(devs, ops), op)
    ensures Legal(devs, ops + [op]) && After(devs, ops + [op]) == Next(After(devs, ops), op)
  {
    assert (ops + [op])[..|ops|] == ops;
  }
}
