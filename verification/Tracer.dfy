/** The kernel probes: two entry/exit pairs that hand a socket from call to return
    through a hash map, and a bounded ring that may refuse (bpf/tracer.bpf.c). */
module Tracer {
  import opened Wrappers
  import opened Words
  import opened Text
  import Wire

  type Tid = u64        // tgid << 32 | tid
  type Sock = nat       // address of a struct sock

  /** Which pair of probes: tcp_v4_connect over sock_map, tcp_recvmsg over recv_sock_map. */
  datatype Pair = Connect | Recv

  const MAX_ENTRIES := 10240
  const RING_BYTES := 0x100_0000
  const RECORD_BYTES := 56       // 48-byte event and 8-byte header

  type CInt = i: int | -0x8000_0000 <= i < 0x8000_0000

  /** A submitted sample before its socket is read. `call` is not in the sample: it says
      which call, if any, the probe ran for. */
  datatype Event = Event(kind: Byte, pid: u32, sock: Sock, bytes: u64, call: Option<nat>)

  function KindOf(p: Pair): Byte { if p.Connect? then Wire.CONNECT else Wire.RECV }

  /** The addresses and ports in a socket, as CO-RE reads them. */
  datatype Ends = Ends(srcIP: u32, dstIP: u32, srcPort: u16, dstPort: u16)

  /** What a program finds when it fills a record: the thread's name and the sockets. */
  datatype Context = Context(comm: seq<Byte>, peek: Sock -> Ends)

  /** The record filled in; exec reads no socket. */
  function Filled(x: Context, e: Event): Wire.Event {
    var ends := if e.kind == Wire.EXEC then Ends(0, 0, 0, 0) else x.peek(e.sock);
    Wire.Event(e.pid, x.comm, ends.srcIP, ends.dstIP, ends.srcPort, ends.dstPort, e.bytes, e.kind)
  }

  /** A ring record is busy from reservation to submission. */
  datatype Slot = Busy(call: nat) | Ready(event: Event)

  function Pid(t: Tid): u32 { t / U32 }

  predicate Failed(p: Pair, ret: int) { if p.Connect? then ret != 0 else ret <= 0 }

  predicate HasRoom(used: nat) { (used + 1) * RECORD_BYTES < RING_BYTES }

  function PutSock(m: map<Tid, Sock>, t: Tid, sk: Sock): map<Tid, Sock> {
    if t in m || |m| < MAX_ENTRIES then m[t := sk] else m
  }

  /** What an exit probe leaves of its map, and the event it makes, if any. */
  datatype Effect = Effect(left: map<Tid, Sock>, made: Option<Event>)

  /** An exit probe as a whole: the key is gone whatever the return value; an event is made
      for a call that succeeded if the ring has room, from the socket the entry probe saved. */
  function ExitEffect(p: Pair, m: map<Tid, Sock>, t: Tid, ret: CInt, room: bool, call: Option<nat>): Effect {
    if t !in m then Effect(m, None)
    else if Failed(p, ret) || !room then Effect(m - {t}, None)
    else Effect(m - {t}, Some(Event(KindOf(p), Pid(t), m[t], if p.Recv? then ret else 0, call)))
  }

  // ----- The programs, each run from start to end -----

  class Programs {
    var sockMap: map<Tid, Sock>
    var recvSockMap: map<Tid, Sock>
    var events: seq<Wire.Event>
    var consumed: nat

    predicate Valid()
      reads this
    {
      consumed <= |events|
    }

    function Map(p: Pair): map<Tid, Sock>
      reads this
    {
      if p.Connect? then sockMap else recvSockMap
    }

    constructor ()
      ensures Valid() && sockMap == map[] && recvSockMap == map[] && events == [] && consumed == 0
    {
      sockMap, recvSockMap, events, consumed := map[], map[], [], 0;
    }

    /** bpf_ringbuf_reserve, fill, submit; a full ring drops the event. */
    method Emit(e: Wire.Event) returns (sent: bool)
      requires Valid()
      modifies `events
      ensures Valid() && sent == HasRoom(|old(events)| - consumed)
      ensures events == if sent then old(events) + [e] else old(events)
    {
      sent := HasRoom(|events| - consumed);
      if sent {
        events := events + [e];
      }
    }

    method HandleExec(id: Tid, x: Context)
      requires Valid()
      modifies `events
      ensures Valid()
      ensures events == if HasRoom(|old(events)| - consumed)
                        then old(events) + [Wire.Event(Pid(id), x.comm, 0, 0, 0, 0, 0, Wire.EXEC)]
                        else old(events)
      ensures var n := |old(events)|;
              var room := (n - consumed + 1) * 56 < 0x100_0000;
              && |events| == (if room then n + 1 else n) && events[..n] == old(events)
              && (room ==>
                    var e := Last(events);
                    && e.pid == id / 0x1_0000_0000 && e.comm == x.comm && e.srcIP == 0 && e.dstIP == 0
                    && e.srcPort == 0 && e.dstPort == 0 && e.bytes == 0 && e.kind == 0)
    {
      var _ := Emit(Wire.Event(id / U32, x.comm, 0, 0, 0, 0, 0, Wire.EXEC));
    }

    method HandleSend(id: Tid, sk: Sock, size: u64, x: Context)
      requires Valid()
      modifies `events
      ensures Valid()
      ensures events == if HasRoom(|old(events)| - consumed)
                        then old(events) + [Filled(x, Event(Wire.SEND, Pid(id), sk, size, None))]
                        else old(events)
      ensures var n := |old(events)|;
              var room := (n - consumed + 1) * 56 < 0x100_0000;
              && |events| == (if room then n + 1 else n) && events[..n] == old(events)
              && (room ==>
                    var e, ends := Last(events), x.peek(sk);
                    && e.pid == id / 0x1_0000_0000 && e.comm == x.comm && e.srcIP == ends.srcIP && e.dstIP == ends.dstIP
                    && e.srcPort == ends.srcPort && e.dstPort == ends.dstPort && e.bytes == size && e.kind == 2)
    {
      var _ := Emit(Wire.Event(id / U32, x.comm, x.peek(sk).srcIP, x.peek(sk).dstIP, x.peek(sk).srcPort, x.peek(sk).dstPort,
                               size, Wire.SEND));
    }

    method HandleConnectEntry(id: Tid, sk: Sock)
      modifies `sockMap
      ensures sockMap == PutSock(old(sockMap), id, sk)
      ensures if id in old(sockMap) || |old(sockMap)| < 10240
              then && sockMap.Keys == old(sockMap).Keys + {id} && sockMap[id] == sk
                   && forall u :: u in old(sockMap) && u != id ==> sockMap[u] == old(sockMap)[u]
              else sockMap == old(sockMap)
    {
      if id in sockMap || |sockMap| < MAX_ENTRIES {
        sockMap := sockMap[id := sk];
      }
    }

    method HandleConnectExit(id: Tid, ret: CInt, x: Context)
      requires Valid()
      modifies `sockMap, `events
      ensures Valid() && sockMap == old(sockMap) - {id}
      ensures var e := ExitEffect(Connect, old(sockMap), id, ret, HasRoom(|old(events)| - consumed), None);
              && sockMap == e.left
              && events == if e.made.Some? then old(events) + [Filled(x, e.made.value)] else old(events)
      ensures var n := |old(events)|;
              var room := id in old(sockMap) && ret == 0 && (n - consumed + 1) * 56 < 0x100_0000;
              && |events| == (if room then n + 1 else n) && events[..n] == old(events)
              && (room ==>
                    var e, ends := Last(events), x.peek(old(sockMap)[id]);
                    && e.pid == id / 0x1_0000_0000 && e.comm == x.comm && e.srcIP == ends.srcIP && e.dstIP == ends.dstIP
                    && e.srcPort == ends.srcPort && e.dstPort == ends.dstPort && e.bytes == 0 && e.kind == 1)
    {
      if id !in sockMap {
        assert sockMap == sockMap - {id};
        return;
      }
      var sk := sockMap[id];
      sockMap := sockMap - {id};
      if ret != 0 { return; }
      var _ := Emit(Wire.Event(id / U32, x.comm, x.peek(sk).srcIP, x.peek(sk).dstIP, x.peek(sk).srcPort, x.peek(sk).dstPort,
                               0, Wire.CONNECT));
    }

    method HandleRecvEntry(id: Tid, sk: Sock)
      modifies `recvSockMap
      ensures recvSockMap == PutSock(old(recvSockMap), id, sk)
      ensures if id in old(recvSockMap) || |old(recvSockMap)| < 10240
              then && recvSockMap.Keys == old(recvSockMap).Keys + {id} && recvSockMap[id] == sk
                   && forall u :: u in old(recvSockMap) && u != id ==> recvSockMap[u] == old(recvSockMap)[u]
              else recvSockMap == old(recvSockMap)
    {
      if id in recvSockMap || |recvSockMap| < MAX_ENTRIES {
        recvSockMap := recvSockMap[id := sk];
      }
    }

    method HandleRecvExit(id: Tid, ret: CInt, x: Context)
      requires Valid()
      modifies `recvSockMap, `events
      ensures Valid() && recvSockMap == old(recvSockMap) - {id}
      ensures var e := ExitEffect(Recv, old(recvSockMap), id, ret, HasRoom(|old(events)| - consumed), None);
              && recvSockMap == e.left
              && events == if e.made.Some? then old(events) + [Filled(x, e.made.value)] else old(events)
      ensures var n := |old(events)|;
              var room := id in old(recvSockMap) && ret > 0 && (n - consumed + 1) * 56 < 0x100_0000;
              && |events| == (if room then n + 1 else n) && events[..n] == old(events)
              && (room ==>
                    var e, ends := Last(events), x.peek(old(recvSockMap)[id]);
                    && e.pid == id / 0x1_0000_0000 && e.comm == x.comm && e.srcIP == ends.srcIP && e.dstIP == ends.dstIP
                    && e.srcPort == ends.srcPort && e.dstPort == ends.dstPort && e.bytes == ret && e.kind == 3)
    {
      if id !in recvSockMap {
        assert recvSockMap == recvSockMap - {id};
        return;
      }
      var sk := recvSockMap[id];
      recvSockMap := recvSockMap - {id};
      if ret <= 0 { return; }
      var _ := Emit(Wire.Event(id / U32, x.comm, x.peek(sk).srcIP, x.peek(sk).dstIP, x.peek(sk).srcPort, x.peek(sk).dstPort,
                               ret, Wire.RECV));
    }
  }

  // ----- All interleavings, one helper call at a time -----

  /** A call of a traced function; `ret` once it has returned. */
  datatype Call = Call(tid: Tid, pair: Pair, sock: Sock, ret: Option<CInt>)

  /** Where a thread stands in its call and the probes around it. */
  datatype Pc =
    | Entering(call: nat)                           // entry probe about to update the map
    | Inside(call: nat)
    | Leaving(call: nat)                            // return probe about to look up
    | Found(call: nat, sock: Sock)                  // about to delete
    | Deleted(call: nat, sock: Sock)                // about to reserve
    | Filling(call: nat, sock: Sock, slot: nat)     // about to submit

  datatype State = State(
    calls: seq<Call>,                 // every call so far
    pcs: map<Tid, Pc>,                // threads inside a call or its probes
    sockMap: map<Tid, Sock>, recvSockMap: map<Tid, Sock>,
    slots: seq<Slot>, consumed: nat,  // every record so far, and how many the reader took
    missed: set<(Pair, Tid)>)         // threads whose last return probe did not run
  {
    function Map(p: Pair): map<Tid, Sock> { if p.Connect? then sockMap else recvSockMap }

    function WithMap(p: Pair, m: map<Tid, Sock>): State {
      if p.Connect? then this.(sockMap := m) else this.(recvSockMap := m)
    }
  }

  const INIT := State([], map[], map[], map[], [], 0, {})

  datatype Action =
    | Begin(tid: Tid, pair: Pair, sock: Sock)       // a thread calls a traced function
    | Update(tid: Tid, ok: bool)                    // bpf_map_update_elem in the entry probe
    | Return(tid: Tid, ret: CInt, probed: bool)      // the call returns; the return probe may be missed
    | Lookup(tid: Tid)
    | Delete(tid: Tid)
    | Reserve(tid: Tid, ok: bool)
    | Submit(tid: Tid)
    | Other(event: Event, ok: bool)                 // exec and sendmsg probes
    | Consume                                       // the reader takes the oldest record

  /** One step; an action that does not fit where its thread stands does nothing. */
  function Step(s: State, a: Action): State {
    match a
    case Begin(t, p, sk) =>
      if t in s.pcs then s
      else s.(calls := s.calls + [Call(t, p, sk, None)], pcs := s.pcs[t := Entering(|s.calls|)])
    case Update(t, ok) =>
      if t in s.pcs && s.pcs[t].Entering? && s.pcs[t].call < |s.calls| then
        var c := s.pcs[t].call;
        var p := s.calls[c].pair;
        var s' := s.(pcs := s.pcs[t := Inside(c)]);
        if ok then s'.WithMap(p, PutSock(s.Map(p), t, s.calls[c].sock)) else s'
      else s
    case Return(t, ret, probed) =>
      if t in s.pcs && s.pcs[t].Inside? && s.pcs[t].call < |s.calls| then
        var c := s.pcs[t].call;
        var s' := s.(calls := s.calls[c := s.calls[c].(ret := Some(ret))]);
        if probed then s'.(pcs := s.pcs[t := Leaving(c)])
        else s'.(pcs := s.pcs - {t}, missed := s.missed + {(s.calls[c].pair, t)})
      else s
    case Lookup(t) =>
      if t in s.pcs && s.pcs[t].Leaving? && s.pcs[t].call < |s.calls| then
        var c := s.pcs[t].call;
        var m := s.Map(s.calls[c].pair);
        if t in m then s.(pcs := s.pcs[t := Found(c, m[t])]) else s.(pcs := s.pcs - {t})
      else s
    case Delete(t) =>
      if t in s.pcs && s.pcs[t].Found? && s.pcs[t].call < |s.calls| && s.calls[s.pcs[t].call].ret.Some? then
        var c, p := s.pcs[t].call, s.calls[s.pcs[t].call].pair;
        var s' := s.(missed := s.missed - {(p, t)}).WithMap(p, s.Map(p) - {t});
        if Failed(p, s.calls[c].ret.value) then s'.(pcs := s.pcs - {t})
        else s'.(pcs := s.pcs[t := Deleted(c, s.pcs[t].sock)])
      else s
    case Reserve(t, ok) =>
      if t in s.pcs && s.pcs[t].Deleted? then
        var c := s.pcs[t].call;
        if ok && s.consumed <= |s.slots| && HasRoom(|s.slots| - s.consumed) then
          s.(slots := s.slots + [Busy(c)], pcs := s.pcs[t := Filling(c, s.pcs[t].sock, |s.slots|)])
        else s.(pcs := s.pcs - {t})
      else s
    case Submit(t) =>
      if t in s.pcs && s.pcs[t].Filling? && s.pcs[t].slot < |s.slots| && s.pcs[t].call < |s.calls|
         && s.calls[s.pcs[t].call].ret.Some? then
        var pc := s.pcs[t];
        var k := s.calls[pc.call];
        var bytes := if k.pair.Recv? && k.ret.value > 0 then k.ret.value else 0;
        var e := Event(KindOf(k.pair), Pid(t), pc.sock, bytes, Some(pc.call));
        s.(slots := s.slots[pc.slot := Ready(e)], pcs := s.pcs - {t})
      else s
    case Other(e, ok) =>
      if ok && s.consumed <= |s.slots| && HasRoom(|s.slots| - s.consumed) && e.call.None? then s.(slots := s.slots + [Ready(e)]) else s
    case Consume =>
      if s.consumed < |s.slots| && s.slots[s.consumed].Ready? then s.(consumed := s.consumed + 1) else s
  }

  function Run(s: State, acts: seq<Action>): State
    decreases |acts|
  {
    if acts == [] then s else Step(Run(s, Front(acts)), Last(acts))
  }

  // ----- Invariant -----

  predicate InCall(s: State, p: Pair, t: Tid) {
    && t in s.pcs && (s.pcs[t].Inside? || s.pcs[t].Leaving? || s.pcs[t].Found?)
    && s.pcs[t].call < |s.calls| && s.calls[s.pcs[t].call].pair == p
  }

  /** What holds of one thread at its place. */
  predicate ThreadOk(s: State, t: Tid)
    requires t in s.pcs
  {
    var pc := s.pcs[t];
    && pc.call < |s.calls|
    && var k := s.calls[pc.call];
    && k.tid == t
    && (pc.Inside? || pc.Leaving? ==> (t in s.Map(k.pair) ==> s.Map(k.pair)[t] == k.sock))
    && (pc.Found? ==> t in s.Map(k.pair))
    && (pc.Found? || pc.Deleted? || pc.Filling? ==> pc.sock == k.sock)
    && (pc.Entering? || pc.Inside? <==> k.ret.None?)
    && (pc.Deleted? || pc.Filling? ==> !Failed(k.pair, k.ret.value))
    && (pc.Filling? ==> pc.slot < |s.slots| && s.slots[pc.slot] == Busy(pc.call))
  }

  /** No event of call c has been or is being made. */
  predicate Unrecorded(s: State, c: nat) {
    forall i :: 0 <= i < |s.slots| ==> SlotCall(s.slots[i]) != Some(c)
  }

  function SlotCall(slot: Slot): Option<nat> {
    match slot case Busy(c) => Some(c) case Ready(e) => e.call
  }

  /** A record made for a call carries that call's thread and socket, and the call succeeded. */
  predicate EventOk(s: State, e: Event) {
    e.call.Some? ==>
      && e.call.value < |s.calls|
      && var k := s.calls[e.call.value];
      && k.ret.Some? && !Failed(k.pair, k.ret.value)
      && e.kind == KindOf(k.pair) && e.pid == Pid(k.tid) && e.sock == k.sock
      && e.bytes == if k.pair.Recv? then k.ret.value else 0
  }

  /** Every key belongs to a thread inside the call, or to one whose return probe was missed. */
  predicate KeysOwned(s: State, p: Pair) {
    forall t :: t in s.Map(p) ==> KeyOwned(s, p, t)
  }

  predicate KeyOwned(s: State, p: Pair, t: Tid) {
    t in s.Map(p) ==> InCall(s, p, t) || (p, t) in s.missed
  }

  predicate Threads(s: State) { forall t :: t in s.pcs ==> ThreadOk(s, t) }

  /** A call whose record is not being filled has no record. */
  predicate NoneYet(s: State) { forall t :: t in s.pcs && !s.pcs[t].Filling? ==> Unrecorded(s, s.pcs[t].call) }

  predicate Slots(s: State) { forall i :: 0 <= i < |s.slots| ==> SlotOk(s, i) }

  /** No call has two records. */
  predicate OncePerCall(s: State) {
    forall i, j :: 0 <= i < j < |s.slots| && SlotCall(s.slots[i]).Some? ==> SlotCall(s.slots[i]) != SlotCall(s.slots[j])
  }

  predicate Bounded(s: State) {
    |s.sockMap| <= MAX_ENTRIES && |s.recvSockMap| <= MAX_ENTRIES && s.consumed <= |s.slots|
  }

  predicate Inv(s: State) {
    Threads(s) && NoneYet(s) && KeysOwned(s, Connect) && KeysOwned(s, Recv) && Slots(s) && OncePerCall(s) && Bounded(s)
  }

  predicate SlotOk(s: State, i: nat)
    requires i < |s.slots|
  {
    match s.slots[i]
    case Ready(e) => EventOk(s, e)
    case Busy(c) => c < |s.calls| && s.calls[c].tid in s.pcs && s.pcs[s.calls[c].tid] == Filling(c, s.calls[c].sock, i)
  }

  /** The entry probe's update of a key that is already there does not fail. */
  predicate Healthy(s: State, a: Action) {
    a.Update? && !a.ok && a.tid in s.pcs && s.pcs[a.tid].call < |s.calls| ==>
      a.tid !in s.Map(s.calls[s.pcs[a.tid].call].pair)
  }

  // ----- A step touches one thread -----

  /** Nothing that belongs to another thread differs, and no record changes its call. */
  ghost predicate OnlyThread(s: State, s': State, t: Tid) {
    && |s.calls| <= |s'.calls|
    && (forall c :: 0 <= c < |s.calls| && (s.calls[c].tid != t || s.calls[c].ret.Some?) ==> s'.calls[c] == s.calls[c])
    && (forall u :: u != t ==> (u in s.pcs <==> u in s'.pcs))
    && (forall u :: u != t && u in s.pcs ==> s'.pcs[u] == s.pcs[u])
    && SameElsewhere(s.sockMap, s'.sockMap, t) && SameElsewhere(s.recvSockMap, s'.recvSockMap, t)
    && (forall p, u :: u != t && (p, u) in s.missed ==> (p, u) in s'.missed)
    && |s.slots| <= |s'.slots|
    && (forall i :: 0 <= i < |s.slots| ==> SlotCall(s'.slots[i]) == SlotCall(s.slots[i]))
    && (forall i :: 0 <= i < |s.slots| && !BeingFilled(s, t, i) ==> s'.slots[i] == s.slots[i])
    && (forall i :: |s.slots| <= i < |s'.slots| ==> Owned(s', t, i))
  }

  ghost predicate SameElsewhere(m: map<Tid, Sock>, m': map<Tid, Sock>, t: Tid) {
    && (forall u :: u != t ==> (u in m <==> u in m'))
    && (forall u :: u != t && u in m ==> m'[u] == m[u])
  }

  /** Record i is the one thread t is filling. */
  predicate BeingFilled(s: State, t: Tid, i: nat) { t in s.pcs && s.pcs[t].Filling? && s.pcs[t].slot == i }

  /** Record i is for a call of thread t, or for no call. */
  predicate Owned(s: State, t: Tid, i: nat)
    requires i < |s.slots|
  {
    SlotCall(s.slots[i]).Some? ==> SlotCall(s.slots[i]).value < |s.calls| && s.calls[SlotCall(s.slots[i]).value].tid == t
  }

  lemma OthersThreads(s: State, s': State, t: Tid, u: Tid)
    requires Inv(s) && OnlyThread(s, s', t) && u != t && u in s.pcs
    ensures u in s'.pcs && ThreadOk(s', u)
  {
    assert ThreadOk(s, u);
    assert t in s.pcs ==> ThreadOk(s, t);
    assert s.pcs[u].Filling? ==> s.slots[s.pcs[u].slot] == Busy(s.pcs[u].call);
  }

  lemma OthersNoneYet(s: State, s': State, t: Tid, u: Tid)
    requires Inv(s) && OnlyThread(s, s', t) && u != t && u in s.pcs && !s.pcs[u].Filling?
    ensures Unrecorded(s', s.pcs[u].call)
  {
    assert ThreadOk(s, u) && Unrecorded(s, s.pcs[u].call);
    forall i | 0 <= i < |s'.slots| ensures SlotCall(s'.slots[i]) != Some(s.pcs[u].call) {
      if i >= |s.slots| { assert Owned(s', t, i); }
    }
  }

  lemma OthersKeys(s: State, s': State, t: Tid, p: Pair, u: Tid)
    requires Inv(s) && OnlyThread(s, s', t) && u != t && u in s'.Map(p)
    ensures KeyOwned(s', p, u)
  {
    assert KeysOwned(s, p) && u in s.Map(p);
    if InCall(s, p, u) { assert ThreadOk(s, u); }
  }

  lemma OthersSlots(s: State, s': State, t: Tid, i: nat)
    requires Inv(s) && OnlyThread(s, s', t) && i < |s.slots| && !BeingFilled(s, t, i)
    ensures SlotOk(s', i)
  {
    assert SlotOk(s, i);
  }

  /** What is left to check of a step of thread t: the thread itself, its keys, its record. */
  ghost predicate Moved(s: State, s': State, t: Tid) {
    && (t in s'.pcs ==> ThreadOk(s', t) && (s'.pcs[t].Filling? || Unrecorded(s', s'.pcs[t].call)))
    && KeyOwned(s', Connect, t) && KeyOwned(s', Recv, t)
    && |s.slots| <= |s'.slots| <= |s.slots| + 1
    && (t in s.pcs && s.pcs[t].Filling? && s.pcs[t].slot < |s.slots| ==> SlotOk(s', s.pcs[t].slot))
    && (|s'.slots| > |s.slots| ==>
          && SlotOk(s', |s.slots|)
          && (SlotCall(s'.slots[|s.slots|]).Some? ==> Unrecorded(s, SlotCall(s'.slots[|s.slots|]).value)))
    && Bounded(s')
  }

  lemma Assemble(s: State, s': State, t: Tid)
    requires Inv(s) && OnlyThread(s, s', t) && Moved(s, s', t)
    ensures Inv(s')
  {
    forall u | u in s'.pcs ensures ThreadOk(s', u) {
      if u != t { OthersThreads(s, s', t, u); }
    }
    forall u | u in s'.pcs && !s'.pcs[u].Filling? ensures Unrecorded(s', s'.pcs[u].call) {
      if u != t { OthersNoneYet(s, s', t, u); }
    }
    forall p, u | u in s'.Map(p) ensures KeyOwned(s', p, u) {
      if u != t { OthersKeys(s, s', t, p, u); }
    }
    forall i | 0 <= i < |s'.slots| ensures SlotOk(s', i) {
      if i < |s.slots| && !BeingFilled(s, t, i) { OthersSlots(s, s', t, i); }
    }
    assert OncePerCall(s');
  }

  /** The facts about thread t that its step needs. */
  predicate ThreadFacts(s: State, t: Tid) {
    && (t in s.pcs ==> ThreadOk(s, t) && (s.pcs[t].Filling? || Unrecorded(s, s.pcs[t].call)))
    && KeyOwned(s, Connect, t) && KeyOwned(s, Recv, t)
    && Bounded(s)
  }

  lemma InvFacts(s: State, t: Tid)
    requires Inv(s)
    ensures ThreadFacts(s, t)
  {
    assert KeysOwned(s, Connect) && KeysOwned(s, Recv);
  }

  lemma BeginInv(s: State, t: Tid, p: Pair, sk: Sock)
    requires Inv(s)
    ensures Inv(Step(s, Begin(t, p, sk)))
  {
    var s' := Step(s, Begin(t, p, sk));
    if t !in s.pcs {
      InvFacts(s, t);
      forall i | 0 <= i < |s.slots| ensures SlotCall(s.slots[i]) != Some(|s.calls|) { assert SlotOk(s, i); }
      assert OnlyThread(s, s', t);
      assert Moved(s, s', t);
      Assemble(s, s', t);
    }
  }

  lemma UpdateOnly(s: State, t: Tid, ok: bool)
    requires ThreadFacts(s, t) && t in s.pcs && s.pcs[t].Entering?
    ensures OnlyThread(s, Step(s, Update(t, ok)), t)
  {
  }

  lemma UpdateMoved(s: State, t: Tid, ok: bool)
    requires ThreadFacts(s, t) && t in s.pcs && s.pcs[t].Entering? && Healthy(s, Update(t, ok))
    ensures Moved(s, Step(s, Update(t, ok)), t)
  {
  }

  lemma UpdateInv(s: State, t: Tid, ok: bool)
    requires Inv(s) && Healthy(s, Update(t, ok))
    ensures Inv(Step(s, Update(t, ok)))
  {
    hide Inv;
    hide OnlyThread;
    hide Moved;
    hide ThreadFacts;
    hide Healthy;
    if t in s.pcs && s.pcs[t].Entering? {
      InvFacts(s, t);
      UpdateOnly(s, t, ok);
      UpdateMoved(s, t, ok);
      Assemble(s, Step(s, Update(t, ok)), t);
    }
  }

  lemma ReturnOnly(s: State, t: Tid, ret: CInt, probed: bool)
    requires ThreadFacts(s, t) && t in s.pcs && s.pcs[t].Inside?
    ensures OnlyThread(s, Step(s, Return(t, ret, probed)), t)
  {
  }

  lemma ReturnMoved(s: State, t: Tid, ret: CInt, probed: bool)
    requires ThreadFacts(s, t) && t in s.pcs && s.pcs[t].Inside?
    ensures Moved(s, Step(s, Return(t, ret, probed)), t)
  {
  }

  lemma ReturnInv(s: State, t: Tid, ret: CInt, probed: bool)
    requires Inv(s)
    ensures Inv(Step(s, Return(t, ret, probed)))
  {
    hide Inv;
    hide OnlyThread;
    hide Moved;
    hide ThreadFacts;
    hide Healthy;
    if t in s.pcs && s.pcs[t].Inside? {
      InvFacts(s, t);
      ReturnOnly(s, t, ret, probed);
      ReturnMoved(s, t, ret, probed);
      Assemble(s, Step(s, Return(t, ret, probed)), t);
    }
  }

  lemma LookupOnly(s: State, t: Tid)
    requires ThreadFacts(s, t) && t in s.pcs && s.pcs[t].Leaving?
    ensures OnlyThread(s, Step(s, Lookup(t)), t)
  {
  }

  lemma LookupMoved(s: State, t: Tid)
    requires ThreadFacts(s, t) && t in s.pcs && s.pcs[t].Leaving?
    ensures Moved(s, Step(s, Lookup(t)), t)
  {
  }

  lemma LookupInv(s: State, t: Tid)
    requires Inv(s)
    ensures Inv(Step(s, Lookup(t)))
  {
    hide Inv;
    hide OnlyThread;
    hide Moved;
    hide ThreadFacts;
    hide Healthy;
    if t in s.pcs && s.pcs[t].Leaving? {
      InvFacts(s, t);
      LookupOnly(s, t);
      LookupMoved(s, t);
      Assemble(s, Step(s, Lookup(t)), t);
    }
  }

  lemma DeleteOnly(s: State, t: Tid)
    requires ThreadFacts(s, t) && t in s.pcs && s.pcs[t].Found?
    ensures OnlyThread(s, Step(s, Delete(t)), t)
  {
  }

  lemma DeleteMoved(s: State, t: Tid)
    requires ThreadFacts(s, t) && t in s.pcs && s.pcs[t].Found?
    ensures Moved(s, Step(s, Delete(t)), t)
  {
  }

  lemma DeleteInv(s: State, t: Tid)
    requires Inv(s)
    ensures Inv(Step(s, Delete(t)))
  {
    hide Inv;
    hide OnlyThread;
    hide Moved;
    hide ThreadFacts;
    hide Healthy;
    if t in s.pcs && s.pcs[t].Found? {
      InvFacts(s, t);
      DeleteOnly(s, t);
      DeleteMoved(s, t);
      Assemble(s, Step(s, Delete(t)), t);
    }
  }

  lemma ReserveOnly(s: State, t: Tid, ok: bool)
    requires ThreadFacts(s, t) && t in s.pcs && s.pcs[t].Deleted?
    ensures OnlyThread(s, Step(s, Reserve(t, ok)), t)
  {
  }

  lemma ReserveMoved(s: State, t: Tid, ok: bool)
    requires ThreadFacts(s, t) && t in s.pcs && s.pcs[t].Deleted?
    ensures Moved(s, Step(s, Reserve(t, ok)), t)
  {
  }

  lemma ReserveInv(s: State, t: Tid, ok: bool)
    requires Inv(s)
    ensures Inv(Step(s, Reserve(t, ok)))
  {
    hide Inv;
    hide OnlyThread;
    hide Moved;
    hide ThreadFacts;
    hide Healthy;
    if t in s.pcs && s.pcs[t].Deleted? {
      InvFacts(s, t);
      ReserveOnly(s, t, ok);
      ReserveMoved(s, t, ok);
      Assemble(s, Step(s, Reserve(t, ok)), t);
    }
  }

  lemma SubmitOnly(s: State, t: Tid)
    requires ThreadFacts(s, t) && t in s.pcs && s.pcs[t].Filling?
    ensures OnlyThread(s, Step(s, Submit(t)), t)
  {
  }

  lemma SubmitMoved(s: State, t: Tid)
    requires ThreadFacts(s, t) && t in s.pcs && s.pcs[t].Filling?
    ensures Moved(s, Step(s, Submit(t)), t)
  {
  }

  lemma SubmitInv(s: State, t: Tid)
    requires Inv(s)
    ensures Inv(Step(s, Submit(t)))
  {
    hide Inv;
    hide OnlyThread;
    hide Moved;
    hide ThreadFacts;
    hide Healthy;
    if t in s.pcs && s.pcs[t].Filling? {
      InvFacts(s, t);
      SubmitOnly(s, t);
      SubmitMoved(s, t);
      Assemble(s, Step(s, Submit(t)), t);
    }
  }

  // ----- Steps of no thread -----

  /** Only the ring moved: at most one record was added, for no call. */
  predicate OnlyRing(s: State, s': State) {
    && s'.calls == s.calls && s'.pcs == s.pcs && s'.sockMap == s.sockMap && s'.recvSockMap == s.recvSockMap
    && s'.missed == s.missed
    && (s'.slots == s.slots ||
        (|s'.slots| == |s.slots| + 1 && s'.slots[..|s.slots|] == s.slots
         && Last(s'.slots).Ready? && Last(s'.slots).event.call.None?))
  }

  lemma RingThreads(s: State, s': State)
    requires Threads(s) && NoneYet(s) && OnlyRing(s, s')
    ensures Threads(s') && NoneYet(s')
  {
    assert forall i :: 0 <= i < |s.slots| ==> s'.slots[i] == s.slots[i];
    forall u | u in s'.pcs ensures ThreadOk(s', u) { assert ThreadOk(s, u); }
    forall u | u in s'.pcs && !s'.pcs[u].Filling? ensures Unrecorded(s', s'.pcs[u].call) {
      assert Unrecorded(s, s.pcs[u].call);
    }
  }

  lemma RingKeys(s: State, s': State, p: Pair)
    requires KeysOwned(s, p) && OnlyRing(s, s')
    ensures KeysOwned(s', p)
  {
    forall u | u in s'.Map(p) ensures KeyOwned(s', p, u) { assert KeyOwned(s, p, u); }
  }

  lemma RingSlots(s: State, s': State)
    requires Slots(s) && OncePerCall(s) && OnlyRing(s, s')
    ensures Slots(s') && OncePerCall(s')
  {
    assert forall i :: 0 <= i < |s.slots| ==> s'.slots[i] == s.slots[i];
    forall i | 0 <= i < |s'.slots| ensures SlotOk(s', i) {
      if i < |s.slots| { assert SlotOk(s, i); }
    }
  }

  lemma RingInv(s: State, s': State)
    requires Inv(s) && OnlyRing(s, s') && s'.consumed <= |s'.slots|
    ensures Inv(s')
  {
    RingThreads(s, s');
    RingKeys(s, s', Connect);
    RingKeys(s, s', Recv);
    RingSlots(s, s');
    hide Threads;
    hide NoneYet;
    hide KeysOwned;
    hide Slots;
    hide OncePerCall;
    hide OnlyRing;
  }

  lemma OtherInv(s: State, e: Event, ok: bool)
    requires Inv(s)
    ensures Inv(Step(s, Other(e, ok))) && Inv(Step(s, Consume))
  {
    assert Bounded(s);
    hide Inv;
    RingInv(s, Step(s, Other(e, ok)));
    RingInv(s, Step(s, Consume));
  }

  lemma StepInv(s: State, a: Action)
    requires Inv(s) && Healthy(s, a)
    ensures Inv(Step(s, a))
  {
    hide Inv;
    hide Step;
    match a
    case Begin(t, p, sk) => BeginInv(s, t, p, sk);
    case Update(t, ok) => UpdateInv(s, t, ok);
    case Return(t, ret, probed) => ReturnInv(s, t, ret, probed);
    case Lookup(t) => LookupInv(s, t);
    case Delete(t) => DeleteInv(s, t);
    case Reserve(t, ok) => ReserveInv(s, t, ok);
    case Submit(t) => SubmitInv(s, t);
    case Other(e, ok) => OtherInv(s, e, ok);
    case Consume => OtherInv(s, Event(0, 0, 0, 0, None), false);
  }

  predicate AllHealthy(acts: seq<Action>)
    decreases |acts|
  {
    acts == [] || (AllHealthy(Front(acts)) && Healthy(Run(INIT, Front(acts)), Last(acts)))
  }

  lemma {:induction false} RunInv(acts: seq<Action>)
    requires AllHealthy(acts)
    ensures Inv(Run(INIT, acts))
    decreases |acts|
  {
    if acts != [] {
      RunInv(Front(acts));
      StepInv(Run(INIT, Front(acts)), Last(acts));
    }
  }

  // ----- Main results -----

  lemma EventsOk(acts: seq<Action>, i: nat)
    requires AllHealthy(acts) && i < |Run(INIT, acts).slots|
    ensures SlotOk(Run(INIT, acts), i)
  {
    RunInv(acts);
  }

  /** In every interleaving, with full maps, missed returns and drops: an event made for a
      call carries the process, socket and byte count of that call, the call had succeeded,
      and no call makes two. */
  lemma EventsPaired(acts: seq<Action>, i: nat)
    requires AllHealthy(acts) && i < |Run(INIT, acts).slots|
    ensures var s := Run(INIT, acts);
            && (s.slots[i].Ready? && s.slots[i].event.call.Some? ==>
                  var e := s.slots[i].event;
                  && e.call.value < |s.calls|
                  && var k := s.calls[e.call.value];
                     && e.sock == k.sock && e.pid == k.tid / 0x1_0000_0000
                     && match k.pair
                        case Connect => k.ret == Some(0) && e.kind == 1 && e.bytes == 0
                        case Recv => k.ret.Some? && k.ret.value > 0 && e.kind == 3 && e.bytes == k.ret.value)
            && (forall j :: 0 <= j < |s.slots| && j != i && SlotCall(s.slots[i]).Some? ==> SlotCall(s.slots[j]) != SlotCall(s.slots[i]))
  {
    RunInv(acts);
    var s := Run(INIT, acts);
    assert SlotOk(s, i);
    forall j | 0 <= j < |s.slots| && j != i && SlotCall(s.slots[i]).Some? ensures SlotCall(s.slots[j]) != SlotCall(s.slots[i]) {
      if i < j { assert SlotCall(s.slots[i]) != SlotCall(s.slots[j]); } else { assert SlotCall(s.slots[j]).Some? ==> SlotCall(s.slots[j]) != SlotCall(s.slots[i]); }
    }
  }

  /** A key in either map belongs to a thread inside that call, or to one whose return
      probe was missed; the maps never exceed their capacity. */
  lemma KeysAccounted(acts: seq<Action>, p: Pair, t: Tid)
    requires AllHealthy(acts) && t in Run(INIT, acts).Map(p)
    ensures var s := Run(INIT, acts);
            (InCall(s, p, t) || (p, t) in s.missed) && |s.Map(p)| <= 10240
  {
    RunInv(acts);
    assert KeysOwned(Run(INIT, acts), p) && KeyOwned(Run(INIT, acts), p, t);
  }

  /** A state in which thread t has run its exit probe as a whole. */
  function Exited(s: State, t: Tid, ok: bool): State
    requires t in s.pcs && s.pcs[t].call < |s.calls| && s.calls[s.pcs[t].call].ret.Some? && s.consumed <= |s.slots|
  {
    var c := s.pcs[t].call;
    var k := s.calls[c];
    var e := ExitEffect(k.pair, s.Map(k.pair), t, k.ret.value, ok && HasRoom(|s.slots| - s.consumed), Some(c));
    s.(pcs := s.pcs - {t},
       missed := if t in s.Map(k.pair) then s.missed - {(k.pair, t)} else s.missed,
       slots := if e.made.Some? then s.slots + [Ready(e.made.value)] else s.slots).WithMap(k.pair, e.left)
  }

  /** Once the probe has looked up and deleted its key. */
  function Cleared(s: State, t: Tid): State
    requires t in s.pcs && s.pcs[t].call < |s.calls| && s.calls[s.pcs[t].call].ret.Some?
  {
    var c := s.pcs[t].call;
    var k := s.calls[c];
    var m := s.Map(k.pair);
    if t !in m then s.(pcs := s.pcs - {t})
    else s.(pcs := if Failed(k.pair, k.ret.value) then s.pcs - {t} else s.pcs[t := Deleted(c, m[t])],
            missed := s.missed - {(k.pair, t)}).WithMap(k.pair, m - {t})
  }

  lemma LookupDelete(s: State, t: Tid)
    requires t in s.pcs && s.pcs[t].Leaving? && s.pcs[t].call < |s.calls| && s.calls[s.pcs[t].call].ret.Some?
    ensures Step(Step(s, Lookup(t)), Delete(t)) == Cleared(s, t)
  {
    var c := s.pcs[t].call;
    var m := s.Map(s.calls[c].pair);
    if t in m {
      assert s.pcs[t := Found(c, m[t])] - {t} == s.pcs - {t};
      assert s.pcs[t := Found(c, m[t])][t := Deleted(c, m[t])] == s.pcs[t := Deleted(c, m[t])];
    }
  }

  /** Once it has reserved, filled and submitted its record. */
  function Submitted(s: State, t: Tid, ok: bool): State
    requires t in s.pcs ==> s.pcs[t].Deleted? && s.pcs[t].call < |s.calls| && s.calls[s.pcs[t].call].ret.Some?
    requires s.consumed <= |s.slots|
  {
    if t !in s.pcs then s
    else if !ok || !HasRoom(|s.slots| - s.consumed) then s.(pcs := s.pcs - {t})
    else
      var k := s.calls[s.pcs[t].call];
      var bytes := if k.pair.Recv? && k.ret.value > 0 then k.ret.value else 0;
      s.(pcs := s.pcs - {t},
         slots := s.slots + [Ready(Event(KindOf(k.pair), Pid(t), s.pcs[t].sock, bytes, Some(s.pcs[t].call)))])
  }

  lemma ReserveSubmit(s: State, t: Tid, ok: bool)
    requires t in s.pcs ==> s.pcs[t].Deleted? && s.pcs[t].call < |s.calls| && s.calls[s.pcs[t].call].ret.Some?
    requires s.consumed <= |s.slots|
    ensures Step(Step(s, Reserve(t, ok)), Submit(t)) == Submitted(s, t, ok)
  {
    if t in s.pcs && ok && HasRoom(|s.slots| - s.consumed) {
      var c, sk := s.pcs[t].call, s.pcs[t].sock;
      var s1 := Step(s, Reserve(t, ok));
      assert s1.pcs[t] == Filling(c, sk, |s.slots|) && s1.pcs - {t} == s.pcs - {t};
      assert forall x :: (s.slots + [Busy(c)])[|s.slots| := x] == s.slots + [x];
    }
  }

  /** Undisturbed, the helper calls of an exit probe have the effect that HandleConnectExit
      and HandleRecvExit have as a whole. */
  lemma ExitUndisturbed(s: State, t: Tid, ok: bool)
    requires Inv(s) && t in s.pcs && s.pcs[t].Leaving?
    ensures s.pcs[t].call < |s.calls| && s.calls[s.pcs[t].call].ret.Some?
    ensures Step(Step(Step(Step(s, Lookup(t)), Delete(t)), Reserve(t, ok)), Submit(t)) == Exited(s, t, ok)
  {
    InvFacts(s, t);
    assert ThreadOk(s, t) && Bounded(s);
    assert s.pcs[t].call < |s.calls| && s.calls[s.pcs[t].call].ret.Some? && s.consumed <= |s.slots|;
    hide Inv;
    hide Step;
    hide Exited;
    hide ThreadFacts;
    hide ThreadOk;
    LookupDelete(s, t);
    ClearedExits(s, t, ok);
    ReserveSubmit(Cleared(s, t), t, ok);
    hide Cleared;
    hide Submitted;
  }

  lemma ClearedExits(s: State, t: Tid, ok: bool)
    requires t in s.pcs && s.pcs[t].call < |s.calls| && s.calls[s.pcs[t].call].ret.Some? && s.consumed <= |s.slots|
    ensures var x := Cleared(s, t);
            && x.consumed <= |x.slots|
            && (t in x.pcs ==> x.pcs[t].Deleted? && x.pcs[t].call < |x.calls| && x.calls[x.pcs[t].call].ret.Some?)
            && Submitted(x, t, ok) == Exited(s, t, ok)
  {
    hide HasRoom;
    hide Pid;
    hide KindOf;
    var c := s.pcs[t].call;
    var k := s.calls[c];
    var m := s.Map(k.pair);
    if t in m && !Failed(k.pair, k.ret.value) {
      assert s.pcs[t := Deleted(c, m[t])] - {t} == s.pcs - {t};
    }
  }

  /** The seven steps of one call with nothing in between. */
  function WholeCall(s: State, t: Tid, p: Pair, sk: Sock, ret: CInt): State {
    var entered := Step(Step(s, Begin(t, p, sk)), Update(t, true));
    var left := Step(entered, Return(t, ret, true));
    Step(Step(Step(Step(left, Lookup(t)), Delete(t)), Reserve(t, true)), Submit(t))
  }

  lemma EnteredAndLeft(s: State, t: Tid, p: Pair, sk: Sock, ret: CInt)
    requires Inv(s) && t !in s.pcs && (t in s.Map(p) || |s.Map(p)| < 10240)
    ensures var left := Step(Step(Step(s, Begin(t, p, sk)), Update(t, true)), Return(t, ret, true));
            && Inv(left) && t in left.pcs && left.pcs[t] == Leaving(|s.calls|)
            && left.calls == s.calls + [Call(t, p, sk, Some(ret))]
            && left.Map(p) == s.Map(p)[t := sk] && left.slots == s.slots && left.consumed == s.consumed
  {
    var s1 := Step(s, Begin(t, p, sk));
    var s2 := Step(s1, Update(t, true));
    var s3 := Step(s2, Return(t, ret, true));
    StepInv(s, Begin(t, p, sk));
    StepInv(s1, Update(t, true));
    StepInv(s2, Return(t, ret, true));
    hide Inv;
    Entered(s, t, p, sk);
    Left(s2, t, ret);
    hide Step;
    assert (s.calls + [Call(t, p, sk, None)])[|s.calls| := Call(t, p, sk, Some(ret))] == s.calls + [Call(t, p, sk, Some(ret))];
  }

  lemma Entered(s: State, t: Tid, p: Pair, sk: Sock)
    requires t !in s.pcs && (t in s.Map(p) || |s.Map(p)| < 10240)
    ensures var s' := Step(Step(s, Begin(t, p, sk)), Update(t, true));
            && t in s'.pcs && s'.pcs[t] == Inside(|s.calls|) && s'.calls == s.calls + [Call(t, p, sk, None)]
            && s'.Map(p) == s.Map(p)[t := sk] && s'.slots == s.slots && s'.consumed == s.consumed
  {
    var s1 := Step(s, Begin(t, p, sk));
    assert s1.pcs[t] == Entering(|s.calls|) && s1.Map(p) == s.Map(p);
  }

  lemma Left(s: State, t: Tid, ret: CInt)
    requires t in s.pcs && s.pcs[t].Inside? && s.pcs[t].call < |s.calls|
    ensures var s' := Step(s, Return(t, ret, true));
            && t in s'.pcs && s'.pcs[t] == Leaving(s.pcs[t].call)
            && s'.calls == s.calls[s.pcs[t].call := s.calls[s.pcs[t].call].(ret := Some(ret))]
            && s'.sockMap == s.sockMap && s'.recvSockMap == s.recvSockMap && s'.slots == s.slots && s'.consumed == s.consumed
  {
  }

  /** No call is missed without cause: undisturbed, with room in its map and in the ring, a
      call that succeeds is recorded, once and with its own socket, and one that fails is
      not; either way its key is gone. */
  lemma CallRecorded(s: State, t: Tid, p: Pair, sk: Sock, ret: CInt)
    requires Inv(s) && t !in s.pcs && (t in s.Map(p) || |s.Map(p)| < 10240)
    requires (|s.slots| - s.consumed + 1) * 56 < 0x100_0000
    ensures var s' := WholeCall(s, t, p, sk, ret);
            && t !in s'.pcs && t !in s'.Map(p)
            && s'.slots == s.slots + if if p.Connect? then ret == 0 else ret > 0
                                     then [Ready(Event(if p.Connect? then 1 else 3, t / 0x1_0000_0000, sk,
                                                       if p.Connect? then 0 else ret, Some(|s.calls|)))]
                                     else []
  {
    var left := Step(Step(Step(s, Begin(t, p, sk)), Update(t, true)), Return(t, ret, true));
    EnteredAndLeft(s, t, p, sk, ret);
    InvFacts(left, t);
    ExitUndisturbed(left, t, true);
    hide Inv;
    hide Step;
  }

  lemma RunSnoc(acts: seq<Action>, a: Action)
    ensures Run(INIT, acts + [a]) == Step(Run(INIT, acts), a)
  {
    assert Front(acts + [a]) == acts;
  }

  lemma MissedReturn(t: Tid, stale: Sock) returns (acts: seq<Action>, s: State)
    ensures s == Run(INIT, acts)
    ensures s == State([Call(t, Connect, stale, Some(0))], map[], map[t := stale], map[], [], 0, {(Connect, t)})
  {
    acts, s := [Begin(t, Connect, stale)], Step(INIT, Begin(t, Connect, stale));
    RunSnoc([], Begin(t, Connect, stale));
    assert [] + [Begin(t, Connect, stale)] == acts;
    acts, s := Grow(acts, Update(t, true), s);
    assert s == State([Call(t, Connect, stale, None)], map[t := Inside(0)], map[t := stale], map[], [], 0, {});
    acts, s := Grow(acts, Return(t, 0, false), s);
    assert map[t := Inside(0)] - {t} == map[];
  }

  lemma FailedUpdate(t: Tid, stale: Sock, other: Sock) returns (acts: seq<Action>, s: State)
    ensures s == Run(INIT, acts)
    ensures s == State([Call(t, Connect, stale, Some(0)), Call(t, Connect, other, Some(0))], map[t := Leaving(1)],
                       map[t := stale], map[], [], 0, {(Connect, t)})
  {
    acts, s := MissedReturn(t, stale);
    acts, s := Grow(acts, Begin(t, Connect, other), s);
    acts, s := Grow(acts, Update(t, false), s);
    assert s == State([Call(t, Connect, stale, Some(0)), Call(t, Connect, other, None)], map[t := Inside(1)],
                      map[t := stale], map[], [], 0, {(Connect, t)});
    acts, s := Grow(acts, Return(t, 0, true), s);
  }

  /** The one assumption is needed: were the update of a present key to fail, a stale
      key would lend its socket to a later call of the same thread. */
  lemma StaleSocket(t: Tid, stale: Sock, other: Sock) returns (acts: seq<Action>)
    requires stale != other
    ensures !AllHealthy(acts)
    ensures var s := Run(INIT, acts);
            && |s.slots| == 1 && s.slots[0].Ready? && |s.calls| == 2
            && s.slots[0].event.call == Some(1) && s.calls[1].sock == other && s.slots[0].event.sock == stale
  {
    hide AllHealthy;
    var s: State;
    acts, s := FailedUpdate(t, stale, other);
    LookupDelete(s, t);
    ReserveSubmit(Step(Step(s, Lookup(t)), Delete(t)), t, true);
    hide Step;
    hide Run;
    acts, s := Grow(acts, Lookup(t), s);
    acts, s := Grow(acts, Delete(t), s);
    acts, s := Grow(acts, Reserve(t, true), s);
    acts, s := Grow(acts, Submit(t), s);
    UnhealthyOf(acts);
  }

  lemma Grow(acts: seq<Action>, a: Action, s: State) returns (acts': seq<Action>, s': State)
    requires s == Run(INIT, acts)
    ensures acts' == acts + [a] && s' == Step(s, a) && s' == Run(INIT, acts')
  {
    RunSnoc(acts, a);
    acts', s' := acts + [a], Step(s, a);
  }

  /** A run with a mispaired event was not healthy. */
  lemma UnhealthyOf(acts: seq<Action>)
    requires var s := Run(INIT, acts);
             |s.slots| > 0 && s.slots[0].Ready? && !EventOk(s, s.slots[0].event)
    ensures !AllHealthy(acts)
  {
    if AllHealthy(acts) { EventsOk(acts, 0); }
  }
}
