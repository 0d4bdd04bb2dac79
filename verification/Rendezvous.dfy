/** Ports, rendezvous and notification flags: the state that the calls of `kernel/ipc.c` share. */
module Rendezvous {
  import opened Lists
  import opened Wrappers
  import opened Scheduler

  const MAX_THREAD := 1024

  type Message = seq<bv8>

  /** A word of event flags, as the set of its raised bits. */
  type Bits = set<nat>

  datatype Error = E_OBJ | E_NOEXS | E_PAR | E_NOID | E_NOMEM | E_DLT | E_RLWAI

  datatype Result = Done(tag: nat, message: Message) | Failed(error: Error)

  /** Why a parked thread waits, and the list its wait record is linked in. Key 0 marks a one-way send. */
  datatype Wait =
    | OnFlag
    | Receiving(port: Id)
    | Calling(port: Id, key: nat, message: Message)
    | Awaiting(key: nat)

  datatype Port = Port(isOpen: bool, callers: seq<Id>, receivers: seq<Id>, maxCall: nat, maxReply: nat)

  datatype Record = Record(caller: Option<Id>, maxReply: nat)

  /** A thread whose wait is over but which has not run since; `key` is the key its call took, if any, and `was` what
      it waited for. */
  datatype Woken = Woken(key: nat, result: Result, was: Wait := OnFlag)

  datatype Ipc = Ipc(ports: map<Id, Port>, flags: map<Id, Bits>, wait: map<Id, Wait>, records: map<nat, Record>,
                     taken: set<nat>, woken: map<Id, Woken>)

  /** A call, or with key 0 a message sent one way. */
  datatype Call = Call(caller: Id, port: Id, message: Message, key: nat)

  /**
    What happened so far. Calls and sends are numbered as they are made: `calls`
    lists them, `turn` gives the latest of each thread, `serial` the one each key
    stands for, `received` those each port handed out, in order, `handed` all that
    were ever handed out, `answers` the replies made, and `finished` what callers
    came back with.
   */
  datatype History = History(owner: map<nat, Id>, serial: map<nat, nat>, delivered: set<nat>, calls: seq<Call>,
                             turn: map<Id, nat>, answers: map<nat, Message>, received: map<Id, seq<nat>>,
                             finished: map<nat, Message>, handed: set<nat>)

  /** The shifted key and the port do not overlap, so joining them is adding them. */
  function Tag(port: Id, key: nat): nat {
    key * 0x10000 + port
  }

  function PortOf(tag: nat): Id {
    tag % 0x10000
  }

  function KeyOf(tag: nat): nat {
    tag / 0x10000
  }

  lemma TagRoundTrip(port: Id, key: nat)
    requires port < 0x10000
    ensures PortOf(Tag(port, key)) == port && KeyOf(Tag(port, key)) == key
  {
  }

  // --- what the state must satisfy

  function Held(w: Wait): nat {
    if w.Calling? || w.Awaiting? then w.key else 0
  }

  ghost predicate CallersOf(ports: map<Id, Port>, wait: map<Id, Wait>) {
    forall p, id :: p in ports ==>
      (id in ports[p].callers <==> id in wait && wait[id].Calling? && wait[id].port == p)
  }

  ghost predicate ReceiversOf(ports: map<Id, Port>, wait: map<Id, Wait>) {
    forall p, id :: p in ports ==> (id in ports[p].receivers <==> id in wait && wait[id] == Receiving(p))
  }

  ghost predicate Placed(ports: map<Id, Port>, wait: map<Id, Wait>) {
    forall id :: id in wait && (wait[id].Calling? || wait[id].Receiving?) ==> wait[id].port in ports
  }

  ghost predicate Singly(ports: map<Id, Port>) {
    forall p :: p in ports ==> NoDup(ports[p].callers) && NoDup(ports[p].receivers)
  }

  ghost predicate RecordOf(records: map<nat, Record>, wait: map<Id, Wait>) {
    && (forall k, id :: k in records ==>
          (records[k].caller == Some(id) <==> id in wait && wait[id] == Awaiting(k)))
    && forall id :: id in wait && wait[id].Awaiting? ==> wait[id].key in records
  }

  /** Who holds a key owns its record, so no two threads hold the same key. */
  ghost predicate Owned(records: map<nat, Record>, owner: map<nat, Id>, wait: map<Id, Wait>, woken: map<Id, Woken>) {
    && (forall k :: k in records <==> k in owner)
    && (forall id :: id in wait && Held(wait[id]) != 0 ==> Held(wait[id]) in owner && owner[Held(wait[id])] == id)
    && forall id :: id in woken && woken[id].result.Failed? && woken[id].key != 0 ==>
         woken[id].key in owner && owner[woken[id].key] == id
  }

  /** A server holds the tags of exactly the calls that wait for a reply. */
  ghost predicate Handed(records: map<nat, Record>, delivered: set<nat>, wait: map<Id, Wait>, woken: map<Id, Woken>) {
    && (forall k :: k in delivered ==> k in records)
    && (forall id :: id in wait && wait[id].Calling? ==> wait[id].key !in delivered)
    && (forall id :: id in wait && wait[id].Awaiting? ==> wait[id].key in delivered)
    && forall id :: id in woken && woken[id].result.Failed? ==> woken[id].key !in delivered
  }

  /** A key is taken exactly while its record is kept; 0 is never given out. */
  ghost predicate Keyed(records: map<nat, Record>, taken: set<nat>) {
    && 0 !in records && (forall k :: k in taken <==> k == 0 || k in records)
    && forall k :: k in taken ==> k < MAX_THREAD
  }

  /** Keys in use stand for different calls, none of them answered yet. */
  ghost predicate Numbered(owner: map<nat, Id>, serial: map<nat, nat>, calls: seq<Call>, answers: map<nat, Message>) {
    && (forall k :: k in owner ==> k in serial && serial[k] < |calls| && serial[k] !in answers)
    && (forall k :: k in owner && k in serial && serial[k] < |calls| ==> calls[serial[k]].caller == owner[k])
    && (forall j, k :: j in owner && k in owner && j in serial && k in serial && serial[j] == serial[k] ==> j == k)
    && forall n :: n in answers ==> n < |calls|
  }

  /** A waiting caller's call is the one its key stands for. */
  ghost predicate Asked(wait: map<Id, Wait>, serial: map<nat, nat>, calls: seq<Call>, turn: map<Id, nat>) {
    && (forall id :: id in wait && wait[id].Calling? ==>
          id in turn && turn[id] < |calls| && 
          calls[turn[id]] == Call(id, wait[id].port, wait[id].message, wait[id].key))
    && forall id :: id in wait && Held(wait[id]) != 0 ==>
         id in turn && Held(wait[id]) in serial && turn[id] == serial[Held(wait[id])]
  }

  /** A finished caller has the reply made to its own call. */
  ghost predicate Told(woken: map<Id, Woken>, calls: seq<Call>, turn: map<Id, nat>, answers: map<nat, Message>) {
    forall id :: id in woken && woken[id].key != 0 && woken[id].result.Done? ==>
      && id in turn && turn[id] in answers && turn[id] < |calls|
      && answers[turn[id]] == woken[id].result.message && calls[turn[id]].caller == id
  }

  /** Every call that came back brought the reply made to it. */
  ghost predicate Kept(answers: map<nat, Message>, finished: map<nat, Message>) {
    forall n :: n in finished ==> n in answers && answers[n] == finished[n]
  }

  function TurnOf(turn: map<Id, nat>, id: Id): nat {
    if id in turn then turn[id] else 0
  }

  ghost predicate Climb(low: int, ids: seq<Id>, turn: map<Id, nat>)
    decreases ids
  {
    ids == [] || (low < TurnOf(turn, ids[0]) && Climb(TurnOf(turn, ids[0]), ids[1..], turn))
  }

  ghost predicate Rising(s: seq<nat>) {
    forall i, j :: 0 <= i < j < |s| ==> s[i] < s[j]
  }

  function Last(s: seq<nat>): int {
    if s == [] then -1 else s[|s| - 1]
  }

  /** What a port handed out, followed by what still waits there, is in the order it was asked. */
  ghost predicate InOrder(ports: map<Id, Port>, received: map<Id, seq<nat>>, turn: map<Id, nat>, calls: nat) {
    forall p :: p in ports ==>
      && p in received && Rising(received[p]) && Last(received[p]) < calls
      && Climb(Last(received[p]), ports[p].callers, turn)
  }

  /** No port has both a waiting caller and a waiting receiver; a closed one has neither. */
  ghost predicate Apart(ports: map<Id, Port>, closing: set<Id>) {
    forall p :: p in ports ==>
      && (ports[p].callers == [] || ports[p].receivers == [])
      && (ports[p].isOpen || p in closing || (ports[p].callers == [] && ports[p].receivers == []))
  }

  /** No thread is parked for a flag or a message while its notification flag is set. */
  ghost predicate Quiet(flags: map<Id, Bits>, wait: map<Id, Wait>) {
    forall id :: id in wait && (wait[id].OnFlag? || wait[id].Receiving?) ==> id in flags && flags[id] == {}
  }

  ghost predicate Domains(s: Ipc, received: map<Id, seq<nat>>) {
    && (forall p :: p in s.ports ==> p in s.flags && p in received && p < 0x10000)
    && (forall p :: p in s.flags || p in received ==> p in s.ports)
    && (forall id :: id in s.wait ==> id in s.ports && id !in s.woken)
    && forall id :: id in s.woken ==> id in s.ports
  }

  /** Every wait record is linked in the one list its reason names. */
  ghost predicate Shape(s: Ipc) {
    && CallersOf(s.ports, s.wait) && ReceiversOf(s.ports, s.wait) && Placed(s.ports, s.wait) && Singly(s.ports)
    && RecordOf(s.records, s.wait)
  }

  ghost predicate Keys(s: Ipc, h: History) {
    && Owned(s.records, h.owner, s.wait, s.woken) && Handed(s.records, h.delivered, s.wait, s.woken)
    && Keyed(s.records, s.taken)
  }

  ghost predicate Story(s: Ipc, h: History) {
    && Numbered(h.owner, h.serial, h.calls, h.answers) && Asked(s.wait, h.serial, h.calls, h.turn)
    && Told(s.woken, h.calls, h.turn, h.answers) && Kept(h.answers, h.finished)
  }

  ghost predicate Core(s: Ipc, h: History) {
    && Shape(s) && Keys(s, h) && Story(s, h) && InOrder(s.ports, h.received, h.turn, |h.calls|)
    && Quiet(s.flags, s.wait) && Domains(s, h.received)
  }

  ghost predicate Inv(s: Ipc, h: History) {
    Core(s, h) && Apart(s.ports, {})
  }

  // --- unlinking a wait record from its list, and linking one

  function Unlinked(ports: map<Id, Port>, w: Wait, id: Id): map<Id, Port> {
    if w.Calling? && w.port in ports then
      ports[w.port := ports[w.port].(callers := Remove(ports[w.port].callers, id))]
    else if w.Receiving? && w.port in ports then
      ports[w.port := ports[w.port].(receivers := Remove(ports[w.port].receivers, id))]
    else ports
  }

  function Vacated(records: map<nat, Record>, w: Wait): map<nat, Record> {
    if w.Awaiting? && w.key in records then records[w.key := records[w.key].(caller := None)] else records
  }

  function Linked(ports: map<Id, Port>, w: Wait, id: Id): map<Id, Port> {
    if w.Calling? && w.port in ports then ports[w.port := ports[w.port].(callers := ports[w.port].callers + [id])]
    else if w.Receiving? && w.port in ports then
      ports[w.port := ports[w.port].(receivers := ports[w.port].receivers + [id])]
    else ports
  }

  function Filled(records: map<nat, Record>, w: Wait, id: Id): map<nat, Record> {
    if w.Awaiting? && w.key in records then records[w.key := records[w.key].(caller := Some(id))] else records
  }

  lemma UnlinkedKeeps(ports: map<Id, Port>, wait: map<Id, Wait>, id: Id)
    requires CallersOf(ports, wait) && ReceiversOf(ports, wait) && Placed(ports, wait) && Singly(ports) && id in wait
    ensures CallersOf(Unlinked(ports, wait[id], id), wait - {id})
      && ReceiversOf(Unlinked(ports, wait[id], id), wait - {id})
    ensures Placed(Unlinked(ports, wait[id], id), wait - {id}) && Singly(Unlinked(ports, wait[id], id))
  {
    var w := wait[id];
    if w.Calling? {
      RemoveFacts(ports[w.port].callers, id);
    } else if w.Receiving? {
      RemoveFacts(ports[w.port].receivers, id);
    }
    hide NoDup, Remove;
    var after := Unlinked(ports, w, id);
    assert CallersOf(after, wait - {id}) by { hide ReceiversOf, Placed; }
    assert ReceiversOf(after, wait - {id}) by { hide CallersOf, Placed; }
  }

  lemma VacatedKeeps(records: map<nat, Record>, wait: map<Id, Wait>, id: Id)
    requires RecordOf(records, wait) && id in wait
    ensures RecordOf(Vacated(records, wait[id]), wait - {id})
  {
  }

  lemma LinkedCallers(ports: map<Id, Port>, wait: map<Id, Wait>, id: Id, w: Wait)
    requires CallersOf(ports, wait) && Singly(ports) && id !in wait
    requires w.Calling? || w.Receiving? ==> w.port in ports
    ensures CallersOf(Linked(ports, w, id), wait[id := w])
    ensures forall p :: p in ports ==> NoDup(Linked(ports, w, id)[p].callers)
  {
    if w.Calling? { AppendFacts(ports[w.port].callers, id); }
    hide NoDup;
  }

  lemma LinkedReceivers(ports: map<Id, Port>, wait: map<Id, Wait>, id: Id, w: Wait)
    requires ReceiversOf(ports, wait) && Singly(ports) && id !in wait
    requires w.Calling? || w.Receiving? ==> w.port in ports
    ensures ReceiversOf(Linked(ports, w, id), wait[id := w])
    ensures forall p :: p in ports ==> NoDup(Linked(ports, w, id)[p].receivers)
  {
    if w.Receiving? { AppendFacts(ports[w.port].receivers, id); }
    hide NoDup;
  }

  lemma LinkedKeeps(ports: map<Id, Port>, wait: map<Id, Wait>, id: Id, w: Wait)
    requires CallersOf(ports, wait) && ReceiversOf(ports, wait) && Placed(ports, wait) && Singly(ports) && id !in wait
    requires w.Calling? || w.Receiving? ==> w.port in ports
    ensures CallersOf(Linked(ports, w, id), wait[id := w]) && ReceiversOf(Linked(ports, w, id), wait[id := w])
    ensures Placed(Linked(ports, w, id), wait[id := w]) && Singly(Linked(ports, w, id))
  {
    LinkedCallers(ports, wait, id, w);
    LinkedReceivers(ports, wait, id, w);
    hide NoDup, CallersOf, ReceiversOf;
  }

  lemma FilledKeeps(records: map<nat, Record>, wait: map<Id, Wait>, id: Id, w: Wait)
    requires RecordOf(records, wait) && id !in wait
    requires w.Awaiting? ==> w.key in records && records[w.key].caller == None
    ensures RecordOf(Filled(records, w, id), wait[id := w])
  {
  }

  // --- the order of callers

  lemma {:induction false} ClimbLower(low: int, high: int, ids: seq<Id>, turn: map<Id, nat>)
    requires Climb(high, ids, turn) && low <= high
    ensures Climb(low, ids, turn)
  {
  }

  lemma {:induction false} ClimbRemove(low: int, ids: seq<Id>, turn: map<Id, nat>, id: Id)
    requires Climb(low, ids, turn)
    ensures Climb(low, Remove(ids, id), turn)
    decreases ids
  {
    if ids != [] {
      var t := TurnOf(turn, ids[0]);
      if ids[0] == id {
        ClimbLower(low, t, ids[1..], turn);
      } else {
        ClimbRemove(t, ids[1..], turn, id);
        assert Remove(ids, id)[1..] == Remove(ids[1..], id);
      }
    }
  }

  lemma {:induction false} ClimbAppend(low: int, ids: seq<Id>, turn: map<Id, nat>, id: Id, n: nat)
    requires Climb(low, ids, turn) && low < n && id !in ids && forall x :: x in ids ==> TurnOf(turn, x) < n
    ensures Climb(low, ids + [id], turn[id := n])
    decreases ids
  {
    if ids == [] {
      assert (ids + [id])[1..] == [];
    } else {
      ClimbAppend(TurnOf(turn, ids[0]), ids[1..], turn, id, n);
      assert (ids + [id])[1..] == ids[1..] + [id];
    }
  }

  lemma {:induction false} ClimbSame(low: int, ids: seq<Id>, turn: map<Id, nat>, id: Id, n: nat)
    requires Climb(low, ids, turn) && id !in ids
    ensures Climb(low, ids, turn[id := n])
    decreases ids
  {
    if ids != [] {
      ClimbSame(TurnOf(turn, ids[0]), ids[1..], turn, id, n);
    }
  }
}
