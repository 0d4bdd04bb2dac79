/** The steps the calls are made of, and that each keeps what the state must satisfy. */
module RendezvousSteps {
  import opened Lists
  import opened Wrappers
  import opened Scheduler
  import opened Rendezvous

  // --- a wait ends

  /** A thread's wait record leaves the list it is in. */
  function Detach(s: Ipc, id: Id): Ipc
    requires id in s.wait
  {
    s.(ports := Unlinked(s.ports, s.wait[id], id), records := Vacated(s.records, s.wait[id]), wait := s.wait - {id})
  }

  /** A thread's wait ends with the given outcome. */
  function Wake(s: Ipc, id: Id, x: Woken): Ipc
    requires id in s.wait
  {
    Detach(s, id).(woken := s.woken[id := x.(was := s.wait[id])])
  }

  /** An outcome that leaves the key of a call with its caller. */
  predicate Keeps(w: Wait, x: Woken) {
    !w.Awaiting? && x.key == Held(w) && (x.result.Done? ==> x.key == 0)
  }

  lemma DetachShape(s: Ipc, id: Id)
    requires Shape(s) && id in s.wait
    ensures Shape(Detach(s, id))
  {
    UnlinkedKeeps(s.ports, s.wait, id);
    VacatedKeeps(s.records, s.wait, id);
    hide CallersOf, ReceiversOf, Placed, Singly, RecordOf, Unlinked, Vacated;
  }

  lemma WakeKeys(s: Ipc, h: History, id: Id, x: Woken)
    requires Keys(s, h) && id in s.wait && Keeps(s.wait[id], x)
    ensures Keys(Wake(s, id, x), h)
  {
    hide Unlinked;
  }

  lemma WakeStory(s: Ipc, h: History, id: Id, x: Woken)
    requires Story(s, h) && id in s.wait && Keeps(s.wait[id], x)
    ensures Story(Wake(s, id, x), h)
  {
    hide Unlinked, Numbered;
  }

  lemma UnlinkedOrder(ports: map<Id, Port>, h: History, w: Wait, id: Id)
    requires InOrder(ports, h.received, h.turn, |h.calls|)
    ensures InOrder(Unlinked(ports, w, id), h.received, h.turn, |h.calls|)
  {
    if w.Calling? && w.port in ports {
      ClimbRemove(Last(h.received[w.port]), ports[w.port].callers, h.turn, id);
    }
    hide Climb, Remove, Rising, Last;
  }

  lemma RemoveEmpty(ids: seq<Id>, id: Id)
    requires ids == []
    ensures Remove(ids, id) == []
  {
  }

  lemma UnlinkedApart(ports: map<Id, Port>, w: Wait, id: Id, closing: set<Id>)
    requires Apart(ports, closing)
    ensures Apart(Unlinked(ports, w, id), closing)
  {
    if (w.Calling? || w.Receiving?) && w.port in ports {
      var p := ports[w.port];
      if p.callers == [] {
        RemoveEmpty(p.callers, id);
      }
      if p.receivers == [] {
        RemoveEmpty(p.receivers, id);
      }
    }
    hide Remove;
  }

  lemma WakeDomains(s: Ipc, received: map<Id, seq<nat>>, id: Id, x: Woken)
    requires Domains(s, received) && Quiet(s.flags, s.wait) && id in s.wait
    ensures Domains(Wake(s, id, x), received) && Quiet(s.flags, s.wait - {id})
  {
    hide Remove, Vacated;
  }

  lemma WakeKeeps(s: Ipc, h: History, id: Id, x: Woken)
    requires Core(s, h) && id in s.wait && Keeps(s.wait[id], x)
    ensures Core(Wake(s, id, x), h)
  {
    DetachShape(s, id);
    WakeKeys(s, h, id, x);
    WakeStory(s, h, id, x);
    UnlinkedOrder(s.ports, h, s.wait[id], id);
    WakeDomains(s, h.received, id, x);
    hide Shape, Keys, Story, InOrder, Domains, Quiet, Unlinked, Vacated;
  }

  // --- a call is answered

  /** The record of a rendezvous goes, and its key with it. */
  function Freed(s: Ipc, k: nat): Ipc {
    s.(records := s.records - {k}, taken := s.taken - {k})
  }

  function Answered(h: History, k: nat, m: Message): History {
    h.(owner := h.owner - {k}, delivered := h.delivered - {k},
       answers := if k in h.serial then h.answers[h.serial[k] := m] else h.answers)
  }

  /** The reply goes to the caller kept in the record, if it is still there. */
  function Replied(s: Ipc, k: nat, m: Message): Ipc
    requires k in s.records && (s.records[k].caller.Some? ==> s.records[k].caller.value in s.wait)
  {
    if s.records[k].caller.Some? then Freed(Wake(s, s.records[k].caller.value, Woken(k, Done(0, m))), k)
    else Freed(s, k)
  }

  lemma FreedShape(s: Ipc, k: nat)
    requires Shape(s) && (k in s.records ==> s.records[k].caller == None)
    ensures Shape(Freed(s, k))
  {
    hide CallersOf, ReceiversOf, Placed, Singly;
  }

  lemma CallerWaits(s: Ipc, k: nat)
    requires RecordOf(s.records, s.wait) && k in s.records && s.records[k].caller.Some?
    ensures s.records[k].caller.value in s.wait && s.wait[s.records[k].caller.value] == Awaiting(k)
  {
    assert s.records[k].caller == Some(s.records[k].caller.value);
  }

  /** Apart from the caller in the record, nobody holds a delivered key. */
  lemma HeldOnce(s: Ipc, h: History, k: nat)
    requires RecordOf(s.records, s.wait) && Keys(s, h) && k in s.records && k in h.delivered
    ensures forall id :: id in s.wait && Held(s.wait[id]) == k ==> s.records[k].caller == Some(id)
    ensures forall id :: id in s.woken && s.woken[id].result.Failed? ==> s.woken[id].key != k
  {
    forall id | id in s.wait && Held(s.wait[id]) == k ensures s.records[k].caller == Some(id) {
      assert s.wait[id] == Awaiting(k);
    }
  }

  lemma FreedKeys(s: Ipc, h: History, g: History, k: nat)
    requires Keys(s, h) && k != 0 && forall id :: id in s.wait ==> Held(s.wait[id]) != k
    requires forall id :: id in s.woken && s.woken[id].result.Failed? ==> s.woken[id].key != k
    requires g.owner == h.owner - {k} && g.delivered == h.delivered - {k}
    ensures Keys(Freed(s, k), g)
  {
    assert Owned(s.records - {k}, h.owner - {k}, s.wait, s.woken) by { hide Handed, Keyed; }
    assert Handed(s.records - {k}, h.delivered - {k}, s.wait, s.woken) by { hide Owned, Keyed; }
    hide Owned, Handed;
  }

  lemma DetachedKeys(s: Ipc, h: History, id: Id, k: nat, m: Message)
    requires Keys(s, h) && id in s.wait && s.wait[id] == Awaiting(k)
    ensures Keys(Wake(s, id, Woken(k, Done(0, m))), h)
  {
    hide Unlinked;
  }

  lemma AnsweredNumbers(h: History, k: nat, m: Message)
    requires Numbered(h.owner, h.serial, h.calls, h.answers) && k in h.owner
    ensures var g := Answered(h, k, m); Numbered(g.owner, g.serial, g.calls, g.answers)
  {
  }

  lemma AnsweredTold(woken: map<Id, Woken>, h: History, id: Id, k: nat, m: Message, was: Wait)
    requires Numbered(h.owner, h.serial, h.calls, h.answers) && Told(woken, h.calls, h.turn, h.answers)
    requires k in h.owner && h.owner[k] == id && id in h.turn && h.turn[id] == h.serial[k]
    ensures Told(woken[id := Woken(k, Done(0, m), was)], h.calls, h.turn, Answered(h, k, m).answers)
  {
    assert h.serial[k] !in h.answers;
    hide Numbered;
  }

  lemma AnsweredDropTold(woken: map<Id, Woken>, h: History, k: nat, m: Message)
    requires Numbered(h.owner, h.serial, h.calls, h.answers) && Told(woken, h.calls, h.turn, h.answers)
    requires k in h.owner
    ensures Told(woken, h.calls, h.turn, Answered(h, k, m).answers)
  {
    assert h.serial[k] !in h.answers;
    hide Numbered;
  }

  lemma AnsweredKept(h: History, k: nat, m: Message)
    requires Numbered(h.owner, h.serial, h.calls, h.answers) && Kept(h.answers, h.finished) && k in h.owner
    ensures Kept(Answered(h, k, m).answers, h.finished)
  {
    assert h.serial[k] !in h.answers;
    hide Numbered;
  }

  lemma DropAsked(wait: map<Id, Wait>, h: History, id: Id)
    requires Asked(wait, h.serial, h.calls, h.turn)
    ensures Asked(wait - {id}, h.serial, h.calls, h.turn)
  {
  }

  lemma RepliedStory(s: Ipc, h: History, k: nat, m: Message)
    requires RecordOf(s.records, s.wait) && Keys(s, h) && Story(s, h) && k in s.records
    requires s.records[k].caller.Some? ==> s.records[k].caller.value in s.wait
    ensures Story(Replied(s, k, m), Answered(h, k, m))
  {
    AnsweredNumbers(h, k, m);
    AnsweredKept(h, k, m);
    if s.records[k].caller.Some? {
      CallerWaits(s, k);
      var id := s.records[k].caller.value;
      assert k != 0 && Held(s.wait[id]) == k;
      AnsweredTold(s.woken, h, id, k, m, s.wait[id]);
      DropAsked(s.wait, h, id);
    } else {
      AnsweredDropTold(s.woken, h, k, m);
    }
    hide Numbered, Asked, Told, Kept, Unlinked, Vacated;
  }

  lemma RepliedShape(s: Ipc, k: nat, m: Message)
    requires Shape(s) && k in s.records && (s.records[k].caller.Some? ==> s.records[k].caller.value in s.wait)
    ensures Shape(Replied(s, k, m))
  {
    if s.records[k].caller.Some? {
      var id := s.records[k].caller.value;
      CallerWaits(s, k);
      DetachShape(s, id);
      FreedShape(Wake(s, id, Woken(k, Done(0, m))), k);
    } else {
      FreedShape(s, k);
    }
  }

  lemma RepliedKeys(s: Ipc, h: History, k: nat, m: Message)
    requires RecordOf(s.records, s.wait) && Keys(s, h) && k in s.records && k in h.delivered
    requires s.records[k].caller.Some? ==> s.records[k].caller.value in s.wait
    ensures Keys(Replied(s, k, m), Answered(h, k, m))
  {
    HeldOnce(s, h, k);
    if s.records[k].caller.Some? {
      CallerWaits(s, k);
      var id := s.records[k].caller.value;
      DetachedKeys(s, h, id, k, m);
      hide RecordOf, Keys, Unlinked, Vacated;
      FreedKeys(Wake(s, id, Woken(k, Done(0, m))), h, Answered(h, k, m), k);
    } else {
      hide RecordOf;
      FreedKeys(s, h, Answered(h, k, m), k);
    }
  }

  lemma RepliedRest(s: Ipc, h: History, k: nat, m: Message)
    requires InOrder(s.ports, h.received, h.turn, |h.calls|) && Quiet(s.flags, s.wait) && Domains(s, h.received)
    requires k in s.records && (s.records[k].caller.Some? ==> s.records[k].caller.value in s.wait)
    ensures var t := Replied(s, k, m);
      InOrder(t.ports, h.received, h.turn, |h.calls|) && Quiet(t.flags, t.wait) && Domains(t, h.received)
  {
    if s.records[k].caller.Some? {
      var id := s.records[k].caller.value;
      UnlinkedOrder(s.ports, h, s.wait[id], id);
      WakeDomains(s, h.received, id, Woken(k, Done(0, m)));
    }
    hide InOrder, Quiet, Unlinked, Vacated;
  }

  lemma RepliedKeeps(s: Ipc, h: History, k: nat, m: Message)
    requires Core(s, h) && k in h.delivered
    ensures k in s.records && (s.records[k].caller.Some? ==> s.records[k].caller.value in s.wait)
    ensures Core(Replied(s, k, m), Answered(h, k, m))
  {
    if s.records[k].caller.Some? {
      CallerWaits(s, k);
    }
    RepliedShape(s, k, m);
    RepliedKeys(s, h, k, m);
    RepliedStory(s, h, k, m);
    RepliedRest(s, h, k, m);
    hide Shape, Keys, Story, InOrder, Domains, Quiet, Replied;
  }

  // --- a call is made

  /** The next number is given to a call by `id`, which takes key `k` unless it only sends. */
  function Recorded(h: History, id: Id, p: Id, k: nat, m: Message): History {
    h.(owner := if k == 0 then h.owner else h.owner[k := id],
       serial := if k == 0 then h.serial else h.serial[k := |h.calls|],
       calls := h.calls + [Call(id, p, m, k)], turn := h.turn[id := |h.calls|])
  }

  function Reserved(s: Ipc, k: nat, maxReply: nat): Ipc {
    if k == 0 then s else s.(records := s.records[k := Record(None, maxReply)], taken := s.taken + {k})
  }

  function Queue(s: Ipc, id: Id, w: Wait): Ipc {
    s.(ports := Linked(s.ports, w, id), records := Filled(s.records, w, id), wait := s.wait[id := w])
  }

  /** The caller waits behind the callers already there. */
  function Asking(s: Ipc, id: Id, p: Id, k: nat, m: Message, maxReply: nat): Ipc {
    Queue(Reserved(s, k, maxReply), id, Calling(p, k, m))
  }

  predicate MayAsk(s: Ipc, id: Id, p: Id, k: nat) {
    id in s.ports && id !in s.wait && id !in s.woken && p in s.ports && k < MAX_THREAD && (k == 0 || k !in s.taken)
  }

  lemma ReservedShape(s: Ipc, k: nat, maxReply: nat)
    requires Shape(s) && (k == 0 || k !in s.records)
    ensures Shape(Reserved(s, k, maxReply))
  {
    hide CallersOf, ReceiversOf, Placed, Singly;
  }

  lemma QueueShape(s: Ipc, id: Id, w: Wait)
    requires Shape(s) && id !in s.wait && (w.Calling? || w.Receiving? ==> w.port in s.ports)
    requires w.Awaiting? ==> w.key in s.records && s.records[w.key].caller == None
    ensures Shape(Queue(s, id, w))
  {
    LinkedKeeps(s.ports, s.wait, id, w);
    FilledKeeps(s.records, s.wait, id, w);
    hide CallersOf, ReceiversOf, Placed, Singly, RecordOf, Linked, Filled;
  }

  lemma ReservedOwned(records: map<nat, Record>, owner: map<nat, Id>, wait: map<Id, Wait>, woken: map<Id, Woken>,
                      k: nat, r: Record, id: Id)
    requires Owned(records, owner, wait, woken) && k !in owner
    ensures Owned(records[k := r], owner[k := id], wait, woken)
  {
  }

  lemma ReservedHanded(records: map<nat, Record>, delivered: set<nat>, wait: map<Id, Wait>, woken: map<Id, Woken>,
                       k: nat, r: Record)
    requires Handed(records, delivered, wait, woken)
    ensures Handed(records[k := r], delivered, wait, woken)
  {
  }

  lemma ReservedKeys(s: Ipc, h: History, id: Id, p: Id, k: nat, m: Message, maxReply: nat)
    requires Keys(s, h) && MayAsk(s, id, p, k)
    ensures Keys(Reserved(s, k, maxReply), Recorded(h, id, p, k, m))
  {
    if k != 0 {
      assert k !in h.owner;
      ReservedOwned(s.records, h.owner, s.wait, s.woken, k, Record(None, maxReply), id);
      ReservedHanded(s.records, h.delivered, s.wait, s.woken, k, Record(None, maxReply));
      hide Owned, Handed;
    }
  }

  lemma QueueKeys(s: Ipc, h: History, id: Id, w: Wait)
    requires Keys(s, h) && id !in s.wait && w.Calling? && w.key !in h.delivered
    requires w.key != 0 ==> w.key in h.owner && h.owner[w.key] == id
    ensures Keys(Queue(s, id, w), h)
  {
    hide Linked;
  }

  lemma RecordedNumbers(h: History, id: Id, p: Id, k: nat, m: Message)
    requires Numbered(h.owner, h.serial, h.calls, h.answers) && (k == 0 || k !in h.owner)
    ensures var g := Recorded(h, id, p, k, m); Numbered(g.owner, g.serial, g.calls, g.answers)
  {
    if k == 0 {
      MoreCalls(h.owner, h.serial, h.calls, h.answers, Call(id, p, m, k));
    } else {
      MoreCalls(h.owner, h.serial, h.calls, h.answers, Call(id, p, m, k));
      MoreKeys(h.owner, h.serial, h.calls + [Call(id, p, m, k)], h.answers, k, |h.calls|);
    }
    hide Numbered;
  }

  lemma MoreCalls(owner: map<nat, Id>, serial: map<nat, nat>, calls: seq<Call>, answers: map<nat, Message>, c: Call)
    requires Numbered(owner, serial, calls, answers)
    ensures Numbered(owner, serial, calls + [c], answers) && |calls| !in answers
    ensures forall k :: k in owner ==> k in serial && serial[k] != |calls|
  {
    assert forall n :: 0 <= n < |calls| ==> (calls + [c])[n] == calls[n];
  }

  lemma MoreKeys(owner: map<nat, Id>, serial: map<nat, nat>, calls: seq<Call>, answers: map<nat, Message>, k: nat,
                 n: nat)
    requires Numbered(owner, serial, calls, answers) && k !in owner && n < |calls| && n !in answers
    requires forall j :: j in owner ==> j in serial && serial[j] != n
    ensures Numbered(owner[k := calls[n].caller], serial[k := n], calls, answers)
  {
    var owner', serial' := owner[k := calls[n].caller], serial[k := n];
    assert forall j :: j in owner' ==> j == k || (j in owner && owner'[j] == owner[j] && serial'[j] == serial[j]);
  }

  lemma RecordedAsked(wait: map<Id, Wait>, h: History, id: Id, p: Id, k: nat, m: Message)
    requires Asked(wait, h.serial, h.calls, h.turn) && id !in wait
    requires k != 0 ==> forall x :: x in wait ==> Held(wait[x]) != k
    ensures var g := Recorded(h, id, p, k, m); Asked(wait[id := Calling(p, k, m)], g.serial, g.calls, g.turn)
  {
  }

  lemma RecordedTold(woken: map<Id, Woken>, h: History, id: Id, p: Id, k: nat, m: Message)
    requires Told(woken, h.calls, h.turn, h.answers) && id !in woken
    ensures var g := Recorded(h, id, p, k, m); Told(woken, g.calls, g.turn, g.answers)
  {
  }

  lemma NotHeld(s: Ipc, h: History, k: nat)
    requires Keys(s, h) && k != 0 && k !in s.taken
    ensures k !in h.owner && k !in h.delivered && k !in s.records
    ensures forall x :: x in s.wait ==> Held(s.wait[x]) != k
  {
  }

  lemma AskingKeys(s: Ipc, h: History, id: Id, p: Id, k: nat, m: Message, maxReply: nat)
    requires Keys(s, h) && MayAsk(s, id, p, k)
    ensures Keys(Asking(s, id, p, k, m, maxReply), Recorded(h, id, p, k, m))
  {
    ReservedKeys(s, h, id, p, k, m, maxReply);
    if k != 0 {
      NotHeld(s, h, k);
    }
    assert 0 !in h.delivered;
    hide Keys;
    QueueKeys(Reserved(s, k, maxReply), Recorded(h, id, p, k, m), id, Calling(p, k, m));
  }

  lemma AskingStory(s: Ipc, h: History, id: Id, p: Id, k: nat, m: Message, maxReply: nat)
    requires Keys(s, h) && Story(s, h) && MayAsk(s, id, p, k)
    ensures Story(Asking(s, id, p, k, m, maxReply), Recorded(h, id, p, k, m))
  {
    if k != 0 {
      NotHeld(s, h, k);
    }
    hide Keys;
    RecordedNumbers(h, id, p, k, m);
    RecordedAsked(s.wait, h, id, p, k, m);
    RecordedTold(s.woken, h, id, p, k, m);
    hide Numbered, Asked, Told, Linked;
  }

  lemma TurnOrder(ports: map<Id, Port>, wait: map<Id, Wait>, h: History, id: Id)
    requires CallersOf(ports, wait) && InOrder(ports, h.received, h.turn, |h.calls|) && id !in wait
    ensures InOrder(ports, h.received, h.turn[id := |h.calls|], |h.calls| + 1)
  {
    forall q | q in ports ensures Climb(Last(h.received[q]), ports[q].callers, h.turn[id := |h.calls|]) {
      ClimbSame(Last(h.received[q]), ports[q].callers, h.turn, id, |h.calls|);
    }
    hide Climb, Last, Rising;
  }

  lemma TurnAppend(ports: map<Id, Port>, wait: map<Id, Wait>, h: History, id: Id, p: Id)
    requires CallersOf(ports, wait) && InOrder(ports, h.received, h.turn, |h.calls|) && id !in wait && p in ports
    requires Asked(wait, h.serial, h.calls, h.turn)
    ensures Climb(Last(h.received[p]), ports[p].callers + [id], h.turn[id := |h.calls|])
  {
    forall x | x in ports[p].callers ensures TurnOf(h.turn, x) < |h.calls| {
      assert x in wait && wait[x].Calling?;
    }
    ClimbAppend(Last(h.received[p]), ports[p].callers, h.turn, id, |h.calls|);
  }

  lemma AskingOrder(ports: map<Id, Port>, wait: map<Id, Wait>, h: History, id: Id, p: Id, k: nat, m: Message)
    requires CallersOf(ports, wait) && InOrder(ports, h.received, h.turn, |h.calls|) && id !in wait && p in ports
    requires Asked(wait, h.serial, h.calls, h.turn)
    ensures InOrder(Linked(ports, Calling(p, k, m), id), h.received, h.turn[id := |h.calls|], |h.calls| + 1)
  {
    TurnOrder(ports, wait, h, id);
    TurnAppend(ports, wait, h, id, p);
    hide CallersOf, Asked, Climb, Last, Rising;
  }

  lemma QueueRest(s: Ipc, received: map<Id, seq<nat>>, id: Id, w: Wait)
    requires Domains(s, received) && Quiet(s.flags, s.wait) && id in s.ports && id !in s.woken
    requires w.OnFlag? || w.Receiving? ==> s.flags[id] == {}
    ensures Domains(Queue(s, id, w), received) && Quiet(s.flags, s.wait[id := w])
  {
    hide Filled;
  }

  lemma AskingRest(s: Ipc, received: map<Id, seq<nat>>, id: Id, p: Id, k: nat, m: Message, maxReply: nat)
    requires Domains(s, received) && Quiet(s.flags, s.wait) && id in s.ports && id !in s.woken
    ensures Domains(Asking(s, id, p, k, m, maxReply), received) && Quiet(s.flags, s.wait[id := Calling(p, k, m)])
  {
    QueueRest(s, received, id, Calling(p, k, m));
    hide Filled, Linked, Quiet;
  }

  lemma AskingKeeps(s: Ipc, h: History, id: Id, p: Id, k: nat, m: Message, maxReply: nat)
    requires Core(s, h) && MayAsk(s, id, p, k)
    ensures Core(Asking(s, id, p, k, m, maxReply), Recorded(h, id, p, k, m))
  {
    hide CallersOf, ReceiversOf, Placed, Singly, RecordOf, Owned, Handed, Keyed, Numbered, Asked, Told, Kept, InOrder,
      Quiet, Domains,
      Linked, Filled;
    if k != 0 {
      NotHeld(s, h, k);
    }
    ReservedShape(s, k, maxReply);
    QueueShape(Reserved(s, k, maxReply), id, Calling(p, k, m));
    AskingKeys(s, h, id, p, k, m, maxReply);
    AskingStory(s, h, id, p, k, m, maxReply);
    AskingOrder(s.ports, s.wait, h, id, p, k, m);
    AskingRest(s, h.received, id, p, k, m, maxReply);
  }

  /** A thread parks for a flag or a message. */
  lemma ParkingKeeps(s: Ipc, h: History, id: Id, w: Wait)
    requires Core(s, h) && id in s.ports && id !in s.wait && id !in s.woken && s.flags[id] == {}
    requires w.OnFlag? || (w.Receiving? && w.port in s.ports)
    ensures Core(Queue(s, id, w), h)
  {
    QueueShape(s, id, w);
    QueueRest(s, h.received, id, w);
    ParkingKeys(s, h, id, w);
    ParkingStory(s, h, id, w);
    ParkingOrder(s.ports, h, id, w);
    hide Shape, Keys, Story, InOrder, Quiet, Domains, Linked, Filled;
  }

  lemma ParkingKeys(s: Ipc, h: History, id: Id, w: Wait)
    requires Keys(s, h) && (w.OnFlag? || w.Receiving?)
    ensures Keys(Queue(s, id, w), h)
  {
    assert Owned(s.records, h.owner, s.wait[id := w], s.woken) by { hide Handed, Keyed, Linked; }
    assert Handed(s.records, h.delivered, s.wait[id := w], s.woken) by { hide Owned, Keyed, Linked; }
    hide Owned, Handed, Keyed, Linked;
  }

  lemma ParkingStory(s: Ipc, h: History, id: Id, w: Wait)
    requires Story(s, h) && (w.OnFlag? || w.Receiving?)
    ensures Story(Queue(s, id, w), h)
  {
    hide Linked, Numbered, Told;
  }

  lemma ParkingOrder(ports: map<Id, Port>, h: History, id: Id, w: Wait)
    requires InOrder(ports, h.received, h.turn, |h.calls|) && (w.OnFlag? || w.Receiving?)
    ensures InOrder(Linked(ports, w, id), h.received, h.turn, |h.calls|)
  {
    hide Climb, Last, Rising;
  }

  // --- a call is handed to a server

  /** The caller's message is taken: it moves from the port to the record of its rendezvous. */
  function Served(s: Ipc, id: Id): Ipc
    requires id in s.wait && s.wait[id].Calling?
  {
    if s.wait[id].key == 0 then Wake(s, id, Woken(0, Done(0, [])))
    else Queue(Detach(s, id), id, Awaiting(s.wait[id].key))
  }

  function Handing(h: History, p: Id, n: nat, k: nat): History {
    h.(received := if p in h.received then h.received[p := h.received[p] + [n]] else h.received,
       handed := h.handed + {n}, delivered := if k == 0 then h.delivered else h.delivered + {k})
  }

  lemma ServedShape(s: Ipc, id: Id)
    requires Shape(s) && id in s.wait && s.wait[id].Calling?
    requires s.wait[id].key != 0 ==> s.wait[id].key in s.records && s.records[s.wait[id].key].caller == None
    ensures Shape(Served(s, id))
  {
    DetachShape(s, id);
    if s.wait[id].key != 0 {
      QueueShape(Detach(s, id), id, Awaiting(s.wait[id].key));
    }
    hide CallersOf, ReceiversOf, Placed, Singly, RecordOf, Linked, Filled, Unlinked;
  }

  /** The record of a call still queued is empty. */
  lemma Unclaimed(s: Ipc, h: History, id: Id)
    requires RecordOf(s.records, s.wait) && Keys(s, h) && id in s.wait && s.wait[id].Calling? && s.wait[id].key != 0
    ensures s.wait[id].key in s.records && s.records[s.wait[id].key].caller == None
  {
    var k := s.wait[id].key;
    assert k in s.records by { hide RecordOf, Handed, Keyed; }
    if s.records[k].caller.Some? {
      CallerWaits(s, k);
    }
  }

  lemma ServedHanded(records: map<nat, Record>, delivered: set<nat>, wait: map<Id, Wait>, woken: map<Id, Woken>,
                     owner: map<nat, Id>, id: Id, r: Record)
    requires Owned(records, owner, wait, woken) && Handed(records, delivered, wait, woken)
    requires id in wait && id !in woken && wait[id].Calling? && wait[id].key != 0
    ensures Handed(records[wait[id].key := r], delivered + {wait[id].key}, wait[id := Awaiting(wait[id].key)], woken)
  {
    var k := wait[id].key;
    assert k in owner && owner[k] == id;
    assert forall x :: x in wait && x != id ==> Held(wait[x]) != k;
  }

  lemma ServedOwned(records: map<nat, Record>, owner: map<nat, Id>, wait: map<Id, Wait>, woken: map<Id, Woken>, id: Id,
                    r: Record)
    requires Owned(records, owner, wait, woken) && id in wait && wait[id].Calling? && wait[id].key != 0
    ensures Owned(records[wait[id].key := r], owner, wait[id := Awaiting(wait[id].key)], woken)
  {
  }

  lemma ServedAsked(wait: map<Id, Wait>, h: History, id: Id)
    requires Asked(wait, h.serial, h.calls, h.turn) && id in wait && wait[id].Calling?
    ensures Asked(wait[id := Awaiting(wait[id].key)], h.serial, h.calls, h.turn)
  {
  }

  lemma Rewait(wait: map<Id, Wait>, id: Id, w: Wait)
    requires id in wait
    ensures (wait - {id})[id := w] == wait[id := w]
  {
  }

  lemma ServedKeys(s: Ipc, h: History, p: Id, n: nat, id: Id)
    requires RecordOf(s.records, s.wait) && Keys(s, h) && id in s.wait && id !in s.woken && s.wait[id].Calling?
    ensures Keys(Served(s, id), Handing(h, p, n, s.wait[id].key))
  {
    var k := s.wait[id].key;
    if k == 0 {
      WakeKeys(s, h, id, Woken(0, Done(0, [])));
    } else {
      Unclaimed(s, h, id);
      var r := s.records[k].(caller := Some(id));
      ServedOwned(s.records, h.owner, s.wait, s.woken, id, r);
      ServedHanded(s.records, h.delivered, s.wait, s.woken, h.owner, id, r);
      Rewait(s.wait, id, Awaiting(k));
    }
    hide RecordOf, Owned, Handed, Unlinked, Linked;
  }

  lemma ServedStory(s: Ipc, h: History, p: Id, n: nat, id: Id)
    requires Story(s, h) && id in s.wait && s.wait[id].Calling?
    ensures Story(Served(s, id), Handing(h, p, n, s.wait[id].key))
  {
    if s.wait[id].key == 0 {
      WakeStory(s, h, id, Woken(0, Done(0, [])));
    } else {
      ServedAsked(s.wait, h, id);
      Rewait(s.wait, id, Awaiting(s.wait[id].key));
    }
    hide Numbered, Asked, Told, Unlinked, Linked, Vacated, Filled;
  }

  lemma {:induction false} RisingAppend(s: seq<nat>, n: nat)
    requires Rising(s) && Last(s) < n
    ensures Rising(s + [n])
  {
    forall i, j | 0 <= i < j < |s + [n]| ensures (s + [n])[i] < (s + [n])[j] {
      if j == |s| && i < |s| - 1 {
        assert s[i] < s[|s| - 1];
      }
    }
  }

  lemma ServedOrder(ports: map<Id, Port>, wait: map<Id, Wait>, h: History, id: Id)
    requires InOrder(ports, h.received, h.turn, |h.calls|) && Asked(wait, h.serial, h.calls, h.turn)
    requires id in wait && wait[id].Calling? && wait[id].port in ports
    requires var q := ports[wait[id].port].callers; q != [] && q[0] == id
    ensures var p := wait[id].port;
      InOrder(Unlinked(ports, wait[id], id), h.received[p := h.received[p] + [h.turn[id]]], h.turn, |h.calls|)
  {
    var p := wait[id].port;
    var q := ports[p].callers;
    assert TurnOf(h.turn, id) == h.turn[id] < |h.calls|;
    RisingAppend(h.received[p], h.turn[id]);
    assert Remove(q, id) == q[1..];
    assert Climb(h.turn[id], q[1..], h.turn);
    assert Last(h.received[p] + [h.turn[id]]) == h.turn[id];
    hide Climb, Last, Rising, Remove, Asked;
  }

  lemma ServedRest(s: Ipc, received: map<Id, seq<nat>>, id: Id, p: Id, log: seq<nat>)
    requires Domains(s, received) && Quiet(s.flags, s.wait) && id in s.wait && s.wait[id].Calling? && p in s.ports
    ensures Domains(Served(s, id), received[p := log]) && Quiet(s.flags, Served(s, id).wait)
  {
    hide Remove, Filled;
  }

  lemma HeadCalls(s: Ipc, h: History, p: Id, id: Id)
    requires Shape(s) && Story(s, h) && p in s.ports && s.ports[p].callers != [] && s.ports[p].callers[0] == id
    ensures id in s.wait && s.wait[id].Calling? && s.wait[id].port == p && id in h.turn && h.turn[id] < |h.calls|
    ensures h.calls[h.turn[id]] == Call(id, p, s.wait[id].message, s.wait[id].key)
    ensures s.wait[id].key != 0 ==> s.wait[id].key in h.serial && h.serial[s.wait[id].key] == h.turn[id]
  {
    assert id in s.ports[p].callers;
    assert Held(s.wait[id]) == s.wait[id].key;
  }

  lemma ServedKeeps(s: Ipc, h: History, p: Id, id: Id)
    requires Core(s, h) && p in s.ports && s.ports[p].callers != [] && s.ports[p].callers[0] == id
    ensures id in s.wait && s.wait[id].Calling? && id in h.turn
    ensures Core(Served(s, id), Handing(h, p, h.turn[id], s.wait[id].key))
  {
    HeadCalls(s, h, p, id);
    if s.wait[id].key != 0 {
      Unclaimed(s, h, id);
    }
    assert id !in s.woken && p in h.received;
    ServedShape(s, id);
    ServedKeys(s, h, p, h.turn[id], id);
    ServedStory(s, h, p, h.turn[id], id);
    ServedOrder(s.ports, s.wait, h, id);
    ServedRest(s, h.received, id, p, h.received[p] + [h.turn[id]]);
    ServedPorts(s, id);
    hide Shape, Keys, Story, InOrder, Quiet, Domains, Served, Unlinked;
  }

  lemma ServedPorts(s: Ipc, id: Id)
    requires id in s.wait && s.wait[id].Calling?
    ensures Served(s, id).ports == Unlinked(s.ports, s.wait[id], id) && Served(s, id).flags == s.flags
  {
    hide Unlinked;
  }

  // --- a message finds a receiver waiting

  /** A receiver takes a message as soon as it is sent: nobody parks. */
  lemma SentKeeps(s: Ipc, h: History, id: Id, p: Id, m: Message)
    requires Core(s, h) && p in s.ports && s.ports[p].callers == [] && id !in s.wait && id !in s.woken
    ensures Core(s, Handing(Recorded(h, id, p, 0, m), p, |h.calls|, 0))
  {
    hide CallersOf, ReceiversOf, Placed, Singly, RecordOf, Owned, Handed, Keyed, Numbered, Asked, Told, Kept, Quiet,
      Domains;
    RecordedNumbers(h, id, p, 0, m);
    RecordedTold(s.woken, h, id, p, 0, m);
    SentAsked(s.wait, h, id, p, m);
    TurnOrder(s.ports, s.wait, h, id);
    SentOrder(s.ports, h.received, h.turn[id := |h.calls|], p, |h.calls|);
    SentRest(s, h.received, p, h.received[p] + [|h.calls|]);
  }

  lemma SentAsked(wait: map<Id, Wait>, h: History, id: Id, p: Id, m: Message)
    requires Asked(wait, h.serial, h.calls, h.turn) && id !in wait
    ensures var g := Recorded(h, id, p, 0, m); Asked(wait, g.serial, g.calls, g.turn)
  {
  }

  lemma SentOrder(ports: map<Id, Port>, received: map<Id, seq<nat>>, turn: map<Id, nat>, p: Id, n: nat)
    requires InOrder(ports, received, turn, n + 1) && p in ports && ports[p].callers == [] && Last(received[p]) < n
    ensures InOrder(ports, received[p := received[p] + [n]], turn, n + 1)
  {
    RisingAppend(received[p], n);
    assert Climb(n, [], turn) && Last(received[p] + [n]) == n;
    hide Climb, Rising, Last;
  }

  lemma SentRest(s: Ipc, received: map<Id, seq<nat>>, p: Id, log: seq<nat>)
    requires Domains(s, received) && p in s.ports
    ensures Domains(s, received[p := log])
  {
  }

  /** The caller's message is taken at once: the caller goes straight to the record of its rendezvous. */
  function Met(s: Ipc, id: Id, k: nat, maxReply: nat): Ipc {
    Queue(Reserved(s, k, maxReply), id, Awaiting(k))
  }

  /** Meeting a waiting receiver is the same as queueing and being received at once. */
  lemma MetIsServed(s: Ipc, id: Id, p: Id, k: nat, m: Message, maxReply: nat)
    requires p in s.ports && s.ports[p].callers == [] && id !in s.wait && k != 0
    ensures Asking(s, id, p, k, m, maxReply).ports[p].callers == [id]
    ensures Served(Asking(s, id, p, k, m, maxReply), id) == Met(s, id, k, maxReply)
  {
    var t := Asking(s, id, p, k, m, maxReply);
    assert s.ports[p].callers + [id] == [id];
    assert t.ports == s.ports[p := s.ports[p].(callers := [id])];
    assert Remove([id], id) == [];
    assert Unlinked(t.ports, Calling(p, k, m), id) == s.ports;
    Rewait(t.wait, id, Awaiting(k));
    assert t.wait[id := Awaiting(k)] == s.wait[id := Awaiting(k)];
    hide Remove;
  }

  lemma MetKeeps(s: Ipc, h: History, id: Id, p: Id, k: nat, m: Message, maxReply: nat)
    requires Core(s, h) && MayAsk(s, id, p, k) && k != 0 && s.ports[p].callers == []
    ensures Core(Met(s, id, k, maxReply), Handing(Recorded(h, id, p, k, m), p, |h.calls|, k))
  {
    AskingKeeps(s, h, id, p, k, m, maxReply);
    MetIsServed(s, id, p, k, m, maxReply);
    hide Core, Served, Met;
    ServedKeeps(Asking(s, id, p, k, m, maxReply), Recorded(h, id, p, k, m), p, id);
  }

  // --- a thread that waited runs again, or never does

  /** A thread takes the outcome of its wait. */
  function Taken(s: Ipc, id: Id): Ipc {
    s.(woken := s.woken - {id})
  }

  lemma TakenKeys(s: Ipc, h: History, id: Id)
    requires Keys(s, h) && Story(s, h)
    ensures Keys(Taken(s, id), h) && Story(Taken(s, id), h)
  {
    assert Owned(s.records, h.owner, s.wait, s.woken - {id}) by { hide Handed, Keyed, Numbered, Asked, Told; }
    assert Handed(s.records, h.delivered, s.wait, s.woken - {id}) by { hide Owned, Keyed, Numbered, Asked, Told; }
    assert Told(s.woken - {id}, h.calls, h.turn, h.answers) by { hide Owned, Keyed, Handed, Numbered, Asked; }
    hide Owned, Handed, Keyed, Numbered, Asked, Told;
  }

  lemma TakenKeeps(s: Ipc, h: History, id: Id)
    requires Core(s, h)
    ensures Core(Taken(s, id), h)
  {
    TakenKeys(s, h, id);
    hide CallersOf, ReceiversOf, Placed, Singly, RecordOf, Keys, Story, InOrder, Quiet;
  }

  /** A caller comes back with its reply. */
  lemma FinishedKeeps(s: Ipc, h: History, id: Id)
    requires Core(s, h) && id in s.woken && s.woken[id].key != 0 && s.woken[id].result.Done?
    ensures id in h.turn
    ensures Core(Taken(s, id), h.(finished := h.finished[h.turn[id] := s.woken[id].result.message]))
  {
    hide Shape, Owned, Handed, Keyed, InOrder, Quiet, Domains, Numbered, Asked;
    assert id in h.turn && h.turn[id] in h.answers && h.answers[h.turn[id]] == s.woken[id].result.message;
    TakenKeeps(s, h, id);
    hide Told;
  }

  /** The key of a call that ended without a reply is given back. */
  function Abandoned(h: History, k: nat): History {
    h.(owner := h.owner - {k}, delivered := h.delivered - {k})
  }

  lemma AbandonedNumbers(h: History, k: nat)
    requires Numbered(h.owner, h.serial, h.calls, h.answers)
    ensures var g := Abandoned(h, k); Numbered(g.owner, g.serial, g.calls, g.answers)
  {
  }

  /** A failed caller is the only one to hold its key, and no server has it. */
  lemma FailedAlone(s: Ipc, h: History, id: Id)
    requires Keys(s, h) && id in s.woken && id !in s.wait && s.woken[id].result.Failed? && s.woken[id].key != 0
    ensures forall x :: x in s.wait ==> Held(s.wait[x]) != s.woken[id].key
    ensures forall x :: x in s.woken && x != id && s.woken[x].result.Failed? ==> s.woken[x].key != s.woken[id].key
    ensures s.woken[id].key in s.records && s.woken[id].key !in h.delivered
  {
    hide Keyed;
  }

  lemma FailedRecord(s: Ipc, k: nat)
    requires RecordOf(s.records, s.wait) && k in s.records && k != 0 && forall x :: x in s.wait ==> Held(s.wait[x]) != k
    ensures s.records[k].caller == None
  {
    if s.records[k].caller.Some? {
      CallerWaits(s, k);
    }
  }

  lemma AbandonedKeeps(s: Ipc, h: History, id: Id)
    requires Core(s, h) && id in s.woken && s.woken[id].result.Failed? && s.woken[id].key != 0
    ensures Core(Freed(Taken(s, id), s.woken[id].key), Abandoned(h, s.woken[id].key))
  {
    var k := s.woken[id].key;
    assert id !in s.wait;
    FailedAlone(s, h, id);
    FailedRecord(s, k);
    TakenKeeps(s, h, id);
    hide Core;
    FreedKeeps(Taken(s, id), h, k);
  }

  lemma FreedKeeps(s: Ipc, h: History, k: nat)
    requires Core(s, h) && k != 0 && (k in s.records ==> s.records[k].caller == None)
    requires forall x :: x in s.wait ==> Held(s.wait[x]) != k
    requires forall x :: x in s.woken && s.woken[x].result.Failed? ==> s.woken[x].key != k
    ensures Core(Freed(s, k), Abandoned(h, k))
  {
    hide CallersOf, ReceiversOf, Placed, Singly, RecordOf, Owned, Handed, Keyed, Numbered, Asked, Told, Kept, InOrder,
      Quiet;
    FreedShape(s, k);
    FreedKeys(s, h, Abandoned(h, k), k);
    AbandonedNumbers(h, k);
  }

  /** A terminated thread waits for nothing; the key of its call stays taken until a server replies. */
  function Killed(s: Ipc, id: Id): Ipc {
    Taken(if id in s.wait then Detach(s, id) else s, id)
  }

  lemma KilledKeys(s: Ipc, h: History, id: Id)
    requires Keys(s, h) && id in s.wait
    ensures Keys(Detach(s, id), h)
  {
    hide Unlinked;
  }

  lemma KilledKeeps(s: Ipc, h: History, id: Id)
    requires Core(s, h)
    ensures Core(Killed(s, id), h)
  {
    if id in s.wait {
      var t := Detach(s, id);
      DetachShape(s, id);
      KilledKeys(s, h, id);
      DropAsked(s.wait, h, id);
      UnlinkedOrder(s.ports, h, s.wait[id], id);
      KilledRest(s, h.received, id);
      assert Core(t, h) by { hide Shape, Keys, Numbered, Asked, Told, InOrder, Quiet, Domains, Unlinked, Vacated; }
      hide Core, Detach;
      TakenKeeps(t, h, id);
    } else {
      hide Core;
      TakenKeeps(s, h, id);
    }
  }

  lemma KilledRest(s: Ipc, received: map<Id, seq<nat>>, id: Id)
    requires Domains(s, received) && Quiet(s.flags, s.wait) && id in s.wait
    ensures Domains(Detach(s, id), received) && Quiet(s.flags, s.wait - {id})
  {
    hide Remove, Vacated;
  }

  // --- ports come and go

  lemma PortShape(s: Ipc, p: Id, port: Port)
    requires Shape(s) && p in s.ports
    requires port.callers == s.ports[p].callers && port.receivers == s.ports[p].receivers
    ensures Shape(s.(ports := s.ports[p := port]))
  {
    hide RecordOf, NoDup;
  }

  lemma PortKeeps(s: Ipc, h: History, p: Id, port: Port)
    requires Core(s, h) && p in s.ports
    requires port.callers == s.ports[p].callers && port.receivers == s.ports[p].receivers
    ensures Core(s.(ports := s.ports[p := port]), h)
  {
    PortShape(s, p, port);
    PortOrder(s.ports, h, p, port);
    hide Shape, Owned, Handed, Keyed, Numbered, Asked, Told, Quiet, InOrder;
  }

  lemma PortOrder(ports: map<Id, Port>, h: History, p: Id, port: Port)
    requires InOrder(ports, h.received, h.turn, |h.calls|) && p in ports && port.callers == ports[p].callers
    ensures InOrder(ports[p := port], h.received, h.turn, |h.calls|)
  {
    hide Climb, Rising, Last;
  }

  function Admitted(s: Ipc, id: Id): Ipc {
    s.(ports := s.ports[id := Port(false, [], [], 0, 0)], flags := s.flags[id := {}])
  }

  lemma Unnamed(s: Ipc, id: Id)
    requires Placed(s.ports, s.wait) && id !in s.ports
    ensures forall x :: x in s.wait && (s.wait[x].Calling? || s.wait[x].Receiving?) ==> s.wait[x].port != id
  {
  }

  lemma AdmittedShape(s: Ipc, id: Id)
    requires Shape(s) && id !in s.ports
    ensures Shape(Admitted(s, id))
  {
    Unnamed(s, id);
    assert NoDup([]);
    hide RecordOf, NoDup;
  }

  lemma AdmittedKeeps(s: Ipc, h: History, id: Id)
    requires Core(s, h) && id !in s.ports && id < 0x10000
    ensures Core(Admitted(s, id), h.(received := h.received[id := []]))
  {
    AdmittedShape(s, id);
    AdmittedOrder(s.ports, h, id, Port(false, [], [], 0, 0));
    AdmittedRest(s, h.received, id);
    hide Shape, Owned, Handed, Keyed, Numbered, Asked, Told, InOrder, Quiet, Domains;
  }

  lemma AdmittedOrder(ports: map<Id, Port>, h: History, id: Id, port: Port)
    requires InOrder(ports, h.received, h.turn, |h.calls|) && port.callers == []
    ensures InOrder(ports[id := port], h.received[id := []], h.turn, |h.calls|)
  {
    assert Rising([]) && Last([]) == -1 && Climb(-1, [], h.turn);
    hide Rising, Last, Climb;
  }

  lemma AdmittedRest(s: Ipc, received: map<Id, seq<nat>>, id: Id)
    requires Domains(s, received) && Quiet(s.flags, s.wait) && id !in s.ports && id < 0x10000
    ensures Domains(Admitted(s, id), received[id := []]) && Quiet(s.flags[id := {}], s.wait)
  {
  }

  function Dismissed(s: Ipc, id: Id): Ipc {
    s.(ports := s.ports - {id}, flags := s.flags - {id})
  }

  lemma DismissedShape(s: Ipc, id: Id)
    requires Shape(s) && id in s.ports && s.ports[id].callers == [] && s.ports[id].receivers == []
    ensures Shape(Dismissed(s, id))
  {
    forall x | x in s.wait && (s.wait[x].Calling? || s.wait[x].Receiving?) ensures s.wait[x].port != id {
      assert x !in s.ports[id].callers && x !in s.ports[id].receivers;
    }
    hide RecordOf, NoDup;
  }

  lemma DismissedKeeps(s: Ipc, h: History, id: Id)
    requires Core(s, h) && id in s.ports && id !in s.wait && id !in s.woken
    requires s.ports[id].callers == [] && s.ports[id].receivers == []
    ensures Core(Dismissed(s, id), h.(received := h.received - {id}))
  {
    DismissedShape(s, id);
    DismissedRest(s, h, id);
    hide Shape, Owned, Handed, Keyed, Numbered, Asked, Told, InOrder, Quiet, Domains;
  }

  lemma DismissedRest(s: Ipc, h: History, id: Id)
    requires Domains(s, h.received) && Quiet(s.flags, s.wait) && id !in s.wait && id !in s.woken
    requires InOrder(s.ports, h.received, h.turn, |h.calls|)
    ensures Domains(Dismissed(s, id), h.received - {id}) && Quiet(s.flags - {id}, s.wait)
    ensures InOrder(s.ports - {id}, h.received - {id}, h.turn, |h.calls|)
  {
    hide Rising, Last, Climb;
  }

  // --- flags

  lemma FlaggedKeeps(s: Ipc, h: History, id: Id, f: Bits)
    requires Core(s, h) && id in s.flags
    requires f != {} ==> !(id in s.wait && (s.wait[id].OnFlag? || s.wait[id].Receiving?))
    ensures Core(s.(flags := s.flags[id := f]), h)
  {
    hide CallersOf, ReceiversOf, Placed, Singly, RecordOf, Owned, Handed, Keyed, Numbered, Asked, Told, InOrder;
  }
}
