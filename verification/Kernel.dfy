/** The calls of `kernel/ipc.c` and `kernel/thread.c` on threads that really wait and run. */
module Kernel {
  import opened Lists
  import opened Wrappers
  import opened Scheduler
  import opened Rendezvous
  import opened RendezvousSteps
  import opened LostKeys
  import opened Passing

  /** Parked threads are those with a reason to wait, and every thread has a port. */
  ghost predicate Coupled(wait: map<Id, Wait>, ports: map<Id, Port>, threads: map<Id, Thread>) {
    && (forall id :: id in wait <==> id in Parked(threads))
    && forall id :: id in ports <==> id in threads
  }

  lemma StillCoupled(wait: map<Id, Wait>, ports: map<Id, Port>, before: map<Id, Thread>, after: map<Id, Thread>)
    requires Coupled(wait, ports, before) && Parked(before) == Parked(after) && before.Keys == after.Keys
    ensures Coupled(wait, ports, after)
  {
    assert forall id :: id in before <==> id in before.Keys;
    assert forall id :: id in after <==> id in after.Keys;
    hide Parked;
  }

  lemma RunningCoupled(wait: map<Id, Wait>, ports: map<Id, Port>, threads: map<Id, Thread>, id: Id)
    requires Coupled(wait, ports, threads) && OneRuns(threads, id)
    ensures id in ports && id in threads && (id in wait <==> threads[id].Parked())
  {
  }

  lemma CoupledPort(wait: map<Id, Wait>, ports: map<Id, Port>, threads: map<Id, Thread>, id: Id, port: Port)
    requires Coupled(wait, ports, threads) && id in ports
    ensures Coupled(wait, ports[id := port], threads)
  {
    hide Parked;
  }

  /** Whoever was ready still is. */
  ghost predicate Readier(before: map<Id, Thread>, after: map<Id, Thread>) {
    forall y :: y in before && before[y].Linked() ==> y in after && after[y].Linked()
  }

  lemma ReadierTrans(a: map<Id, Thread>, b: map<Id, Thread>, c: map<Id, Thread>)
    requires Readier(a, b) && Readier(b, c)
    ensures Readier(a, c)
  {
  }

  // --- what each call does to the state, and to the history

  /** A call or, with key 0, a one-way message: it meets a waiting receiver or joins the callers. */
  function Called(s: Ipc, r: Id, p: Id, k: nat, m: Message): Ipc {
    if p !in s.ports then s else
    var port := s.ports[p];
    if port.receivers == [] then Asking(s, r, p, k, m, port.maxReply)
    else if port.receivers[0] !in s.wait then s
    else
      var t := Wake(s, port.receivers[0], Woken(0, Done(Tag(r, k), m)));
      if k == 0 then t else Met(t, r, k, port.maxReply)
  }

  function CalledLog(s: Ipc, h: History, r: Id, p: Id, k: nat, m: Message): History {
    if p !in s.ports || s.ports[p].receivers == [] then Recorded(h, r, p, k, m)
    else Handing(Recorded(h, r, p, k, m), p, |h.calls|, k)
  }

  /** The step of a call that takes a free key. */
  ghost predicate Makes(s: Ipc, h: History, t: Ipc, g: History, r: Id, p: Id, m: Message) {
    exists k: nat :: k != 0 && k < MAX_THREAD && k !in s.taken && t == Called(s, r, p, k, m)
      && g == CalledLog(s, h, r, p, k, m)
  }

  /** What becomes of a call or message: the receiver waiting longest has it, with a tag that names the sender and the
      key, or it waits behind those already there.  A caller waits for the reply to its key. */
  ghost predicate Goes(s: Ipc, t: Ipc, r: Id, p: Id, k: nat, m: Message) {
    && p in s.ports && p in t.ports
    && (k != 0 ==> k in t.records && k in t.taken && k !in s.taken)
    && if s.ports[p].receivers != [] then
         var id := s.ports[p].receivers[0];
         && id in t.woken && id !in t.wait && t.woken[id].result.Done? && t.woken[id].result.message == m
         && PortOf(t.woken[id].result.tag) == r && KeyOf(t.woken[id].result.tag) == k
         && t.ports[p].receivers == s.ports[p].receivers[1..]
         && (k != 0 ==> r in t.wait && t.wait[r] == Awaiting(k) && t.records[k].caller == Some(r))
       else
         && r in t.wait && t.wait[r] == Calling(p, k, m) && t.ports[p].callers == s.ports[p].callers + [r]
         && (k != 0 ==> t.records[k].caller == None)
  }

  lemma CalledGoes(s: Ipc, h: History, r: Id, p: Id, k: nat, m: Message)
    requires Inv(s, h) && MayAsk(s, r, p, k)
    ensures Goes(s, Called(s, r, p, k, m), r, p, k, m) && Called(s, r, p, k, m).flags == s.flags
  {
    CalledKeys(s, h, r, k);
    if s.ports[p].receivers == [] {
      hide Inv, Wake, Met;
      AskingGoes(s, r, p, k, m, s.ports[p].maxReply);
    } else {
      CoreShape(s, h);
      hide Inv;
      ReceiverWaits(s, p);
      hide Shape, Asking;
      MeetingGoes(s, r, p, k, m);
    }
  }

  lemma AskingGoes(s: Ipc, r: Id, p: Id, k: nat, m: Message, maxReply: nat)
    requires MayAsk(s, r, p, k) && s.ports[p].receivers == []
    ensures Goes(s, Asking(s, r, p, k, m, maxReply), r, p, k, m)
    ensures Asking(s, r, p, k, m, maxReply).flags == s.flags
  {
  }

  lemma MeetingGoes(s: Ipc, r: Id, p: Id, k: nat, m: Message)
    requires MayAsk(s, r, p, k) && r < 0x10000 && s.ports[p].receivers != []
    requires var id := s.ports[p].receivers[0]; id in s.wait && s.wait[id] == Receiving(p)
    ensures Goes(s, Called(s, r, p, k, m), r, p, k, m) && Called(s, r, p, k, m).flags == s.flags
  {
    TagLeadsBack(r, k);
    hide Tag, PortOf, KeyOf, Unlinked, Vacated;
    WokenReceiver(s, p, Woken(0, Done(Tag(r, k), m)));
  }

  /** The step that takes the message of the caller waiting longest. */
  ghost predicate Takes(s: Ipc, h: History, t: Ipc, g: History, p: Id, result: Result) {
    && p in s.ports && s.ports[p].callers != []
    && var id := s.ports[p].callers[0];
    && id in s.wait && s.wait[id].Calling? && id in h.turn && h.turn[id] < |h.calls|
    && result == Done(Tag(id, s.wait[id].key), s.wait[id].message)
    && h.calls[h.turn[id]] == Call(id, p, result.message, s.wait[id].key)
    && (s.wait[id].key != 0 ==> s.wait[id].key in h.serial && h.serial[s.wait[id].key] == h.turn[id])
    && t == Served(s, id) && g == Handing(h, p, h.turn[id], s.wait[id].key)
  }

  /** A notification ends such a wait. */
  predicate Hears(w: Wait) {
    w.OnFlag? || w.Receiving?
  }

  /** A notification is heard at once, or left in the flag. */
  function Notified(s: Ipc, id: Id, flag: Bits): Ipc {
    if id in s.wait && Hears(s.wait[id]) then Wake(s, id, Woken(0, Failed(E_RLWAI))).(flags := s.flags[id := {}])
    else if id in s.flags then s.(flags := s.flags[id := s.flags[id] + flag]) else s
  }

  lemma LostCalled(s: Ipc, h: History, r: Id, p: Id, k: nat, m: Message)
    requires k == 0 || k !in s.records
    ensures StayLost(s, h, Called(s, r, p, k, m), CalledLog(s, h, r, p, k, m))
  {
    hide StayLost, Asking, Met, Wake;
    var h1, g := Recorded(h, r, p, k, m), CalledLog(s, h, r, p, k, m);
    LostElsewhere(s, h, s, h1);
    if p in s.ports && s.ports[p].receivers == [] {
      LostCall(s, h, r, p, k, m, s.ports[p].maxReply);
    } else if p in s.ports && s.ports[p].receivers[0] !in s.wait {
      LostHand(s, h1, p, |h.calls|, k);
      LostTrans(s, h, s, h1, s, g);
    } else if p in s.ports {
      var id, x := s.ports[p].receivers[0], Woken(0, Done(Tag(r, k), m));
      LostWake(s, h1, id, x);
      LostTrans(s, h, s, h1, Wake(s, id, x), h1);
      WakeRecords(s, id, x);
      if k == 0 {
        LostHand(Wake(s, id, x), h1, p, |h.calls|, 0);
      } else {
        assert k !in Wake(s, id, x).records.Keys;
        LostMeet(Wake(s, id, x), h1, r, p, |h.calls|, k, s.ports[p].maxReply);
      }
      LostTrans(s, h, Wake(s, id, x), h1, Called(s, r, p, k, m), g);
    }
  }

  lemma LostNotified(s: Ipc, h: History, id: Id, flag: Bits)
    ensures StayLost(s, h, Notified(s, id, flag), h)
  {
    hide Wake, StayLost;
    if id in s.wait && Hears(s.wait[id]) {
      var t := Wake(s, id, Woken(0, Failed(E_RLWAI)));
      LostWake(s, h, id, Woken(0, Failed(E_RLWAI)));
      LostElsewhere(t, h, Notified(s, id, flag), h);
      LostTrans(s, h, t, h, Notified(s, id, flag), h);
    } else {
      LostElsewhere(s, h, Notified(s, id, flag), h);
    }
  }

  lemma LostClosed(s: Ipc, h: History, t: Ipc, line: seq<Id>)
    requires t.records.Keys == s.records.Keys
    requires AllTold(s.wait, t.wait, t.woken, line) && Same(s.wait, t.wait, s.woken, t.woken, line)
    ensures StayLost(s, h, t, h)
  {
    forall k | Lost(s, h, k) ensures Lost(t, h, k) {
      assert k in t.records.Keys;
      forall x | x in t.wait ensures Held(t.wait[x]) != k {
        assert x !in line;
      }
      forall x | x in t.woken && t.woken[x].result.Failed? ensures t.woken[x].key != k {
        if x !in line {
          assert x in s.woken;
        }
      }
    }
  }

  // --- what every step keeps besides

  /** What was lost stays lost, and who comes back still comes back with what was passed to it. */
  ghost predicate Onward(s: Ipc, h: History, t: Ipc, g: History) {
    StayLost(s, h, t, g) && (Passed(s, h) ==> Passed(t, g))
  }

  ghost predicate SameCalls(h: History, g: History) {
    && g.calls == h.calls && g.handed == h.handed && g.turn == h.turn && g.serial == h.serial
    && g.answers == h.answers && g.delivered == h.delivered
  }

  lemma OnwardMeans(s: Ipc, h: History, t: Ipc, g: History)
    requires Onward(s, h, t, g)
    ensures StayLost(s, h, t, g) && (Passed(s, h) ==> Passed(t, g))
  {
    hide StayLost, Passed;
  }

  lemma OnTrans(s: Ipc, h: History, t: Ipc, g: History, u: Ipc, f: History)
    requires Onward(s, h, t, g) && Onward(t, g, u, f)
    ensures Onward(s, h, u, f)
  {
    hide StayLost, Passed;
    LostTrans(s, h, t, g, u, f);
  }

  lemma OnElsewhere(s: Ipc, h: History, t: Ipc, g: History)
    requires t.wait == s.wait && t.woken == s.woken && t.records == s.records && SameCalls(h, g)
    ensures Onward(s, h, t, g)
  {
    hide StayLost, Passed;
    LostElsewhere(s, h, t, g);
    if Passed(s, h) {
      PassLess(s, h, t, g);
    }
  }

  lemma OnQueue(s: Ipc, h: History, id: Id, w: Wait)
    requires Held(w) == 0 && !w.Calling?
    ensures Onward(s, h, Queue(s, id, w), h)
  {
    hide StayLost, Passed, Linked, Filled;
    LostQueue(s, h, id, w);
    if Passed(s, h) {
      PassLess(s, h, Queue(s, id, w), h);
    }
  }

  lemma OnServe(s: Ipc, h: History, p: Id, id: Id)
    requires Inv(s, h) && p in s.ports && s.ports[p].callers != [] && s.ports[p].callers[0] == id
    requires id in s.wait && s.wait[id].Calling? && id in h.turn
    ensures Onward(s, h, Served(s, id), Handing(h, p, h.turn[id], s.wait[id].key))
  {
    hide StayLost, Passed, Served, Handing, Shape, Keys, InOrder, Numbered, Asked, Told;
    HeadCalls(s, h, p, id);
    LostServe(s, h, p, h.turn[id], id);
    if Passed(s, h) {
      PassServed(s, h, p, id);
    }
  }

  lemma OnReply(s: Ipc, h: History, k: nat, m: Message)
    requires Inv(s, h) && k in s.records && k in h.delivered
    requires s.records[k].caller.Some? ==> s.records[k].caller.value in s.wait
    ensures Onward(s, h, Replied(s, k, m), Answered(h, k, m))
  {
    hide StayLost, Passed, Replied, Answered, CallersOf, ReceiversOf, Placed, Singly, RecordOf, Keys, Story, InOrder;
    LostReply(s, h, k, m);
    if Passed(s, h) {
      PassReplied(s, h, k, m);
    }
  }

  lemma OnResume(s: Ipc, h: History, id: Id)
    ensures Onward(s, h, Taken(s, id), h)
  {
    hide StayLost, Passed;
    LostResume(s, h, id);
    if Passed(s, h) {
      PassLess(s, h, Taken(s, id), h);
    }
  }

  lemma OnAbandon(s: Ipc, h: History, id: Id)
    requires Inv(s, h) && id in s.woken && s.woken[id].result.Failed?
    ensures Onward(s, h, Freed(Taken(s, id), s.woken[id].key), Abandoned(h, s.woken[id].key))
  {
    hide StayLost, Passed, Freed, Taken, Abandoned, Shape, Owned, Handed, Keyed, Story, InOrder;
    LostAbandon(s, h, id);
    if Passed(s, h) {
      PassAbandoned(s, h, id);
    }
  }

  lemma OnCalled(s: Ipc, h: History, r: Id, p: Id, k: nat, m: Message)
    requires Inv(s, h) && MayAsk(s, r, p, k)
    ensures Onward(s, h, Called(s, r, p, k, m), CalledLog(s, h, r, p, k, m))
  {
    hide StayLost, Passed, Wake, Asking, Met, Handing, Recorded, CallersOf, Placed, Singly, RecordOf, InOrder, Numbered,
      Told, Kept, Quiet;
    CalledKeys(s, h, r, k);
    LostCalled(s, h, r, p, k, m);
    if Passed(s, h) {
      if s.ports[p].receivers == [] {
        PassAsking(s, h, r, p, k, m, s.ports[p].maxReply);
      } else {
        CoreShape(s, h);
        ReceiverWaits(s, p);
        PassMeeting(s, h, s.ports[p].receivers[0], r, p, k, m, s.ports[p].maxReply);
      }
    }
  }

  lemma CalledKeys(s: Ipc, h: History, r: Id, k: nat)
    requires Inv(s, h) && r in s.ports && (k == 0 || k !in s.taken)
    ensures r < 0x10000 && (k == 0 || k !in s.records)
  {
    hide Shape, Story, InOrder, Owned, Handed, Quiet;
  }

  lemma OnMakes(s: Ipc, h: History, t: Ipc, g: History, r: Id, p: Id, m: Message)
    requires Inv(s, h) && Makes(s, h, t, g, r, p, m) && r in s.ports && r !in s.wait && r !in s.woken && p in s.ports
    ensures Onward(s, h, t, g)
  {
    hide Onward, Called, CalledLog, Inv;
    var k: nat :| k != 0 && k < MAX_THREAD && k !in s.taken && t == Called(s, r, p, k, m)
      && g == CalledLog(s, h, r, p, k, m);
    OnCalled(s, h, r, p, k, m);
  }

  lemma OnNotified(s: Ipc, h: History, id: Id, flag: Bits)
    ensures Onward(s, h, Notified(s, id, flag), h)
  {
    hide StayLost, Passed, Unlinked, Vacated;
    LostNotified(s, h, id, flag);
    if Passed(s, h) {
      PassLess(s, h, Notified(s, id, flag), h);
    }
  }

  lemma OnKilled(s: Ipc, h: History, id: Id)
    ensures Onward(s, h, Killed(s, id), h)
  {
    hide StayLost, Passed, Unlinked, Vacated;
    LostKilled(s, h, id);
    if Passed(s, h) {
      PassLess(s, h, Killed(s, id), h);
    }
  }

  lemma OnDismissed(s: Ipc, h: History, id: Id, g: History)
    requires SameCalls(h, g)
    ensures Onward(s, h, Dismissed(Killed(s, id), id), g)
  {
    hide Killed, Onward;
    OnKilled(s, h, id);
    OnElsewhere(Killed(s, id), h, Dismissed(Killed(s, id), id), g);
    OnTrans(s, h, Killed(s, id), h, Dismissed(Killed(s, id), id), g);
  }

  lemma OnClosed(s: Ipc, h: History, t: Ipc, line: seq<Id>)
    requires t.records.Keys == s.records.Keys
    requires AllTold(s.wait, t.wait, t.woken, line) && Same(s.wait, t.wait, s.woken, t.woken, line)
    ensures Onward(s, h, t, h)
  {
    hide StayLost, Passed;
    LostClosed(s, h, t, line);
    if Passed(s, h) {
      PassLess(s, h, t, h);
    }
  }

  /** The thread's latest call was answered with this message. */
  predicate Replies(h: History, r: Id, m: Message) {
    && r in h.turn && h.turn[r] in h.answers && h.turn[r] < |h.calls|
    && h.answers[h.turn[r]] == m && h.calls[h.turn[r]].caller == r
  }

  function Finished(h: History, r: Id, m: Message): History {
    if r in h.turn then h.(finished := h.finished[h.turn[r] := m]) else h
  }

  lemma ReceiverWaits(s: Ipc, p: Id)
    requires Shape(s) && p in s.ports && s.ports[p].receivers != []
    ensures s.ports[p].receivers[0] in s.wait && s.wait[s.ports[p].receivers[0]] == Receiving(p)
  {
    assert s.ports[p].receivers[0] in s.ports[p].receivers;
  }

  lemma WokenReceiver(s: Ipc, p: Id, x: Woken)
    requires p in s.ports && s.ports[p].receivers != []
    requires var id := s.ports[p].receivers[0]; id in s.wait && s.wait[id] == Receiving(p)
    ensures Wake(s, s.ports[p].receivers[0],
      x).ports == s.ports[p := s.ports[p].(receivers := s.ports[p].receivers[1..])]
    ensures Wake(s, s.ports[p].receivers[0], x).records == s.records
  {
  }

  lemma AskingApart(s: Ipc, r: Id, p: Id, k: nat, m: Message, maxReply: nat)
    requires Apart(s.ports, {}) && p in s.ports && s.ports[p].isOpen && s.ports[p].receivers == []
    ensures Apart(Asking(s, r, p, k, m, maxReply).ports, {})
  {
  }

  lemma CalledKeeps(s: Ipc, h: History, r: Id, p: Id, k: nat, m: Message)
    requires Inv(s, h) && MayAsk(s, r, p, k) && s.ports[p].isOpen
    ensures Inv(Called(s, r, p, k, m), CalledLog(s, h, r, p, k, m))
  {
    hide Core, Apart;
    if s.ports[p].receivers == [] {
      AskingKeeps(s, h, r, p, k, m, s.ports[p].maxReply);
      AskingApart(s, r, p, k, m, s.ports[p].maxReply);
      hide Asking;
    } else {
      CalledReceived(s, h, r, p, k, m);
    }
  }

  lemma NoCallers(ports: map<Id, Port>, p: Id)
    requires Apart(ports, {}) && p in ports && ports[p].receivers != []
    ensures ports[p].callers == []
  {
  }

  lemma CalledReceived(s: Ipc, h: History, r: Id, p: Id, k: nat, m: Message)
    requires Inv(s, h) && MayAsk(s, r, p, k) && s.ports[p].isOpen && s.ports[p].receivers != []
    ensures Inv(Called(s, r, p, k, m), CalledLog(s, h, r, p, k, m))
  {
    hide Core, Apart, Unlinked, Vacated;
    CoreShape(s, h);
    ReceiverWaits(s, p);
    NoCallers(s.ports, p);
    hide Shape;
    var id := s.ports[p].receivers[0];
    var x := Woken(0, Done(Tag(r, k), m));
    WakeKeeps(s, h, id, x);
    WokenReceiver(s, p, x);
    UnlinkedApart(s.ports, s.wait[id], id, {});
    WakeAsks(s, id, x, r, p, k);
    CalledMet(Wake(s, id, x), h, r, p, k, m, s.ports[p].maxReply);
  }

  lemma WakeAsks(s: Ipc, id: Id, x: Woken, r: Id, p: Id, k: nat)
    requires id in s.wait && MayAsk(s, r, p, k)
    ensures MayAsk(Wake(s, id, x), r, p, k)
  {
  }

  lemma CalledMet(t: Ipc, h: History, r: Id, p: Id, k: nat, m: Message, maxReply: nat)
    requires Core(t, h) && MayAsk(t, r, p, k) && t.ports[p].callers == []
    ensures Core(if k == 0 then t else Met(t, r, k, maxReply), Handing(Recorded(h, r, p, k, m), p, |h.calls|, k))
    ensures Met(t, r, k, maxReply).ports == t.ports
  {
    hide Core, Handing, Recorded;
    if k == 0 {
      SentKeeps(t, h, r, p, m);
    } else {
      MetKeeps(t, h, r, p, k, m, maxReply);
    }
  }

  lemma ServedApart(s: Ipc, id: Id)
    requires Apart(s.ports, {}) && id in s.wait && s.wait[id].Calling?
    ensures Apart(Served(s, id).ports, {})
  {
    UnlinkedApart(s.ports, s.wait[id], id, {});
    ServedPorts(s, id);
    hide Apart, Served, Unlinked;
  }

  lemma RepliedApart(s: Ipc, k: nat, m: Message)
    requires Apart(s.ports, {}) && k in s.records
    requires s.records[k].caller.Some? ==> s.records[k].caller.value in s.wait
    ensures Apart(Replied(s, k, m).ports, {})
  {
    if s.records[k].caller.Some? {
      var id := s.records[k].caller.value;
      UnlinkedApart(s.ports, s.wait[id], id, {});
    }
    hide Apart, Unlinked, Vacated;
  }

  lemma InitialInv(idle: Id)
    requires idle < 0x10000
    ensures Inv(Ipc(map[idle := Port(false, [], [], 0, 0)], map[idle := {}], map[], map[], {0}, map[]),
                History(map[], map[], {}, [], map[], map[], map[idle := []], map[], {}))
  {
    hide Keys, Story, CallersOf, ReceiversOf, InOrder;
    InitialKeys(idle);
    InitialQueues(idle);
  }

  lemma InitialKeys(idle: Id)
    ensures var s, h := Ipc(map[idle := Port(false, [], [], 0, 0)], map[idle := {}], map[], map[], {0}, map[]),
                        History(map[], map[], {}, [], map[], map[], map[idle := []], map[], {});
      Keys(s, h) && Story(s, h)
  {
  }

  lemma InitialQueues(idle: Id)
    ensures var ports := map[idle := Port(false, [], [], 0, 0)];
      CallersOf(ports, map[]) && ReceiversOf(ports, map[]) && InOrder(ports, map[idle := []], map[], 0)
  {
    assert Rising([]) && Last([]) == -1 && Climb(-1, [], map[]);
  }

  lemma OpenKeeps(s: Ipc, h: History, r: Id, maxCall: nat, maxReply: nat)
    requires Inv(s, h) && r in s.ports && !s.ports[r].isOpen
    ensures Inv(s.(ports := s.ports[r := Port(true, [], [], maxCall, maxReply)]), h)
  {
    hide CallersOf, ReceiversOf, Placed, Singly, RecordOf, Owned, Handed, Keyed, Numbered, Asked, Told, Kept, InOrder,
      Quiet, Domains;
    PortKeeps(s, h, r, Port(true, [], [], maxCall, maxReply));
  }

  /** The threads waiting at a port, on either side. */
  function Line(port: Port, receivers: bool): seq<Id> {
    if receivers then port.receivers else port.callers
  }

  lemma LineWaits(s: Ipc, p: Id, receivers: bool)
    requires Shape(s) && p in s.ports
    ensures forall id :: id in Line(s.ports[p], receivers) ==>
      id in s.wait && s.wait[id] == (if receivers then Receiving(p) else s.wait[id]) && !s.wait[id].Awaiting?
    ensures NoDup(Line(s.ports[p], receivers))
  {
    hide NoDup;
  }

  /** Everyone who stood in line and no longer does was told that the port is gone. */
  ghost predicate Dropped(before: map<Id, Wait>, wait: map<Id, Wait>, woken: map<Id, Woken>, line: seq<Id>,
                          rest: seq<Id>) {
    && (forall id :: id in rest ==> id in line)
    && (forall id :: id in line ==> id in before)
    && (forall id :: id in rest && id in before ==> id in wait && wait[id] == before[id])
    && forall id :: id in line && id !in rest && id in before ==>
         id !in wait && id in woken && woken[id] == Woken(Held(before[id]), Failed(E_DLT), before[id])
  }

  /** Nothing changed for those who did not stand in line. */
  ghost predicate Same(before: map<Id, Wait>, wait: map<Id, Wait>, wokenBefore: map<Id, Woken>, woken: map<Id, Woken>,
                       line: seq<Id>) {
    && (forall id :: id !in line ==> (id in wait <==> id in before) && (id in woken <==> id in wokenBefore))
    && (forall id :: id !in line && id in wait && id in before ==> wait[id] == before[id])
    && forall id :: id !in line && id in woken && id in wokenBefore ==> woken[id] == wokenBefore[id]
  }

  lemma HeadLeaves(s: Ipc, p: Id, receivers: bool)
    requires Shape(s) && p in s.ports && Line(s.ports[p], receivers) != []
    requires Line(s.ports[p], receivers)[0] in s.wait
    ensures var id := Line(s.ports[p], receivers)[0]; var after := Unlinked(s.ports, s.wait[id], id);
      && p in after && Line(after[p], receivers) == Line(s.ports[p], receivers)[1..]
      && Line(after[p], !receivers) == Line(s.ports[p], !receivers) && after[p].isOpen == s.ports[p].isOpen
      && forall q :: q in s.ports && q != p ==> q in after && after[q] == s.ports[q]
  {
    var id := Line(s.ports[p], receivers)[0];
    assert id in Line(s.ports[p], receivers);
    assert s.wait[id].port == p && (s.wait[id].Receiving? <==> receivers);
  }

  lemma DropOne(before: map<Id, Wait>, s: Ipc, p: Id, x: Woken, line: seq<Id>, receivers: bool)
    requires Shape(s) && p in s.ports && Line(s.ports[p], receivers) != [] && Line(s.ports[p], receivers)[0] in s.wait
    requires var w := s.wait[Line(s.ports[p], receivers)[0]]; x == Woken(Held(w), Failed(E_DLT), w)
    requires Dropped(before, s.wait, s.woken, line, Line(s.ports[p], receivers))
    ensures var id := Line(s.ports[p], receivers)[0];
      Dropped(before, s.wait - {id}, s.woken[id := x], line, Line(s.ports[p], receivers)[1..])
  {
    var q := Line(s.ports[p], receivers);
    LineWaits(s, p, receivers);
    hide Shape;
    assert q[0] !in q[1..];
    forall y ensures y in q <==> y == q[0] || y in q[1..] {
      InFirstRest(q, y);
    }
    hide NoDup, Line;
  }

  lemma SameOne(before: map<Id, Wait>, wokenBefore: map<Id, Woken>, s: Ipc, p: Id, x: Woken, line: seq<Id>,
                receivers: bool)
    requires p in s.ports && Line(s.ports[p], receivers) != []
    requires Dropped(before, s.wait, s.woken, line, Line(s.ports[p], receivers))
    requires Same(before, s.wait, wokenBefore, s.woken, line)
    ensures var id := Line(s.ports[p], receivers)[0]; Same(before, s.wait - {id}, wokenBefore, s.woken[id := x], line)
  {
    var q := Line(s.ports[p], receivers);
    assert q[0] in q && q[0] in line;
    hide Dropped, Line;
  }

  lemma LinesApart(ports: map<Id, Port>, p: Id)
    requires Apart(ports, {}) && p in ports
    ensures ports[p].receivers == [] || ports[p].callers == []
  {
  }

  /** Everyone in the list was told that the port is gone. */
  ghost predicate AllTold(before: map<Id, Wait>, wait: map<Id, Wait>, woken: map<Id, Woken>, line: seq<Id>) {
    forall id :: id in line ==>
      id !in wait && id in woken && id in before && woken[id] == Woken(Held(before[id]), Failed(E_DLT), before[id])
  }

  /** Everyone at a port. */
  function AtPort(port: Port): seq<Id> {
    port.receivers + port.callers
  }

  lemma BothDropped(wait0: map<Id, Wait>, woken0: map<Id, Woken>, wait1: map<Id, Wait>, woken1: map<Id, Woken>,
                    wait2: map<Id, Wait>, woken2: map<Id, Woken>, receivers: seq<Id>, callers: seq<Id>)
    requires receivers == [] || callers == []
    requires Dropped(wait0, wait1, woken1, receivers, []) && Same(wait0, wait1, woken0, woken1, receivers)
    requires Dropped(wait1, wait2, woken2, callers, []) && Same(wait1, wait2, woken1, woken2, callers)
    ensures AllTold(wait0, wait2, woken2, receivers + callers)
    ensures Same(wait0, wait2, woken0, woken2, receivers + callers)
  {
    assert receivers + callers == if callers == [] then receivers else callers;
  }

  lemma CloseApart(ports: map<Id, Port>, p: Id)
    requires p in ports && Apart(ports, {p}) && Line(ports[p], true) == [] && Line(ports[p], false) == []
    ensures Apart(ports, {})
  {
  }

  lemma ShutKeeps(s: Ipc, h: History, r: Id)
    requires Inv(s, h) && r in s.ports
    ensures Core(s.(ports := s.ports[r := s.ports[r].(isOpen := false)]), h)
    ensures Apart(s.ports[r := s.ports[r].(isOpen := false)], {r})
  {
    PortKeeps(s, h, r, s.ports[r].(isOpen := false));
    hide Core;
  }

  const MAX_AUTO_ID := 32767

  datatype Event =
    | Opens(maxCall: nat, maxReply: nat) | Closes
    | Calls(port: Id, message: Message, room: bool) | Receives(port: Id) | Sends(tag: nat, message: Message)
    | Listens | Notifies(id: Id, flag: Bits) | Resumes
    | Terminates(id: Id) | Ends | Creates(id: Id, pri: nat) | Destroys(id: Id) | Starts(id: Id)
    | Suspends(id: Id, self: bool) | Continues(id: Id) | Ticks(pri: nat, id: Id) | Yields

  /** Bits leave a flag only when its thread looks for them, or is started. */
  ghost predicate FlagsStay(e: Event, r: Id, before: map<Id, Bits>, after: map<Id, Bits>) {
    forall id :: id in before && id in after ==>
      before[id] <= after[id] || (id == r && (e.Receives? || e.Listens?)) || e == Starts(id)
  }

  /**
    What servers and their callers rely on: a call that came back brought the
    reply made to it; no two waiting threads hold the same key; a key is taken
    exactly while its record is kept; a port hands out calls in the order they
    were made; nobody waits at a port for someone waiting on its other side;
    nobody sleeps through a notification; and a receiver that a message woke was
    handed one that was sent to its port, with a tag that names the sender and
    the key of the call, which stands for that call until it is answered.
   */
  ghost predicate Safe(s: Ipc, h: History) {
    && (forall n :: n in h.finished ==> n in h.answers && h.answers[n] == h.finished[n])
    && (forall a, b :: a in s.wait && b in s.wait && Held(s.wait[a]) == Held(s.wait[b]) != 0 ==> a == b)
    && s.taken == s.records.Keys + {0} && 0 !in s.records
    && (forall p, i, j :: p in s.ports && p in h.received && 0 <= i < j < |h.received[p]| ==>
          h.received[p][i] < h.received[p][j])
    && (forall p :: p in s.ports ==> s.ports[p].callers == [] || s.ports[p].receivers == [])
    && (forall id :: id in s.wait && Hears(s.wait[id]) ==> id in s.flags && s.flags[id] == {})
    && forall id :: id in s.woken && s.woken[id].was.Receiving? && s.woken[id].result.Done? ==>
         exists n: nat :: Brings(h.calls, h.handed, n, s.woken[id].was.port, s.woken[id].result) && Stands(h, n)
  }

  /** Until the call is answered its key stands for it, and a server has it. */
  ghost predicate Stands(h: History, n: nat) {
    n < |h.calls| && h.calls[n].key != 0 && n !in h.answers ==>
      var k := h.calls[n].key; k in h.delivered && k in h.serial && h.serial[k] == n
  }

  /** A thread is in the queue of its priority exactly when it is ready or running, and only `running` runs. */
  ghost predicate Sound(ready: Queues, threads: map<Id, Thread>, running: Id) {
    && |ready| == MAX_PRIORITY + 1
    && (forall id, p :: id in threads && 0 <= p < |ready| ==>
          (id in ready[p] <==> threads[id].status in {RUN, RDY} && threads[id].priority == p))
    && forall id :: id in threads && threads[id].status == RUN ==> id == running
  }

  lemma SafeRun(s: Ipc, h: History)
    requires Inv(s, h) && Passed(s, h)
    ensures Safe(s, h)
  {
    hide Keys, InOrder, Shape, Domains, Numbered, Asked, Told, Brings, Stands, Passed;
    SafeKeys(s, h);
    SafeOrder(s.ports, h);
    SafePassed(s, h);
  }

  lemma SafePassed(s: Ipc, h: History)
    requires Passed(s, h)
    ensures forall id :: id in s.woken && s.woken[id].was.Receiving? && s.woken[id].result.Done? ==>
      exists n: nat :: Brings(h.calls, h.handed, n, s.woken[id].was.port, s.woken[id].result) && Stands(h, n)
  {
    forall id | id in s.woken && s.woken[id].was.Receiving? && s.woken[id].result.Done?
      ensures exists n: nat ::
        Brings(h.calls, h.handed, n, s.woken[id].was.port, s.woken[id].result) && Stands(h, n)
    {
      assert Comes(h.calls, h.handed, id, s.woken[id]);
      var n: nat :| Brings(h.calls, h.handed, n, s.woken[id].was.port, s.woken[id].result);
      assert Stands(h, n);
    }
  }

  lemma LostTaken(s: Ipc, h: History, t: Ipc, g: History)
    requires StayLost(s, h, t, g) && Inv(t, g)
    ensures forall k :: Lost(s, h, k) ==> Lost(t, g, k) && k in t.taken
  {
    hide Shape, Story, InOrder, Owned, Handed, Domains;
    forall k | Lost(s, h, k) ensures Lost(t, g, k) && k in t.taken {
      LostIsTaken(t, g, k);
    }
  }

  lemma SafeKeys(s: Ipc, h: History)
    requires Keys(s, h)
    ensures forall a, b :: a in s.wait && b in s.wait && Held(s.wait[a]) == Held(s.wait[b]) != 0 ==> a == b
    ensures s.taken == s.records.Keys + {0} && 0 !in s.records
  {
  }

  lemma SafeOrder(ports: map<Id, Port>, h: History)
    requires InOrder(ports, h.received, h.turn, |h.calls|)
    ensures forall p, i, j :: p in ports && p in h.received && 0 <= i < j < |h.received[p]| ==>
      h.received[p][i] < h.received[p][j]
  {
    forall p, i, j | p in ports && p in h.received && 0 <= i < j < |h.received[p]|
      ensures h.received[p][i] < h.received[p][j]
    {
      assert Rising(h.received[p]);
    }
  }

  lemma SoundRun(ready: Queues, threads: map<Id, Thread>, running: Id)
    requires InStep(ready, threads) && OneRuns(threads, running)
    ensures Sound(ready, threads, running)
  {
    forall id, p | id in threads && 0 <= p < |ready|
      ensures id in ready[p] <==> threads[id].status in {RUN, RDY} && threads[id].priority == p
    {
      assert id in ready[p] <==> On(threads, id, p);
    }
  }

  datatype Progress = Blocked | Ended(result: Result)

  class Ipcs {
    const threads: Threads
    var ports: map<Id, Port>
    var flags: map<Id, Bits>
    var wait: map<Id, Wait>
    var records: map<nat, Record>
    var taken: set<nat>
    var woken: map<Id, Woken>
    var history: History

    ghost function State(): Ipc
      reads this
    {
      Ipc(ports, flags, wait, records, taken, woken)
    }

    ghost predicate Valid()
      reads this, threads
    {
      threads.Valid() && Coupled(wait, ports, threads.threads) && Inv(State(), history)
    }

    /** The running thread is not in the middle of a call. */
    predicate Acting()
      reads this, threads
    {
      threads.running !in wait && threads.running !in woken
    }

    /** Another thread is ready to run in its place; the idle thread always is. */
    predicate MayWait()
      reads this, threads
    {
      Acting() && threads.OtherReady(threads.running)
    }

    constructor (idle: Id)
      requires idle < 0x10000
      ensures Valid() && Passed(State(), history) && fresh(threads)
    {
      hide Inv, InStep, Distinct, Marked, OneRuns, Urgencies;
      threads := new Threads(idle);
      ports := map[idle := Port(false, [], [], 0, 0)];
      flags := map[idle := {}];
      wait := map[];
      records := map[];
      taken := {0};
      woken := map[];
      history := History(map[], map[], {}, [], map[], map[], map[idle := []], map[], {});
      new;
      InitialInv(idle);
    }

    /** A wait record leaves its list. */
    method Leave(id: Id)
      requires id in wait
      modifies this`ports, this`records, this`wait
      ensures State() == Detach(old(State()), id)
    {
      var w := wait[id];
      match w {
        case Calling(p, _, _) =>
          if p in ports {
            ports := ports[p := ports[p].(callers := Remove(ports[p].callers, id))];
          }
        case Receiving(p) =>
          if p in ports {
            ports := ports[p := ports[p].(receivers := Remove(ports[p].receivers, id))];
          }
        case Awaiting(k) =>
          if k in records {
            records := records[k := records[k].(caller := None)];
          }
        case OnFlag =>
      }
      wait := wait - {id};
    }

    /** A wait record joins the list its reason names. */
    method Enter(id: Id, w: Wait)
      requires w.Calling? || w.Receiving? ==> w.port in ports
      requires w.Awaiting? ==> w.key in records
      modifies this`ports, this`records, this`wait
      ensures State() == Queue(old(State()), id, w)
    {
      match w {
        case Calling(p, _, _) => ports := ports[p := ports[p].(callers := ports[p].callers + [id])];
        case Receiving(p) => ports := ports[p := ports[p].(receivers := ports[p].receivers + [id])];
        case Awaiting(k) => records := records[k := records[k].(caller := Some(id))];
        case OnFlag =>
      }
      wait := wait[id := w];
    }

    /** Ends a wait with the given outcome. */
    method Rouse(id: Id, x: Woken)
      requires threads.Valid() && Coupled(wait, ports, threads.threads) && id in wait
      modifies this`ports, this`records, this`wait, this`woken, threads
      ensures threads.Valid() && Coupled(wait, ports, threads.threads) && threads.running == old(threads.running)
      ensures State() == Wake(old(State()), id, x)
      ensures Readier(old(threads.threads), threads.threads)
    {
      hide Unlinked, Vacated, InStep, Distinct, Marked, OneRuns, Urgencies;
      DetachPorts(State(), id);
      var was := wait[id];
      Leave(id);
      woken := woken[id := x.(was := was)];
      threads.Release(id);
    }

    /** The running thread parks with the given reason. */
    method Park(w: Wait)
      requires threads.Valid() && Coupled(wait, ports, threads.threads) && threads.running in ports
        && threads.running !in wait
      requires threads.OtherReady(threads.running)
      requires w.Calling? || w.Receiving? ==> w.port in ports
      requires w.Awaiting? ==> w.key in records
      modifies this`ports, this`records, this`wait, threads
      ensures threads.Valid() && Coupled(wait, ports, threads.threads)
        && State() == Queue(old(State()), old(threads.running), w)
      ensures Chosen(threads.ready, threads.running)
    {
      hide Linked, Filled, InStep, Distinct, Marked, OneRuns, Urgencies;
      var r := threads.running;
      Enter(r, w);
      QueuePorts(old(State()), r, w);
      hide Queue;
      threads.Wait();
    }

    /** A key that is not in use, if there is one. */
    method NextKey() returns (k: Option<nat>)
      ensures k.None? ==> forall i: nat :: i < MAX_THREAD ==> i in taken
      ensures k.Some? ==> k.value !in taken && k.value < MAX_THREAD
    {
      var free := set i: nat | i < MAX_THREAD && i !in taken;
      if free == {} {
        assert forall i: nat :: i < MAX_THREAD && i !in taken ==> i in free;
        return None;
      }
      var i :| i in free;
      return Some(i);
    }

    method Open(maxCall: nat, maxReply: nat) returns (err: Option<Error>)
      requires Valid() && Acting()
      modifies this`ports
      ensures Valid() && err == if old(ports)[threads.running].isOpen then Some(E_OBJ) else None
      ensures ports == if err.Some? then old(ports)
                       else old(ports)[threads.running := Port(true, [], [], maxCall, maxReply)]
    {
      hide Inv, Coupled, InStep, Distinct, Marked, Urgencies;
      var r := threads.running;
      RunningCoupled(wait, ports, threads.threads, r);
      CoupledPort(wait, ports, threads.threads, r, Port(true, [], [], maxCall, maxReply));
      if ports[r].isOpen {
        return Some(E_OBJ);
      }
      OpenKeeps(State(), history, r, maxCall, maxReply);
      ports := ports[r := Port(true, [], [], maxCall, maxReply)];
      return None;
    }

    /** Ends the wait of whoever stands first in line. */
    method DropHead(p: Id, receivers: bool) returns (x: Woken)
      requires threads.Valid() && Coupled(wait, ports, threads.threads) && Core(State(), history) && Apart(ports, {p})
        && p in ports
      requires Line(ports[p], receivers) != []
      modifies this`ports, this`records, this`wait, this`woken, threads
      ensures threads.Valid() && Coupled(wait, ports, threads.threads) && Core(State(), history) && Apart(ports, {p})
        && p in ports
      ensures threads.running == old(threads.running) && Readier(old(threads.threads), threads.threads)
      ensures Line(ports[p], receivers) == Line(old(ports)[p], receivers)[1..]
      ensures Line(ports[p], !receivers) == Line(old(ports)[p], !receivers) && ports[p].isOpen == old(ports)[p].isOpen
      ensures forall q :: q in old(ports) && q != p ==> q in ports && ports[q] == old(ports)[q]
      ensures Line(old(ports)[p], receivers)[0] in old(wait)
      ensures var w := old(wait)[Line(old(ports)[p], receivers)[0]]; x == Woken(Held(w), Failed(E_DLT), w)
      ensures wait == old(wait) - {Line(old(ports)[p], receivers)[0]}
      ensures woken == old(woken)[Line(old(ports)[p], receivers)[0] := x]
      ensures records.Keys == old(records).Keys
    {
      hide Core, Apart, Coupled, InStep, Distinct, Marked, Urgencies, OneRuns, Unlinked, Vacated;
      ghost var s := State();
      CoreShape(s, history);
      LineWaits(s, p, receivers);
      HeadLeaves(s, p, receivers);
      hide Shape, Line, Readier;
      var id := Line(ports[p], receivers)[0];
      assert id in Line(ports[p], receivers);
      x := Woken(Held(wait[id]), Failed(E_DLT), wait[id]);
      WakeKeeps(s, history, id, x);
      UnlinkedApart(ports, wait[id], id, {p});
      Rouse(id, x);
      assert State() == Wake(s, id, x);
      WakeRecords(s, id, x);
    }

    /** Ends the waits of the receivers, or of the callers, of a port. */
    method ReleaseAll(p: Id, receivers: bool)
      requires threads.Valid() && Coupled(wait, ports, threads.threads) && Core(State(), history) && Apart(ports, {p})
        && p in ports
      modifies this`ports, this`records, this`wait, this`woken, threads
      ensures threads.Valid() && Coupled(wait, ports, threads.threads) && Core(State(), history) && Apart(ports, {p})
      ensures threads.running == old(threads.running) && p in ports && Line(ports[p], receivers) == []
      ensures Line(ports[p], !receivers) == Line(old(ports)[p], !receivers) && ports[p].isOpen == old(ports)[p].isOpen
      ensures Dropped(old(wait), wait, woken, Line(old(ports)[p], receivers), [])
      ensures Same(old(wait), wait, old(woken), woken, Line(old(ports)[p], receivers))
      ensures Readier(old(threads.threads), threads.threads) && records.Keys == old(records).Keys
      ensures forall q :: q in old(ports) && q != p ==> q in ports && ports[q] == old(ports)[q]
    {
      hide Inv, Core, Apart, Coupled, InStep, Distinct, Marked, Urgencies, OneRuns, Unlinked, Vacated;
      CoreShape(State(), history);
      LineWaits(State(), p, receivers);
      while Line(ports[p], receivers) != []
        invariant threads.Valid() && Coupled(wait, ports, threads.threads) && Core(State(), history)
          && Apart(ports, {p}) && p in ports
        invariant threads.running == old(threads.running) && ports[p].isOpen == old(ports)[p].isOpen
        invariant Line(ports[p], !receivers) == Line(old(ports)[p], !receivers)
        invariant Dropped(old(wait), wait, woken, Line(old(ports)[p], receivers), Line(ports[p], receivers))
        invariant Same(old(wait), wait, old(woken), woken, Line(old(ports)[p], receivers))
        invariant Readier(old(threads.threads), threads.threads) && records.Keys == old(records).Keys
        invariant forall q :: q in old(ports) && q != p ==> q in ports && ports[q] == old(ports)[q]
        decreases |Line(ports[p], receivers)|
      {
        hide Dropped, Same, Line, Readier;
        ghost var s, mid := State(), threads.threads;
        CoreShape(s, history);
        var x := DropHead(p, receivers);
        DropOne(old(wait), s, p, x, Line(old(ports)[p], receivers), receivers);
        SameOne(old(wait), old(woken), s, p, x, Line(old(ports)[p], receivers), receivers);
        ReadierTrans(old(threads.threads), mid, threads.threads);
        hide Wake, Shape;
      }
    }

    /** Ends the waits of everyone at a port that is not open any more, receivers first. */
    method ReleaseBoth(p: Id)
      requires threads.Valid() && Coupled(wait, ports, threads.threads) && Core(State(), history) && Apart(ports, {p})
      requires p in ports && (ports[p].receivers == [] || ports[p].callers == [])
      modifies this`ports, this`records, this`wait, this`woken, threads
      ensures threads.Valid() && Coupled(wait, ports, threads.threads) && Inv(State(), history)
      ensures threads.running == old(threads.running) && p in ports && ports[p].isOpen == old(ports)[p].isOpen
      ensures AllTold(old(wait), wait, woken, AtPort(old(ports)[p]))
      ensures Same(old(wait), wait, old(woken), woken, AtPort(old(ports)[p]))
      ensures Readier(old(threads.threads), threads.threads) && records.Keys == old(records).Keys
      ensures forall q :: q in old(ports) && q != p ==> q in ports && ports[q] == old(ports)[q]
    {
      hide Inv, Core, Apart, Coupled, Same, Dropped, Readier, InStep, Distinct, Marked, Urgencies, OneRuns, AllTold;
      ghost var before := threads.threads;
      ReleaseAll(p, true);
      ghost var wait1, woken1, mid := wait, woken, threads.threads;
      ReleaseAll(p, false);
      ReadierTrans(before, mid, threads.threads);
      BothDropped(old(wait), old(woken), wait1, woken1, wait, woken, old(ports)[p].receivers, old(ports)[p].callers);
      CloseApart(ports, p);
      InvOf(State(), history);
    }

    /** Ends the waits of everyone at the running thread's port, and closes it. */
    method Close() returns (err: Option<Error>)
      requires Valid() && MayWait()
      modifies this`ports, this`records, this`wait, this`woken, threads
      ensures Valid() && history == old(history) && Chosen(threads.ready, threads.running)
      ensures err == if old(ports)[old(threads.running)].isOpen then None else Some(E_OBJ)
      ensures err.None? ==> !ports[old(threads.running)].isOpen
      ensures err.None? ==> AllTold(old(wait), wait, woken, AtPort(old(ports)[old(threads.running)]))
      ensures err.None? ==> Same(old(wait), wait, old(woken), woken, AtPort(old(ports)[old(threads.running)]))
      ensures err.None? ==>
        forall q :: q in old(ports) && q != old(threads.running) ==> q in ports && ports[q] == old(ports)[q]
      ensures err.Some? ==> State() == old(State())
      ensures records.Keys == old(records).Keys
    {
      hide Inv, Core, Apart, Coupled, InStep, Distinct, Marked, Urgencies, Same, Readier, Parked, AllTold;
      var r := threads.running;
      RunningCoupled(wait, ports, threads.threads, r);
      InvParts(State(), history);
      ghost var before := threads.threads;
      if !ports[r].isOpen {
        err := Some(E_OBJ);
      } else {
        err := None;
        ShutKeeps(State(), history, r);
        CoupledPort(wait, ports, threads.threads, r, ports[r].(isOpen := false));
        LinesApart(ports, r);
        ports := ports[r := ports[r].(isOpen := false)];
        ReleaseBoth(r);
        OtherStays(before, threads.threads, r);
      }
      ghost var last := threads.threads;
      threads.Dispatch();
      StillCoupled(wait, ports, last, threads.threads);
    }

    /** Calls a port: the caller parks until the reply to this very call comes. */
    method Call(port: Id, m: Message, room: bool) returns (err: Option<Error>)
      requires Valid() && MayWait()
      modifies this, threads
      ensures Valid()
      ensures err == if port !in old(ports) || !old(ports)[port].isOpen then Some(E_NOEXS)
                     else if |m| > old(ports)[port].maxCall then Some(E_PAR)
                     else if forall i: nat :: i < MAX_THREAD ==> i in old(taken) then Some(E_NOID)
                     else if !room then Some(E_NOMEM) else None
      ensures err.Some? ==>
        State() == old(State()) && history == old(history) && threads.running == old(threads.running)
      ensures err.None? ==> Chosen(threads.ready, threads.running)
      ensures err.None? ==> Makes(old(State()), old(history), State(), history, old(threads.running), port, m)
      ensures flags == old(flags)
      ensures err.None? ==> exists k: nat :: k != 0 && Goes(old(State()), State(), old(threads.running), port, k, m)
    {
      hide Inv, Core, Apart, Coupled, Parked, InStep, Distinct, Marked, Urgencies, Unlinked, Vacated, Linked, Filled;
      var r := threads.running;
      if port !in ports || !ports[port].isOpen {
        return Some(E_NOEXS);
      }
      if |m| > ports[port].maxCall {
        return Some(E_PAR);
      }
      var free := NextKey();
      if free.None? {
        return Some(E_NOID);
      }
      if !room {
        assert free.value < MAX_THREAD && free.value !in taken;
        return Some(E_NOMEM);
      }
      var k := free.value;
      err := None;
      ZeroTaken(State(), history);
      RunningCoupled(wait, ports, threads.threads, r);
      CalledGoes(State(), history, r, port, k, m);
      hide Goes, Called;
      if ports[port].receivers != [] {
        Meet(port, k, m);
      } else {
        Wait(port, k, m);
      }
    }

    /** The receiver waiting longest takes a message. */
    method HandOver(port: Id, x: Woken)
      requires Valid() && MayWait() && port in ports && ports[port].receivers != []
      modifies this`ports, this`records, this`wait, this`woken, threads
      ensures threads.Valid() && Coupled(wait, ports, threads.threads) && threads.running == old(threads.running)
      ensures threads.running in ports && threads.running !in wait && threads.OtherReady(threads.running)
      ensures port in ports && ports[port].maxReply == old(ports)[port].maxReply
      ensures old(ports)[port].receivers[0] in old(wait)
      ensures State() == Wake(old(State()), old(ports)[port].receivers[0], x)
    {
      hide Inv, Core, Apart, Coupled, Parked, InStep, Distinct, Marked, Urgencies, Unlinked, Vacated, Readier;
      var r := threads.running;
      RunningCoupled(wait, ports, threads.threads, r);
      ghost var s, before := State(), threads.threads;
      InvParts(s, history);
      CoreShape(s, history);
      ReceiverWaits(s, port);
      hide Shape, OneRuns;
      WokenReceiver(s, port, x);
      Rouse(ports[port].receivers[0], x);
      OtherStays(before, threads.threads, r);
    }

    /** The first waiting receiver takes the message, and the caller waits for the reply. */
    method Meet(port: Id, k: nat, m: Message)
      requires Valid() && MayWait() && port in ports && ports[port].isOpen && ports[port].receivers != []
      requires k != 0 && k < MAX_THREAD && k !in taken
      modifies this, threads
      ensures Valid() && Chosen(threads.ready, threads.running)
      ensures State() == Called(old(State()), old(threads.running), port, k, m)
      ensures history == CalledLog(old(State()), old(history), old(threads.running), port, k, m)
    {
      hide Inv, Coupled, InStep, Distinct, Marked, Urgencies, Queue, Wake;
      var r := threads.running;
      RunningCoupled(wait, ports, threads.threads, r);
      CalledKeeps(State(), history, r, port, k, m);
      HandOver(port, Woken(0, Done(Tag(r, k), m)));
      ghost var mid := State();
      records, taken := records[k := Record(None, ports[port].maxReply)], taken + {k};
      assert State() == Reserved(mid, k, ports[port].maxReply);
      Park(Awaiting(k));
      history := Handing(Recorded(history, r, port, k, m), port, |history.calls|, k);
    }

    /** Nobody receives: the caller joins the callers of the port. */
    method Wait(port: Id, k: nat, m: Message)
      requires Valid() && MayWait() && port in ports && ports[port].isOpen && ports[port].receivers == []
      requires k < MAX_THREAD && (k == 0 || k !in taken)
      modifies this, threads
      ensures Valid() && Chosen(threads.ready, threads.running)
      ensures State() == Called(old(State()), old(threads.running), port, k, m)
      ensures history == CalledLog(old(State()), old(history), old(threads.running), port, k, m)
    {
      hide Inv, Core, Apart, Coupled, Parked, InStep, Distinct, Marked, Urgencies, Unlinked, Vacated, Linked, Filled;
      var r := threads.running;
      RunningCoupled(wait, ports, threads.threads, r);
      ghost var s := State();
      CalledKeeps(s, history, r, port, k, m);
      if k != 0 {
        records, taken := records[k := Record(None, ports[port].maxReply)], taken + {k};
      }
      assert State() == Reserved(s, k, ports[port].maxReply);
      Park(Calling(port, k, m));
      history := Recorded(history, r, port, k, m);
    }

    /** The caller goes on: with the reply to its own call, or without one, giving back its key. */
    method CallResume() returns (result: Result)
      requires Valid() && threads.running in woken && woken[threads.running].key != 0
      modifies this`records, this`taken, this`woken, this`history
      ensures Valid() && Acting() && result == old(woken)[threads.running].result
      ensures result.Done? ==> Replies(old(history), threads.running, result.message)
      ensures result.Done? ==> history == Finished(old(history), threads.running, result.message)
      ensures result.Done? ==> State() == Taken(old(State()), threads.running)
      ensures result.Failed? ==> var k := old(woken)[threads.running].key;
        State() == Freed(Taken(old(State()), threads.running), k) && history == Abandoned(old(history), k)
    {
      hide Inv, Core, Apart, Coupled, InStep, Distinct, Marked, Urgencies;
      var r := threads.running;
      InvParts(State(), history);
      result := woken[r].result;
      if result.Failed? {
        AbandonedKeeps(State(), history, r);
        var k := woken[r].key;
        records, taken := records - {k}, taken - {k};
        history := Abandoned(history, k);
      } else {
        ToldTo(State(), history, r);
        FinishedKeeps(State(), history, r);
        history := history.(finished := history.finished[history.turn[r] := result.message]);
      }
      woken := woken - {r};
      InvOf(State(), history);
    }

    /** Another call comes back with its outcome. */
    method Finish() returns (result: Result)
      requires Valid() && threads.running in woken && woken[threads.running].key == 0
      modifies this`woken
      ensures Valid() && Acting() && result == old(woken)[threads.running].result
      ensures woken == old(woken) - {threads.running}
    {
      hide Inv, Core, Apart, Coupled, InStep, Distinct, Marked, Urgencies;
      var r := threads.running;
      InvParts(State(), history);
      TakenKeeps(State(), history, r);
      result := woken[r].result;
      woken := woken - {r};
      InvOf(State(), history);
    }

    /** Receives at a port, unless a notification is pending: the caller waiting longest, or none yet. */
    method Receive(port: Id) returns (out: Progress)
      requires Valid() && MayWait()
      modifies this, threads
      ensures Valid()
      ensures old(flags)[old(threads.running)] != {} ==>
        out == Ended(Failed(E_RLWAI)) && State() == old(State()).(flags := old(flags)[threads.running := {}])
      ensures old(flags)[old(threads.running)] == {} && (port !in old(ports) || !old(ports)[port].isOpen) ==>
        out == Ended(Failed(E_NOEXS)) && State() == old(State())
      ensures old(flags)[old(threads.running)] == {} && port in old(ports) && old(ports)[port].isOpen ==>
        if old(ports)[port].callers == [] then out.Blocked?
          && State() == Queue(old(State()), old(threads.running), Receiving(port))
        else out.Ended? && Takes(old(State()), old(history), State(), history, port, out.result)
      ensures out.Ended? ==> threads.running == old(threads.running)
      ensures !(out.Ended? && out.result.Done?) ==> history == old(history)
      ensures forall x :: x in flags && x in old(flags) && x != old(threads.running) ==> flags[x] == old(flags)[x]
    {
      hide Inv, Core, Apart, Coupled, InStep, Distinct, Marked, Urgencies, Unlinked, Vacated, Linked, Filled;
      var r := threads.running;
      RunningFlag(State(), history, wait, ports, threads.threads, r);
      if flags[r] != {} {
        ClearKeeps(State(), history, r);
        flags := flags[r := {}];
        return Ended(Failed(E_RLWAI));
      }
      if port !in ports || !ports[port].isOpen {
        return Ended(Failed(E_NOEXS));
      }
      if ports[port].callers != [] {
        var result := TakeHead(port);
        return Ended(result);
      }
      ReceivingKeeps(State(), history, r, port);
      Park(Receiving(port));
      return Blocked;
    }

    /** Takes the message of the first caller, who then waits for the reply or, if it only sent, goes on. */
    method TakeHead(port: Id) returns (result: Result)
      requires Valid() && port in ports && ports[port].callers != []
      modifies this, threads
      ensures Valid() && threads.running == old(threads.running)
      ensures Takes(old(State()), old(history), State(), history, port, result)
      ensures flags == old(flags)
    {
      hide Inv, Core, Apart, Coupled, InStep, Distinct, Marked, Urgencies, Unlinked, Vacated, Linked, Filled, Readier;
      ghost var s := State();
      var id := ports[port].callers[0];
      InvParts(s, history);
      HeadWaits(s, history, port, id);
      ServedInv(s, history, port, id);
      var w := wait[id];
      result := Done(Tag(id, w.key), w.message);
      if w.key != 0 {
        Detaching(s, history, id);
        Leave(id);
        Enter(id, Awaiting(w.key));
        AwaitingCoupled(s, id, threads.threads);
      } else {
        Rouse(id, Woken(0, Done(0, [])));
      }
      hide Served, Wake, Queue, Detach;
      history := Handing(history, port, history.turn[id], w.key);
    }

    /** Replies to a call whose tag a server holds; its caller, if still there, is the one to go on. */
    method Reply(key: nat, m: Message) returns (err: Option<Error>)
      requires Valid() && MayWait()
      requires key in records ==> key in history.delivered && |m| <= records[key].maxReply
      modifies this, threads
      ensures Valid()
      ensures err == if key in old(records) && old(records)[key].caller.Some? then None else Some(E_OBJ)
      ensures key !in old(records) ==> State() == old(State()) && history == old(history)
      ensures key in old(records) ==> history == Answered(old(history), key, m) && key !in records && key !in taken
      ensures key in old(records) && old(records)[key].caller.Some? ==> old(records)[key].caller.value in old(wait)
      ensures key in old(records) ==> State() == Replied(old(State()), key, m)
      ensures flags == old(flags)
      ensures err.None? ==> old(records)[key].caller.value in woken
      ensures err.None? ==>
        woken == old(woken)[old(records)[key].caller.value := Woken(key, Done(0, m), Awaiting(key))]
    {
      hide Inv, Core, Apart, Coupled, InStep, Distinct, Marked, Urgencies, Unlinked, Vacated, Readier, Parked;
      if key !in records {
        return Some(E_OBJ);
      }
      ghost var s, before := State(), threads.threads;
      InvParts(s, history);
      RepliedInv(s, history, key, m);
      if records[key].caller.Some? {
        ghost var r := threads.running;
        CoreShape(s, history);
        CallerWaits(s, key);
        hide Shape;
        Rouse(records[key].caller.value, Woken(key, Done(0, m)));
        OtherStays(before, threads.threads, r);
        err := None;
      } else {
        err := Some(E_OBJ);
      }
      records, taken := records - {key}, taken - {key};
      history := Answered(history, key, m);
      assert State() == Replied(s, key, m);
      hide Replied, Wake, Answered;
      ghost var last := threads.threads;
      threads.Dispatch();
      StillCoupled(wait, ports, last, threads.threads);
    }

    /** Sends a message one way: a waiting receiver takes it at once, or the sender waits its turn. */
    method SendTo(port: Id, m: Message) returns (out: Progress)
      requires Valid() && MayWait()
      modifies this, threads
      ensures Valid()
      ensures out == if port !in old(ports) || !old(ports)[port].isOpen then Ended(Failed(E_NOEXS))
                     else if |m| > old(ports)[port].maxCall then Ended(Failed(E_PAR))
                     else if old(ports)[port].receivers != [] then Ended(Done(0, [])) else Blocked
      ensures out.Ended? && out.result.Failed? ==> State() == old(State()) && history == old(history)
      ensures !(out.Ended? && out.result.Failed?) ==>
        && State() == Called(old(State()), old(threads.running), port, 0, m)
        && history == CalledLog(old(State()), old(history), old(threads.running), port, 0, m)
        && Goes(old(State()), State(), old(threads.running), port, 0, m)
      ensures flags == old(flags)
      ensures out.Ended? ==> threads.running == old(threads.running)
    {
      hide Inv, Core, Apart, Coupled, InStep, Distinct, Marked, Urgencies, Unlinked, Vacated, Linked, Filled, Readier,
        Parked;
      if port !in ports || !ports[port].isOpen {
        return Ended(Failed(E_NOEXS));
      }
      if |m| > ports[port].maxCall {
        return Ended(Failed(E_PAR));
      }
      RunningCoupled(wait, ports, threads.threads, threads.running);
      CalledGoes(State(), history, threads.running, port, 0, m);
      hide Goes;
      if ports[port].receivers == [] {
        Wait(port, 0, m);
        return Blocked;
      }
      var r := threads.running;
      RunningCoupled(wait, ports, threads.threads, r);
      CalledKeeps(State(), history, r, port, 0, m);
      hide Wake;
      HandOver(port, Woken(0, Done(Tag(r, 0), m)));
      history := Handing(Recorded(history, r, port, 0, m), port, |history.calls|, 0);
      return Ended(Done(0, []));
    }

    method DoReceive(port: Id)
      requires Valid() && MayWait()
      modifies this, threads
      ensures Valid() && Onward(old(State()), old(history), State(), history)
      ensures forall id :: id in flags && id in old(flags) && id != old(threads.running) ==> flags[id] == old(flags)[id]
    {
      hide Inv, Coupled, InStep, Distinct, Marked, Urgencies, OneRuns, Onward, Queue, Served, Handing;
      ghost var s, h, r := State(), history, threads.running;
      var out := Receive(port);
      if out.Blocked? {
        OnQueue(s, h, r, Receiving(port));
      } else if Takes(s, h, State(), history, port, out.result) {
        OnServe(s, h, port, s.ports[port].callers[0]);
      } else {
        OnElsewhere(s, h, State(), history);
      }
    }

    method DoResume()
      requires Valid() && threads.running in woken
      modifies this, threads
      ensures Valid() && Onward(old(State()), old(history), State(), history)
      ensures flags == old(flags)
    {
      hide Inv, Coupled, InStep, Distinct, Marked, Urgencies, OneRuns, Onward, Abandoned, Freed, Replies;
      ghost var s, h, r := State(), history, threads.running;
      OnResume(s, h, r);
      if woken[threads.running].key != 0 {
        var result := CallResume();
        if result.Failed? {
          OnAbandon(s, h, r);
        } else {
          OnElsewhere(State(), h, State(), history);
          OnTrans(s, h, State(), h, State(), history);
        }
      } else {
        var _ := Finish();
      }
    }

    /** The key in a tag tells a reply from a message. */
    method Send(tag: nat, m: Message) returns (out: Progress)
      requires Valid() && MayWait()
      requires KeyOf(tag) in records ==> KeyOf(tag) in history.delivered && |m| <= records[KeyOf(tag)].maxReply
      modifies this, threads
      ensures Valid()
      ensures KeyOf(tag) in old(records) ==> history == Answered(old(history), KeyOf(tag), m)
      ensures KeyOf(tag) !in old(records) && KeyOf(tag) != 0 ==> out == Ended(Failed(E_OBJ)) && history == old(history)
      ensures Onward(old(State()), old(history), State(), history) && flags == old(flags)
    {
      hide Inv, Coupled, InStep, Distinct, Marked, Urgencies, Answered, Called, CalledLog, Replied, Onward;
      ghost var s, h := State(), history;
      ZeroTaken(s, h);
      if KeyOf(tag) != 0 {
        var err := Reply(KeyOf(tag), m);
        out := Ended(if err.None? then Done(0, []) else Failed(err.value));
        if KeyOf(tag) in s.records {
          OnReply(s, h, KeyOf(tag), m);
        } else {
          OnElsewhere(s, h, State(), history);
        }
      } else {
        ghost var r := threads.running;
        RunningCoupled(wait, ports, threads.threads, r);
        out := SendTo(tag, m);
        if out.Ended? && out.result.Failed? {
          OnElsewhere(s, h, State(), history);
        } else {
          OnCalled(s, h, r, tag, 0, m);
        }
      }
    }

    /** Waits for a notification, unless one is pending. */
    method Listen() returns (out: Progress)
      requires Valid() && MayWait()
      modifies this, threads
      ensures Valid() && history == old(history) && old(threads.running) in old(flags)
      ensures out == if old(flags)[old(threads.running)] != {} then Ended(Done(0, [])) else Blocked
      ensures out.Ended? ==>
        State() == old(State()).(flags := old(flags)[threads.running := {}]) && threads.running == old(threads.running)
      ensures out.Blocked? ==> State() == Queue(old(State()), old(threads.running), OnFlag)
      ensures forall x :: x in flags && x in old(flags) && x != old(threads.running) ==> flags[x] == old(flags)[x]
    {
      hide Inv, Core, Apart, Coupled, InStep, Distinct, Marked, Urgencies, Linked, Filled;
      var r := threads.running;
      RunningFlag(State(), history, wait, ports, threads.threads, r);
      if flags[r] != {} {
        ClearKeeps(State(), history, r);
        flags := flags[r := {}];
        return Ended(Done(0, []));
      }
      ListeningKeeps(State(), history, r);
      Park(OnFlag);
      return Blocked;
    }

    /** Notifies a thread: its wait for a flag or a message ends, or the flag stays set until it looks. */
    method Notify(id: Id, flag: Bits) returns (err: Option<Error>)
      requires Valid()
      modifies this, threads
      ensures Valid() && history == old(history) && threads.running == old(threads.running)
      ensures err == if id !in old(threads.threads) then Some(E_NOEXS)
                     else if old(threads.threads)[id].status == DMT then Some(E_OBJ) else None
      ensures State() == if err.None? then Notified(old(State()), id, flag) else old(State())
      ensures err.None? ==> id in flags && id in old(flags) && old(flags)[id] <= flags[id]
      ensures forall x :: x in old(flags) && x != id ==> x in flags && flags[x] == old(flags)[x]
      ensures err.None? && id in old(wait) && Hears(old(wait)[id]) ==>
        id !in wait && id in woken && woken[id] == Woken(0, Failed(E_RLWAI), old(wait)[id])
      ensures err.None? && !(id in old(wait) && Hears(old(wait)[id])) ==>
        id in old(flags) && wait == old(wait) && woken == old(woken) && flag + old(flags)[id] <= flags[id]
    {
      hide Inv, Core, Apart, Coupled, InStep, Distinct, Marked, Urgencies, Unlinked, Vacated, Readier;
      if id !in threads.threads {
        return Some(E_NOEXS);
      }
      NotifiedKeeps(State(), history, threads.threads, id, flag);
      if threads.threads[id].status == DMT {
        return Some(E_OBJ);
      }
      if id in wait && Hears(wait[id]) {
        flags := flags[id := {}];
        Rouse(id, Woken(0, Failed(E_RLWAI)));
      } else {
        flags := flags[id := flags[id] + flag];
      }
      return None;
    }

    /** Ends another thread; whatever it waited for, it waits no longer. */
    method Terminate(id: Id) returns (ok: bool)
      requires Valid()
      modifies this, threads
      ensures Valid() && history == old(history) && threads.running == old(threads.running)
      ensures ok == (id in old(threads.threads) && old(threads.threads)[id].status !in {RUN, DMT})
      ensures State() == if ok then Killed(old(State()), id) else old(State())
      ensures flags == old(flags)
    {
      hide Inv, Core, Apart, Coupled, InStep, Distinct, Marked, Urgencies, Unlinked, Vacated, Parked;
      ghost var s, before := State(), threads.threads;
      ok := threads.Terminate(id);
      if ok {
        KilledInv(s, history, id);
        KilledCoupled(s, before, threads.threads, id);
        if id in wait {
          Leave(id);
        }
        woken := woken - {id};
        assert State() == Killed(s, id);
      }
    }

    method End()
      requires Valid() && MayWait()
      modifies threads
      ensures Valid() && Chosen(threads.ready, threads.running) && old(threads.running) in old(threads.threads)
      ensures threads.threads == Switch(old(threads.threads)[old(threads.running) :=
        old(threads.threads)[old(threads.running)].(status := DMT)], old(threads.running), threads.running)
    {
      hide Inv, Coupled, InStep, Distinct, Marked, Urgencies, Parked;
      ghost var before, r := threads.threads, threads.running;
      RunningCoupled(wait, ports, before, r);
      NotParked(before, r);
      threads.End();
      StillCoupled(wait, ports, before, threads.threads);
    }

    method Create(id: Id, pri: nat) returns (ok: bool)
      requires Valid() && pri <= MAX_PRIORITY
      modifies this, threads
      ensures Valid() && ok == (1 <= id <= MAX_AUTO_ID && id !in old(threads.threads))
      ensures State() == if ok then Admitted(old(State()), id) else old(State())
      ensures ok ==> id !in old(flags)
      ensures history == old(history).(received := history.received)
      ensures threads.running == old(threads.running)
    {
      hide Inv, Coupled, InStep, Distinct, Marked, Urgencies, Parked;
      if id < 1 || id > MAX_AUTO_ID {
        return false;
      }
      ghost var before := threads.threads;
      ok := threads.Create(id, pri);
      if ok {
        AdmittedInv(State(), history, before, threads.threads, id, threads.threads[id]);
        ports := ports[id := Port(false, [], [], 0, 0)];
        flags := flags[id := {}];
        history := history.(received := history.received[id := []]);
      }
    }

    /** Removes a dormant thread.  Whoever waits at its port is not looked after: everything stays in order
        exactly when nobody does. */
    method Destroy(id: Id) returns (ok: bool)
      requires Valid() && Acting() && threads.threads[threads.running].status != DMT
      modifies this, threads
      ensures ok == (id in old(threads.threads) && old(threads.threads)[id].status == DMT)
      ensures ok ==> id in old(ports)
      ensures Valid() <==> (ok ==> old(ports)[id].callers == [] && old(ports)[id].receivers == [])
      ensures State() == if ok then Dismissed(Killed(old(State()), id), id) else old(State())
      ensures flags == if ok then old(flags) - {id} else old(flags)
      ensures threads.Valid() && threads.running == old(threads.running)
      ensures history == old(history).(received := history.received)
    {
      hide Inv, Coupled, InStep, Distinct, Marked, Urgencies, Parked;
      ghost var before := threads.threads;
      ok := threads.Destroy(id);
      if ok {
        DismissedExact(State(), history, before, threads.threads, id);
        woken := woken - {id};
        ports := ports - {id};
        flags := flags - {id};
        history := history.(received := history.received - {id});
      }
    }

    method Start(id: Id) returns (ok: bool)
      requires Valid()
      modifies this, threads
      ensures Valid() && history == old(history)
        && ok == (id in old(threads.threads) && old(threads.threads)[id].status == DMT)
      ensures State() == if ok then old(State()).(flags := old(flags)[id := {}]) else old(State())
    {
      hide Inv, Coupled, InStep, Distinct, Marked, Urgencies, Parked;
      ghost var before := threads.threads;
      ok := threads.Start(id);
      StillCoupled(wait, ports, before, threads.threads);
      if ok {
        FlagOf(State(), history, before, id);
        ClearKeeps(State(), history, id);
        flags := flags[id := {}];
      }
    }

    method Suspend(id: Id, self: bool) returns (ok: bool)
      requires Valid() && (self ==> id == threads.running && threads.OtherReady(threads.running))
      modifies threads
      ensures Valid() && ok == (id in old(threads.threads) && old(threads.threads)[id].status in {RUN, RDY, WAI})
      ensures ok ==> threads.threads == Switch(old(threads.threads)[id := old(threads.threads)[id].(status :=
        if old(threads.threads)[id].status == WAI then WAS else SUS)], old(threads.running), threads.running)
      ensures !ok ==> threads.threads == old(threads.threads)
    {
      hide Inv, Coupled, InStep, Distinct, Marked, Urgencies, Parked;
      ghost var before := threads.threads;
      ok := threads.Suspend(id, self);
      StillCoupled(wait, ports, before, threads.threads);
    }

    method Continue(id: Id) returns (ok: bool)
      requires Valid()
      modifies threads
      ensures Valid() && ok == (id in old(threads.threads) && old(threads.threads)[id].status in {SUS, WAS})
      ensures ok ==> threads.threads == Switch(old(threads.threads)[id := old(threads.threads)[id].(status :=
        if old(threads.threads)[id].status == WAS then WAI else RDY)], old(threads.running), threads.running)
      ensures !ok ==> threads.threads == old(threads.threads)
    {
      hide Inv, Coupled, InStep, Distinct, Marked, Urgencies, Parked;
      ghost var before := threads.threads;
      ok := threads.Resume(id);
      StillCoupled(wait, ports, before, threads.threads);
    }

    method Yield()
      requires Valid() && threads.SomeReady()
      modifies threads
      ensures Valid() && Chosen(threads.ready, threads.running)
      ensures threads.threads == Switch(old(threads.threads), old(threads.running), threads.running)
    {
      hide Inv, Coupled, InStep, Distinct, Marked, Urgencies, Parked;
      ghost var before := threads.threads;
      threads.Dispatch();
      StillCoupled(wait, ports, before, threads.threads);
    }

    /** What the caller of a service must respect; servers reply once, with a tag they were given. */
    predicate Proper(e: Event)
      reads this, threads
    {
      match e
      case Opens(_, _) => Acting()
      case Closes => MayWait()
      case Calls(_, _, _) => MayWait()
      case Receives(_) => MayWait()
      case Sends(tag, m) =>
        MayWait() && (KeyOf(tag) in records ==> KeyOf(tag) in history.delivered && |m| <= records[KeyOf(tag)].maxReply)
      case Listens => MayWait()
      case Notifies(_, _) => true
      case Resumes => threads.running in woken
      case Terminates(_) => true
      case Ends => MayWait()
      case Creates(_, pri) => pri <= MAX_PRIORITY
      case Destroys(id) =>
        && Acting() && threads.running in threads.threads && threads.threads[threads.running].status != DMT
        && (id in ports ==> ports[id].callers == [] && ports[id].receivers == [])
      case Starts(_) => true
      case Suspends(id, self) => self ==> id == threads.running && threads.OtherReady(threads.running)
      case Continues(_) => true
      case Ticks(pri, _) => pri <= MAX_PRIORITY
      case Yields => threads.SomeReady()
    }

    /** The calls on threads. */
    method DoThread(e: Event)
      requires Valid() && Proper(e)
      requires e.Terminates? || e.Ends? || e.Creates? || e.Destroys? || e.Starts? || e.Suspends? || e.Continues?
        || e.Ticks? || e.Yields?
      modifies this, threads
      ensures Valid() && Onward(old(State()), old(history), State(), history)
      ensures FlagsStay(e, old(threads.running), old(flags), flags)
    {
      hide Inv, Coupled, InStep, Distinct, Marked, Urgencies, OneRuns, Onward, Killed, Dismissed, Chosen;
      ghost var s, h := State(), history;
      match e {
        case Terminates(id) =>
          var _ := Terminate(id);
          OnKilled(s, h, id);
          OnElsewhere(s, h, s, h);
        case Ends =>
          End();
          OnElsewhere(s, h, State(), history);
        case Creates(id, pri) =>
          var _ := Create(id, pri);
          OnElsewhere(s, h, State(), history);
        case Destroys(id) =>
          var _ := Destroy(id);
          OnDismissed(s, h, id, history);
          OnElsewhere(s, h, s, history);
        case Starts(id) =>
          var _ := Start(id);
          OnElsewhere(s, h, State(), history);
        case Suspends(id, self) =>
          var _ := Suspend(id, self);
          OnElsewhere(s, h, State(), history);
        case Continues(id) =>
          var _ := Continue(id);
          OnElsewhere(s, h, State(), history);
        case Ticks(pri, id) =>
          threads.Rotate(pri, id);
          OnElsewhere(s, h, State(), history);
        case Yields =>
          Yield();
          OnElsewhere(s, h, State(), history);
      }
    }

    method Do(e: Event)
      requires Valid() && Proper(e)
      modifies this, threads
      ensures Valid() && Onward(old(State()), old(history), State(), history)
      ensures FlagsStay(e, old(threads.running), old(flags), flags)
    {
      hide Inv, Coupled, InStep, Distinct, Marked, Urgencies, OneRuns, Onward, Makes, Takes, Same, AllTold, Queue,
        Notified, Taken, Freed, Chosen, Finished, Goes;
      ghost var s, h, r := State(), history, threads.running;
      match e {
        case Opens(maxCall, maxReply) =>
          var _ := Open(maxCall, maxReply);
          OnElsewhere(s, h, State(), history);
        case Closes =>
          RunningCoupled(wait, ports, threads.threads, r);
          var err := Close();
          if err.None? {
            OnClosed(s, h, State(), AtPort(s.ports[r]));
          } else {
            OnElsewhere(s, h, State(), history);
          }
        case Calls(port, m, room) =>
          RunningCoupled(wait, ports, threads.threads, r);
          var err := Call(port, m, room);
          if err.None? {
            OnMakes(s, h, State(), history, r, port, m);
          } else {
            OnElsewhere(s, h, State(), history);
          }
        case Receives(port) => DoReceive(port);
        case Sends(tag, m) => var _ := Send(tag, m);
        case Listens =>
          var out := Listen();
          if out.Blocked? {
            OnQueue(s, h, r, OnFlag);
          } else {
            OnElsewhere(s, h, State(), history);
          }
        case Notifies(id, flag) =>
          var _ := Notify(id, flag);
          OnNotified(s, h, id, flag);
          OnElsewhere(s, h, s, h);
        case Resumes => DoResume();
        case _ => DoThread(e);
      }
    }

    /** Any run, from boot on: see `Safe` for what it comes to. */
    method Run(events: seq<Event>)
      requires Valid() && Passed(State(), history)
      modifies this, threads
      ensures Valid() && Passed(State(), history) && Safe(State(), history)
      ensures Sound(threads.ready, threads.threads, threads.running)
      ensures forall k :: Lost(old(State()), old(history), k) ==> Lost(State(), history, k) && k in taken
    {
      hide Onward, Passed, Inv, InStep, Distinct, Marked, Urgencies, OneRuns, Coupled, Lost, Safe, Sound;
      ghost var s0, h0 := State(), history;
      OnElsewhere(s0, h0, s0, h0);
      for i := 0 to |events|
        invariant Valid() && Onward(s0, h0, State(), history)
      {
        ghost var s, h := State(), history;
        if Proper(events[i]) {
          Do(events[i]);
          OnTrans(s0, h0, s, h, State(), history);
        }
      }
      OnwardMeans(s0, h0, State(), history);
      SafeRun(State(), history);
      LostTaken(s0, h0, State(), history);
      SoundRun(threads.ready, threads.threads, threads.running);
    }
  }

  lemma KilledInv(s: Ipc, h: History, id: Id)
    requires Inv(s, h)
    ensures Inv(Killed(s, id), h)
  {
    KilledKeeps(s, h, id);
    if id in s.wait {
      UnlinkedApart(s.ports, s.wait[id], id, {});
    }
    hide Core, Apart, Unlinked, Vacated;
  }

  lemma KilledCoupled(s: Ipc, before: map<Id, Thread>, after: map<Id, Thread>, id: Id)
    requires Coupled(s.wait, s.ports, before) && id in before && after == before[id := before[id].(status := DMT)]
    requires Parked(after) == Parked(before) - {id}
    ensures Coupled(Killed(s, id).wait, Killed(s, id).ports, after)
  {
    if id in s.wait {
      DetachPorts(s, id);
    }
    hide Unlinked, Vacated, Parked;
  }

  lemma NotParked(threads: map<Id, Thread>, id: Id)
    requires id in threads && !threads[id].Parked()
    ensures Parked(threads) - {id} == Parked(threads)
  {
  }

  lemma AdmittedInv(s: Ipc, h: History, before: map<Id, Thread>, after: map<Id, Thread>, id: Id, t: Thread)
    requires Inv(s, h) && Coupled(s.wait, s.ports, before) && id !in before && id <= MAX_AUTO_ID
    requires after == before[id := t] && Parked(after) == Parked(before)
    ensures Inv(Admitted(s, id), h.(received := h.received[id := []]))
    ensures Coupled(s.wait, Admitted(s, id).ports, after)
    ensures id !in s.flags
  {
    hide Core, Parked;
    NoFlagYet(s, h, id);
    AdmittedKeeps(s, h, id);
  }

  lemma NoFlagYet(s: Ipc, h: History, id: Id)
    requires Core(s, h) && id !in s.ports
    ensures id !in s.flags
  {
    hide Shape, Keys, Story, InOrder, Quiet;
  }

  /** Somebody who waits at the port of a thread that is destroyed waits at a port that is gone. */
  lemma Stranded(s: Ipc, h: History, id: Id) returns (x: Id)
    requires Inv(s, h) && id in s.ports && id !in s.wait && (s.ports[id].callers != [] || s.ports[id].receivers != [])
    ensures var t := Dismissed(Killed(s, id), id);
      x in t.wait && (t.wait[x].Calling? || t.wait[x].Receiving?) && t.wait[x].port == id && id !in t.ports
  {
    hide Keys, Story, InOrder, Quiet, Domains, Apart;
    x := SomeoneWaits(s, id);
  }

  lemma SomeoneWaits(s: Ipc, id: Id) returns (x: Id)
    requires Shape(s) && id in s.ports && (s.ports[id].callers != [] || s.ports[id].receivers != [])
    ensures x in s.wait && (s.wait[x].Calling? || s.wait[x].Receiving?) && s.wait[x].port == id
  {
    hide Singly, RecordOf, Placed;
    x := if s.ports[id].callers != [] then s.ports[id].callers[0] else s.ports[id].receivers[0];
    assert x in s.ports[id].callers || x in s.ports[id].receivers;
  }

  /** Destroying a thread keeps the invariant exactly when nobody waits at its port. */
  lemma DestroyExact(s: Ipc, h: History, id: Id)
    requires Inv(s, h) && id in s.ports && id !in s.wait
    ensures Inv(Dismissed(Killed(s, id), id), h.(received := h.received - {id})) <==>
            s.ports[id].callers == [] && s.ports[id].receivers == []
  {
    hide Core, Apart;
    if s.ports[id].callers == [] && s.ports[id].receivers == [] {
      KilledKeeps(s, h, id);
      DismissedKeeps(Killed(s, id), h, id);
      DismissedApart(s, id);
    } else {
      var x := Stranded(s, h, id);
      GoneBreaks(Dismissed(Killed(s, id), id), h.(received := h.received - {id}), x);
    }
  }

  lemma DismissedApart(s: Ipc, id: Id)
    requires Apart(s.ports, {}) && id !in s.wait
    ensures Apart(Dismissed(Killed(s, id), id).ports, {})
  {
  }

  lemma GoneBreaks(t: Ipc, h: History, x: Id)
    requires x in t.wait && (t.wait[x].Calling? || t.wait[x].Receiving?) && t.wait[x].port !in t.ports
    ensures !Inv(t, h)
  {
  }

  lemma DismissedExact(s: Ipc, h: History, before: map<Id, Thread>, after: map<Id, Thread>, id: Id)
    requires Inv(s, h) && Coupled(s.wait, s.ports, before) && id in before && before[id].status == DMT
    requires after == before - {id} && Parked(after) == Parked(before)
    ensures id !in s.wait && id in s.ports
    ensures Inv(Dismissed(Killed(s, id), id), h.(received := h.received - {id})) <==>
            s.ports[id].callers == [] && s.ports[id].receivers == []
    ensures Coupled(s.wait, s.ports - {id}, after)
  {
    hide Inv;
    assert id !in Parked(before);
    hide Parked;
    DestroyExact(s, h, id);
  }

  /** Thread 2 has sent to thread 1, which was terminated before it received. */
  ghost function Left(): Ipc {
    Ipc(map[1 := Port(true, [2], [], 8, 8), 2 := Port(false, [], [], 0, 0)], map[1 := {}, 2 := {}],
        map[2 := Calling(1, 0, [])], map[], {0}, map[])
  }

  ghost function LeftLog(): History {
    History(map[], map[], {}, [Call(2, 1, [], 0)], map[2 := 0], map[], map[1 := [], 2 := []], map[], {})
  }

  lemma LeftShape()
    ensures Shape(Left())
  {
    var ports, wait := Left().ports, Left().wait;
    assert CallersOf(ports, wait) && ReceiversOf(ports, wait) && Placed(ports, wait)
      && RecordOf(Left().records, wait) by {
      hide NoDup;
    }
    assert [2][1..] == [] && NoDup([2]) && NoDup([]);
    assert Singly(ports) by { hide NoDup; }
  }

  lemma LeftRest()
    ensures Domains(Left(), LeftLog().received) && Quiet(Left().flags, Left().wait) && Apart(Left().ports, {})
  {
  }

  lemma LeftStory()
    ensures Keys(Left(), LeftLog()) && Story(Left(), LeftLog())
  {
  }

  lemma LeftInOrder()
    ensures InOrder(Left().ports, LeftLog().received, LeftLog().turn, 1)
  {
    assert [2][1..] == [];
    assert Climb(-1, [2], LeftLog().turn);
  }

  /** When thread 1 is destroyed then, thread 2 is parked at a port that is gone. */
  lemma StrandedSender()
    ensures var t := Dismissed(Killed(Left(), 1), 1);
      && Inv(Left(), LeftLog()) && 2 in t.wait && t.wait[2] == Calling(1, 0, []) && 1 !in t.ports
      && !Inv(t, LeftLog().(received := LeftLog().received - {1}))
  {
    hide Shape, Domains, Quiet, Apart, Keys, Story, InOrder;
    LeftShape();
    LeftRest();
    LeftStory();
    LeftInOrder();
    GoneBreaks(Dismissed(Killed(Left(), 1), 1), LeftLog().(received := LeftLog().received - {1}), 2);
  }

  lemma FlagOf(s: Ipc, h: History, threads: map<Id, Thread>, id: Id)
    requires Inv(s, h) && Coupled(s.wait, s.ports, threads) && id in threads
    ensures id in s.flags
  {
  }

  lemma RepliedInv(s: Ipc, h: History, k: nat, m: Message)
    requires Inv(s, h) && k in h.delivered
    ensures k in s.records && (s.records[k].caller.Some? ==> s.records[k].caller.value in s.wait)
    ensures Inv(Replied(s, k, m), Answered(h, k, m))
  {
    RepliedKeeps(s, h, k, m);
    RepliedApart(s, k, m);
    hide Core, Apart, Replied, Answered;
  }

  lemma ListeningKeeps(s: Ipc, h: History, id: Id)
    requires Inv(s, h) && id in s.ports && id !in s.wait && id !in s.woken && id in s.flags && s.flags[id] == {}
    ensures Inv(Queue(s, id, OnFlag), h)
  {
    hide Core, Apart;
    ParkingKeeps(s, h, id, OnFlag);
  }

  lemma NotifiedKeeps(s: Ipc, h: History, threads: map<Id, Thread>, id: Id, flag: Bits)
    requires Inv(s, h) && Coupled(s.wait, s.ports, threads) && id in threads
    ensures id in s.flags && (id in s.wait && Hears(s.wait[id]) ==> s.flags[id] == {})
    ensures Inv(Notified(s, id, flag), h)
  {
    assert id in s.flags;
    if id in s.wait && Hears(s.wait[id]) {
      var x := Woken(0, Failed(E_RLWAI));
      WakeKeeps(s, h, id, x);
      UnlinkedApart(s.ports, s.wait[id], id, {});
      hide Core, Apart, Unlinked, Vacated;
      FlaggedKeeps(Wake(s, id, x), h, id, {});
    } else {
      FlaggedKeeps(s, h, id, s.flags[id] + flag);
      hide Core, Apart;
    }
  }

  lemma RunningFlag(s: Ipc, h: History, wait: map<Id, Wait>, ports: map<Id, Port>, threads: map<Id, Thread>, r: Id)
    requires Inv(s, h) && Coupled(wait, ports, threads) && OneRuns(threads, r) && s.ports == ports
    ensures r in ports && r in s.flags && r < 0x10000
  {
  }

  lemma ClearKeeps(s: Ipc, h: History, id: Id)
    requires Inv(s, h) && id in s.flags
    ensures Inv(s.(flags := s.flags[id := {}]), h)
  {
    FlaggedKeeps(s, h, id, {});
    hide Core;
  }

  lemma ReceivingKeeps(s: Ipc, h: History, id: Id, p: Id)
    requires Inv(s, h) && id in s.ports && id !in s.wait && id !in s.woken && id in s.flags && s.flags[id] == {}
    requires p in s.ports && s.ports[p].isOpen && s.ports[p].callers == []
    ensures Inv(Queue(s, id, Receiving(p)), h)
  {
    hide Core, Linked;
    ParkingKeeps(s, h, id, Receiving(p));
    ReceivingApart(s.ports, id, p);
    hide Apart;
  }

  lemma ReceivingApart(ports: map<Id, Port>, id: Id, p: Id)
    requires Apart(ports, {}) && p in ports && ports[p].isOpen && ports[p].callers == []
    ensures Apart(Linked(ports, Receiving(p), id), {})
  {
  }

  lemma HeadWaits(s: Ipc, h: History, p: Id, id: Id)
    requires Core(s, h) && p in s.ports && s.ports[p].callers != [] && s.ports[p].callers[0] == id
    ensures id in s.wait && s.wait[id].Calling? && s.wait[id].port == p && id in h.turn && h.turn[id] < |h.calls|
    ensures h.calls[h.turn[id]] == Call(id, p, s.wait[id].message, s.wait[id].key)
    ensures s.wait[id].key != 0 ==> s.wait[id].key in h.serial && h.serial[s.wait[id].key] == h.turn[id]
  {
    HeadCalls(s, h, p, id);
  }

  lemma ServedInv(s: Ipc, h: History, p: Id, id: Id)
    requires Inv(s, h) && p in s.ports && s.ports[p].callers != [] && s.ports[p].callers[0] == id
    requires id in s.wait && s.wait[id].Calling? && id in h.turn
    ensures Inv(Served(s, id), Handing(h, p, h.turn[id], s.wait[id].key))
  {
    ServedKeeps(s, h, p, id);
    ServedApart(s, id);
    hide Core, Apart, Served;
  }

  lemma Detaching(s: Ipc, h: History, id: Id)
    requires Core(s, h) && id in s.wait && s.wait[id].Calling? && s.wait[id].key != 0
    ensures s.wait[id].key in Detach(s, id).records
  {
    Unclaimed(s, h, id);
  }

  lemma AwaitingCoupled(s: Ipc, id: Id, threads: map<Id, Thread>)
    requires id in s.wait && s.wait[id].Calling? && Coupled(s.wait, s.ports, threads)
    ensures var t := Queue(Detach(s, id), id, Awaiting(s.wait[id].key)); Coupled(t.wait, t.ports, threads)
  {
    hide Parked, Remove;
  }

  lemma OtherStays(before: map<Id, Thread>, after: map<Id, Thread>, r: Id)
    requires Readier(before, after) && exists x :: x in before && x != r && before[x].Linked()
    ensures exists x :: x in after && x != r && after[x].Linked()
  {
    var x :| x in before && x != r && before[x].Linked();
    assert after[x].Linked();
  }

  lemma ZeroTaken(s: Ipc, h: History)
    requires Inv(s, h)
    ensures 0 in s.taken && 0 !in s.records
  {
  }

  lemma CoreShape(s: Ipc, h: History)
    requires Core(s, h)
    ensures Shape(s)
  {
  }

  lemma InvParts(s: Ipc, h: History)
    requires Inv(s, h)
    ensures Core(s, h) && Apart(s.ports, {}) && forall id :: id in s.wait ==> id !in s.woken
  {
  }

  lemma InvOf(s: Ipc, h: History)
    requires Core(s, h) && Apart(s.ports, {})
    ensures Inv(s, h)
  {
  }

  lemma ToldTo(s: Ipc, h: History, id: Id)
    requires Core(s, h) && id in s.woken && s.woken[id].key != 0 && s.woken[id].result.Done?
    ensures id in h.turn && h.turn[id] in h.answers && h.turn[id] < |h.calls|
    ensures h.answers[h.turn[id]] == s.woken[id].result.message && h.calls[h.turn[id]].caller == id
  {
  }

  lemma DetachPorts(s: Ipc, id: Id)
    requires id in s.wait
    ensures forall p :: p in Detach(s, id).ports <==> p in s.ports
  {
  }

  lemma QueuePorts(s: Ipc, id: Id, w: Wait)
    ensures Queue(s, id, w).wait == s.wait[id := w]
    ensures forall p :: p in Queue(s, id, w).ports <==> p in s.ports
  {
  }
}
