/** Threads, their states, and the ready queues: who runs next. */
module Scheduler {
  import opened Lists

  const MAX_PRIORITY := 7

  type Id = nat

  datatype Status = RUN | RDY | WAI | SUS | WAS | DMT

  /** `base` is the priority a thread starts with. */
  datatype Thread = Thread(status: Status, priority: nat, base: nat) {
    predicate Linked() {
      status == RUN || status == RDY
    }

    predicate Parked() {
      status == WAI || status == WAS
    }
  }

  type Queues = seq<seq<Id>>

  predicate On(threads: map<Id, Thread>, id: Id, p: nat) {
    id in threads && threads[id].Linked() && threads[id].priority == p
  }

  ghost predicate Urgencies(threads: map<Id, Thread>) {
    forall id :: id in threads ==> threads[id].priority <= MAX_PRIORITY && threads[id].base <= MAX_PRIORITY
  }

  ghost predicate InStep(ready: Queues, threads: map<Id, Thread>) {
    |ready| == MAX_PRIORITY + 1 && forall p, id :: 0 <= p < |ready| ==> (id in ready[p] <==> On(threads, id, p))
  }

  ghost predicate Distinct(ready: Queues) {
    forall p :: 0 <= p < |ready| ==> NoDup(ready[p])
  }

  ghost predicate OneRuns(threads: map<Id, Thread>, running: Id) {
    running in threads && forall id :: id in threads && threads[id].status == RUN ==> id == running
  }

  /** A mark may be stale, but no queue with a thread in it goes unmarked. */
  ghost predicate Marked(bits: set<nat>, ready: Queues) {
    && (forall p :: p in bits ==> p < |ready|)
    && forall p :: 0 <= p < |ready| && ready[p] != [] ==> p in bits
  }

  /** The head of the most urgent queue that holds a thread. */
  ghost predicate Chosen(ready: Queues, id: Id) {
    exists p :: 0 <= p < |ready| && ready[p] != [] && id == ready[p][0] && forall q :: 0 <= q < p ==> ready[q] == []
  }

  lemma ChosenOnce(ready: Queues, x: Id, y: Id)
    requires Chosen(ready, x) && Chosen(ready, y)
    ensures x == y
  {
    var p :| 0 <= p < |ready| && ready[p] != [] && x == ready[p][0] && forall q :: 0 <= q < p ==> ready[q] == [];
    var r :| 0 <= r < |ready| && ready[r] != [] && y == ready[r][0] && forall q :: 0 <= q < r ==> ready[q] == [];
    assert p == r;
  }

  lemma LinkKeeps(ready: Queues, threads: map<Id, Thread>, id: Id, t: Thread)
    requires InStep(ready, threads) && Distinct(ready) && (id in threads ==> !threads[id].Linked())
    requires t.Linked() && t.priority <= MAX_PRIORITY
    ensures InStep(ready[t.priority := ready[t.priority] + [id]], threads[id := t])
    ensures Distinct(ready[t.priority := ready[t.priority] + [id]])
  {
    assert !On(threads, id, t.priority);
    AppendFacts(ready[t.priority], id);
    hide NoDup;
  }

  lemma UnlinkKeeps(ready: Queues, threads: map<Id, Thread>, id: Id, t: Thread)
    requires InStep(ready, threads) && Distinct(ready) && Urgencies(threads) && id in threads && !t.Linked()
    ensures InStep(ready[threads[id].priority := Remove(ready[threads[id].priority], id)], threads[id := t])
    ensures Distinct(ready[threads[id].priority := Remove(ready[threads[id].priority], id)])
  {
    RemoveFacts(ready[threads[id].priority], id);
    hide NoDup, Remove;
  }

  lemma RotateKeeps(ready: Queues, threads: map<Id, Thread>, p: nat)
    requires InStep(ready, threads) && Distinct(ready) && p <= MAX_PRIORITY && ready[p] != []
    ensures InStep(ready[p := ready[p][1..] + [ready[p][0]]], threads)
    ensures Distinct(ready[p := ready[p][1..] + [ready[p][0]]])
  {
    var q := ready[p];
    AppendFacts(q[1..], q[0]);
    forall y ensures y in q[1..] + [q[0]] <==> y in q {
      InFirstRest(q, y);
    }
    hide NoDup;
  }

  /** A change that neither links nor unlinks the thread. */
  lemma RestateKeeps(ready: Queues, threads: map<Id, Thread>, id: Id, t: Thread)
    requires InStep(ready, threads)
    requires if id in threads then t.Linked() == threads[id].Linked() && (t.Linked() ==>
      t.priority == threads[id].priority)
             else !t.Linked()
    ensures InStep(ready, threads[id := t])
  {
    var after := threads[id := t];
    forall p, x | 0 <= p < |ready| ensures x in ready[p] <==> On(after, x, p) {
      assert On(threads, x, p) <==> On(after, x, p);
    }
  }

  lemma DropKeeps(ready: Queues, threads: map<Id, Thread>, id: Id)
    requires InStep(ready, threads) && id in threads && !threads[id].Linked()
    ensures InStep(ready, threads - {id})
  {
    var after := threads - {id};
    forall p, x | 0 <= p < |ready| ensures x in ready[p] <==> On(after, x, p) {
      assert On(threads, x, p) <==> On(after, x, p);
    }
  }

  ghost function Parked(threads: map<Id, Thread>): set<Id> {
    set id | id in threads && threads[id].Parked()
  }

  /** What `dispatch` does to the states of the two threads. */
  function Switch(threads: map<Id, Thread>, prev: Id, next: Id): map<Id, Thread>
  {
    if next == prev || prev !in threads || next !in threads then threads else
    var left := if threads[prev].status == RUN then threads[prev := threads[prev].(status := RDY)] else threads;
    left[next := left[next].(status := RUN)]
  }

  /** Only the two threads change, and only in state: the one switched to runs, and the one switched from is ready if it
      was running and stays parked, suspended or dormant if it was not. */
  lemma SwitchMeans(threads: map<Id, Thread>, prev: Id, next: Id)
    requires prev in threads && next in threads
    ensures var after := Switch(threads, prev, next);
      && after.Keys == threads.Keys
      && (forall id :: id in threads && id != prev && id != next ==> after[id] == threads[id])
      && (forall id :: id in threads ==> after[id] == threads[id].(status := after[id].status))
      && (prev == next ==> after == threads)
      && (prev != next ==> after[next].status == RUN)
      && (prev != next && threads[prev].status == RUN ==> after[prev].status == RDY)
      && (prev != next && threads[prev].status != RUN ==> after[prev].status == threads[prev].status)
  {
  }

  lemma HeadLinked(ready: Queues, threads: map<Id, Thread>)
    requires InStep(ready, threads) && Urgencies(threads) && exists id :: id in threads && threads[id].Linked()
    ensures exists p :: 0 <= p < |ready| && ready[p] != []
  {
    var id :| id in threads && threads[id].Linked();
    assert On(threads, id, threads[id].priority);
  }

  lemma ChosenLinked(ready: Queues, threads: map<Id, Thread>, id: Id)
    requires InStep(ready, threads) && Chosen(ready, id)
    ensures id in threads && threads[id].Linked()
  {
    var p :| 0 <= p < |ready| && ready[p] != [] && id == ready[p][0];
    assert On(threads, id, p);
  }

  lemma SwitchKeeps(ready: Queues, threads: map<Id, Thread>, prev: Id, next: Id)
    requires InStep(ready, threads) && Urgencies(threads) && OneRuns(threads, prev)
    requires next in threads && threads[next].Linked()
    ensures InStep(ready, Switch(threads, prev, next)) && Urgencies(Switch(threads, prev, next))
    ensures OneRuns(Switch(threads, prev, next), next) && Parked(Switch(threads, prev, next)) == Parked(threads)
  {
    if next != prev {
      var left := if threads[prev].status == RUN then threads[prev := threads[prev].(status := RDY)] else threads;
      if threads[prev].status == RUN {
        RestateKeeps(ready, threads, prev, threads[prev].(status := RDY));
      }
      RestateKeeps(ready, left, next, left[next].(status := RUN));
    }
  }

  /** The most urgent priority is the lowest number. */
  method Lowest(bits: set<nat>) returns (p: nat)
    requires bits != {}
    ensures p in bits && forall q :: q in bits ==> p <= q
  {
    p :| p in bits;
    var rest := bits - {p};
    while rest != {}
      invariant rest <= bits && p in bits
      invariant forall q :: q in bits && q !in rest ==> p <= q
      decreases rest
    {
      var q :| q in rest;
      if q < p {
        p := q;
      }
      rest := rest - {q};
    }
  }

  class Threads {
    var threads: map<Id, Thread>
    var ready: Queues
    var bits: set<nat>
    var running: Id

    ghost predicate Valid()
      reads this
    {
      && Urgencies(threads) && InStep(ready, threads) && Distinct(ready)
      && OneRuns(threads, running) && Marked(bits, ready)
    }

    predicate SomeReady()
      reads this
    {
      exists x :: x in threads && threads[x].Linked()
    }

    /** Some thread other than `id` is ready: the idle thread always is. */
    predicate OtherReady(id: Id)
      reads this
    {
      exists x :: x in threads && x != id && threads[x].Linked()
    }

    constructor (idle: Id)
      ensures Valid() && running == idle
      ensures threads == map[idle := Thread(RUN, MAX_PRIORITY, MAX_PRIORITY)]
    {
      threads := map[idle := Thread(RUN, MAX_PRIORITY, MAX_PRIORITY)];
      ready := [[], [], [], [], [], [], [], [idle]];
      bits := {MAX_PRIORITY};
      running := idle;
    }

    /** Links a thread, made ready with the given priority, at the end of its queue. */
    method Enqueue(id: Id, t: Thread)
      requires Valid() && id in threads && !threads[id].Linked()
      requires t.status == RDY && t.priority <= MAX_PRIORITY && t.base <= MAX_PRIORITY
      modifies this
      ensures Valid() && running == old(running) && threads == old(threads)[id := t]
      ensures ready == old(ready)[t.priority := old(ready)[t.priority] + [id]]
    {
      LinkKeeps(ready, threads, id, t);
      hide InStep, Distinct, On;
      bits := bits + {t.priority};
      ready := ready[t.priority := ready[t.priority] + [id]];
      threads := threads[id := t];
    }

    /** Unlinks a thread if it is linked, leaving the marks alone. */
    method Unlink(id: Id, s: Status)
      requires Valid() && id in threads && !Thread(s, 0, 0).Linked()
      modifies this
      ensures Valid() && running == old(running) && threads == old(threads)[id := old(threads)[id].(status := s)]
      ensures ready == old(ready)[threads[id].priority := Remove(old(ready)[threads[id].priority], id)]
    {
      var p := threads[id].priority;
      UnlinkKeeps(ready, threads, id, threads[id].(status := s));
      RemoveFacts(ready[p], id);
      hide InStep, Distinct, On, Remove, NoDup;
      ready := ready[p := Remove(ready[p], id)];
      threads := threads[id := threads[id].(status := s)];
    }

    /** A change of state that neither links nor unlinks. */
    method Restate(id: Id, s: Status)
      requires Valid() && id in threads && !threads[id].Linked() && !Thread(s, 0, 0).Linked()
      modifies this`threads
      ensures Valid() && threads == old(threads)[id := old(threads)[id].(status := s)]
    {
      RestateKeeps(ready, threads, id, threads[id].(status := s));
      hide InStep, Distinct, On;
      threads := threads[id := threads[id].(status := s)];
    }

    /** The head of the most urgent queue, dropping stale marks on the way. */
    method FindNext() returns (next: Id)
      requires Valid() && exists p :: 0 <= p < |ready| && ready[p] != []
      modifies this`bits
      ensures Valid() && Chosen(ready, next)
    {
      hide InStep, Distinct, On;
      while true
        invariant Valid()
        decreases bits
      {
        var p := Lowest(bits);
        if ready[p] != [] {
          return ready[p][0];
        }
        bits := bits - {p};
      }
    }

    /** Switches to the most urgent ready thread. */
    method Dispatch()
      requires Valid() && SomeReady()
      modifies this
      ensures Valid() && ready == old(ready) && Chosen(ready, running)
      ensures threads == Switch(old(threads), old(running), running)
      ensures running != old(running) ==> threads[running].status == RUN
      ensures Parked(threads) == Parked(old(threads)) && threads.Keys == old(threads).Keys
    {
      HeadLinked(ready, threads);
      var next := FindNext();
      ChosenLinked(ready, threads, next);
      SwitchKeeps(ready, threads, running, next);
      hide InStep, Distinct, On;
      threads, running := Switch(threads, running, next), next;
    }

    /** The running thread parks, and another runs. */
    method Wait()
      requires Valid() && OtherReady(running)
      modifies this
      ensures Valid() && Chosen(ready, running) && running != old(running)
      ensures threads ==
              Switch(old(threads)[old(running) := old(threads)[old(running)].(status := WAI)], old(running), running)
      ensures Parked(threads) == Parked(old(threads)) + {old(running)} && threads.Keys == old(threads).Keys
      ensures threads[old(running)].status == WAI
      ensures var p := old(threads)[old(running)].priority;
        ready == old(ready)[p := Remove(old(ready)[p], old(running))]
    {
      ghost var x :| x in threads && x != running && threads[x].Linked();
      Unlink(running, WAI);
      assert threads[x].Linked();
      hide InStep, Distinct, On;
      Dispatch();
      ChosenLinked(ready, threads, running);
    }

    /** Ends a thread's wait; a suspended thread stays suspended. */
    method Release(id: Id)
      requires Valid() && id in threads && threads[id].Parked()
      modifies this
      ensures Valid() && running == old(running)
      ensures threads == old(threads)[id := old(threads)[id].(status := if old(threads)[id].status == WAI then RDY
        else SUS)]
      ensures old(threads)[id].status == WAI ==>
        ready == old(ready)[threads[id].priority := old(ready)[threads[id].priority] + [id]]
      ensures old(threads)[id].status == WAS ==> ready == old(ready)
      ensures Parked(threads) == Parked(old(threads)) - {id}
    {
      hide InStep, Distinct, On, Marked;
      if threads[id].status == WAI {
        Enqueue(id, threads[id].(status := RDY));
      } else {
        Restate(id, SUS);
      }
    }

    method Create(id: Id, pri: nat) returns (ok: bool)
      requires Valid() && pri <= MAX_PRIORITY
      modifies this`threads
      ensures Valid() && ok == (id !in old(threads))
      ensures threads == if ok then old(threads)[id := Thread(DMT, 0, pri)] else old(threads)
      ensures Parked(threads) == Parked(old(threads))
    {
      ok := id !in threads;
      if ok {
        RestateKeeps(ready, threads, id, Thread(DMT, 0, pri));
        hide InStep, Distinct, On;
        threads := threads[id := Thread(DMT, 0, pri)];
      }
    }

    method Destroy(id: Id) returns (ok: bool)
      requires Valid() && threads[running].status != DMT
      modifies this`threads
      ensures Valid() && ok == (id in old(threads) && old(threads)[id].status == DMT)
      ensures threads == if ok then old(threads) - {id} else old(threads)
      ensures Parked(threads) == Parked(old(threads))
    {
      ok := id in threads && threads[id].status == DMT;
      if ok {
        DropKeeps(ready, threads, id);
        hide InStep, Distinct, On;
        threads := threads - {id};
      }
    }

    /** Starts a dormant thread at its base priority; the starter may be preempted. */
    method Start(id: Id) returns (ok: bool)
      requires Valid()
      modifies this
      ensures Valid() && ok == (id in old(threads) && old(threads)[id].status == DMT)
      ensures ok ==> Chosen(ready, running)
      ensures ok ==>
        var t := Thread(RDY, old(threads)[id].base, old(threads)[id].base);
        threads == Switch(old(threads)[id := t], old(running), running)
      ensures !ok ==> threads == old(threads) && running == old(running)
      ensures Parked(threads) == Parked(old(threads)) && threads.Keys == old(threads).Keys
      ensures ok ==> var p := old(threads)[id].base; ready == old(ready)[p := old(ready)[p] + [id]]
    {
      hide InStep, Distinct, On, Marked;
      ok := id in threads && threads[id].status == DMT;
      if ok {
        Enqueue(id, Thread(RDY, threads[id].base, threads[id].base));
        assert threads[id].Linked();
        Dispatch();
      }
    }

    method End()
      requires Valid() && OtherReady(running)
      modifies this
      ensures Valid() && Chosen(ready, running)
      ensures threads ==
              Switch(old(threads)[old(running) := old(threads)[old(running)].(status := DMT)], old(running), running)
      ensures Parked(threads) == Parked(old(threads)) - {old(running)} && threads.Keys == old(threads).Keys
      ensures threads[old(running)].status == DMT
      ensures var p := old(threads)[old(running)].priority;
        ready == old(ready)[p := Remove(old(ready)[p], old(running))]
    {
      ghost var x :| x in threads && x != running && threads[x].Linked();
      Unlink(running, DMT);
      assert threads[x].Linked();
      hide InStep, Distinct, On;
      Dispatch();
    }

    /** Terminates another thread; the running thread and dormant ones are refused. */
    method Terminate(id: Id) returns (ok: bool)
      requires Valid()
      modifies this
      ensures Valid() && running == old(running)
      ensures ok == (id in old(threads) && old(threads)[id].status != RUN && old(threads)[id].status != DMT)
      ensures threads == if ok then old(threads)[id := old(threads)[id].(status := DMT)] else old(threads)
      ensures Parked(threads) == Parked(old(threads)) - (if ok then {id} else {})
      ensures ok ==> var p := old(threads)[id].priority;
        ready == if old(threads)[id].status == RDY then old(ready)[p := Remove(old(ready)[p], id)] else old(ready)
    {
      hide InStep, Distinct, On, Marked;
      if id !in threads {
        return false;
      }
      match threads[id].status {
        case RUN => ok := false;
        case RDY =>
          Unlink(id, DMT);
          ok := true;
        case WAI | WAS | SUS =>
          Restate(id, DMT);
          ok := true;
        case DMT => ok := false;
      }
    }

    /** Suspends a thread; `self` marks a thread that asks for itself and gives way at once. */
    method Suspend(id: Id, self: bool) returns (ok: bool)
      requires Valid() && (self ==> id == running && OtherReady(running))
      modifies this
      ensures Valid() && ok == (id in old(threads) && old(threads)[id].status in {RUN, RDY, WAI})
      ensures ok && self && old(threads)[id].status == RUN ==> Chosen(ready, running)
      ensures !(ok && self && old(threads)[id].status == RUN) ==> running == old(running)
      ensures ok ==>
        var s := if old(threads)[id].status == WAI then WAS else SUS;
        threads == Switch(old(threads)[id := old(threads)[id].(status := s)], old(running), running)
      ensures !ok ==> threads == old(threads)
      ensures Parked(threads) == Parked(old(threads)) && threads.Keys == old(threads).Keys
      ensures ok ==> threads[id].status == if old(threads)[id].status == WAI then WAS else SUS
      ensures ok ==> var p := old(threads)[id].priority;
        ready == if old(threads)[id].status == WAI then old(ready) else old(ready)[p := Remove(old(ready)[p], id)]
    {
      hide InStep, Distinct, On, Marked;
      if id !in threads {
        return false;
      }
      match threads[id].status {
        case RUN =>
          ghost var x :| self ==> x in threads && x != running && threads[x].Linked();
          Unlink(id, SUS);
          ok := true;
          if self {
            assert threads[x].Linked();
            Dispatch();
          }
        case RDY =>
          Unlink(id, SUS);
          ok := true;
        case WAI =>
          Restate(id, WAS);
          ok := true;
        case SUS | WAS | DMT => ok := false;
      }
    }

    method Resume(id: Id) returns (ok: bool)
      requires Valid()
      modifies this
      ensures Valid() && ok == (id in old(threads) && old(threads)[id].status in {SUS, WAS})
      ensures ok && old(threads)[id].status == SUS ==> Chosen(ready, running)
      ensures !(ok && old(threads)[id].status == SUS) ==> running == old(running)
      ensures ok ==>
        var s := if old(threads)[id].status == WAS then WAI else RDY;
        threads == Switch(old(threads)[id := old(threads)[id].(status := s)], old(running), running)
      ensures !ok ==> threads == old(threads)
      ensures Parked(threads) == Parked(old(threads)) && threads.Keys == old(threads).Keys
      ensures ok ==> var p := old(threads)[id].priority;
        ready == if old(threads)[id].status == WAS then old(ready) else old(ready)[p := old(ready)[p] + [id]]
    {
      hide InStep, Distinct, On, Marked;
      if id !in threads {
        return false;
      }
      match threads[id].status {
        case SUS =>
          Enqueue(id, threads[id].(status := RDY));
          assert threads[id].Linked();
          Dispatch();
          ok := true;
        case WAS =>
          Restate(id, WAI);
          ok := true;
        case RUN | RDY | WAI | DMT => ok := false;
      }
    }

    /** At the end of its quantum a thread at the head of its queue goes to the end. */
    method Rotate(pri: nat, id: Id)
      requires Valid() && pri <= MAX_PRIORITY
      modifies this`ready
      ensures Valid()
      ensures ready == if old(ready)[pri] != [] && old(ready)[pri][0] == id
                       then old(ready)[pri := old(ready)[pri][1..] + [id]] else old(ready)
    {
      var q := ready[pri];
      if q != [] && q[0] == id {
        if |q| != 1 {
          RotateKeeps(ready, threads, pri);
          hide InStep, Distinct, On;
          ready := ready[pri := q[1..] + [id]];
        } else {
          assert q[1..] + [id] == q;
        }
      }
    }
  }
}
