/** What a thread comes back with: that every message handed to a receiver is one that was sent to its port, with a
    tag that leads back to the sender and to the key of the call. */
module Passing {
  import opened Wrappers
  import opened Lists
  import opened Scheduler
  import opened Rendezvous
  import opened RendezvousSteps

  /** The outcome of a receive is call or message n: its sender and its key are in the tag. */
  ghost predicate Brings(calls: seq<Call>, handed: set<nat>, n: nat, p: Id, r: Result) {
    r.Done? && n in handed && n < |calls| && calls[n] == Call(PortOf(r.tag), p, r.message, KeyOf(r.tag))
  }

  /** What a thread whose wait went well comes back with, by what it waited for. */
  ghost predicate Comes(calls: seq<Call>, handed: set<nat>, id: Id, x: Woken) {
    x.result.Done? ==>
      match x.was
      case Receiving(p) => x.key == 0 && exists n: nat :: Brings(calls, handed, n, p, x.result)
      case Calling(p, k, m) =>
        x.key == k == 0 && x.result == Done(0, []) && exists n: nat :: Sent(calls, handed, n, Call(id, p, m, 0))
      case Awaiting(k) => x.key == k
      case OnFlag => false
  }

  ghost predicate Sent(calls: seq<Call>, handed: set<nat>, n: nat, c: Call) {
    n in handed && n < |calls| && calls[n] == c
  }

  ghost predicate Brought(woken: map<Id, Woken>, calls: seq<Call>, handed: set<nat>) {
    forall id :: id in woken ==> Comes(calls, handed, id, woken[id])
  }

  /** Until it is answered, the key of a call that was handed out stands for it, and a server has it. */
  ghost predicate Outstanding(h: History) {
    forall n :: n in h.handed ==>
      && n < |h.calls|
      && (h.calls[n].key != 0 && n !in h.answers ==>
            var k := h.calls[n].key; k in h.delivered && k in h.serial && h.serial[k] == n)
  }

  /** What waits in line was not handed out before. */
  ghost predicate Unhanded(wait: map<Id, Wait>, turn: map<Id, nat>, handed: set<nat>) {
    forall id :: id in wait && wait[id].Calling? ==> id in turn && turn[id] !in handed
  }

  ghost predicate Passed(s: Ipc, h: History) {
    Brought(s.woken, h.calls, h.handed) && Outstanding(h) && Unhanded(s.wait, h.turn, h.handed)
  }

  lemma ComesStill(calls: seq<Call>, handed: set<nat>, more: seq<Call>, handed': set<nat>, id: Id, x: Woken)
    requires Comes(calls, handed, id, x) && handed <= handed'
    ensures Comes(calls + more, handed', id, x)
  {
    if x.result.Done? && x.was.Receiving? {
      var n: nat :| Brings(calls, handed, n, x.was.port, x.result);
      assert Brings(calls + more, handed', n, x.was.port, x.result);
    } else if x.result.Done? && x.was.Calling? {
      var c := Call(id, x.was.port, x.was.message, 0);
      var n: nat :| Sent(calls, handed, n, c);
      assert Sent(calls + more, handed', n, c);
    }
  }

  lemma BroughtStill(woken: map<Id, Woken>, calls: seq<Call>, handed: set<nat>, more: seq<Call>, handed': set<nat>)
    requires Brought(woken, calls, handed) && handed <= handed'
    ensures Brought(woken, calls + more, handed')
  {
    hide Comes;
    forall id | id in woken ensures Comes(calls + more, handed', id, woken[id]) {
      ComesStill(calls, handed, more, handed', id, woken[id]);
    }
  }

  /** Nothing is handed out, and no wait ends well. */
  lemma PassLess(s: Ipc, h: History, t: Ipc, g: History)
    requires Passed(s, h) && g.calls == h.calls && g.handed == h.handed && g.turn == h.turn && g.serial == h.serial
    requires g.answers == h.answers && g.delivered == h.delivered
    requires forall id :: id in t.woken ==> t.woken[id].result.Failed? || (id in s.woken && t.woken[id] == s.woken[id])
    requires forall id :: id in t.wait && t.wait[id].Calling? ==> id in s.wait && t.wait[id] == s.wait[id]
    ensures Passed(t, g)
  {
    forall id | id in t.woken ensures Comes(g.calls, g.handed, id, t.woken[id]) {
      if t.woken[id].result.Done? {
        assert Comes(h.calls, h.handed, id, s.woken[id]);
      }
    }
    hide Comes;
  }

  /** A caller joins the line: its call is a new one. */
  lemma PassAsking(s: Ipc, h: History, id: Id, p: Id, k: nat, m: Message, maxReply: nat)
    requires Passed(s, h) && Keys(s, h) && id !in s.wait && (k == 0 || k !in s.taken)
    ensures Passed(Asking(s, id, p, k, m, maxReply), Recorded(h, id, p, k, m))
  {
    var t, g := Asking(s, id, p, k, m, maxReply), Recorded(h, id, p, k, m);
    BroughtStill(s.woken, h.calls, h.handed, [Call(id, p, m, k)], h.handed);
    OutstandingMore(s, h, id, p, k, m);
    hide Brought, Outstanding, Linked, Filled;
  }

  lemma OutstandingMore(s: Ipc, h: History, id: Id, p: Id, k: nat, m: Message)
    requires Outstanding(h) && Keys(s, h) && (k == 0 || k !in s.taken)
    ensures Outstanding(Recorded(h, id, p, k, m))
  {
    hide Owned;
  }

  lemma TagLeadsBack(r: Id, k: nat)
    requires r < 0x10000
    ensures PortOf(Tag(r, k)) == r && KeyOf(Tag(r, k)) == k
  {
    TagRoundTrip(r, k);
  }

  /** A waiting receiver is handed a call or message at once. */
  lemma PassMeeting(s: Ipc, h: History, id: Id, r: Id, p: Id, k: nat, m: Message, maxReply: nat)
    requires Passed(s, h) && Keys(s, h) && id in s.wait && s.wait[id] == Receiving(p) && r !in s.wait && r < 0x10000
    requires (k == 0 || k !in s.taken) && Asked(s.wait, h.serial, h.calls, h.turn)
    ensures var t := Wake(s, id, Woken(0, Done(Tag(r, k), m)));
      Passed(if k == 0 then t else Met(t, r, k, maxReply), Handing(Recorded(h, r, p, k, m), p, |h.calls|, k))
  {
    hide Brought, Outstanding, Unhanded, Keys, Asked, Comes, Brings;
    var n, x := |h.calls|, Woken(0, Done(Tag(r, k), m), Receiving(p));
    var h1 := Recorded(h, r, p, k, m);
    OutstandingMore(s, h, r, p, k, m);
    OutstandingHanded(h1, p, n, k);
    BroughtNew(s.woken, h, id, r, p, k, m);
    UnhandedNew(s.wait, h, r, n, id);
    WakeWaits(s, id, Woken(0, Done(Tag(r, k), m)));
    hide Wake, Linked, Filled;
  }

  lemma WakeWaits(s: Ipc, id: Id, x: Woken)
    requires id in s.wait
    ensures Wake(s, id, x).wait == s.wait - {id} && Wake(s, id, x).woken == s.woken[id := x.(was := s.wait[id])]
  {
  }

  /** The receiver comes back with the newest call. */
  lemma BroughtNew(woken: map<Id, Woken>, h: History, id: Id, r: Id, p: Id, k: nat, m: Message)
    requires Brought(woken, h.calls, h.handed) && r < 0x10000
    ensures Brought(woken[id := Woken(0, Done(Tag(r, k), m), Receiving(p))], h.calls + [Call(r, p, m, k)],
                    h.handed + {|h.calls|})
  {
    var n, c, x := |h.calls|, Call(r, p, m, k), Woken(0, Done(Tag(r, k), m), Receiving(p));
    TagLeadsBack(r, k);
    hide Tag, PortOf, KeyOf;
    BroughtStill(woken, h.calls, h.handed, [c], h.handed + {n});
    assert Brings(h.calls + [c], h.handed + {n}, n, p, x.result);
    assert Comes(h.calls + [c], h.handed + {n}, id, x);
    hide Comes, Brings;
  }

  lemma UnhandedNew(wait: map<Id, Wait>, h: History, r: Id, n: nat, id: Id)
    requires Unhanded(wait, h.turn, h.handed) && Asked(wait, h.serial, h.calls, h.turn) && r !in wait && n == |h.calls|
    ensures Unhanded(wait - {id}, h.turn[r := n], h.handed + {n})
    ensures forall k :: Unhanded((wait - {id})[r := Awaiting(k)], h.turn[r := n], h.handed + {n})
  {
  }

  lemma OutstandingHanded(h: History, p: Id, n: nat, k: nat)
    requires Outstanding(h) && n < |h.calls| && h.calls[n].key == k && (k != 0 ==> k in h.serial && h.serial[k] == n)
    ensures Outstanding(Handing(h, p, n, k))
  {
  }

  /** The caller waiting longest is taken. */
  lemma PassServed(s: Ipc, h: History, p: Id, id: Id)
    requires Passed(s, h) && Asked(s.wait, h.serial, h.calls, h.turn) && id in s.wait && s.wait[id].Calling?
    requires s.wait[id].port == p
    ensures id in h.turn && Passed(Served(s, id), Handing(h, p, h.turn[id], s.wait[id].key))
  {
    var n, w := h.turn[id], s.wait[id];
    var g := Handing(h, p, n, w.key);
    assert h.calls[n] == Call(id, p, w.message, w.key);
    assert Held(w) == w.key;
    OutstandingHanded(h, p, n, w.key);
    assert h.calls + [] == h.calls;
    BroughtStill(s.woken, h.calls, h.handed, [], g.handed);
    forall y | y in s.wait && s.wait[y].Calling? && y != id ensures h.turn[y] != n {
      assert h.calls[h.turn[y]].caller == y;
    }
    hide Outstanding, Linked, Filled, Unlinked, Vacated, Asked;
    if w.key == 0 {
      assert Sent(g.calls, g.handed, n, Call(id, p, w.message, 0));
      assert Comes(g.calls, g.handed, id, Woken(0, Done(0, []), w));
    }
    hide Comes;
  }

  lemma PassReplied(s: Ipc, h: History, k: nat, m: Message)
    requires Passed(s, h) && RecordOf(s.records, s.wait) && k in s.records
    requires s.records[k].caller.Some? ==> s.records[k].caller.value in s.wait
    ensures Passed(Replied(s, k, m), Answered(h, k, m))
  {
    OutstandingAnswered(h, k, m);
    hide Brought, Outstanding, Unhanded;
    if s.records[k].caller.Some? {
      var id := s.records[k].caller.value;
      CallerWaits(s, k);
      hide RecordOf;
      WakeWaits(s, id, Woken(k, Done(0, m)));
      hide Wake;
      BroughtReply(s.woken, h, id, k, m);
      UnhandedLess(s.wait, h.turn, h.handed, id);
    }
  }

  lemma OutstandingAnswered(h: History, k: nat, m: Message)
    requires Outstanding(h)
    ensures Outstanding(Answered(h, k, m))
  {
  }

  lemma BroughtReply(woken: map<Id, Woken>, h: History, id: Id, k: nat, m: Message)
    requires Brought(woken, h.calls, h.handed)
    ensures Brought(woken[id := Woken(k, Done(0, m), Awaiting(k))], h.calls, h.handed)
  {
    assert Comes(h.calls, h.handed, id, Woken(k, Done(0, m), Awaiting(k)));
    hide Comes;
  }

  lemma UnhandedLess(wait: map<Id, Wait>, turn: map<Id, nat>, handed: set<nat>, id: Id)
    requires Unhanded(wait, turn, handed)
    ensures Unhanded(wait - {id}, turn, handed)
  {
  }

  /** A caller that failed gives back a key that no server has. */
  lemma PassAbandoned(s: Ipc, h: History, id: Id)
    requires Passed(s, h) && Keys(s, h) && id in s.woken && s.woken[id].result.Failed?
    ensures Passed(Freed(Taken(s, id), s.woken[id].key), Abandoned(h, s.woken[id].key))
  {
    var k := s.woken[id].key;
    assert k !in h.delivered;
    assert h.delivered - {k} == h.delivered;
    hide Passed, Keys;
    PassLess(s, h, Freed(Taken(s, id), k), Abandoned(h, k));
  }
}
