/** The keys of `kernel/ipc.c` that nobody is left to give back. */
module LostKeys {
  import opened Wrappers
  import opened Scheduler
  import opened Rendezvous
  import opened RendezvousSteps

  /** No server was given the key, no thread waits with it, and no caller has yet to come back and free it. */
  ghost predicate Lost(s: Ipc, h: History, k: nat) {
    && k != 0 && k in s.records && k !in h.delivered
    && (forall x :: x in s.wait ==> Held(s.wait[x]) != k)
    && forall x :: x in s.woken && s.woken[x].result.Failed? ==> s.woken[x].key != k
  }

  /** What was lost stays lost. */
  ghost predicate StayLost(s: Ipc, h: History, t: Ipc, g: History) {
    forall k :: Lost(s, h, k) ==> Lost(t, g, k)
  }

  lemma LostIsTaken(s: Ipc, h: History, k: nat)
    requires Keys(s, h) && Lost(s, h, k)
    ensures k in s.taken
  {
  }

  lemma LostTrans(s: Ipc, h: History, t: Ipc, g: History, u: Ipc, f: History)
    requires StayLost(s, h, t, g) && StayLost(t, g, u, f)
    ensures StayLost(s, h, u, f)
  {
    hide Lost;
  }

  /** Ports and flags have no part in it. */
  lemma LostElsewhere(s: Ipc, h: History, t: Ipc, g: History)
    requires t.wait == s.wait && t.woken == s.woken && t.records == s.records && g.delivered == h.delivered
    ensures StayLost(s, h, t, g)
  {
  }

  lemma LostWake(s: Ipc, h: History, id: Id, x: Woken)
    requires id in s.wait && (x.result.Failed? ==> x.key == 0 || x.key == Held(s.wait[id]))
    ensures StayLost(s, h, Wake(s, id, x), h)
  {
    hide Unlinked;
  }

  lemma LostQueue(s: Ipc, h: History, id: Id, w: Wait)
    requires Held(w) == 0
    ensures StayLost(s, h, Queue(s, id, w), h)
  {
    hide Linked;
  }

  lemma LostCall(s: Ipc, h: History, id: Id, p: Id, k: nat, m: Message, maxReply: nat)
    requires k == 0 || k !in s.records
    ensures StayLost(s, h, Asking(s, id, p, k, m, maxReply), Recorded(h, id, p, k, m))
  {
    hide Linked;
  }

  lemma LostMeet(s: Ipc, h: History, id: Id, p: Id, n: nat, k: nat, maxReply: nat)
    requires k !in s.records
    ensures StayLost(s, h, Met(s, id, k, maxReply), Handing(h, p, n, k))
  {
    hide Linked;
  }

  lemma LostServe(s: Ipc, h: History, p: Id, n: nat, id: Id)
    requires id in s.wait && s.wait[id].Calling?
    ensures StayLost(s, h, Served(s, id), Handing(h, p, n, s.wait[id].key))
  {
    hide Unlinked, Linked;
  }

  lemma LostReply(s: Ipc, h: History, k: nat, m: Message)
    requires k in s.records && k in h.delivered
    requires s.records[k].caller.Some? ==> s.records[k].caller.value in s.wait
    ensures StayLost(s, h, Replied(s, k, m), Answered(h, k, m))
  {
    hide Unlinked;
  }

  lemma LostResume(s: Ipc, h: History, id: Id)
    ensures StayLost(s, h, Taken(s, id), h)
  {
  }

  lemma LostAbandon(s: Ipc, h: History, id: Id)
    requires id in s.woken && s.woken[id].result.Failed?
    ensures StayLost(s, h, Freed(Taken(s, id), s.woken[id].key), Abandoned(h, s.woken[id].key))
  {
  }

  lemma WakeRecords(s: Ipc, id: Id, x: Woken)
    requires id in s.wait
    ensures Wake(s, id, x).records.Keys == s.records.Keys
  {
    hide Unlinked;
  }

  lemma LostHand(s: Ipc, h: History, p: Id, n: nat, k: nat)
    requires k == 0 || k !in s.records
    ensures StayLost(s, h, s, Handing(h, p, n, k))
  {
  }

  lemma LostKilled(s: Ipc, h: History, id: Id)
    ensures StayLost(s, h, Killed(s, id), h)
  {
    hide Unlinked;
  }

  /** The thread has the key of a call not received yet, or of one that failed. */
  ghost predicate Bears(s: Ipc, id: Id, k: nat) {
    || (id in s.wait && s.wait[id].Calling? && s.wait[id].key == k)
    || (id in s.woken && s.woken[id].result.Failed? && s.woken[id].key == k)
  }

  lemma KilledLosesOwn(s: Ipc, h: History, id: Id, k: nat)
    requires Keys(s, h) && k != 0 && Bears(s, id, k)
    ensures Lost(Killed(s, id), h, k)
  {
    hide Unlinked;
    assert k in s.records && k !in h.delivered && h.owner[k] == id;
  }

  /** A thread that is terminated loses such a key, and no other is lost. */
  lemma KilledLoses(s: Ipc, h: History, id: Id, k: nat)
    requires Keys(s, h) && k != 0
    ensures Lost(Killed(s, id), h, k) <==> Lost(s, h, k) || Bears(s, id, k)
  {
    if Bears(s, id, k) {
      KilledLosesOwn(s, h, id, k);
    } else if Lost(Killed(s, id), h, k) {
      hide Unlinked;
      var t := Killed(s, id);
      forall x | x in s.wait ensures Held(s.wait[x]) != k {
        assert x == id || x in t.wait;
      }
      forall x | x in s.woken && s.woken[x].result.Failed? ensures s.woken[x].key != k {
        assert x == id || x in t.woken;
      }
    }
  }
}
