/** Lists without repetition, as the queues and buffers' lists are. */
module Lists {
  predicate NoDup(s: seq<nat>) {
    s == [] || (s[0] !in s[1..] && NoDup(s[1..]))
  }

  function Remove(s: seq<nat>, x: nat): seq<nat> {
    if s == [] then [] else if s[0] == x then s[1..] else [s[0]] + Remove(s[1..], x)
  }

  lemma InFirstRest(s: seq<nat>, y: nat)
    requires s != []
    ensures y in s <==> y == s[0] || y in s[1..]
  {
  }

  lemma {:induction false} RemoveFacts(s: seq<nat>, x: nat)
    requires NoDup(s)
    ensures NoDup(Remove(s, x))
    ensures forall y :: y in Remove(s, x) <==> y in s && y != x
  {
    if s != [] {
      RemoveFacts(s[1..], x);
      if s[0] != x {
        var r := Remove(s, x);
        assert r[0] == s[0] && r[1..] == Remove(s[1..], x);
        forall y ensures y in r <==> y in s && y != x {
          InFirstRest(r, y);
          InFirstRest(s, y);
        }
      }
    }
  }

  lemma {:induction false} RemoveAbsent(s: seq<nat>, x: nat)
    requires x !in s
    ensures Remove(s, x) == s
  {
    if s != [] {
      RemoveAbsent(s[1..], x);
    }
  }

  lemma {:induction false} AppendFacts(s: seq<nat>, x: nat)
    requires NoDup(s) && x !in s
    ensures NoDup(s + [x])
  {
    if s != [] {
      AppendFacts(s[1..], x);
      assert (s + [x])[1..] == s[1..] + [x];
    }
  }
}
