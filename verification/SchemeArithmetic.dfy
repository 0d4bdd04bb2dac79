/** What the library procedures on numbers and pairs compute, said without their definitions. */
module SchemeArithmetic {
  import opened Wrappers
  import opened Scheme

  function Sum(xs: seq<int>): int {
    if xs == [] then 0 else xs[0] + Sum(xs[1..])
  }

  function Product(xs: seq<int>): int {
    if xs == [] then 1 else xs[0] * Product(xs[1..])
  }

  function Abs(a: int): nat {
    if a < 0 then -a else a
  }

  /** What is left over has the sign of the number divided. */
  predicate Leaves(a: int, b: int, q: int, r: int) {
    a == q * b + r && Abs(r) < Abs(b) && (a >= 0 ==> r >= 0) && (a <= 0 ==> r <= 0)
  }

  ghost predicate IsQuotient(a: int, b: int, q: int) {
    exists r :: Leaves(a, b, q, r)
  }

  // --- one step

  lemma DifferenceUndone(a: int, b: int, c: int)
    ensures Combine(Sub, a, b) == Some(c) <==> c + b == a
    ensures Combine(Add, c, b) == Some(a) <==> c + b == a
  {
  }

  /** Multiplying is adding so many times. */
  lemma ProductSteps(a: int, b: int)
    ensures Combine(Mul, a, 0) == Some(0)
    ensures Combine(Mul, a, b).Some? && Combine(Mul, a, b + 1) == Combine(Add, Combine(Mul, a, b).value, a)
  {
  }

  lemma QuotientOnce(a: int, b: int, p: int, q: int)
    requires IsQuotient(a, b, p) && IsQuotient(a, b, q)
    ensures p == q
  {
    var r :| Leaves(a, b, p, r);
    var s :| Leaves(a, b, q, s);
    assert (p - q) * b == s - r;
    if p != q {
      TimesAtLeast(p - q, b);
    }
  }

  lemma AbsTimes(k: int, b: int)
    ensures Abs(k * b) == Abs(k) * Abs(b)
  {
    SignTimes(k, b);
    assert (-k) * b == -(k * b) && k * (-b) == -(k * b) && (-k) * (-b) == k * b;
  }

  lemma SignTimes(k: int, b: int)
    ensures (k >= 0 && b >= 0) || (k <= 0 && b <= 0) ==> k * b >= 0
    ensures (k >= 0 && b <= 0) || (k <= 0 && b >= 0) ==> k * b <= 0
  {
  }

  lemma TimesMonotone(x: nat, y: nat, m: nat)
    requires x <= y
    ensures x * m <= y * m
  {
  }

  lemma TimesAtLeast(k: int, b: int)
    requires k != 0
    ensures Abs(k * b) >= Abs(b)
  {
    AbsTimes(k, b);
    TimesMonotone(1, Abs(k), Abs(b));
  }

  lemma Truncates(a: int, b: int)
    requires b != 0
    ensures IsQuotient(a, b, TruncDiv(a, b))
  {
    TruncDivIs(a, b);
    NatQuotient(Abs(a), Abs(b));
    hide TruncDiv;
    var r := Abs(a) % Abs(b);
    LeavesSigned(a, b, Abs(a) / Abs(b), r);
  }

  lemma TruncDivIs(a: int, b: int)
    requires b != 0
    ensures TruncDiv(a, b) == if (a >= 0) == (b > 0) then Abs(a) / Abs(b) else -(Abs(a) / Abs(b))
  {
  }

  lemma LeavesSigned(a: int, b: int, q: int, r: int)
    requires Abs(a) == q * Abs(b) + r && 0 <= r < Abs(b)
    ensures IsQuotient(a, b, if (a >= 0) == (b > 0) then q else -q)
  {
    Negates(q, Abs(b));
    assert Leaves(a, b, if (a >= 0) == (b > 0) then q else -q, if a >= 0 then r else -r);
  }

  lemma NatQuotient(m: nat, n: nat)
    requires n > 0
    ensures m == (m / n) * n + m % n && m % n < n
  {
  }

  lemma Negates(q: int, n: int)
    ensures (-q) * n == -(q * n) && q * (-n) == -(q * n) && (-q) * (-n) == q * n
  {
  }

  /** Division fails exactly by 0, and gives the one quotient that leaves less than the divisor, of the dividend's
      sign. */
  lemma DivisionExact(a: int, b: int, q: int)
    ensures Combine(Div, a, b) == Some(q) <==> b != 0 && IsQuotient(a, b, q)
  {
    if b != 0 {
      Truncates(a, b);
      if IsQuotient(a, b, q) {
        QuotientOnce(a, b, q, TruncDiv(a, b));
      }
    }
    hide TruncDiv, IsQuotient;
  }

  // --- any number of arguments

  lemma {:induction false} FoldsUp(acc: int, xs: seq<int>)
    ensures Fold(Add, acc, xs) == Some(acc + Sum(xs))
    ensures Fold(Sub, acc, xs) == Some(acc - Sum(xs))
    decreases |xs|
  {
    if xs != [] {
      FoldsUp(acc + xs[0], xs[1..]);
      FoldsUp(acc - xs[0], xs[1..]);
    }
  }

  lemma {:induction false} FoldsProduct(acc: int, xs: seq<int>)
    ensures Fold(Mul, acc, xs) == Some(acc * Product(xs))
    decreases |xs|
  {
    if xs != [] {
      FoldsProduct(acc * xs[0], xs[1..]);
      Associate(acc, xs[0], Product(xs[1..]));
    }
  }

  lemma Associate(a: int, b: int, c: int)
    ensures (a * b) * c == a * (b * c)
  {
  }

  lemma {:induction false} ProductZero(xs: seq<int>)
    ensures Product(xs) == 0 <==> 0 in xs
  {
    if xs != [] {
      ProductZero(xs[1..]);
      assert 0 in xs <==> xs[0] == 0 || 0 in xs[1..];
    }
  }

  /** What one division after the other leaves is what dividing by the product leaves. */
  lemma QuotientTwice(a: int, b: int, q: int, c: int, p: int)
    requires IsQuotient(a, b, q) && IsQuotient(q, c, p)
    ensures IsQuotient(a, b * c, p)
  {
    var r :| Leaves(a, b, q, r);
    var s :| Leaves(q, c, p, s);
    Regroup(p, c, s, b, r);
    Remainder(a, b, q, r, c, s);
    assert Leaves(a, b * c, p, s * b + r);
  }

  lemma Regroup(p: int, c: int, s: int, b: int, r: int)
    ensures (p * c + s) * b + r == p * (b * c) + (s * b + r)
  {
    assert (p * c + s) * b == (p * c) * b + s * b;
    Associate(p, c, b);
    assert c * b == b * c;
  }

  lemma Remainder(a: int, b: int, q: int, r: int, c: int, s: int)
    requires Leaves(a, b, q, r) && Abs(s) < Abs(c) && (q >= 0 ==> s >= 0) && (q <= 0 ==> s <= 0)
    ensures var t := s * b + r; Abs(t) < Abs(b * c) && (a >= 0 ==> t >= 0) && (a <= 0 ==> t <= 0)
  {
    AbsTimes(s, b);
    AbsTimes(b, c);
    Below(Abs(s), Abs(c), Abs(b));
    Signs(a, b, q, r);
    SameSign(s, b, q);
  }

  lemma Below(k: nat, n: nat, m: nat)
    requires k < n
    ensures k * m + m <= m * n
  {
    TimesMonotone(k + 1, n, m);
    assert (k + 1) * m == k * m + m;
  }

  lemma Signs(a: int, b: int, q: int, r: int)
    requires Leaves(a, b, q, r)
    ensures (a >= 0 ==> q * b >= 0) && (a <= 0 ==> q * b <= 0)
  {
    if q != 0 {
      TimesAtLeast(q, b);
    }
  }

  lemma SameSign(s: int, b: int, q: int)
    requires b != 0 && (q >= 0 ==> s >= 0) && (q <= 0 ==> s <= 0)
    ensures (q * b >= 0 ==> s * b >= 0) && (q * b <= 0 ==> s * b <= 0)
  {
    SignTimes(s, b);
    SignTimes(q, b);
    if q != 0 {
      TimesAtLeast(q, b);
    }
  }

  lemma {:induction false} FoldsQuotient(acc: int, xs: seq<int>, q: int)
    ensures Fold(Div, acc, xs) == Some(q) <==> 0 !in xs && IsQuotient(acc, Product(xs), q)
    decreases |xs|
  {
    if xs == [] {
      assert Leaves(acc, 1, acc, 0);
      if IsQuotient(acc, 1, q) {
        QuotientOnce(acc, 1, q, acc);
      }
    } else if xs[0] != 0 {
      var t := TruncDiv(acc, xs[0]);
      Truncates(acc, xs[0]);
      hide TruncDiv, IsQuotient;
      FoldsQuotient(t, xs[1..], q);
      assert 0 in xs <==> 0 in xs[1..];
      if 0 !in xs {
        ProductZero(xs[1..]);
        var p := TruncDiv(t, Product(xs[1..]));
        Truncates(t, Product(xs[1..]));
        QuotientTwice(acc, xs[0], t, Product(xs[1..]), p);
        if IsQuotient(acc, Product(xs), q) {
          QuotientOnce(acc, Product(xs), p, q);
        }
        if IsQuotient(t, Product(xs[1..]), q) {
          QuotientOnce(t, Product(xs[1..]), p, q);
        }
      }
    } else {
      assert xs[0] in xs;
    }
  }

  /** Subtraction takes the sum of the others from the first; a single argument is negated. */
  lemma SumMeans(xs: seq<int>)
    ensures Arithmetic(Add, xs) == Some(Sum(xs))
    ensures Arithmetic(Sub, xs) ==
      if xs == [] then None else if |xs| == 1 then Some(-xs[0]) else Some(xs[0] - Sum(xs[1..]))
  {
    hide Fold, Sum;
    FoldsUp(0, xs);
    if xs != [] {
      FoldsUp(xs[0], xs[1..]);
    }
  }

  lemma ProductMeans(xs: seq<int>)
    ensures Arithmetic(Mul, xs) == if xs == [] then None else Some(Product(xs))
  {
    hide Fold, Product;
    if |xs| == 1 {
      OneFactor(xs);
    } else if xs != [] {
      FoldsProduct(xs[0], xs[1..]);
      FirstFactor(xs);
    }
  }

  /** Division divides the first by the product of the others; a single argument divides 1. */
  lemma QuotientMeans(xs: seq<int>, q: int)
    ensures Arithmetic(Div, xs) == Some(q) <==>
      && xs != []
      && var first, others := if |xs| == 1 then 1 else xs[0], if |xs| == 1 then xs else xs[1..];
      0 !in others && IsQuotient(first, Product(others), q)
  {
    hide Fold, IsQuotient, Product, Combine;
    if |xs| == 1 {
      DivisionExact(1, xs[0], q);
      OneFactor(xs);
      assert 0 in xs <==> xs[0] == 0;
    } else if xs != [] {
      FoldsQuotient(xs[0], xs[1..], q);
    }
  }

  lemma OneFactor(xs: seq<int>)
    requires |xs| == 1
    ensures Product(xs) == xs[0]
  {
    assert xs[1..] == [];
  }

  lemma FirstFactor(xs: seq<int>)
    requires xs != []
    ensures Product(xs) == xs[0] * Product(xs[1..])
  {
  }

  // --- the order of the arguments of + and * does not matter

  lemma {:induction false} SumMiddle(xs: seq<int>, j: nat)
    requires j < |xs|
    ensures Sum(xs) == xs[j] + Sum(xs[..j] + xs[j + 1..])
    ensures Product(xs) == xs[j] * Product(xs[..j] + xs[j + 1..])
  {
    var rest := xs[..j] + xs[j + 1..];
    if j == 0 {
      assert rest == xs[1..];
    } else {
      SumMiddle(xs[1..], j - 1);
      assert rest[1..] == xs[1..][..j - 1] + xs[1..][j..];
      Associate(xs[0], xs[j], Product(rest[1..]));
      Associate(xs[j], xs[0], Product(rest[1..]));
    }
  }

  lemma TakenOut<T>(xs: seq<T>, ys: seq<T>, j: nat)
    requires xs != [] && multiset(xs) == multiset(ys) && j < |ys| && ys[j] == xs[0]
    ensures multiset(xs[1..]) == multiset(ys[..j] + ys[j + 1..])
  {
    assert ys == ys[..j] + ([ys[j]] + ys[j + 1..]);
    assert xs == [xs[0]] + xs[1..];
    assert multiset(ys) == multiset(ys[..j]) + multiset{ys[j]} + multiset(ys[j + 1..]);
    assert multiset(xs) == multiset{xs[0]} + multiset(xs[1..]);
    assert multiset(xs[1..]) == multiset(xs) - multiset{xs[0]};
  }

  lemma {:induction false} SumPermuted(xs: seq<int>, ys: seq<int>)
    requires multiset(xs) == multiset(ys)
    ensures Sum(xs) == Sum(ys) && Product(xs) == Product(ys)
    decreases |xs|
  {
    if xs == [] {
      assert |multiset(ys)| == 0;
    } else {
      assert xs[0] in multiset(ys);
      var j :| 0 <= j < |ys| && ys[j] == xs[0];
      var rest := ys[..j] + ys[j + 1..];
      TakenOut(xs, ys, j);
      SumPermuted(xs[1..], rest);
      SumMiddle(ys, j);
    }
  }

  lemma {:induction false} IntsPermuted(vs: seq<Value>, ws: seq<Value>)
    requires multiset(vs) == multiset(ws) && AllInts(vs)
    ensures AllInts(ws) && multiset(Ints(vs)) == multiset(Ints(ws))
    decreases |vs|
  {
    forall i | 0 <= i < |ws| ensures ws[i].IntV? {
      assert ws[i] in multiset(vs);
    }
    if vs == [] {
      assert |multiset(ws)| == 0;
    } else {
      assert vs[0] in multiset(ws);
      var j :| 0 <= j < |ws| && ws[j] == vs[0];
      var rest := ws[..j] + ws[j + 1..];
      TakenOut(vs, ws, j);
      IntsPermuted(vs[1..], rest);
      assert Ints(vs) == [vs[0].i] + Ints(vs[1..]);
      assert Ints(ws) == Ints(ws)[..j] + [ws[j].i] + Ints(ws)[j + 1..];
      assert Ints(rest) == Ints(ws)[..j] + Ints(ws)[j + 1..];
    }
  }

  lemma OrderIrrelevant(vs: seq<Value>, ws: seq<Value>, op: ArithOp)
    requires multiset(vs) == multiset(ws) && (op == Add || op == Mul)
    ensures ApplyPrim(Arith(op), vs) == ApplyPrim(Arith(op), ws)
  {
    if AllInts(vs) {
      IntsPermuted(vs, ws);
      var xs, ys := Ints(vs), Ints(ws);
      SumPermuted(xs, ys);
      assert |multiset(xs)| == |multiset(ys)|;
      hide Arithmetic;
      SumMeans(xs);
      SumMeans(ys);
      ProductMeans(xs);
      ProductMeans(ys);
    } else if AllInts(ws) {
      IntsPermuted(ws, vs);
    }
  }

  /** What is put into a pair comes out of it, and nothing else is a pair. */
  lemma PairsHold(a: Value, b: Value)
    ensures var p := ApplyPrim(Cons, [a, b]);
      && p.Val? && ApplyPrim(Car, [p.v]) == Val(a) && ApplyPrim(Cdr, [p.v]) == Val(b)
      && ApplyPrim(IsPair, [p.v]) == Val(BoolV(true))
    ensures ApplyPrim(Car, [a]).Err? <==> ApplyPrim(IsPair, [a]) == Val(BoolV(false))
    ensures ApplyPrim(Cdr, [a]).Err? <==> ApplyPrim(IsPair, [a]) == Val(BoolV(false))
  {
  }

  // --- whole programs

  function Literals(xs: seq<int>): (es: seq<Expr>)
    ensures |es| == |xs|
  {
    seq(|xs|, i requires 0 <= i < |xs| => Num(xs[i]))
  }

  function IntValues(xs: seq<int>): (vs: seq<Value>)
    ensures |vs| == |xs| && AllInts(vs) && Ints(vs) == xs
  {
    seq(|xs|, i requires 0 <= i < |xs| => IntV(xs[i]))
  }

  lemma {:induction false} LiteralValues(g: Globals, xs: seq<int>, env: seq<Frame>, fuel: nat)
    ensures EvalArgs(g, Literals(xs), env, fuel) == Vals(IntValues(xs))
    decreases |xs|
  {
    if xs != [] {
      LiteralValues(g, xs[1..], env, fuel);
      assert Literals(xs)[1..] == Literals(xs[1..]);
      assert IntValues(xs) == [IntV(xs[0])] + IntValues(xs[1..]);
      assert Eval(g, Literals(xs)[0], env, fuel) == Val(IntV(xs[0]));
    }
  }

  /** A procedure of the library applied to literals. */
  lemma ProgramApplies(g: Globals, x: Symbol, op: ArithOp, xs: seq<int>, fuel: nat)
    requires x in g.modules && g.modules[x] == Arith(op)
    ensures Eval(g, Call(Var(x), Literals(xs)), [], fuel) ==
      match Arithmetic(op, xs) case None => Err case Some(i) => Val(IntV(i))
  {
    hide Arithmetic, Literals, IntValues;
    LiteralValues(g, xs, [], fuel);
    assert EvalVar(g, [], x) == Val(PrimV(Arith(op)));
    assert Eval(g, Var(x), [], fuel) == Val(PrimV(Arith(op)));
  }

  /** So a difference added to what was taken away is what it was taken from, and what a quotient leaves is less
      than the divisor. */
  lemma ProgramMeans(g: Globals, x: Symbol, op: ArithOp, a: int, b: int, c: int, fuel: nat)
    requires x in g.modules && g.modules[x] == Arith(op)
    ensures Eval(g, Call(Var(x), Literals([a, b])), [], fuel) == Val(IntV(c)) <==>
      match op case Add => a == c - b case Sub => c + b == a case Mul => c == a * b case Div =>
        b != 0 && IsQuotient(a, b, c)
  {
    ProgramApplies(g, x, op, [a, b], fuel);
    hide Arithmetic, Eval, IsQuotient;
    SumMeans([a, b]);
    ProductMeans([a, b]);
    QuotientMeans([a, b], c);
    assert [a, b][1..] == [b];
    OneFactor([b]);
    assert Sum([b]) == b + Sum([]);
  }
}
