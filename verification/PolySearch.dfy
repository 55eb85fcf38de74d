/** The exhaustive search of core/libcorrect/tools/find_conv_optim_poly.c: the enumeration of all
    coefficient vectors by adding 2 with carry, and the tournament that halves the candidates. */
module PolySearch {

  function Pow(b: nat, e: nat): nat { if e == 0 then 1 else b * Pow(b, e - 1) }

  // correct_convolutional_polynomial_t has 16 bits, an int 32.
  const WIDTH: nat := 65536
  const MAX_ORDER: nat := 30

  function MaxCoeff(order: nat): nat
    requires 1 <= order <= MAX_ORDER
  {
    PowIsPositive(2, order);
    (Pow(2, order) - 1) % WIDTH
  }

  function StartCoeff(order: nat): nat
    requires 1 <= order <= MAX_ORDER
  {
    (Pow(2, order - 1) + 1) % WIDTH
  }

  // The division of the code is towards zero.
  function NumPolys(order: nat): nat
    requires 1 <= order <= MAX_ORDER
  {
    Ends(order);
    if MaxCoeff(order) < StartCoeff(order) then 1 - (StartCoeff(order) - MaxCoeff(order)) / 2
    else (MaxCoeff(order) - StartCoeff(order)) / 2 + 1
  }

  /** What an order is searched for: odd coefficients of at most that many bits, the top one set. */
  predicate Coefficient(c: nat, order: nat)
    requires order > 0
  {
    c % 2 == 1 && Pow(2, order - 1) <= c < Pow(2, order)
  }

  /** What is enumerated: from the first coefficient on in steps of 2, as many as the code counts. */
  predicate Candidate(c: nat, order: nat)
    requires 1 <= order <= MAX_ORDER
  {
    c >= StartCoeff(order) && (c - StartCoeff(order)) % 2 == 0 && Digit(c, order) < NumPolys(order)
  }

  ghost predicate Vector(p: seq<nat>, order: nat)
    requires 1 <= order <= MAX_ORDER
  {
    forall j :: 0 <= j < |p| ==> Candidate(p[j], order)
  }

  // What a coefficient counts for, from 0 on.
  function Digit(c: nat, order: nat): int
    requires 1 <= order <= MAX_ORDER
  {
    (c - StartCoeff(order)) / 2
  }

  /** The vector read as a number in base NumPolys, the first coefficient counting least. */
  function Value(p: seq<nat>, order: nat): int
    requires 1 <= order <= MAX_ORDER
  {
    if p == [] then 0 else Digit(p[0], order) + NumPolys(order) * Value(p[1..], order)
  }

  lemma {:induction false} PowOfSum(b: nat, d: nat, e: nat)
    ensures Pow(b, d + e) == Pow(b, d) * Pow(b, e)
  {
    if d > 0 {
      PowOfSum(b, d - 1, e);
      assert Pow(b, d + e) == b * (Pow(b, d - 1) * Pow(b, e));
      assert b * (Pow(b, d - 1) * Pow(b, e)) == (b * Pow(b, d - 1)) * Pow(b, e);
    }
  }

  lemma WidthIsPow()
    ensures Pow(2, 16) == WIDTH
  {
    assert Pow(2, 4) == 16;
    PowOfSum(2, 4, 4);
    PowOfSum(2, 8, 8);
  }

  // Up to 16 the ends of the range are those of the order; beyond, they are those of 16 bits.
  lemma Ends(order: nat)
    requires 1 <= order <= MAX_ORDER
    ensures order == 1 ==> StartCoeff(order) == 2 && MaxCoeff(order) == 1
    ensures 2 <= order <= 16 ==>
              && StartCoeff(order) == Pow(2, order - 1) + 1 && MaxCoeff(order) == Pow(2, order) - 1
              && Pow(2, order - 1) == 2 * Pow(2, order - 2) && Pow(2, order) == 4 * Pow(2, order - 2) && Pow(2, order - 2) > 0
    ensures order > 16 ==> StartCoeff(order) == 1 && MaxCoeff(order) == WIDTH - 1 && Pow(2, order - 1) >= WIDTH
  {
    if order == 1 {
      assert Pow(2, 0) == 1 && Pow(2, 1) == 2;
    } else if order <= 16 {
      EndsInWidth(order);
    } else {
      EndsBeyond(order);
    }
  }

  lemma EndsInWidth(order: nat)
    requires 2 <= order <= 16
    ensures Pow(2, order - 1) == 2 * Pow(2, order - 2) && Pow(2, order) == 4 * Pow(2, order - 2)
    ensures 0 < Pow(2, order - 2) && Pow(2, order) <= WIDTH
  {
    WidthIsPow();
    PowOfSum(2, order, 16 - order);
    PowIsPositive(2, 16 - order);
    PowIsPositive(2, order - 2);
    AtMostProduct(Pow(2, order), Pow(2, 16 - order));
  }

  lemma EndsBeyond(order: nat)
    requires order > 16
    ensures Pow(2, order - 1) >= WIDTH && (Pow(2, order - 1) + 1) % WIDTH == 1
    ensures Pow(2, order) > 0 && (Pow(2, order) - 1) % WIDTH == WIDTH - 1
  {
    WidthIsPow();
    PowOfSum(2, order - 17, 16);
    PowIsPositive(2, order - 17);
    Multiple(Pow(2, order - 17));
    assert Pow(2, order) == 2 * Pow(2, order - 1);
  }

  lemma AtMostProduct(a: nat, b: nat)
    requires b > 0
    ensures a <= a * b
  {
  }

  lemma Multiple(a: nat)
    requires a > 0
    ensures a * WIDTH >= WIDTH && (a * WIDTH + 1) % WIDTH == 1 && (2 * (a * WIDTH) - 1) % WIDTH == WIDTH - 1
  {
    assert 2 * (a * WIDTH) - 1 == (2 * a - 1) * WIDTH + (WIDTH - 1);
  }

  /** The orders from 2 to 16 are searched for exactly their coefficients. Order 1 has the single
      candidate 2, which is even, and beyond 16 the first coefficient loses its top bit. */
  lemma CandidatesExactly(order: nat)
    requires 1 <= order <= MAX_ORDER
    ensures (forall c: nat :: Candidate(c, order) <==> Coefficient(c, order)) <==> 2 <= order <= 16
    ensures order == 1 ==> forall c: nat :: Candidate(c, order) <==> c == 2
    ensures order > 16 ==> Candidate(1, order) && !Coefficient(1, order)
    ensures 2 <= order <= 16 ==> NumPolys(order) == Pow(2, order - 2)
  {
    Ends(order);
    if order == 1 {
      assert Candidate(2, order) && !Coefficient(2, order);
    } else {
      hide Pow;
      if order > 16 { assert Candidate(1, order) && !Coefficient(1, order); }
    }
  }

  /** The last candidate is the one from which no 2 can be added. */
  lemma Coefficients(order: nat, c: nat)
    requires 1 <= order <= MAX_ORDER
    ensures NumPolys(order) > 0
    ensures Candidate(c, order) ==> (c >= MaxCoeff(order) <==> Digit(c, order) == NumPolys(order) - 1)
    ensures Candidate(c, order) ==> 0 <= Digit(c, order) < NumPolys(order) && c == StartCoeff(order) + 2 * Digit(c, order)
    ensures Candidate(StartCoeff(order), order) && Digit(StartCoeff(order), order) == 0
  {
    Ends(order);
    hide Pow;
  }

  lemma {:induction false} PowIsPositive(b: nat, e: nat)
    requires b > 0
    ensures Pow(b, e) > 0
  {
    if e > 0 { PowIsPositive(b, e - 1); }
  }

  /** A vector's value is less than the number of vectors. */
  lemma {:induction false} ValueIsBelow(p: seq<nat>, order: nat)
    requires 1 <= order <= MAX_ORDER && Vector(p, order)
    ensures 0 <= Value(p, order) < Pow(NumPolys(order), |p|)
  {
    if p != [] {
      var n := NumPolys(order);
      ValueIsBelow(p[1..], order);
      Coefficients(order, p[0]);
      DigitAndRest(Digit(p[0], order), Value(p[1..], order), n, Pow(n, |p| - 1));
    }
  }

  lemma Times(n: nat, a: int, b: int)
    requires a <= b
    ensures n * a <= n * b && n * (b + 1) == n * b + n
  {
  }

  lemma DigitAndRest(d: int, v: int, n: nat, q: nat)
    requires 0 <= d < n && 0 <= v < q
    ensures 0 <= d + n * v < n * q
  {
    Times(n, 0, v);
    Times(n, v + 1, q);
    Times(n, v, v);
  }

  /** Two vectors with the same value are the same. */
  lemma {:induction false} ValueDetermines(p: seq<nat>, q: seq<nat>, order: nat)
    requires 1 <= order <= MAX_ORDER && Vector(p, order) && Vector(q, order) && |p| == |q| && Value(p, order) == Value(q, order)
    ensures p == q
  {
    hide NumPolys, MaxCoeff, StartCoeff, Candidate, Digit;
    if p != [] {
      var n := NumPolys(order);
      Coefficients(order, p[0]);
      Coefficients(order, q[0]);
      SameDigits(Digit(p[0], order), Value(p[1..], order), Digit(q[0], order), Value(q[1..], order), n);
      ValueDetermines(p[1..], q[1..], order);
      assert p == [p[0]] + p[1..] && q == [q[0]] + q[1..];
    }
  }

  lemma SameDigits(d: int, v: int, e: int, w: int, n: nat)
    requires 0 <= d < n && 0 <= e < n && d + n * v == e + n * w
    ensures d == e && v == w
  {
    if v > w {
      Times(n, w + 1, v);
      Times(n, w, w);
    } else if v < w {
      Times(n, v + 1, w);
      Times(n, v, v);
    }
  }

  /** Adding 2 with carry to a vector: the next one, or the first one again after the last. */
  function Next(p: seq<nat>, order: nat): seq<nat>
    requires 1 <= order <= MAX_ORDER
  {
    if p == [] then []
    else if p[0] < MaxCoeff(order) then [p[0] + 2] + p[1..]
    else [StartCoeff(order)] + Next(p[1..], order)
  }

  lemma {:induction false} NextCounts(p: seq<nat>, order: nat)
    requires 1 <= order <= MAX_ORDER && Vector(p, order)
    ensures |Next(p, order)| == |p| && Vector(Next(p, order), order)
    ensures Value(Next(p, order), order)
         == if Value(p, order) == Pow(NumPolys(order), |p|) - 1 then 0 else Value(p, order) + 1
  {
    hide NumPolys, MaxCoeff, StartCoeff, Candidate, Digit;
    if p != [] {
      var n, rest := NumPolys(order), p[1..];
      NextCounts(rest, order);
      ValueIsBelow(rest, order);
      var d, v, q := Digit(p[0], order), Value(rest, order), Pow(n, |rest|);
      if p[0] < MaxCoeff(order) {
        NextDigit(p[0], order);
        var p' := [p[0] + 2] + rest;
        assert p'[1..] == rest && p'[0] == p[0] + 2;
        assert forall j :: 0 < j < |p'| ==> p'[j] == p[j];
        DigitAndRest(d + 1, v, n, q);
      } else {
        LastDigit(p[0], order);
        var p' := [StartCoeff(order)] + Next(rest, order);
        assert p'[1..] == Next(rest, order) && p'[0] == StartCoeff(order);
        Carry(v, n, q, Value(Next(rest, order), order));
      }
    }
  }

  lemma NextDigit(c: nat, order: nat)
    requires 1 <= order <= MAX_ORDER && Candidate(c, order) && c < MaxCoeff(order)
    ensures Candidate(c + 2, order) && Digit(c + 2, order) == Digit(c, order) + 1
    ensures 0 <= Digit(c, order) < Digit(c + 2, order) < NumPolys(order)
  {
    hide NumPolys, MaxCoeff, StartCoeff;
    Coefficients(order, c);
    Coefficients(order, c + 2);
  }

  lemma LastDigit(c: nat, order: nat)
    requires 1 <= order <= MAX_ORDER && Candidate(c, order) && c >= MaxCoeff(order)
    ensures Candidate(StartCoeff(order), order) && Digit(StartCoeff(order), order) == 0
    ensures Digit(c, order) == NumPolys(order) - 1
  {
    hide NumPolys, MaxCoeff, StartCoeff;
    Coefficients(order, c);
  }

  // The last digit turns to 0 and the rest v, of q, goes to w.
  lemma Carry(v: int, n: nat, q: nat, w: int)
    requires 0 <= v < q && w == if v == q - 1 then 0 else v + 1
    ensures 0 + n * w == if n - 1 + n * v == n * q - 1 then 0 else n - 1 + n * v + 1
  {
    Times(n, v, v);
    if n > 0 && v < q - 1 {
      Times(n, v + 1, q - 1);
      Times(n, q - 1, q - 1);
    }
  }

  // ---- the enumeration

  /** Adds 2 with carry, in place. */
  method AddTwo(iter: array<nat>, order: nat)
    requires 1 <= order <= MAX_ORDER
    modifies iter
    ensures iter[..] == Next(old(iter[..]), order)
  {
    hide Next, MaxCoeff, StartCoeff;
    ghost var was, done := iter[..], [];
    var j := 0;
    assert was[0..] == was;
    while j < iter.Length
      invariant j <= iter.Length && |done| == j
      invariant forall k :: 0 <= k < j ==> iter[k] == done[k]
      invariant forall k :: j <= k < iter.Length ==> iter[k] == was[k]
      invariant Next(was, order) == done + Next(was[j..], order)
    {
      NextAt(was, j, order);
      if iter[j] < MaxCoeff(order) {
        iter[j] := iter[j] + 2;
        assert iter[..] == done + ([was[j] + 2] + was[j + 1..]);
        return;
      }
      iter[j] := StartCoeff(order);
      done := done + [StartCoeff(order)];
      j := j + 1;
    }
    NextAt(was, j, order);
    assert iter[..] == done;
  }

  lemma NextAt(p: seq<nat>, j: nat, order: nat)
    requires j <= |p| && 1 <= order <= MAX_ORDER
    ensures Next(p[j..], order) == if j == |p| then []
                                   else if p[j] < MaxCoeff(order) then [p[j] + 2] + p[j + 1..]
                                   else [StartCoeff(order)] + Next(p[j + 1..], order)
  {
  }

  lemma {:induction false} FirstVector(p: seq<nat>, order: nat)
    requires 1 <= order <= MAX_ORDER && forall j :: 0 <= j < |p| ==> p[j] == StartCoeff(order)
    ensures Vector(p, order) && Value(p, order) == 0
  {
    Coefficients(order, StartCoeff(order));
    if p != [] { FirstVector(p[1..], order); }
  }

  /** All candidates: the i-th is the number i written in base NumPolys. */
  method Enumerate(rate: nat, order: nat) returns (table: array<seq<nat>>)
    requires 1 <= order <= MAX_ORDER
    ensures fresh(table) && table.Length == Pow(NumPolys(order), rate)
    ensures forall i :: 0 <= i < table.Length ==>
              |table[i]| == rate && Vector(table[i], order) && Value(table[i], order) == i
  {
    hide NumPolys, StartCoeff, Candidate, Vector, Value, Next;
    var n := NumPolys(order);
    var length, r := 1, 0;
    while r < rate
      invariant r <= rate && length == Pow(n, r)
    {
      length := length * n;
      r := r + 1;
    }
    var iter := new nat[rate](_ => StartCoeff(order));
    FirstVector(iter[..], order);
    table := new seq<nat>[length];
    var i := 0;
    while i < length
      invariant i <= length && |iter[..]| == rate
      invariant Vector(iter[..], order) && (i < length ==> Value(iter[..], order) == i)
      invariant forall k :: 0 <= k < i ==> |table[k]| == rate && Vector(table[k], order) && Value(table[k], order) == k
    {
      table[i] := iter[..];
      NextCounts(iter[..], order);
      AddTwo(iter, order);
      i := i + 1;
    }
  }

  /** Every vector of candidates is in the table, at exactly one place; for the orders from 2 to 16
      these are the vectors of odd coefficients with the top bit set. */
  lemma EachExactlyOnce(table: seq<seq<nat>>, rate: nat, order: nat, p: seq<nat>)
    requires 1 <= order <= MAX_ORDER && |table| == Pow(NumPolys(order), rate)
    requires forall i :: 0 <= i < |table| ==> |table[i]| == rate && Vector(table[i], order) && Value(table[i], order) == i
    requires |p| == rate && Vector(p, order)
    ensures 0 <= Value(p, order) < |table| && table[Value(p, order)] == p
    ensures forall i :: 0 <= i < |table| && table[i] == p ==> i == Value(p, order)
  {
    hide NumPolys, Vector, Value;
    ValueIsBelow(p, order);
    ValueDetermines(table[Value(p, order)], p, order);
  }

  // ---- the tournament

  const SURVIVORS: nat := 20
  const MAX_MESSAGE: nat := 50000000

  // How many are left of `count`, and how long the message is in the next round.
  function Left(count: nat, bytes: nat): nat {
    if bytes >= MAX_MESSAGE || count / 2 < SURVIVORS then SURVIVORS else count / 2
  }

  function Longer(bytes: nat): nat {
    if bytes >= MAX_MESSAGE then bytes else if 2 * bytes < MAX_MESSAGE then 2 * bytes else MAX_MESSAGE
  }

  ghost predicate Permutes<T(!new)>(rank: (nat, seq<T>) -> seq<T>) {
    forall n: nat, s :: multiset(rank(n, s)) == multiset(s)
  }

  /** Round after round, the best-ranked ones go on. */
  ghost function Survivors<T(!new)>(items: seq<T>, bytes: nat, rank: (nat, seq<T>) -> seq<T>): seq<T>
    requires Permutes(rank)
    decreases |items|
  {
    if |items| <= SURVIVORS then items
    else
      SameLength(rank(bytes, items), items);
      Survivors(rank(bytes, items)[..Left(|items|, bytes)], Longer(bytes), rank)
  }

  /** Candidates are ranked with ever longer messages and the worse half is dropped, until 20 are
      left. `rank` is the order that the costs of a round give. Each round at least halves the
      candidates or is the last, so that 20 * 2^k of them need at most k rounds. */
  method Tournament<T(==,!new)>(items: seq<T>, bytes: nat, rank: (nat, seq<T>) -> seq<T>, ghost k: nat)
    returns (winners: seq<T>, rounds: nat)
    requires Permutes(rank) && |items| <= SURVIVORS * Pow(2, k)
    ensures winners == Survivors(items, bytes, rank)
    ensures |winners| == if |items| > SURVIVORS then SURVIVORS else |items|
    ensures rounds <= k && (bytes >= MAX_MESSAGE ==> rounds <= 1)
  {
    winners, rounds := items, 0;
    var n: nat := bytes;
    while |winners| > SURVIVORS
      invariant |winners| == |items| || |winners| >= SURVIVORS
      invariant Survivors(winners, n, rank) == Survivors(items, bytes, rank)
      invariant rounds <= k && |winners| <= SURVIVORS * Pow(2, k - rounds)
      invariant bytes >= MAX_MESSAGE ==> n == bytes && (rounds == 0 || (rounds == 1 && |winners| == SURVIVORS))
      invariant |items| <= SURVIVORS ==> winners == items
      decreases |winners|
    {
      var ranked := rank(n, winners);
      SameLength(ranked, winners);
      var left := if |winners| / 2 < SURVIVORS then SURVIVORS else |winners| / 2;
      if n >= MAX_MESSAGE {
        left := SURVIVORS;
      } else {
        n := if 2 * n < MAX_MESSAGE then 2 * n else MAX_MESSAGE;
      }
      assert Pow(2, 0) == 1;
      assert Pow(2, k - rounds) == 2 * Pow(2, k - rounds - 1);
      PowIsPositive(2, k - rounds - 1);
      winners := ranked[..left];
      rounds := rounds + 1;
    }
  }

  /** One round: the message doubles up to its longest; half of the candidates, the best-ranked, go
      on, but never fewer than 20, and just 20 of them after a message of that length. */
  lemma RoundKeeps<T(!new)>(items: seq<T>, bytes: nat, rank: (nat, seq<T>) -> seq<T>)
    requires Permutes(rank)
    ensures |items| <= 20 ==> Survivors(items, bytes, rank) == items
    ensures |items| > 20 && bytes >= 50000000 ==> |rank(bytes, items)| == |items| && Survivors(items, bytes, rank) == rank(bytes, items)[..20]
    ensures |items| > 20 && bytes < 50000000 ==>
              var half, double := |items| / 2, 2 * bytes;
              && |rank(bytes, items)| == |items|
              && Survivors(items, bytes, rank)
                 == Survivors(rank(bytes, items)[..if half < 20 then 20 else half], if double > 50000000 then 50000000 else double, rank)
  {
    if |items| > 20 { SameLength(rank(bytes, items), items); }
  }

  // A round sorts by its costs (search_exhaustive_fin); what a message of n bytes costs may differ
  // from round to round.
  ghost predicate SortsBy<T(!new)>(rank: (nat, seq<T>) -> seq<T>, cost: (nat, T) -> real) {
    forall n: nat, s, i, j :: 0 <= i < j < |rank(n, s)| ==> cost(n, rank(n, s)[i]) <= cost(n, rank(n, s)[j])
  }

  lemma {:induction false} SurvivorsAreItems<T(!new)>(items: seq<T>, bytes: nat, rank: (nat, seq<T>) -> seq<T>)
    requires Permutes(rank)
    ensures multiset(Survivors(items, bytes, rank)) <= multiset(items)
    decreases |items|
  {
    if |items| > SURVIVORS {
      var ranked, left := rank(bytes, items), Left(|items|, bytes);
      SameLength(ranked, items);
      assert ranked == ranked[..left] + ranked[left..];
      SurvivorsAreItems(ranked[..left], Longer(bytes), rank);
    }
  }

  /** The survivors are candidates, and no survivor has been worse in every round than a candidate
      that was dropped: in some round it cost no more. With costs that do not change between rounds
      the survivors are the cheapest. */
  lemma {:induction false} BestSurvive<T(!new)>(items: seq<T>, bytes: nat, rank: (nat, seq<T>) -> seq<T>,
                                                 cost: (nat, T) -> real, a: T, b: T)
    requires Permutes(rank) && SortsBy(rank, cost)
    requires a in Survivors(items, bytes, rank) && b in multiset(items) - multiset(Survivors(items, bytes, rank))
    ensures multiset(Survivors(items, bytes, rank)) <= multiset(items)
    ensures exists n: nat :: cost(n, a) <= cost(n, b)
    decreases |items|
  {
    SurvivorsAreItems(items, bytes, rank);
    var ranked, left, end := rank(bytes, items), Left(|items|, bytes), Survivors(items, bytes, rank);
    SameLength(ranked, items);
    if |items| > SURVIVORS {
      var top, rest := ranked[..left], ranked[left..];
      assert ranked == top + rest;
      SurvivorsAreItems(top, Longer(bytes), rank);
      if multiset(top)[b] > multiset(end)[b] {
        BestSurvive(top, Longer(bytes), rank, cost, a, b);
      } else {
        assert a in multiset(end) && a in multiset(top) && b in multiset(rest);
        var i :| 0 <= i < |top| && top[i] == a;
        var j :| 0 <= j < |rest| && rest[j] == b;
        assert cost(bytes, ranked[i]) <= cost(bytes, ranked[left + j]);
      }
    }
  }

  lemma SameLength<T>(a: seq<T>, b: seq<T>)
    requires multiset(a) == multiset(b)
    ensures |a| == |b|
  {
    assert |multiset(a)| == |a| && |multiset(b)| == |b|;
  }
}
