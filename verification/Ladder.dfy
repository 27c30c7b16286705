// A price ladder: the queues of a sorted map, laid end to end from the best price to the worst.

module Ladder {
  import opened Orders

  lemma Some<T>(s: set<T>) returns (x: T)
    requires s != {}
    ensures x in s
  {
    x :| x in s;
  }

  lemma BestExists(buy: bool, keys: set<int>) returns (k: int)
    requires keys != {}
    ensures k in keys && forall q :: q in keys ==> Ahead(buy, k, q)
    decreases |keys|
  {
    var x := Some(keys);
    var rest := keys - {x};
    k := x;
    if rest != {} {
      var r := BestExists(buy, rest);
      if !Ahead(buy, x, r) {
        k := r;
      }
    }
    forall q | q in keys
      ensures Ahead(buy, k, q)
    {
      if q != x {
        assert q in rest;
      }
    }
  }

  /** The key at the good end of the map: the largest for buys, the smallest for sells. */
  function Best(buy: bool, keys: set<int>): (k: int)
    requires keys != {}
    ensures k in keys && forall q :: q in keys ==> Ahead(buy, k, q)
  {
    assert exists k :: k in keys && forall q :: q in keys ==> Ahead(buy, k, q) by {
      var k := BestExists(buy, keys);
    }
    var k :| k in keys && forall q :: q in keys ==> Ahead(buy, k, q);
    k
  }

  /** Every queue, best price first. */
  function Flat<T>(buy: bool, m: map<int, seq<T>>): seq<T>
    decreases |m.Keys|
  {
    if m.Keys == {} then []
    else
      var k := Best(buy, m.Keys);
      m[k] + Flat(buy, m - {k})
  }

  function At<T>(m: map<int, seq<T>>, p: int): seq<T> {
    if p in m then m[p] else []
  }

  /** The levels strictly better than `p`. */
  function Better<T>(buy: bool, m: map<int, seq<T>>, p: int): map<int, seq<T>> {
    map k | k in m && k != p && Ahead(buy, k, p) :: m[k]
  }

  /** The levels strictly worse than `p`. */
  function Worse<T>(buy: bool, m: map<int, seq<T>>, p: int): map<int, seq<T>> {
    map k | k in m && !Ahead(buy, k, p) :: m[k]
  }

  lemma BetterTail<T>(buy: bool, m: map<int, seq<T>>, p: int)
    requires m.Keys != {} && Best(buy, m.Keys) != p && Ahead(buy, Best(buy, m.Keys), p)
    ensures var k := Best(buy, m.Keys);
            Flat(buy, Better(buy, m, p)) == m[k] + Flat(buy, Better(buy, m - {k}, p))
  {
    var k := Best(buy, m.Keys);
    var b := Better(buy, m, p);
    assert k in b && Best(buy, b.Keys) == k;
    assert b - {k} == Better(buy, m - {k}, p);
  }

  lemma NoneBetter<T>(buy: bool, m: map<int, seq<T>>, p: int)
    requires m.Keys != {} && (Best(buy, m.Keys) == p || !Ahead(buy, Best(buy, m.Keys), p))
    ensures Better(buy, m, p) == map[]
    ensures p in m ==> Best(buy, m.Keys) == p && Worse(buy, m, p) == m - {p}
    ensures p !in m ==> Worse(buy, m, p) == m
  {
  }

  lemma FlatAtBest<T>(buy: bool, m: map<int, seq<T>>, p: int)
    requires m.Keys != {} && Best(buy, m.Keys) == p
    ensures Flat(buy, m) == Flat(buy, Better(buy, m, p)) + At(m, p) + Flat(buy, Worse(buy, m, p))
  {
    NoneBetter(buy, m, p);
    Join(Flat(buy, Better(buy, m, p)), m[p], Flat(buy, m - {p}));
  }

  lemma FlatAtBeyond<T>(buy: bool, m: map<int, seq<T>>, p: int)
    requires m.Keys != {} && p !in m && !Ahead(buy, Best(buy, m.Keys), p)
    ensures Flat(buy, m) == Flat(buy, Better(buy, m, p)) + At(m, p) + Flat(buy, Worse(buy, m, p))
  {
    NoneBetter(buy, m, p);
    Join(Flat(buy, Better(buy, m, p)), At(m, p), Flat(buy, m));
  }

  lemma Join<T>(b: seq<T>, a: seq<T>, w: seq<T>)
    requires b == []
    ensures b + a + w == a + w
    ensures a == [] ==> b + a + w == w
  {
    assert b + a == a;
  }

  lemma FlatNone<T>(buy: bool, m: map<int, seq<T>>)
    requires m.Keys == {}
    ensures Flat(buy, m) == []
  {
  }

  lemma FlatFirst<T>(buy: bool, m: map<int, seq<T>>)
    requires m.Keys != {}
    ensures var k := Best(buy, m.Keys); Flat(buy, m) == m[k] + Flat(buy, m - {k})
  {
  }

  lemma RestAtLater<T>(buy: bool, m: map<int, seq<T>>, p: int)
    requires m.Keys != {} && Best(buy, m.Keys) != p && Ahead(buy, Best(buy, m.Keys), p)
    ensures var rest := m - {Best(buy, m.Keys)};
            Worse(buy, rest, p) == Worse(buy, m, p) && At(rest, p) == At(m, p)
  {
  }

  lemma FlatAtLater<T>(buy: bool, m: map<int, seq<T>>, p: int)
    requires m.Keys != {} && Best(buy, m.Keys) != p && Ahead(buy, Best(buy, m.Keys), p)
    requires var rest := m - {Best(buy, m.Keys)};
             Flat(buy, rest) == Flat(buy, Better(buy, rest, p)) + At(rest, p) + Flat(buy, Worse(buy, rest, p))
    ensures Flat(buy, m) == Flat(buy, Better(buy, m, p)) + At(m, p) + Flat(buy, Worse(buy, m, p))
  {
    var k := Best(buy, m.Keys);
    var rest := m - {k};
    RestAtLater(buy, m, p);
    BetterTail(buy, m, p);
    FlatFirst(buy, m);
    hide At, Better, Worse, Best, Flat;
    Reassociate(m[k], Flat(buy, Better(buy, rest, p)), At(m, p), Flat(buy, Worse(buy, m, p)));
  }

  /** The flattened ladder, cut at one price. */
  lemma {:induction false} FlatAt<T>(buy: bool, m: map<int, seq<T>>, p: int)
    ensures Flat(buy, m) == Flat(buy, Better(buy, m, p)) + At(m, p) + Flat(buy, Worse(buy, m, p))
    decreases |m.Keys|
  {
    if m.Keys == {} {
      assert Better(buy, m, p).Keys == {} && Worse(buy, m, p).Keys == {};
    } else if Best(buy, m.Keys) == p {
      FlatAtBest(buy, m, p);
    } else if !Ahead(buy, Best(buy, m.Keys), p) {
      FlatAtBeyond(buy, m, p);
    } else {
      FlatAt(buy, m - {Best(buy, m.Keys)}, p);
      FlatAtLater(buy, m, p);
    }
  }

  lemma Reassociate<T>(k: seq<T>, b: seq<T>, a: seq<T>, w: seq<T>)
    ensures k + (b + a + w) == (k + b) + a + w
  {
  }

  /** Changing one queue changes the flattened ladder in one place. */
  lemma FlatUpdate<T>(buy: bool, m: map<int, seq<T>>, p: int, s: seq<T>)
    ensures Flat(buy, m[p := s]) == Flat(buy, Better(buy, m, p)) + s + Flat(buy, Worse(buy, m, p))
  {
    var n := m[p := s];
    FlatAt(buy, n, p);
    assert Better(buy, n, p) == Better(buy, m, p);
    assert Worse(buy, n, p) == Worse(buy, m, p);
  }

  /** Dropping an emptied level leaves the rest as it was. */
  lemma FlatDrop<T>(buy: bool, m: map<int, seq<T>>, p: int)
    ensures Flat(buy, m - {p}) == Flat(buy, Better(buy, m, p)) + Flat(buy, Worse(buy, m, p))
  {
    var n := m - {p};
    FlatAt(buy, n, p);
    assert Better(buy, n, p) == Better(buy, m, p);
    assert Worse(buy, n, p) == Worse(buy, m, p);
    assert Flat(buy, Better(buy, m, p)) + [] == Flat(buy, Better(buy, m, p));
  }

  /** The flattened ladder holds exactly what its queues hold. */
  lemma {:induction false} FlatHolds<T>(buy: bool, m: map<int, seq<T>>, x: T)
    ensures x in Flat(buy, m) <==> exists p :: p in m && x in m[p]
    decreases |m.Keys|
  {
    if m.Keys != {} {
      var k := Best(buy, m.Keys);
      FlatHolds(buy, m - {k}, x);
      assert forall p :: p in m && p != k ==> p in m - {k} && (m - {k})[p] == m[p];
    }
  }
}
