/** Facts about built-in collections. */
module Collections {

  /** A non-empty set has an element. */
  lemma ElementOf<T>(s: set<T>) returns (x: T)
    requires s != {}
    ensures x in s
  {
    x :| x in s;
  }

  /** A map or set ranged over: each element once, in some order. */
  ghost predicate Enumerates<T(!new)>(order: seq<T>, s: set<T>) {
    && (forall i, j | 0 <= i < j < |order| :: order[i] != order[j])
    && (forall x :: x in order <==> x in s)
  }

  lemma NothingShared<T(!new)>(a: set<T>, b: set<T>)
    requires forall x | x in a :: x !in b
    ensures a !! b
  {}

  lemma EnumeratesOnce<T(!new)>(order: seq<T>, s: set<T>)
    requires Enumerates(order, s)
    ensures forall i, j | 0 <= i < j < |order| :: order[i] != order[j]
  {}

  lemma EnumeratesSome<T(!new)>(order: seq<T>, s: set<T>)
    requires Enumerates(order, s) && |order| > 0
    ensures s != {}
  {
    assert order[0] in order;
  }

  lemma {:induction false} SomeOrder<T(!new)>(s: set<T>) returns (order: seq<T>)
    ensures Enumerates(order, s)
    decreases |s|
  {
    if s == {} {
      order := [];
    } else {
      var x :| x in s;
      var rest := SomeOrder(s - {x});
      order := rest + [x];
    }
  }

  /** What a map holds for some of its keys. */
  ghost function Image<K, V>(m: map<K, V>, keys: set<K>): set<V>
    requires keys <= m.Keys
  {
    set k | k in keys :: m[k]
  }

  lemma ImageOfOneMore<K, V>(m: map<K, V>, keys: set<K>, key: K)
    requires keys <= m.Keys && key in m
    ensures Image(m, keys + {key}) == Image(m, keys) + {m[key]}
  {
    forall v | v in Image(m, keys) + {m[key]} ensures v in Image(m, keys + {key}) {
      if v == m[key] {
        assert key in keys + {key};
      } else {
        var k :| k in keys && m[k] == v;
        assert k in keys + {key};
      }
    }
  }

  lemma ImageOfAll<K, V>(m: map<K, V>)
    ensures Image(m, m.Keys) == m.Values
  {
    forall v | v in m.Values ensures v in Image(m, m.Keys) {
      var k :| k in m && m[k] == v;
    }
  }
}
