/** Small definitions shared by every module. */
module Common {
  datatype Option<+T> = None | Some(value: T)

  /** A user id. */
  datatype Uid = Uid(id: int)

  /** Instants are integers counted in nanoseconds. Go's zero `time.Time` is `None`. */
  type Instant = Option<int>

  const SECOND := 1_000_000_000

  /** What `cleanupCache` lets live in the collector's caches. */
  const MAX_AGE := 300 * SECOND

  function Seconds(d: int): real { d as real / SECOND as real }

  /** `now.Sub(t) >= d`, where the zero time lies further back than any duration. */
  predicate ElapsedAtLeast(now: int, t: Instant, d: int) {
    t.None? || now - t.value >= d
  }

  function Lookup<K, V>(m: map<K, V>, k: K, default: V): V {
    if k in m then m[k] else default
  }

  lemma {:induction false} SmallerSet<T>(a: set<T>, b: set<T>)
    requires a <= b
    ensures |a| <= |b|
  {
    if a != {} {
      var x :| x in a;
      SmallerSet(a - {x}, b - {x});
    }
  }

  /** The result of visiting users one after the other. */
  ghost function Fold<T>(users: set<Uid>, zero: T, visit: (T, Uid) -> T): T {
    if users == {} then zero
    else
      var u :| u in users;
      visit(Fold(users - {u}, zero, visit), u)
  }

  /** If two visits can be exchanged, the order of a Go `range` over a map does not matter. */
  lemma {:induction false} FoldAnyOrder<T(!new)>(users: set<Uid>, zero: T, visit: (T, Uid) -> T, u: Uid)
    requires u in users && forall t, a, b :: visit(visit(t, a), b) == visit(visit(t, b), a)
    ensures Fold(users, zero, visit) == visit(Fold(users - {u}, zero, visit), u)
    decreases users
  {
    var v :| v in users && Fold(users, zero, visit) == visit(Fold(users - {v}, zero, visit), v);
    if v != u {
      FoldAnyOrder(users - {v}, zero, visit, u);
      FoldAnyOrder(users - {u}, zero, visit, v);
      assert users - {v} - {u} == users - {u} - {v};
    }
  }

  /** The next element of a Go `range` over a map: any of those still to come. */
  method Next<T>(todo: set<T>) returns (x: T)
    requires todo != {}
    ensures x in todo
  {
    x :| x in todo;
  }

  method NextOf<T>(todo: multiset<T>) returns (x: T)
    requires todo != multiset{}
    ensures x in todo
  {
    x :| x in todo;
  }
}
