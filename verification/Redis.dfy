/** The few Redis notions every other module shares: optional replies, sorted sets with a key
    deadline, and the set arithmetic behind ZCARD and ZCOUNT.

    A server clock counts milliseconds. `TIME[1]` is the clock in whole seconds. A key given
    `EXPIRE ttl` at clock c is gone once the clock has passed c + 1000 * ttl. */
module Redis {

  datatype Option<+T> = None | Some(value: T) {
    function GetOr(default: T): T {
      match this
      case Some(v) => v
      case None => default
    }
  }

  datatype Result<+T> = Ok(value: T) | Err

  function Larger(a: nat, b: nat): nat { if a < b then b else a }

  function Seconds(clock: nat): nat { clock / 1000 }

  function Deadline(clock: nat, ttl: nat): nat { clock + 1000 * ttl }

  /** TTL rounds the remaining milliseconds to the nearest second. */
  function TtlSeconds(deadline: int, clock: nat): int { (deadline - clock + 500) / 1000 }

  /** A sorted set together with the deadline of its key. */
  datatype Zset = Zset(scores: map<string, int>, deadline: int) {

    /** ZREMRANGEBYSCORE key -inf cut */
    function Above(cut: int): Zset {
      this.(scores := ScoresAbove(scores, cut))
    }

    /** ZADD key score member, then EXPIRE key ttl */
    function Put(member: string, score: int, keyDeadline: int): Zset {
      Zset(scores[member := score], keyDeadline)
    }

    function At(clock: nat): Zset {
      if clock > deadline then this.(scores := map[]) else this
    }
  }

  function ScoresAbove<K>(z: map<K, int>, cut: int): map<K, int> {
    map k | k in z && z[k] > cut :: z[k]
  }

  /** The members ZCOUNT key (now-span +inf counts: those whose score is less than `span` old. */
  function Within(z: map<string, int>, now: int, span: nat): set<string> {
    set k | k in z && z[k] > now - span
  }

  ghost predicate IsLatest(z: map<string, int>, score: int) {
    (exists k :: k in z && z[k] == score) && forall k :: k in z ==> z[k] <= score
  }

  lemma LatestExists(z: map<string, int>)
    requires z.Keys != {}
    ensures exists score :: IsLatest(z, score)
    decreases |z.Keys|
  {
    var k :| k in z;
    var rest := z - {k};
    if rest.Keys == {} {
      assert forall j :: j in z ==> j == k || j in rest;
      assert IsLatest(z, z[k]);
    } else {
      assert rest.Keys < z.Keys;
      CardinalityMonotone(rest.Keys, z.Keys - {k});
      LatestExists(rest);
      var m :| IsLatest(rest, m);
      assert forall j :: j in z ==> j == k || j in rest;
      assert IsLatest(z, if m < z[k] then z[k] else m);
    }
  }

  /** The score ZREVRANGE key 0 0 WITHSCORES reports. */
  ghost function Latest(z: map<string, int>): (score: int)
    requires z.Keys != {}
    ensures IsLatest(z, score)
  {
    LatestExists(z);
    var score :| IsLatest(z, score);
    score
  }

  lemma CardinalityMonotone<T>(a: set<T>, b: set<T>)
    requires a <= b
    ensures |a| <= |b|
    decreases a
  {
    if a == {} {
    } else {
      var x :| x in a;
      CardinalityMonotone(a - {x}, b - {x});
    }
  }

  lemma EqualCardinality<T>(a: set<T>, b: set<T>)
    requires a <= b && |a| == |b|
    ensures a == b
    decreases a
  {
    if x :| x in b && x !in a {
      CardinalityMonotone(a, b - {x});
    }
  }

  /** An injective image has as many members as its source. */
  lemma ImageCardinality<S, T>(a: set<S>, f: S -> T, b: set<T>)
    requires forall x :: x in a ==> f(x) in b
    requires forall y :: y in b ==> exists x :: x in a && f(x) == y
    requires forall x, y :: x in a && y in a && f(x) == f(y) ==> x == y
    ensures |a| == |b|
    decreases a
  {
    if a == {} {
      assert b == {};
    } else {
      var x :| x in a;
      forall y | y in b - {f(x)} ensures exists w :: w in a - {x} && f(w) == y {
        var w :| w in a && f(w) == y;
        assert w in a - {x};
      }
      ImageCardinality(a - {x}, f, b - {f(x)});
    }
  }

  /** A list without repetitions has as many members as entries. */
  lemma {:induction false} DistinctMembers<T>(r: seq<T>)
    requires forall i, j :: 0 <= i < j < |r| ==> r[i] != r[j]
    ensures |set x | x in r| == |r|
    decreases |r|
  {
    if r != [] {
      var rest, last := r[..|r| - 1], r[|r| - 1];
      DistinctMembers(rest);
      assert (set x | x in r) == (set x | x in rest) + {last};
    }
  }
}
