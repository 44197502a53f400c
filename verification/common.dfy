/** Shared vocabulary: optional values, time, and queries over keyed tables. */
module Common {

  datatype Option<+T> = None | Some(value: T) {
    function GetOr(default: T): T {
      match this
      case Some(v) => v
      case None => default
    }
  }

  /** A calendar day (a DateField), counted in days. */
  type Date = int

  /** A moment (a DateTimeField), counted in microseconds since the epoch. */
  type Instant = int

  const MicrosPerSecond: int := 1_000_000
  const MicrosPerMinute: int := 60_000_000

  /** Python's `int(x)` on a non-negative or negative quotient: truncation toward zero. */
  function TruncDiv(a: int, b: int): (q: int)
    requires b > 0
    ensures a >= 0 ==> q * b <= a < q * b + b
    ensures a < 0 ==> q * b - b < a <= q * b
  {
    if a >= 0 then a / b else -((-a) / b)
  }

  /** Python truthiness of an optional string: present and non-empty. */
  predicate Truthy(s: Option<string>) {
    s.Some? && s.value != ""
  }

  /**
   * The keys below `n` whose rows satisfy `p`, in ascending order: how an unordered
   * query over a table is read in this model.
   */
  function KeysWhere<V>(m: map<nat, V>, p: V -> bool, n: nat): (r: seq<nat>)
    ensures forall i :: 0 <= i < |r| ==> r[i] in m && r[i] < n && p(m[r[i]])
    ensures forall k :: k in m && k < n && p(m[k]) ==> k in r
    ensures forall i, j :: 0 <= i < j < |r| ==> r[i] < r[j]
    ensures (forall k :: k in m && k < n ==> !p(m[k])) ==> r == []
  {
    if n == 0 then []
    else KeysWhere(m, p, n - 1) + (if n - 1 in m && p(m[n - 1]) then [n - 1] else [])
  }

  /** The lowest key below `n` whose row satisfies `p` (a `.first()` on an unordered query). */
  function FirstWhere<V>(m: map<nat, V>, p: V -> bool, n: nat): (r: Option<nat>)
    ensures r.Some? ==> r.value in m && r.value < n && p(m[r.value])
    ensures r.Some? ==> forall k :: k in m && k < r.value && p(m[k]) ==> false
    ensures r.None? <==> forall k :: k in m && k < n ==> !p(m[k])
  {
    var ks := KeysWhere(m, p, n);
    if |ks| == 0 then None
    else
      assert forall k :: k in m && k < ks[0] && p(m[k]) ==> k in ks;
      Some(ks[0])
  }

  /** A bound that is not a key adds nothing to the query. */
  lemma {:induction false} KeysWhereStep<V>(m: map<nat, V>, p: V -> bool, n: nat)
    requires n !in m
    ensures KeysWhere(m, p, n + 1) == KeysWhere(m, p, n)
  {
    var shorter := KeysWhere(m, p, n);
    assert KeysWhere(m, p, n + 1) == shorter + [];
    assert shorter + [] == shorter;
  }

  /** Raising the bound past every key of the map does not change the query. */
  lemma KeysWhereBeyond<V>(m: map<nat, V>, p: V -> bool, n: nat, n': nat)
    requires forall k :: k in m ==> k < n
    requires n <= n'
    ensures KeysWhere(m, p, n') == KeysWhere(m, p, n)
  {
    var j := n;
    while j < n'
      invariant n <= j <= n'
      invariant KeysWhere(m, p, j) == KeysWhere(m, p, n)
    {
      KeysWhereStep(m, p, j);
      j := j + 1;
    }
  }

  lemma {:induction false} FirstWhereBeyond<V>(m: map<nat, V>, p: V -> bool, n: nat, n': nat)
    requires forall k :: k in m ==> k < n
    requires n <= n'
    ensures FirstWhere(m, p, n') == FirstWhere(m, p, n)
  {
    KeysWhereBeyond(m, p, n, n');
  }

  /** Two predicates that agree on every row below the bound select the same keys. */
  lemma KeysWhereSamePredicate<V>(m: map<nat, V>, p: V -> bool, q: V -> bool, n: nat)
    requires forall k :: k in m && k < n ==> p(m[k]) == q(m[k])
    ensures KeysWhere(m, p, n) == KeysWhere(m, q, n)
  {
    var j := 0;
    while j < n
      invariant j <= n
      invariant KeysWhere(m, p, j) == KeysWhere(m, q, j)
    {
      var shared := KeysWhere(m, p, j);
      assert KeysWhere(m, p, j + 1) == shared + (if j in m && p(m[j]) then [j] else []);
      assert KeysWhere(m, q, j + 1) == shared + (if j in m && q(m[j]) then [j] else []);
      j := j + 1;
    }
  }

  /** The elements of `s` that satisfy `p`, in their order (a filtered cascade over an append-only table). */
  function Filter<T>(s: seq<T>, p: T -> bool): (r: seq<T>)
    ensures |r| <= |s|
    ensures forall i :: 0 <= i < |r| ==> r[i] in s && p(r[i])
    ensures forall x :: x in s && p(x) ==> x in r
    decreases |s|
  {
    if |s| == 0 then []
    else Filter(s[..|s| - 1], p) + (if p(s[|s| - 1]) then [s[|s| - 1]] else [])
  }

  function SeqToSet(s: seq<nat>): (r: set<nat>)
    ensures forall k :: k in r <==> k in s
  {
    set k | k in s
  }
}
