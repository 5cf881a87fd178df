/** Small datatypes shared by every other module. */
module Common {

  datatype Option<+T> = None | Some(value: T)

  /** Instants and durations are nanoseconds, as in Go's time package. */
  type Time = int

  const SECOND: int := 1_000_000_000
  const MINUTE: int := 60 * SECOND
  const HOUR: int := 60 * MINUTE

  function ToSet<T>(o: Option<T>): set<T> {
    if o.Some? then {o.value} else {}
  }

  /**
   * How one call to Postgres or Cloudflare ends.
   *   Acked   - the effect happened and the caller got the answer
   *   Refused - the caller got an error and nothing happened
   *   Lost    - the effect happened but the caller got an error
   */
  datatype Outcome = Acked | Refused | Lost

  predicate TakesEffect(o: Outcome) {
    o != Refused
  }

  // ---------- who owns what ----------

  /** all is the disjoint union of the sets the owners hold. */
  ghost predicate Partition<K(!new), T(!new)>(own: map<K, set<T>>, all: set<T>) {
    && (forall k, x :: k in own && x in own[k] ==> x in all)
    && (forall x :: x in all ==> exists k :: k in own && x in own[k])
    && (forall j, k, x :: j in own && k in own && x in own[j] && x in own[k] ==> j == k)
  }

  /** Owner k goes from holding a to holding b; whatever is new in b is new altogether. */
  ghost predicate Handover<T(!new)>(all: set<T>, all': set<T>, a: set<T>, b: set<T>) {
    && all' == (all - a) + b
    && (forall x :: x in b && x !in a ==> x !in all)
  }

  lemma PartitionKept<K(!new), T(!new)>(own: map<K, set<T>>, all: set<T>, k: K, b: set<T>, all': set<T>)
    requires Partition(own, all)
    requires Handover(all, all', if k in own then own[k] else {}, b)
    ensures Partition(own[k := b], all')
  {
    var own' := own[k := b];
    forall x | x in all'
      ensures exists j :: j in own' && x in own'[j]
    {
      if x in b {
        assert x in own'[k];
      } else {
        var j :| j in own && x in own[j];
        assert x in own'[j];
      }
    }
  }

  lemma DropEmpty<K(!new), T(!new)>(own: map<K, set<T>>, all: set<T>, k: K)
    requires Partition(own, all) && k in own && own[k] == {}
    ensures Partition(own - {k}, all)
  {
    forall x | x in all
      ensures exists j :: j in own - {k} && x in (own - {k})[j]
    {
      var j :| j in own && x in own[j];
      assert j in own - {k} && x in (own - {k})[j];
    }
  }

  // ---------- the end of a run ----------

  lemma LastOfSum<T>(xs: seq<T>, ys: seq<T>)
    requires ys != []
    ensures (xs + ys)[..|xs + ys| - 1] == xs + ys[..|ys| - 1] && (xs + ys)[|xs + ys| - 1] == ys[|ys| - 1]
  {
  }
}
