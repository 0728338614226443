/** What a least-recently-used cache does to its recency list, most recent entry first,
    and what whole traces of `get` and `put` amount to. */
module LruSpec {
  import opened Collections

  datatype Op<K, V> = Get(key: K) | Put(key: K, value: V)

  // ---- Lists ---------------------------------------------------------------------------

  function Keys<K, V>(es: seq<(K, V)>): (ks: seq<K>)
    ensures |ks| == |es|
  {
    seq(|es|, i requires 0 <= i < |es| => es[i].0)
  }

  function Find<K(==), V>(es: seq<(K, V)>, k: K): Option<V> {
    if es == [] then None else if es[0].0 == k then Some(es[0].1) else Find(es[1..], k)
  }

  /** The list without its entry for `k`. */
  function Without<K(==), V>(es: seq<(K, V)>, k: K): seq<(K, V)> {
    if es == [] then [] else if es[0].0 == k then es[1..] else [es[0]] + Without(es[1..], k)
  }

  function Drop<K(==)>(ks: seq<K>, k: K): seq<K> {
    if ks == [] then [] else if ks[0] == k then ks[1..] else [ks[0]] + Drop(ks[1..], k)
  }

  function First<T>(n: nat, s: seq<T>): seq<T> {
    if |s| <= n then s else s[..n]
  }

  ghost predicate Distinct<T>(s: seq<T>) {
    forall i, j :: 0 <= i < j < |s| ==> s[i] != s[j]
  }

  // ---- The cache on its recency list ----------------------------------------------------

  function AfterGet<K(==), V>(es: seq<(K, V)>, k: K): seq<(K, V)> {
    var found := Find(es, k);
    if found.None? then es else [(k, found.value)] + Without(es, k)
  }

  function AfterPut<K(==), V>(capacity: nat, es: seq<(K, V)>, k: K, v: V): seq<(K, V)>
    requires capacity > 0
  {
    if Find(es, k).Some? then [(k, v)] + Without(es, k)
    else [(k, v)] + (if |es| >= capacity then es[..|es| - 1] else es)
  }

  function Step<K(==), V>(capacity: nat, es: seq<(K, V)>, op: Op<K, V>): seq<(K, V)>
    requires capacity > 0
  {
    match op
    case Get(k) => AfterGet(es, k)
    case Put(k, v) => AfterPut(capacity, es, k, v)
  }

  /** The list after a trace of calls on a new cache. */
  function Run<K(==), V>(capacity: nat, ops: seq<Op<K, V>>): seq<(K, V)>
    requires capacity > 0
  {
    if ops == [] then []
    else Step(capacity, Run(capacity, ops[..|ops| - 1]), ops[|ops| - 1])
  }

  // ---- The meaning of a trace, without a cache --------------------------------------------

  /** Keep each key where it occurs first. */
  function Dedup<K(==)>(ks: seq<K>): seq<K> {
    if ks == [] then [] else [ks[0]] + Drop(Dedup(ks[1..]), ks[0])
  }

  /** The keys touched by a trace, most recent first and with repetitions: every put touches
      its key, a get touches its key when it is among the `capacity` latest distinct ones. */
  function Touches<K(==), V>(capacity: nat, ops: seq<Op<K, V>>): seq<K> {
    if ops == [] then []
    else
      var ks := Touches(capacity, ops[..|ops| - 1]);
      match ops[|ops| - 1]
      case Put(k, _) => [k] + ks
      case Get(k) => if k in First(capacity, Dedup(ks)) then [k] + ks else ks
  }

  function LatestPut<K(==), V>(ops: seq<Op<K, V>>, k: K): Option<V> {
    if ops == [] then None
    else
      var op := ops[|ops| - 1];
      if op.Put? && op.key == k then Some(op.value) else LatestPut(ops[..|ops| - 1], k)
  }

  // ---- Facts about lists --------------------------------------------------------------------

  lemma {:induction false} FindInKeys<K, V>(es: seq<(K, V)>, k: K)
    ensures Find(es, k).Some? <==> k in Keys(es)
    ensures Find(es, k).Some? ==> (k, Find(es, k).value) in es
  {
    if es != [] {
      FindInKeys(es[1..], k);
      assert Keys(es) == [es[0].0] + Keys(es[1..]);
    }
  }

  lemma {:induction false} FindUnique<K, V>(es: seq<(K, V)>, k: K, v: V)
    requires Distinct(Keys(es)) && (k, v) in es
    ensures Find(es, k) == Some(v)
  {
    assert Keys(es[1..]) == Keys(es)[1..];
    if es[0].0 == k {
      var i :| 0 <= i < |es| && es[i] == (k, v);
      assert Keys(es)[i] == k == Keys(es)[0];
    } else {
      FindUnique(es[1..], k, v);
    }
  }

  lemma {:induction false} KeysWithout<K, V>(es: seq<(K, V)>, k: K)
    ensures Keys(Without(es, k)) == Drop(Keys(es), k)
    ensures k !in Keys(es) ==> Without(es, k) == es
    ensures k in Keys(es) ==> |Without(es, k)| == |es| - 1
    ensures forall e :: e in Without(es, k) ==> e in es
  {
    if es != [] {
      KeysWithout(es[1..], k);
      assert Keys(es) == [es[0].0] + Keys(es[1..]);
      assert es == [es[0]] + es[1..];
      if es[0].0 != k {
        KeysCons(es[0].0, es[0].1, Without(es[1..], k));
        DropUnfold(es[0].0, Keys(es[1..]), k);
      }
    }
  }

  lemma {:induction false} DropFacts<K>(ks: seq<K>, k: K)
    ensures forall x :: x in Drop(ks, k) ==> x in ks
    ensures forall x :: x in ks && x != k ==> x in Drop(ks, k)
    ensures k !in ks ==> Drop(ks, k) == ks
    ensures Distinct(ks) ==> Distinct(Drop(ks, k)) && k !in Drop(ks, k)
  {
    if ks != [] {
      DropFacts(ks[1..], k);
      assert ks == [ks[0]] + ks[1..];
      if Distinct(ks) {
        assert ks[0] !in ks[1..];
      }
    }
  }

  lemma {:induction false} DedupFacts<K>(ks: seq<K>)
    ensures Distinct(Dedup(ks))
    ensures forall x :: x in Dedup(ks) <==> x in ks
  {
    if ks != [] {
      DedupFacts(ks[1..]);
      DropFacts(Dedup(ks[1..]), ks[0]);
    }
  }

  lemma FirstUnfold<T>(n: nat, x: T, s: seq<T>)
    ensures First(n + 1, [x] + s) == [x] + First(n, s)
  {
  }

  lemma FirstZero<T>(s: seq<T>)
    ensures First(0, s) == []
  {
  }

  lemma DropUnfold<K>(x: K, s: seq<K>, k: K)
    ensures Drop([x] + s, k) == if x == k then s else [x] + Drop(s, k)
  {
    assert ([x] + s)[1..] == s;
  }

  /** Dropping a key among the first `n + 1` leaves the other `n` of them. */
  lemma {:induction false} FirstDropInside<K>(n: nat, ks: seq<K>, k: K)
    requires k in First(n + 1, ks)
    ensures First(n, Drop(ks, k)) == Drop(First(n + 1, ks), k)
    decreases n
  {
    var x, rest := ks[0], ks[1..];
    assert ks == [x] + rest;
    FirstUnfold(n, x, rest);
    DropUnfold(x, rest, k);
    DropUnfold(x, First(n, rest), k);
    FirstZero(rest);
    hide Drop, First;
    if x != k {
      assert k in First(n, rest) && n > 0;
      FirstDropInside(n - 1, rest, k);
      FirstUnfold(n - 1, x, Drop(rest, k));
    }
  }

  /** Dropping a key beyond the first `n` does not show there. */
  lemma {:induction false} FirstDropOutside<K>(n: nat, ks: seq<K>, k: K)
    requires k !in First(n, ks)
    ensures First(n, Drop(ks, k)) == First(n, ks)
  {
    if ks != [] && n > 0 {
      assert First(n, ks) == [ks[0]] + First(n - 1, ks[1..]);
      FirstDropOutside(n - 1, ks[1..], k);
    } else if ks != [] {
      assert |First(n, Drop(ks, k))| == 0;
    }
  }

  /** Touching a key that is among the first moves it to the front of them. */
  lemma TouchInside<K>(capacity: nat, d: seq<K>, k: K)
    requires capacity > 0 && Distinct(d) && k in First(capacity, d)
    ensures First(capacity, [k] + Drop(d, k)) == [k] + Drop(First(capacity, d), k)
  {
    FirstDropInside(capacity - 1, d, k);
  }

  /** Touching another key pushes the last of them out, if there are as many as fit. */
  lemma TouchOutside<K>(capacity: nat, d: seq<K>, k: K)
    requires capacity > 0 && k !in First(capacity, d)
    ensures
      var f := First(capacity, d);
      First(capacity, [k] + Drop(d, k)) == [k] + (if |f| >= capacity then f[..|f| - 1] else f)
  {
    FirstDropOutside(capacity, d, k);
    var dropped := Drop(d, k);
    assert First(capacity, [k] + dropped) == [k] + First(capacity - 1, dropped);
    assert First(capacity - 1, dropped) == First(capacity - 1, First(capacity, dropped));
  }

  lemma DedupTouch<K>(ks: seq<K>, k: K)
    ensures Dedup([k] + ks) == [k] + Drop(Dedup(ks), k)
  {
    assert ([k] + ks)[1..] == ks;
  }

  lemma KeysCons<K, V>(k: K, v: V, es: seq<(K, V)>)
    ensures Keys([(k, v)] + es) == [k] + Keys(es)
  {
  }

  // ---- Traces ----------------------------------------------------------------------------------

  /** After any trace the cache holds exactly the `capacity` latest distinct keys touched,
      most recent first. */
  lemma {:induction false} ListIsLatestTouched<K, V>(capacity: nat, ops: seq<Op<K, V>>)
    requires capacity > 0
    ensures Keys(Run(capacity, ops)) == First(capacity, Dedup(Touches(capacity, ops)))
  {
    if ops != [] {
      ListIsLatestTouched(capacity, ops[..|ops| - 1]);
      var es := Run(capacity, ops[..|ops| - 1]);
      var ks := Touches(capacity, ops[..|ops| - 1]);
      var op := ops[|ops| - 1];
      DedupFacts(ks);
      DedupTouch(ks, op.key);
      FindInKeys(es, op.key);
      if op.key in Keys(es) {
        TouchInside(capacity, Dedup(ks), op.key);
        KeysWithout(es, op.key);
        KeysCons(op.key, if op.Put? then op.value else Find(es, op.key).value, Without(es, op.key));
      } else if op.Put? {
        TouchOutside(capacity, Dedup(ks), op.key);
        var rest := if |es| >= capacity then es[..|es| - 1] else es;
        KeysCons(op.key, op.value, rest);
      }
    }
  }

  /** ... each once, within the capacity ... */
  lemma RunIsDistinct<K, V>(capacity: nat, ops: seq<Op<K, V>>)
    requires capacity > 0
    ensures Distinct(Keys(Run(capacity, ops))) && |Run(capacity, ops)| <= capacity
  {
    ListIsLatestTouched(capacity, ops);
    DedupFacts(Touches(capacity, ops));
    assert |Keys(Run(capacity, ops))| <= capacity;
  }

  /** ... with the value of its latest put. */
  lemma {:induction false} ValuesAreLatestPuts<K, V>(capacity: nat, ops: seq<Op<K, V>>)
    requires capacity > 0
    ensures forall e :: e in Run(capacity, ops) ==> LatestPut(ops, e.0) == Some(e.1)
  {
    if ops != [] {
      var es := Run(capacity, ops[..|ops| - 1]);
      var op := ops[|ops| - 1];
      ValuesAreLatestPuts(capacity, ops[..|ops| - 1]);
      RunIsDistinct(capacity, ops[..|ops| - 1]);
      FindInKeys(es, op.key);
      KeysWithout(es, op.key);
      WithoutHasNot(es, op.key);
    }
  }

  lemma WithoutHasNot<K, V>(es: seq<(K, V)>, k: K)
    requires Distinct(Keys(es))
    ensures forall e :: e in Without(es, k) ==> e.0 != k
    ensures k !in Keys(es) ==> forall e :: e in es ==> e.0 != k
  {
    KeysWithout(es, k);
    DropFacts(Keys(es), k);
    var rest := Without(es, k);
    forall e | e in rest ensures e.0 != k {
      var i :| 0 <= i < |rest| && rest[i] == e;
      assert Keys(rest)[i] in Drop(Keys(es), k);
    }
    forall e | e in es && k !in Keys(es) ensures e.0 != k {
      var i :| 0 <= i < |es| && es[i] == e;
      assert Keys(es)[i] in Keys(es);
    }
  }

  /** A hit, like a put, makes its key the latest one touched. */
  lemma TouchedNow<K, V>(capacity: nat, ops: seq<Op<K, V>>, op: Op<K, V>)
    requires capacity > 0
    requires op.Get? ==> Find(Run(capacity, ops), op.key).Some?
    ensures Touches(capacity, ops + [op]) == [op.key] + Touches(capacity, ops)
  {
    assert (ops + [op])[..|ops|] == ops;
    ListIsLatestTouched(capacity, ops);
    FindInKeys(Run(capacity, ops), op.key);
  }

  /** A miss touches nothing and changes nothing. */
  lemma MissChangesNothing<K, V>(capacity: nat, ops: seq<Op<K, V>>, k: K)
    requires capacity > 0 && k !in First(capacity, Dedup(Touches(capacity, ops)))
    ensures Touches(capacity, ops + [Get(k)]) == Touches(capacity, ops)
    ensures Run(capacity, ops + [Get(k)]) == Run(capacity, ops)
    ensures Find(Run(capacity, ops), k).None?
  {
    assert (ops + [Op<K, V>.Get(k)])[..|ops|] == ops;
    ListIsLatestTouched(capacity, ops);
    FindInKeys(Run(capacity, ops), k);
  }

  /** One more call on a trace. */
  lemma RunSnoc<K, V>(capacity: nat, ops: seq<Op<K, V>>, op: Op<K, V>)
    requires capacity > 0
    ensures Run(capacity, ops + [op]) == Step(capacity, Run(capacity, ops), op)
  {
    assert (ops + [op])[..|ops|] == ops;
  }

  /** Finding and removing an entry by its position. */
  lemma {:induction false} EntryAt<K, V>(es: seq<(K, V)>, i: nat)
    requires i < |es| && Distinct(Keys(es))
    ensures Find(es, es[i].0) == Some(es[i].1)
    ensures Without(es, es[i].0) == es[..i] + es[i + 1..]
  {
    if i > 0 {
      assert Keys(es)[0] != Keys(es)[i];
      assert Keys(es[1..]) == Keys(es)[1..];
      EntryAt(es[1..], i - 1);
      assert es[..i] + es[i + 1..] == [es[0]] + (es[1..][..i - 1] + es[1..][i..]);
    }
  }

  // ---- How long a key survives -------------------------------------------------------------------

  /** The distinct keys that stand before the first occurrence of `k`. */
  ghost function Before<K>(ks: seq<K>, k: K): set<K> {
    if ks == [] || ks[0] == k then {} else {ks[0]} + Before(ks[1..], k)
  }

  lemma {:induction false} BeforeFacts<K>(ks: seq<K>, k: K)
    ensures k !in Before(ks, k)
    ensures forall x :: x in Before(ks, k) ==> x in ks
  {
    if ks != [] {
      BeforeFacts(ks[1..], k);
    }
  }

  lemma {:induction false} BeforeDrop<K>(ks: seq<K>, x: K, k: K)
    requires x != k && Distinct(ks)
    ensures Before(Drop(ks, x), k) == Before(ks, k) - {x}
  {
    if ks != [] {
      BeforeDrop(ks[1..], x, k);
      BeforeFacts(ks[1..], k);
      assert ks[0] !in ks[1..];
    }
  }

  lemma {:induction false} BeforeDedup<K>(ks: seq<K>, k: K)
    ensures Before(Dedup(ks), k) == Before(ks, k)
  {
    if ks != [] {
      BeforeDedup(ks[1..], k);
      DedupFacts(ks[1..]);
      if ks[0] != k {
        BeforeDrop(Dedup(ks[1..]), ks[0], k);
      }
    }
  }

  lemma {:induction false} FirstIffFewBefore<K>(n: nat, ks: seq<K>, k: K)
    requires Distinct(ks) && k in ks
    ensures k in First(n, ks) <==> |Before(ks, k)| < n
  {
    if n == 0 {
      assert First(n, ks) == [];
    } else if ks[0] == k {
      assert First(n, ks)[0] == k;
    } else {
      BeforeFacts(ks[1..], k);
      FirstIffFewBefore(n - 1, ks[1..], k);
      FirstCons(n, ks, k);
      assert ks[0] !in Before(ks[1..], k);
      hide First;
    }
  }

  lemma FirstCons<K>(n: nat, ks: seq<K>, k: K)
    requires n > 0 && ks != [] && ks[0] != k
    ensures k in First(n, ks) <==> k in First(n - 1, ks[1..])
  {
    assert First(n, ks) == [ks[0]] + First(n - 1, ks[1..]);
  }

  /** A key is in the cache exactly when it was touched and fewer than `capacity` distinct
      other keys have been touched since its last touch. */
  lemma CachedIffFewTouchedSince<K, V>(capacity: nat, ops: seq<Op<K, V>>, k: K)
    requires capacity > 0
    ensures Find(Run(capacity, ops), k).Some? <==>
      k in Touches(capacity, ops) && |Before(Touches(capacity, ops), k)| < capacity
  {
    var ks := Touches(capacity, ops);
    ListIsLatestTouched(capacity, ops);
    FindInKeys(Run(capacity, ops), k);
    DedupFacts(ks);
    BeforeDedup(ks, k);
    if k in ks {
      FirstIffFewBefore(capacity, Dedup(ks), k);
    }
  }

  ghost function KeysNamed<K, V>(ops: seq<Op<K, V>>): set<K> {
    set i | 0 <= i < |ops| :: ops[i].key
  }

  lemma {:induction false} TouchedSince<K, V>(capacity: nat, ops: seq<Op<K, V>>, later: seq<Op<K, V>>, k: K)
    requires Touches(capacity, ops) != [] && Touches(capacity, ops)[0] == k
    ensures k in Touches(capacity, ops + later)
    ensures Before(Touches(capacity, ops + later), k) <= KeysNamed(later) - {k}
    decreases |later|
  {
    if later == [] {
      assert ops + later == ops;
    } else {
      var init := later[..|later| - 1];
      var op := later[|later| - 1];
      TouchedSince(capacity, ops, init, k);
      assert (ops + later)[..|ops + later| - 1] == ops + init;
      var ks := Touches(capacity, ops + init);
      assert ([op.key] + ks)[1..] == ks;
      forall x | x in KeysNamed(init) ensures x in KeysNamed(later) {
        var i :| 0 <= i < |init| && init[i].key == x;
        assert later[i].key == x;
      }
      assert op.key in KeysNamed(later);
    }
  }

  /** At no point of the later trace have `capacity` distinct other keys been touched since
      the last touch of `k`. */
  ghost predicate NeverCrowdedOut<K, V>(capacity: nat, ops: seq<Op<K, V>>, later: seq<Op<K, V>>, k: K) {
    forall j :: 0 <= j <= |later| ==> |Before(Touches(capacity, ops + later[..j]), k)| < capacity
  }

  lemma NeverCrowdedOutSnoc<K, V>(capacity: nat, ops: seq<Op<K, V>>, later: seq<Op<K, V>>, k: K)
    requires later != []
    ensures NeverCrowdedOut(capacity, ops, later, k) <==>
      NeverCrowdedOut(capacity, ops, later[..|later| - 1], k)
      && |Before(Touches(capacity, ops + later), k)| < capacity
  {
    hide Touches, Before;
    var init := later[..|later| - 1];
    assert later[..|later|] == later;
    if NeverCrowdedOut(capacity, ops, init, k) && |Before(Touches(capacity, ops + later), k)| < capacity {
      forall j | 0 <= j <= |later| ensures |Before(Touches(capacity, ops + later[..j]), k)| < capacity {
        if j < |later| {
          assert later[..j] == init[..j];
        }
      }
    } else if NeverCrowdedOut(capacity, ops, later, k) {
      forall j | 0 <= j <= |init| ensures |Before(Touches(capacity, ops + init[..j]), k)| < capacity {
        assert later[..j] == init[..j];
      }
    }
  }

  lemma {:induction false} TouchesGrow<K, V>(capacity: nat, ops: seq<Op<K, V>>, later: seq<Op<K, V>>, k: K)
    requires k in Touches(capacity, ops)
    ensures k in Touches(capacity, ops + later)
    decreases |later|
  {
    if later == [] {
      assert ops + later == ops;
    } else {
      var init := later[..|later| - 1];
      TouchesGrow(capacity, ops, init, k);
      assert (ops + later)[..|ops + later| - 1] == ops + init;
    }
  }

  /** A later trace that names fewer than `capacity` other keys cannot crowd out a key that
      has just been touched. */
  lemma FewNamesNeverCrowd<K, V>(capacity: nat, ops: seq<Op<K, V>>, later: seq<Op<K, V>>, k: K)
    requires Touches(capacity, ops) != [] && Touches(capacity, ops)[0] == k
    requires |KeysNamed(later) - {k}| < capacity
    ensures NeverCrowdedOut(capacity, ops, later, k)
  {
    forall j | 0 <= j <= |later| ensures |Before(Touches(capacity, ops + later[..j]), k)| < capacity {
      TouchedSince(capacity, ops, later[..j], k);
      forall x | x in KeysNamed(later[..j]) ensures x in KeysNamed(later) {
        var i :| 0 <= i < j && later[..j][i].key == x;
        assert later[i].key == x;
      }
      SubsetCard(Before(Touches(capacity, ops + later[..j]), k), KeysNamed(later) - {k});
    }
  }

  // ---- A larger cache contains a smaller one ---------------------------------------------------------

  ghost predicate Subsequence<T>(a: seq<T>, b: seq<T>) {
    || a == []
    || (b != [] && ((a[0] == b[0] && Subsequence(a[1..], b[1..])) || Subsequence(a, b[1..])))
  }

  lemma {:induction false} SubsequenceSelf<T>(a: seq<T>)
    ensures Subsequence(a, a)
  {
    if a != [] {
      SubsequenceSelf(a[1..]);
    }
  }

  lemma SubsequenceCons<T>(x: T, a: seq<T>, b: seq<T>)
    requires Subsequence(a, b)
    ensures Subsequence([x] + a, [x] + b)
  {
    assert ([x] + a)[1..] == a && ([x] + b)[1..] == b;
  }

  lemma SubsequenceSkip<T>(a: seq<T>, y: T, b: seq<T>)
    requires Subsequence(a, b)
    ensures Subsequence(a, [y] + b)
  {
    assert ([y] + b)[1..] == b;
  }

  lemma {:induction false} SubsequenceTail<T>(a: seq<T>, b: seq<T>)
    requires Subsequence(a, b) && a != []
    ensures Subsequence(a[1..], b)
    decreases |b|
  {
    if a[0] == b[0] && Subsequence(a[1..], b[1..]) {
      SubsequenceSkip(a[1..], b[0], b[1..]);
      assert b == [b[0]] + b[1..];
    } else {
      SubsequenceTail(a, b[1..]);
    }
  }

  lemma {:induction false} SubsequenceMember<T>(a: seq<T>, b: seq<T>)
    requires Subsequence(a, b)
    ensures forall x :: x in a ==> x in b
    decreases |b|
  {
    if a != [] {
      if a[0] == b[0] && Subsequence(a[1..], b[1..]) {
        SubsequenceMember(a[1..], b[1..]);
        assert a == [a[0]] + a[1..];
      } else {
        SubsequenceMember(a, b[1..]);
      }
    }
  }

  lemma {:induction false} SubsequenceDropLast<T>(a: seq<T>, b: seq<T>)
    requires Subsequence(a, b) && a != []
    ensures b != [] && Subsequence(a[..|a| - 1], b[..|b| - 1])
    decreases |b|
  {
    var a', b' := a[..|a| - 1], b[..|b| - 1];
    if a' != [] {
      if a[0] == b[0] && Subsequence(a[1..], b[1..]) {
        SubsequenceDropLast(a[1..], b[1..]);
        assert a[1..][..|a[1..]| - 1] == a'[1..] && b[1..][..|b[1..]| - 1] == b'[1..];
        assert a'[0] == b'[0] && Subsequence(a'[1..], b'[1..]);
      } else {
        SubsequenceDropLast(a, b[1..]);
        assert b[1..][..|b[1..]| - 1] == b'[1..];
      }
    }
  }

  lemma {:induction false} SubsequencePrefix<T>(a: seq<T>, b: seq<T>)
    requires Subsequence(a, b) && a != []
    ensures Subsequence(a[..|a| - 1], b)
    decreases |b|
  {
    var a' := a[..|a| - 1];
    if a' != [] {
      if a[0] == b[0] && Subsequence(a[1..], b[1..]) {
        SubsequencePrefix(a[1..], b[1..]);
        assert a[1..][..|a[1..]| - 1] == a'[1..];
      } else {
        SubsequencePrefix(a, b[1..]);
      }
    }
  }

  lemma {:induction false} SubsequenceWithout<K, V>(a: seq<(K, V)>, b: seq<(K, V)>, k: K)
    requires Subsequence(a, b) && Distinct(Keys(b))
    ensures Subsequence(Without(a, k), Without(b, k))
    decreases |b|
  {
    if a != [] {
      assert Keys(b[1..]) == Keys(b)[1..];
      if a[0] == b[0] && Subsequence(a[1..], b[1..]) {
        SubsequenceWithout(a[1..], b[1..], k);
        if a[0].0 != k {
          SubsequenceCons(a[0], Without(a[1..], k), Without(b[1..], k));
        }
      } else {
        SubsequenceWithout(a, b[1..], k);
        if b[0].0 == k {
          WithoutHasNot(b[1..], k);
          assert k !in Keys(b[1..]) by {
            forall i | 0 <= i < |b| - 1 ensures Keys(b[1..])[i] != k {
              assert Keys(b)[i + 1] != Keys(b)[0];
            }
          }
          KeysWithout(b[1..], k);
        } else {
          SubsequenceSkip(Without(a, k), b[0], Without(b[1..], k));
        }
      }
    }
  }

  /** What is found in the smaller list is found in the larger, with the same value. */
  lemma SubsequenceFind<K, V>(a: seq<(K, V)>, b: seq<(K, V)>, k: K)
    requires Subsequence(a, b) && Distinct(Keys(b))
    ensures Find(a, k).Some? ==> Find(b, k) == Find(a, k)
  {
    if Find(a, k).Some? {
      FindInKeys(a, k);
      SubsequenceMember(a, b);
      FindUnique(b, k, Find(a, k).value);
    }
  }

  /** The list of the smaller cache is part of the larger's, and until the smaller is full
      the two are the same. */
  ghost predicate Included<K, V>(c: nat, small: seq<(K, V)>, large: seq<(K, V)>) {
    Subsequence(small, large) && (|small| < c ==> small == large)
  }

  lemma GetKeepsIncluded<K, V>(c: nat, small: seq<(K, V)>, large: seq<(K, V)>, k: K)
    requires Included(c, small, large) && Distinct(Keys(small)) && Distinct(Keys(large))
    ensures Included(c, AfterGet(small, k), AfterGet(large, k))
  {
    SubsequenceFind(small, large, k);
    SubsequenceWithout(small, large, k);
    FindInKeys(small, k);
    FindInKeys(large, k);
    KeysWithout(small, k);
    if Find(small, k).Some? {
      SubsequenceCons((k, Find(small, k).value), Without(small, k), Without(large, k));
    } else if Find(large, k).Some? {
      SubsequenceSkip(small, (k, Find(large, k).value), Without(large, k));
    }
  }

  lemma PutKeepsIncluded<K, V>(c: nat, c': nat, small: seq<(K, V)>, large: seq<(K, V)>, k: K, v: V)
    requires 0 < c <= c' && |small| <= c && |large| <= c'
    requires Included(c, small, large) && Distinct(Keys(small)) && Distinct(Keys(large))
    ensures Included(c, AfterPut(c, small, k, v), AfterPut(c', large, k, v))
  {
    SubsequenceFind(small, large, k);
    FindInKeys(small, k);
    FindInKeys(large, k);
    KeysWithout(small, k);
    if Find(small, k).Some? {
      SubsequenceWithout(small, large, k);
      SubsequenceCons((k, v), Without(small, k), Without(large, k));
    } else if |small| < c {
      SubsequenceSelf([(k, v)] + small);
    } else {
      var rest := small[..|small| - 1];
      SubsequencePrefix(small, large);
      SubsequenceDropLast(small, large);
      if Find(large, k).Some? {
        assert k !in Keys(rest) by {
          forall i | 0 <= i < |rest| ensures Keys(rest)[i] != k {
            assert Keys(small)[i] in Keys(small);
          }
        }
        KeysWithout(rest, k);
        SubsequenceWithout(rest, large, k);
        SubsequenceCons((k, v), rest, Without(large, k));
      } else if |large| >= c' {
        SubsequenceCons((k, v), rest, large[..|large| - 1]);
      } else {
        SubsequenceCons((k, v), rest, large);
      }
    }
  }

  /** Inclusion: on any trace, the recency list of a smaller cache is a subsequence of that
      of a larger one, although the two miss and reorder differently. */
  lemma {:induction false} SmallerIsIncluded<K, V>(c: nat, c': nat, ops: seq<Op<K, V>>)
    requires 0 < c <= c'
    ensures Included(c, Run(c, ops), Run(c', ops))
  {
    if ops != [] {
      var init, op := ops[..|ops| - 1], ops[|ops| - 1];
      SmallerIsIncluded(c, c', init);
      RunIsDistinct(c, init);
      RunIsDistinct(c', init);
      match op
      case Get(k) => GetKeepsIncluded(c, Run(c, init), Run(c', init), k);
      case Put(k, v) => PutKeepsIncluded(c, c', Run(c, init), Run(c', init), k, v);
    }
  }

  /** So every hit in the smaller cache is a hit in the larger, with the same value. */
  lemma SmallerHitIsLargerHit<K, V>(c: nat, c': nat, ops: seq<Op<K, V>>, k: K)
    requires 0 < c <= c' && Find(Run(c, ops), k).Some?
    ensures Find(Run(c', ops), k) == Find(Run(c, ops), k) == LatestPut(ops, k)
  {
    SmallerIsIncluded(c, c', ops);
    RunIsDistinct(c', ops);
    SubsequenceFind(Run(c, ops), Run(c', ops), k);
    FindInKeys(Run(c, ops), k);
    ValuesAreLatestPuts(c, ops);
  }
}
