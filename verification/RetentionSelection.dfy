/** ORDER BY ... LIMIT n over candidate rows of one table. */
module RetentionSelection {
  import opened Wrappers
  import opened RetentionSchema

  ghost predicate OneTable(keys: set<RowKey>) {
    forall a, b | a in keys && b in keys :: a.table == b.table
  }

  /** Candidate rows of one table, each with the column it is ordered by; ties go to the smaller id. */
  type Ages = ages: map<RowKey, Time> | OneTable(ages.Keys)

  predicate NotLater(ages: map<RowKey, Time>, a: RowKey, b: RowKey)
    requires a in ages && b in ages
  {
    ages[a] < ages[b] || (ages[a] == ages[b] && a.id <= b.id)
  }

  lemma {:induction false} OldestIn(ages: map<RowKey, Time>, keys: set<RowKey>)
    requires keys != {} && keys <= ages.Keys
    ensures exists k :: k in keys && forall other | other in keys :: NotLater(ages, k, other)
  {
    var k :| k in keys;
    var rest := keys - {k};
    if rest == {} {
      assert keys == {k};
      assert forall other | other in keys :: NotLater(ages, k, other);
    } else {
      OldestIn(ages, rest);
      var best :| best in rest && forall other | other in rest :: NotLater(ages, best, other);
      var winner := if NotLater(ages, best, k) then best else k;
      forall other | other in keys ensures NotLater(ages, winner, other) {
        if other != k { assert other in rest && NotLater(ages, best, other); }
      }
    }
  }

  /** The single row picked by ORDER BY age, id LIMIT 1. */
  function Oldest(ages: Ages): (k: RowKey)
    requires ages != map[]
    ensures k in ages && forall other | other in ages :: NotLater(ages, k, other)
  {
    OldestIn(ages, ages.Keys);
    var k :| k in ages && forall other | other in ages :: NotLater(ages, k, other);
    k
  }

  function First(ages: Ages): (k: Option<RowKey>)
    ensures k.None? <==> ages == map[]
    ensures k.Some? ==> k.value in ages && forall other | other in ages :: NotLater(ages, k.value, other)
  {
    if ages == map[] then None else Some(Oldest(ages))
  }

  /** The rows picked by ORDER BY age, id LIMIT n. */
  function FirstBatch(ages: Ages, n: nat): (batch: set<RowKey>)
    ensures batch <= ages.Keys && |batch| <= n
    decreases n
  {
    if n == 0 || ages == map[] then {} else
      var k := Oldest(ages);
      {k} + FirstBatch(ages - {k}, n - 1)
  }

  lemma OneKeyMore(keys: set<RowKey>, k: RowKey)
    requires k !in keys
    ensures |{k} + keys| == |keys| + 1
  {
    assert {k} + keys == keys + {k};
  }

  lemma WithoutOldest(ages: Ages, k: RowKey)
    requires k in ages
    ensures OneTable((ages - {k}).Keys) && (ages - {k}).Keys == ages.Keys - {k} && |ages.Keys - {k}| == |ages.Keys| - 1
  {
  }

  /** A batch holds everything when everything fits, and is full otherwise. */
  lemma {:induction false} FirstBatchSize(ages: Ages, n: nat)
    ensures |FirstBatch(ages, n)| == if |ages.Keys| <= n then |ages.Keys| else n
    ensures |ages.Keys| <= n ==> FirstBatch(ages, n) == ages.Keys
    decreases n
  {
    if n == 0 || ages == map[] {
    } else {
      var k := Oldest(ages);
      WithoutOldest(ages, k);
      var rest: Ages := ages - {k};
      FirstBatchSize(rest, n - 1);
      var batch := FirstBatch(rest, n - 1);
      assert FirstBatch(ages, n) == {k} + batch;
      hide FirstBatch, Oldest, OneTable;
      OneKeyMore(batch, k);
      assert ages.Keys == {k} + rest.Keys;
    }
  }

  /** No candidate left out of a batch comes before one taken. */
  lemma {:induction false} FirstBatchIsOldest(ages: Ages, n: nat, a: RowKey, b: RowKey)
    requires a in FirstBatch(ages, n) && b in ages && b !in FirstBatch(ages, n)
    ensures NotLater(ages, a, b)
    decreases n
  {
    var k := Oldest(ages);
    if a != k { FirstBatchIsOldest(ages - {k}, n - 1, a, b); }
  }

  /** Candidates ordered by id alone. */
  function ById(keys: set<RowKey>): (ages: Ages)
    requires OneTable(keys)
    ensures ages.Keys == keys
  {
    map k | k in keys :: 0
  }

  /** The first `n` rows of `keys` by id. */
  function FirstById(keys: set<RowKey>, n: nat): (batch: set<RowKey>)
    requires OneTable(keys)
    ensures batch <= keys && |batch| <= n
    ensures n >= 1 && keys != {} ==> batch != {}
  {
    FirstBatchSize(ById(keys), n);
    FirstBatch(ById(keys), n)
  }
}
