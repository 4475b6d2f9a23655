/** The FMS result report (app.py, fms_result): one ordered pass over the
    fetched rows that counts verdicts and collects the positive weights. */
module Aggregator {
  import opened Wrappers
  import opened Values
  import opened Classifier
  import opened WeightParser

  /** Column holding the breed (category) of a row. */
  const BreedKey: string := "품종"
  /** Column holding the row's identifier. */
  const IdKey: string := "육계번호"

  datatype Summary = Summary(total: nat, pass: nat, fail: nat)

  /** One point of the scatter plot. */
  datatype Point = Point(id: Value, weight: real, breed: Value)

  /** Everything the report page receives besides the rows themselves.
      The breed dict is its insertion-ordered keys plus the key-to-list map. */
  datatype Report = Report(
    summary: Summary,
    weightsAll: seq<real>,
    breeds: seq<Value>,
    byBreed: map<Value, seq<real>>,
    scatter: seq<Point>)

  /** What the loop body reads off one row: its verdict, breed, id and parsed weight. */
  datatype Entry = Entry(verdict: Verdict, id: Value, weight: real, breed: Value)

  function Breed(r: Row): Value {
    Get(r, BreedKey, Text("Unknown"))
  }

  function Id(r: Row): Value {
    Get(r, IdKey, Int(0))
  }

  function Read(r: Row): Entry {
    Entry(Classify(r), Id(r), RowWeight(r), Breed(r))
  }

  /** f applied to each element, in order. */
  function MapSeq<A, B>(f: A -> B, s: seq<A>): (r: seq<B>)
    ensures |r| == |s|
  {
    if s == [] then [] else MapSeq(f, s[..|s| - 1]) + [f(s[|s| - 1])]
  }

  /** Element j of the mapped sequence is f of element j. */
  lemma {:induction false} MapAt<A, B>(f: A -> B, s: seq<A>, j: nat)
    requires j < |s|
    ensures MapSeq(f, s)[j] == f(s[j])
  {
    var init := s[..|s| - 1];
    if j < |init| {
      MapAt(f, init, j);
      assert init[j] == s[j];
    }
  }

  /** The rows as the loop reads them, in scan order. */
  function Entries(rows: seq<Row>): seq<Entry> {
    MapSeq(Read, rows)
  }

  /** A row reaches the weight outputs only when its parsed weight is positive. */
  predicate Contributes(e: Entry) {
    e.weight > 0.0
  }

  function PointOf(e: Entry): Point {
    Point(e.id, e.weight, e.breed)
  }

  // Reference definitions: what the report holds after a prefix of the rows.
  // Each peels off the LAST entry, the one the loop handles next.

  function PassCount(es: seq<Entry>): nat {
    if es == [] then 0
    else PassCount(es[..|es| - 1]) + (if es[|es| - 1].verdict == Pass then 1 else 0)
  }

  function FailCount(es: seq<Entry>): nat {
    if es == [] then 0
    else FailCount(es[..|es| - 1]) + (if es[|es| - 1].verdict == Fail then 1 else 0)
  }

  function Weights(es: seq<Entry>): seq<real> {
    if es == [] then []
    else
      var e := es[|es| - 1];
      Weights(es[..|es| - 1]) + (if Contributes(e) then [e.weight] else [])
  }

  function Scatter(es: seq<Entry>): seq<Point> {
    if es == [] then []
    else
      var e := es[|es| - 1];
      Scatter(es[..|es| - 1]) + (if Contributes(e) then [PointOf(e)] else [])
  }

  /** The weights of breed b, in scan order. */
  function BreedWeights(es: seq<Entry>, b: Value): seq<real> {
    if es == [] then []
    else
      var e := es[|es| - 1];
      BreedWeights(es[..|es| - 1], b) + (if Contributes(e) && e.breed == b then [e.weight] else [])
  }

  /** Breeds in the order their first contributing row appears. */
  function BreedOrder(es: seq<Entry>): seq<Value> {
    if es == [] then []
    else
      var e := es[|es| - 1];
      var order := BreedOrder(es[..|es| - 1]);
      if Contributes(e) && e.breed !in order then order + [e.breed] else order
  }

  /** The breed dict, as its insertion-ordered keys and its key-to-list map,
      holds what the reference definitions give for the entries read so far. */
  ghost predicate Grouped(breeds: seq<Value>, byBreed: map<Value, seq<real>>, es: seq<Entry>) {
    breeds == BreedOrder(es) &&
    (forall b :: b in byBreed <==> b in breeds) &&
    (forall b :: b in byBreed ==> byBreed[b] == BreedWeights(es, b))
  }

  /** The report holds exactly what the reference definitions give for the
      entries read so far. */
  ghost predicate Summarizes(rep: Report, es: seq<Entry>) {
    rep.summary.pass == PassCount(es) && rep.summary.fail == FailCount(es) &&
    rep.weightsAll == Weights(es) && rep.scatter == Scatter(es) &&
    Grouped(rep.breeds, rep.byBreed, es)
  }

  /** The dict part of one loop iteration for a positive weight: open the
      breed's list on its first appearance, then append the weight to it. */
  method AddToBreed(breeds: seq<Value>, byBreed: map<Value, seq<real>>, ghost pre: seq<Entry>, e: Entry)
      returns (breeds': seq<Value>, byBreed': map<Value, seq<real>>)
    requires Contributes(e) && Grouped(breeds, byBreed, pre)
    ensures Grouped(breeds', byBreed', pre + [e])
  {
    SnocOrder(pre, e);
    forall b
      ensures BreedWeights(pre + [e], b) == BreedWeights(pre, b) + (if Contributes(e) && e.breed == b then [e.weight] else [])
    {
      SnocBreedWeights(pre, e, b);
    }
    breeds', byBreed' := breeds, byBreed;
    if e.breed !in byBreed' {
      UnseenBreedEmpty(pre, e.breed);
      byBreed' := byBreed'[e.breed := []];
      breeds' := breeds' + [e.breed];
    }
    byBreed' := byBreed'[e.breed := byBreed'[e.breed] + [e.weight]];
  }

  /** A row with a weight that is not positive leaves the breed dict as it was. */
  lemma {:induction false} SkipKeepsGroups(breeds: seq<Value>, byBreed: map<Value, seq<real>>, pre: seq<Entry>, e: Entry)
    requires !Contributes(e) && Grouped(breeds, byBreed, pre)
    ensures Grouped(breeds, byBreed, pre + [e])
  {
    SnocOrder(pre, e);
    forall b
      ensures BreedWeights(pre + [e], b) == BreedWeights(pre, b) + (if Contributes(e) && e.breed == b then [e.weight] else [])
    {
      SnocBreedWeights(pre, e, b);
    }
  }

  /** The body of the loop for one row: count its verdict, and when its weight
      is positive append it to the overall list, to its breed's list and to
      the scatter points. */
  method Tally(rep: Report, ghost pre: seq<Entry>, e: Entry) returns (next: Report)
    requires Summarizes(rep, pre)
    ensures Summarizes(next, pre + [e])
    ensures next.summary.total == rep.summary.total
  {
    SnocCounts(pre, e);
    SnocWeights(pre, e);
    var pass, fail := rep.summary.pass, rep.summary.fail;
    var weightsAll, breeds, byBreed, scatter := rep.weightsAll, rep.breeds, rep.byBreed, rep.scatter;
    if e.verdict == Fail {
      fail := fail + 1;
    } else {
      pass := pass + 1;
    }
    if e.weight > 0.0 {
      weightsAll := weightsAll + [e.weight];
      breeds, byBreed := AddToBreed(breeds, byBreed, pre, e);
      scatter := scatter + [Point(e.id, e.weight, e.breed)];
    } else {
      SkipKeepsGroups(breeds, byBreed, pre, e);
    }
    next := Report(Summary(rep.summary.total, pass, fail), weightsAll, breeds, byBreed, scatter);
  }

  /** The loop of fms_result over the fetched rows: the total is the row count,
      every row lands in one counter, and the lists and the breed dict are what
      the reference definitions give for all the rows in scan order. */
  method Aggregate(rows: seq<Row>) returns (rep: Report)
    ensures rep.summary.total == |rows|
    ensures rep.summary.pass + rep.summary.fail == rep.summary.total
    ensures Summarizes(rep, Entries(rows))
  {
    rep := Report(Summary(|rows|, 0, 0), [], [], map[], []);
    var i := 0;
    while i < |rows|
      invariant 0 <= i <= |rows|
      invariant rep.summary.total == |rows|
      invariant Summarizes(rep, Entries(rows[..i]))
    {
      var row := rows[i];
      var e := Entry(Classify(row), Id(row), RowWeight(row), Breed(row));
      EntriesSnoc(rows, i);
      rep := Tally(rep, Entries(rows[..i]), e);
      i := i + 1;
    }
    assert rows[..i] == rows;
    CountsAddUp(Entries(rows));
  }

  /** fms_result: a fetch that failed (None) leaves the empty rows and the
      zeroed report; otherwise the loop runs over every fetched row. */
  method FmsResult(fetched: Option<seq<Row>>) returns (results: seq<Row>, rep: Report)
    ensures fetched.None? ==> results == [] && rep == Report(Summary(0, 0, 0), [], [], map[], [])
    ensures fetched.Some? ==> results == fetched.value
    ensures rep.summary.total == |results| && rep.summary.pass + rep.summary.fail == rep.summary.total
    ensures Summarizes(rep, Entries(results))
  {
    match fetched
    case None =>
      results := [];
      rep := Report(Summary(0, 0, 0), [], [], map[], []);
    case Some(rows) =>
      results := rows;
      rep := Aggregate(rows);
  }

  // What one more row adds to each reference definition.

  lemma {:induction false} EntriesPush(rows: seq<Row>, r: Row)
    ensures Entries(rows + [r]) == Entries(rows) + [Read(r)]
  {
    var all := rows + [r];
    assert all[..|all| - 1] == rows;
  }

  lemma {:induction false} EntriesSnoc(rows: seq<Row>, i: nat)
    requires i < |rows|
    ensures Entries(rows[..i + 1]) == Entries(rows[..i]) + [Read(rows[i])]
  {
    assert rows[..i + 1][..i] == rows[..i];
  }

  lemma {:induction false} SnocCounts(pre: seq<Entry>, e: Entry)
    ensures PassCount(pre + [e]) == PassCount(pre) + (if e.verdict == Pass then 1 else 0)
    ensures FailCount(pre + [e]) == FailCount(pre) + (if e.verdict == Fail then 1 else 0)
  {
    assert (pre + [e])[..|pre|] == pre;
  }

  lemma {:induction false} SnocWeights(pre: seq<Entry>, e: Entry)
    ensures Weights(pre + [e]) == Weights(pre) + (if Contributes(e) then [e.weight] else [])
    ensures Scatter(pre + [e]) == Scatter(pre) + (if Contributes(e) then [PointOf(e)] else [])
  {
    assert (pre + [e])[..|pre|] == pre;
  }

  lemma {:induction false} SnocOrder(pre: seq<Entry>, e: Entry)
    ensures BreedOrder(pre + [e]) ==
            if Contributes(e) && e.breed !in BreedOrder(pre) then BreedOrder(pre) + [e.breed] else BreedOrder(pre)
  {
    assert (pre + [e])[..|pre|] == pre;
  }


  lemma {:induction false} SnocBreedWeights(pre: seq<Entry>, e: Entry, x: Value)
    ensures BreedWeights(pre + [e], x) ==
            BreedWeights(pre, x) + (if Contributes(e) && e.breed == x then [e.weight] else [])
  {
    assert (pre + [e])[..|pre|] == pre;
  }

  /** Every row lands in exactly one of the two counters. */
  lemma {:induction false} CountsAddUp(es: seq<Entry>)
    ensures PassCount(es) + FailCount(es) == |es|
  {
    if es != [] {
      CountsAddUp(es[..|es| - 1]);
    }
  }

  /** A breed not yet in the order has collected no weights. */
  lemma {:induction false} UnseenBreedEmpty(es: seq<Entry>, b: Value)
    requires b !in BreedOrder(es)
    ensures BreedWeights(es, b) == []
  {
    if es != [] {
      var init := es[..|es| - 1];
      assert BreedOrder(init) <= BreedOrder(es);
      UnseenBreedEmpty(init, b);
    }
  }

  /** Entries reads each row on its own: entry j is row j read. */
  lemma {:induction false} EntryAt(rows: seq<Row>, j: nat)
    requires j < |rows|
    ensures Entries(rows)[j] == Read(rows[j])
  {
    MapAt(Read, rows, j);
  }

  /** Every collected weight is positive. */
  lemma {:induction false} WeightsPositive(es: seq<Entry>)
    ensures forall j :: 0 <= j < |Weights(es)| ==> Weights(es)[j] > 0.0
  {
    if es != [] {
      WeightsPositive(es[..|es| - 1]);
    }
  }

  /** The scatter points and the overall weight list run in parallel: one
      point per collected weight, carrying that weight. */
  lemma {:induction false} ScatterMatchesWeights(es: seq<Entry>)
    ensures |Scatter(es)| == |Weights(es)|
    ensures forall j :: 0 <= j < |Weights(es)| ==> Scatter(es)[j].weight == Weights(es)[j]
  {
    if es != [] {
      ScatterMatchesWeights(es[..|es| - 1]);
    }
  }

  /** Scanning more rows only adds to the counters. */
  lemma {:induction false} CountsAppend(a: seq<Entry>, b: seq<Entry>)
    ensures PassCount(a + b) == PassCount(a) + PassCount(b)
    ensures FailCount(a + b) == FailCount(a) + FailCount(b)
  {
    if b == [] {
      assert a + b == a;
    } else {
      var init := b[..|b| - 1];
      var e := b[|b| - 1];
      CountsAppend(a, init);
      assert a + b == (a + init) + [e];
      SnocCounts(a + init, e);
    }
  }

  /** Scanning more rows only appends: the lists for a + b extend those for a. */
  lemma {:induction false} ListsAppend(a: seq<Entry>, b: seq<Entry>)
    ensures Weights(a + b) == Weights(a) + Weights(b)
    ensures Scatter(a + b) == Scatter(a) + Scatter(b)
  {
    if b == [] {
      assert a + b == a;
    } else {
      var init := b[..|b| - 1];
      var e := b[|b| - 1];
      ListsAppend(a, init);
      assert a + b == (a + init) + [e];
      SnocWeights(a + init, e);
    }
  }

  /** A row whose parsed weight is not positive is counted, but reaches no
      weight list, no breed and no scatter point. */
  lemma {:induction false} LightRowOnlyCounted(rows: seq<Row>, r: Row)
    requires RowWeight(r) <= 0.0
    ensures PassCount(Entries(rows + [r])) == PassCount(Entries(rows)) + (if Classify(r) == Pass then 1 else 0)
    ensures FailCount(Entries(rows + [r])) == FailCount(Entries(rows)) + (if Classify(r) == Fail then 1 else 0)
    ensures Weights(Entries(rows + [r])) == Weights(Entries(rows))
    ensures Scatter(Entries(rows + [r])) == Scatter(Entries(rows))
    ensures BreedOrder(Entries(rows + [r])) == BreedOrder(Entries(rows))
    ensures forall b :: BreedWeights(Entries(rows + [r]), b) == BreedWeights(Entries(rows), b)
  {
    EntriesPush(rows, r);
    var es := Entries(rows);
    var e := Read(r);
    assert e.weight == RowWeight(r) && e.verdict == Classify(r);
    SnocCounts(es, e);
    SnocWeights(es, e);
    SnocOrder(es, e);
    forall b
      ensures BreedWeights(es + [e], b) == BreedWeights(es, b)
    {
      SnocBreedWeights(es, e, b);
    }
  }

  predicate Distinct<T(==)>(s: seq<T>) {
    forall i, j :: 0 <= i < j < |s| ==> s[i] != s[j]
  }

  /** Each breed is listed once, in the order of its first contributing row. */
  lemma {:induction false} BreedOrderDistinct(es: seq<Entry>)
    ensures Distinct(BreedOrder(es))
  {
    if es != [] {
      BreedOrderDistinct(es[..|es| - 1]);
    }
  }

  /** A breed is a key of the dict exactly when it has collected a weight. */
  lemma {:induction false} BreedListedIff(es: seq<Entry>, b: Value)
    ensures b in BreedOrder(es) <==> BreedWeights(es, b) != []
  {
    if es != [] {
      var pre := es[..|es| - 1];
      BreedListedIff(pre, b);
      assert BreedOrder(pre) <= BreedOrder(es);
    }
  }

  /** The number of weights collected for the breeds in bs. */
  function GroupSizes(es: seq<Entry>, bs: seq<Value>): nat {
    if bs == [] then 0 else GroupSizes(es, bs[..|bs| - 1]) + |BreedWeights(es, bs[|bs| - 1])|
  }

  lemma {:induction false} GroupSizesSnoc(pre: seq<Entry>, e: Entry, bs: seq<Value>)
    requires Distinct(bs)
    ensures GroupSizes(pre + [e], bs) ==
            GroupSizes(pre, bs) + (if Contributes(e) && e.breed in bs then 1 else 0)
  {
    if bs != [] {
      var cs := bs[..|bs| - 1];
      var c := bs[|bs| - 1];
      SnocBreedWeights(pre, e, c);
      assert bs == cs + [c];
      assert Distinct(cs);
      assert c !in cs;
      GroupSizesSnoc(pre, e, cs);
    }
  }

  /** The breed lists split the overall list: their lengths add up to its length. */
  lemma {:induction false} GroupsPartitionWeights(es: seq<Entry>)
    ensures GroupSizes(es, BreedOrder(es)) == |Weights(es)|
  {
    if es != [] {
      var pre := es[..|es| - 1];
      var e := es[|es| - 1];
      assert es == pre + [e];
      var order := BreedOrder(pre);
      GroupsPartitionWeights(pre);
      BreedOrderDistinct(pre);
      SnocOrder(pre, e);
      SnocBreedWeights(pre, e, e.breed);
      SnocWeights(pre, e);
      GroupSizesSnoc(pre, e, order);
      if Contributes(e) && e.breed !in order {
        UnseenBreedEmpty(pre, e.breed);
        assert (order + [e.breed])[..|order|] == order;
      }
    }
  }

  /** Later rows never reset what earlier rows collected: each breed's list
      only grows at its end. */
  lemma {:induction false} BreedScanAppend(a: seq<Entry>, b: seq<Entry>, x: Value)
    ensures BreedWeights(a + b, x) == BreedWeights(a, x) + BreedWeights(b, x)
  {
    if b == [] {
      assert a + b == a;
    } else {
      var init := b[..|b| - 1];
      var e := b[|b| - 1];
      BreedScanAppend(a, init, x);
      assert a + b == (a + init) + [e];
      assert init + [e] == b;
      SnocBreedWeights(a + init, e, x);
      SnocBreedWeights(init, e, x);
    }
  }

  /** The breed order only gains new breeds at its end. */
  lemma {:induction false} BreedOrderGrows(a: seq<Entry>, b: seq<Entry>)
    ensures BreedOrder(a) <= BreedOrder(a + b)
  {
    if b == [] {
      assert a + b == a;
    } else {
      var init := b[..|b| - 1];
      BreedOrderGrows(a, init);
      assert a + b == (a + init) + [b[|b| - 1]];
      assert (a + b)[..|a + b| - 1] == a + init;
    }
  }

  /** The entries of breed b, in scan order. */
  function OfBreed(es: seq<Entry>, b: Value): seq<Entry> {
    if es == [] then []
    else
      var e := es[|es| - 1];
      OfBreed(es[..|es| - 1], b) + (if e.breed == b then [e] else [])
  }

  /** A breed's list is the overall weight list restricted to that breed's rows. */
  lemma {:induction false} BreedWeightsFiltered(es: seq<Entry>, b: Value)
    ensures BreedWeights(es, b) == Weights(OfBreed(es, b))
  {
    if es != [] {
      var pre := es[..|es| - 1];
      var e := es[|es| - 1];
      BreedWeightsFiltered(pre, b);
      assert es == pre + [e];
      SnocBreedWeights(pre, e, b);
      if e.breed == b {
        assert OfBreed(es, b) == OfBreed(pre, b) + [e];
        SnocWeights(OfBreed(pre, b), e);
      } else {
        assert OfBreed(es, b) == OfBreed(pre, b) + [];
        assert OfBreed(pre, b) + [] == OfBreed(pre, b);
      }
    }
  }

  /** A row whose parsed weight is positive adds that weight at the end of the
      overall list and of its breed's list, and one scatter point carrying its
      id, weight and breed; its breed is then a key of the dict. */
  lemma {:induction false} HeavyRowCollected(rows: seq<Row>, r: Row)
    requires RowWeight(r) > 0.0
    ensures Weights(Entries(rows + [r])) == Weights(Entries(rows)) + [RowWeight(r)]
    ensures Scatter(Entries(rows + [r])) == Scatter(Entries(rows)) + [Point(Id(r), RowWeight(r), Breed(r))]
    ensures BreedWeights(Entries(rows + [r]), Breed(r)) == BreedWeights(Entries(rows), Breed(r)) + [RowWeight(r)]
    ensures Breed(r) in BreedOrder(Entries(rows + [r]))
  {
    EntriesPush(rows, r);
    var es := Entries(rows);
    var e := Read(r);
    assert e.weight == RowWeight(r) && e.breed == Breed(r) && e.id == Id(r);
    SnocWeights(es, e);
    SnocBreedWeights(es, e, e.breed);
    SnocOrder(es, e);
  }

  /** A positive-weight row without a breed column is grouped under "Unknown". */
  lemma {:induction false} MissingBreedIsUnknown(rows: seq<Row>, r: Row)
    requires RowWeight(r) > 0.0 && BreedKey !in r.fields
    ensures BreedWeights(Entries(rows + [r]), Text("Unknown")) ==
            BreedWeights(Entries(rows), Text("Unknown")) + [RowWeight(r)]
  {
    HeavyRowCollected(rows, r);
  }

  /** Each row adds one to exactly one counter: to the fail counter exactly
      when its trimmed status is the Korean token or any casing of "fail". */
  lemma {:induction false} RowCounted(rows: seq<Row>, r: Row)
    ensures FailCount(Entries(rows + [r])) ==
            FailCount(Entries(rows)) + (if StatusText(r) == FailToken || IsFailWord(StatusText(r)) then 1 else 0)
    ensures PassCount(Entries(rows + [r])) + FailCount(Entries(rows + [r])) ==
            PassCount(Entries(rows)) + FailCount(Entries(rows)) + 1
  {
    EntriesPush(rows, r);
    var e := Read(r);
    assert e.verdict == Classify(r);
    SnocCounts(Entries(rows), e);
    ClassifyFailIff(r);
  }
}

