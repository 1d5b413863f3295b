/** The shape shared by the four loops of server/database/seed.js: walk a fixed list of
    demo records; when a row matching the record already exists, skip it; otherwise
    insert the row made from it under the table's next AUTOINCREMENT id. The table is a
    map from row id to row and `counter` is its AUTOINCREMENT counter. */
module SeedLoop {

  /** Does some row of the table satisfy `p`? (`SELECT id ... WHERE ...` found a row.) */
  predicate Present<T>(m: map<int, T>, p: T -> bool) {
    exists k :: k in m && p(m[k])
  }

  /** AUTOINCREMENT has handed out every id in use: none exceeds the counter. */
  predicate Below<T>(m: map<int, T>, counter: nat) {
    forall k :: k in m ==> k <= counter
  }

  /** The row made from each record matches that record, so inserting it makes the
      record present. */
  predicate MakesMatching<X, T>(items: seq<X>, matches: X -> T -> bool, make: (X, nat) -> T) {
    forall j :: 0 <= j < |items| ==> matches(items[j])(make(items[j], j))
  }

  /** One iteration: a present record is skipped, an absent one is inserted at
      `counter + 1`, the id AUTOINCREMENT hands out next. */
  function FillOnce<X, T>(m: map<int, T>, counter: nat, x: X, matches: X -> T -> bool,
                          make: (X, nat) -> T, j: nat): (map<int, T>, nat)
  {
    if Present(m, matches(x)) then (m, counter) else (m[counter + 1 := make(x, j)], counter + 1)
  }

  /** The two outcomes of one iteration, by whether the record is present. */
  lemma FillOnceCases<X, T>(m: map<int, T>, counter: nat, x: X, matches: X -> T -> bool,
                            make: (X, nat) -> T, j: nat)
    ensures Present(m, matches(x)) ==> FillOnce(m, counter, x, matches, make, j) == (m, counter)
    ensures !Present(m, matches(x)) ==>
      FillOnce(m, counter, x, matches, make, j) == (m[counter + 1 := make(x, j)], counter + 1)
  {
  }

  /** The table and its counter once the loop has run over `items[i..]`. */
  function Fill<X, T>(m: map<int, T>, counter: nat, items: seq<X>, matches: X -> T -> bool,
                      make: (X, nat) -> T, i: nat): (map<int, T>, nat)
    decreases |items| - i
  {
    if i >= |items| then (m, counter)
    else
      var next := FillOnce(m, counter, items[i], matches, make, i);
      Fill(next.0, next.1, items, matches, make, i + 1)
  }

  /** The loop only adds rows: every row already there keeps its id and its values, every
      new row has an id above the old counter, the counter never goes down, and it still
      bounds every id. */
  lemma {:induction false} FillKeeps<X, T>(m: map<int, T>, counter: nat, items: seq<X>,
                                           matches: X -> T -> bool, make: (X, nat) -> T, i: nat)
    requires Below(m, counter)
    ensures var r := Fill(m, counter, items, matches, make, i);
      && counter <= r.1 && Below(r.0, r.1)
      && (forall k :: k in m ==> k in r.0 && r.0[k] == m[k])
      && (forall k :: k in r.0 && k !in m ==> counter < k)
    decreases |items| - i
  {
    if i < |items| && !Present(m, matches(items[i])) {
      FillKeeps(m[counter + 1 := make(items[i], i)], counter + 1, items, matches, make, i + 1);
    } else if i < |items| {
      FillKeeps(m, counter, items, matches, make, i + 1);
    }
  }

  /** After the loop, every record of `items[i..]` is present. */
  lemma {:induction false} FillCovers<X, T>(m: map<int, T>, counter: nat, items: seq<X>,
                                            matches: X -> T -> bool, make: (X, nat) -> T, i: nat)
    requires Below(m, counter) && MakesMatching(items, matches, make)
    ensures var r := Fill(m, counter, items, matches, make, i);
      forall j :: i <= j < |items| ==> Present(r.0, matches(items[j]))
    decreases |items| - i
  {
    if i < |items| {
      var m' := if Present(m, matches(items[i])) then m else m[counter + 1 := make(items[i], i)];
      var c' := if Present(m, matches(items[i])) then counter else counter + 1;
      assert Fill(m, counter, items, matches, make, i) == Fill(m', c', items, matches, make, i + 1);
      if !Present(m, matches(items[i])) {
        assert matches(items[i])(make(items[i], i));
        assert counter + 1 in m' && matches(items[i])(m'[counter + 1]);
      }
      assert Present(m', matches(items[i]));
      var k :| k in m' && matches(items[i])(m'[k]);
      FillCovers(m', c', items, matches, make, i + 1);
      FillKeeps(m', c', items, matches, make, i + 1);
      var r := Fill(m', c', items, matches, make, i + 1);
      assert k in r.0 && matches(items[i])(r.0[k]);
    }
  }

  /** Every row the loop adds is the row made from one of the records of `items[i..]`. */
  lemma {:induction false} FillAddsOnlyItems<X, T>(m: map<int, T>, counter: nat, items: seq<X>,
                                                   matches: X -> T -> bool, make: (X, nat) -> T, i: nat)
    ensures var r := Fill(m, counter, items, matches, make, i);
      forall k :: k in r.0 && k !in m ==> exists j :: i <= j < |items| && r.0[k] == make(items[j], j)
    decreases |items| - i
  {
    if i < |items| && !Present(m, matches(items[i])) {
      var m' := m[counter + 1 := make(items[i], i)];
      FillAddsOnlyItems(m', counter + 1, items, matches, make, i + 1);
      var r := Fill(m', counter + 1, items, matches, make, i + 1);
      forall k | k in r.0 && k !in m
        ensures exists j :: i <= j < |items| && r.0[k] == make(items[j], j)
      {
        if k in m' {
          FillKeepsAny(m', counter + 1, items, matches, make, i + 1, k);
          assert r.0[k] == make(items[i], i);
        }
      }
    } else if i < |items| {
      FillAddsOnlyItems(m, counter, items, matches, make, i + 1);
    }
  }

  /** A row that is there keeps its value through the rest of the loop, when its id
      cannot be handed out again. */
  lemma {:induction false} FillKeepsAny<X, T>(m: map<int, T>, counter: nat, items: seq<X>,
                                              matches: X -> T -> bool, make: (X, nat) -> T, i: nat, k: int)
    requires k in m && k <= counter
    ensures var r := Fill(m, counter, items, matches, make, i);
      k in r.0 && r.0[k] == m[k]
    decreases |items| - i
  {
    if i < |items| && !Present(m, matches(items[i])) {
      FillKeepsAny(m[counter + 1 := make(items[i], i)], counter + 1, items, matches, make, i + 1, k);
    } else if i < |items| {
      FillKeepsAny(m, counter, items, matches, make, i + 1, k);
    }
  }

  /** When every record of `items[i..]` is already present, the loop changes nothing. */
  lemma {:induction false} FillIdle<X, T>(m: map<int, T>, counter: nat, items: seq<X>,
                                          matches: X -> T -> bool, make: (X, nat) -> T, i: nat)
    requires forall j :: i <= j < |items| ==> Present(m, matches(items[j]))
    ensures Fill(m, counter, items, matches, make, i) == (m, counter)
    decreases |items| - i
  {
    if i < |items| {
      FillIdle(m, counter, items, matches, make, i + 1);
    }
  }

  /** Running the loop a second time, over the same records, inserts nothing. */
  lemma FillTwice<X, T>(m: map<int, T>, counter: nat, items: seq<X>,
                        matches: X -> T -> bool, make: (X, nat) -> T, make': (X, nat) -> T)
    requires Below(m, counter) && MakesMatching(items, matches, make)
    ensures var r := Fill(m, counter, items, matches, make, 0);
      Fill(r.0, r.1, items, matches, make', 0) == r
  {
    FillCovers(m, counter, items, matches, make, 0);
    var r := Fill(m, counter, items, matches, make, 0);
    FillIdle(r.0, r.1, items, matches, make', 0);
  }
}
