/** A document collection as the handlers see it: rows keyed by id, ids handed
    out in increasing order. Creation order is id order, so a query sorted by
    `createdAt` descending lists ids from the largest down, and `findOne`
    without a sort returns the matching row with the smallest id. */
module Documents {

  import opened Common

  type Id = nat

  datatype Collection<T> = Collection(rows: map<Id, T>, nextId: Id)

  /** Every stored id was handed out before `nextId`. */
  ghost predicate Valid<T>(c: Collection<T>)
  {
    forall id :: id in c.rows ==> id < c.nextId
  }

  function Empty<T>(): (c: Collection<T>)
    ensures Valid(c) && c.rows == map[]
  {
    Collection(map[], 0)
  }

  /** `Model.create(doc)`: the new row gets a fresh id; no existing row changes. */
  function Insert<T>(c: Collection<T>, doc: T): (r: Collection<T>)
    requires Valid(c)
    ensures Valid(r)
    ensures c.nextId !in c.rows && r.rows == c.rows[c.nextId := doc]
    ensures r.nextId == c.nextId + 1
  {
    Collection(c.rows[c.nextId := doc], c.nextId + 1)
  }

  /** The row `Insert` adds sits at the old counter, above every other id, and every
      other row is as it was. */
  lemma InsertedRow<T>(c: Collection<T>, doc: T)
    requires Valid(c)
    ensures c.nextId in Insert(c, doc).rows && Insert(c, doc).rows[c.nextId] == doc
    ensures forall j :: j in Insert(c, doc).rows ==> j <= c.nextId
    ensures forall j :: j in Insert(c, doc).rows && j != c.nextId ==> j in c.rows && Insert(c, doc).rows[j] == c.rows[j]
  {
  }

  /** The inserted document is among the collection's values. */
  lemma InsertedIsValue<T>(c: Collection<T>, doc: T)
    requires Valid(c)
    ensures doc in Insert(c, doc).rows.Values
  {
    assert Insert(c, doc).rows[c.nextId] == doc;
  }

  /** `findOne` finds the one row that matches, when only one does. */
  lemma OnlyMatchIsFound<T>(c: Collection<T>, matches: T -> bool, id: Id)
    requires Valid(c) && id in c.rows && matches(c.rows[id])
    requires forall j :: j in c.rows && j != id ==> !matches(c.rows[j])
    ensures FindOne(c, matches) == Some(id)
  {
  }

  /** `deleteMany(filter)`: drops exactly the rows the filter matches. */
  function DeleteWhere<T>(c: Collection<T>, matches: T -> bool): (r: Collection<T>)
    requires Valid(c)
    ensures Valid(r) && r.nextId == c.nextId
    ensures forall id :: id in r.rows <==> id in c.rows && !matches(c.rows[id])
    ensures forall id :: id in r.rows ==> r.rows[id] == c.rows[id]
  {
    Collection(map id | id in c.rows && !matches(c.rows[id]) :: c.rows[id], c.nextId)
  }

  /** Creating a row and then overwriting it stores what a single create of the final
      document stores. */
  lemma InsertThenOverwrite<T>(c: Collection<T>, first: T, last: T)
    requires Valid(c)
    ensures Collection(Insert(c, first).rows[c.nextId := last], Insert(c, first).nextId) == Insert(c, last)
  {
  }

  /** The ids of the rows that match. */
  ghost function Matching<T>(c: Collection<T>, matches: T -> bool): set<Id>
  {
    set id | id in c.rows && matches(c.rows[id])
  }

  ghost predicate Increasing(ids: seq<Id>)
  {
    forall i, j :: 0 <= i < j < |ids| ==> ids[i] < ids[j]
  }

  ghost predicate Decreasing(ids: seq<Id>)
  {
    forall i, j :: 0 <= i < j < |ids| ==> ids[i] > ids[j]
  }

  /** The ids below `n` of the rows that match, smallest first. */
  function Scan<T>(rows: map<Id, T>, n: nat, matches: T -> bool): (ids: seq<Id>)
    ensures Increasing(ids)
    ensures forall id :: id in ids <==> id < n && id in rows && matches(rows[id])
    decreases n
  {
    if n == 0 then []
    else
      var earlier := Scan(rows, n - 1, matches);
      if n - 1 in rows && matches(rows[n - 1]) then
        AppendLarger(earlier, n - 1);
        earlier + [n - 1]
      else earlier
  }

  /** Appending an id above every listed one keeps a listing increasing. */
  lemma AppendLarger(ids: seq<Id>, top: Id)
    requires Increasing(ids) && forall id :: id in ids ==> id < top
    ensures Increasing(ids + [top])
  {
    var longer := ids + [top];
    forall i, j | 0 <= i < j < |longer| ensures longer[i] < longer[j] {
      if j < |ids| {
        assert longer[i] == ids[i] && longer[j] == ids[j];
      } else {
        assert longer[i] == ids[i] && ids[i] in ids;
      }
    }
  }

  /** `find(filter)`: every matching row, in creation order. */
  function Find<T>(c: Collection<T>, matches: T -> bool): (ids: seq<Id>)
    requires Valid(c)
    ensures Increasing(ids)
    ensures forall id :: id in ids <==> id in c.rows && matches(c.rows[id])
  {
    Scan(c.rows, c.nextId, matches)
  }

  /** `findOne(filter)`: the earliest matching row, if any. */
  function FindOne<T>(c: Collection<T>, matches: T -> bool): (r: Option<Id>)
    requires Valid(c)
    ensures r.Some? <==> exists id :: id in c.rows && matches(c.rows[id])
    ensures r.Some? ==> r.value in c.rows && matches(c.rows[r.value])
    ensures r.Some? ==> forall id :: id in c.rows && matches(c.rows[id]) ==> r.value <= id
  {
    var ids := Find(c, matches);
    if ids == [] then None
    else
      assert forall id :: id in ids ==> ids[0] <= id by {
        forall id | id in ids ensures ids[0] <= id {
          var j :| 0 <= j < |ids| && ids[j] == id;
          assert j == 0 || ids[0] < ids[j];
        }
      }
      assert ids[0] in ids;
      Some(ids[0])
  }

  function Reversed(s: seq<Id>): (r: seq<Id>)
    ensures |r| == |s|
    ensures forall i :: 0 <= i < |s| ==> r[i] == s[|s| - 1 - i]
  {
    if s == [] then [] else Reversed(s[1..]) + [s[0]]
  }

  /** `find(filter).sort({ createdAt: -1 })`: every matching row, newest first. */
  function FindNewestFirst<T>(c: Collection<T>, matches: T -> bool): (ids: seq<Id>)
    requires Valid(c)
    ensures Decreasing(ids)
    ensures forall id :: id in ids <==> id in c.rows && matches(c.rows[id])
  {
    var asc := Find(c, matches);
    var r := Reversed(asc);
    assert forall id :: id in r <==> id in asc by {
      forall id ensures id in r <==> id in asc {
        if id in asc {
          var j :| 0 <= j < |asc| && asc[j] == id;
          assert r[|asc| - 1 - j] == id;
        }
      }
    }
    r
  }

  /** `countDocuments(filter)` / `$size` of a lookup: how many rows match. */
  function Count<T>(c: Collection<T>, matches: T -> bool): (n: nat)
    requires Valid(c)
    ensures n == |Matching(c, matches)|
  {
    ScanCardinality(c.rows, c.nextId, matches);
    CountUnbounded(c, matches);
    |Find(c, matches)|
  }

  /** The ids below `n` of the rows that match. */
  ghost function MatchingBelow<T>(rows: map<Id, T>, n: nat, matches: T -> bool): set<Id>
  {
    set id | id in rows && id < n && matches(rows[id])
  }

  /** Raising the bound by one adds at most the id just below it. */
  lemma MatchingBelowStep<T>(rows: map<Id, T>, n: nat, matches: T -> bool)
    requires n > 0
    ensures n - 1 !in MatchingBelow(rows, n - 1, matches)
    ensures n - 1 in rows && matches(rows[n - 1]) ==>
      MatchingBelow(rows, n, matches) == MatchingBelow(rows, n - 1, matches) + {n - 1}
    ensures !(n - 1 in rows && matches(rows[n - 1])) ==>
      MatchingBelow(rows, n, matches) == MatchingBelow(rows, n - 1, matches)
  {
  }

  /** A scan lists every matching id exactly once. */
  lemma {:induction false} ScanCardinality<T>(rows: map<Id, T>, n: nat, matches: T -> bool)
    ensures |Scan(rows, n, matches)| == |MatchingBelow(rows, n, matches)|
  {
    if n > 0 {
      ScanCardinality(rows, n - 1, matches);
      MatchingBelowStep(rows, n, matches);
      var earlier := Scan(rows, n - 1, matches);
      var below := MatchingBelow(rows, n - 1, matches);
      if n - 1 in rows && matches(rows[n - 1]) {
        assert Scan(rows, n, matches) == earlier + [n - 1];
        assert |MatchingBelow(rows, n, matches)| == |below| + 1;
      } else {
        assert Scan(rows, n, matches) == earlier;
      }
    } else {
      assert MatchingBelow(rows, n, matches) == {};
    }
  }

  /** With every id below `nextId`, bounding the scan by `nextId` loses nothing. */
  lemma CountUnbounded<T>(c: Collection<T>, matches: T -> bool)
    requires Valid(c)
    ensures MatchingBelow(c.rows, c.nextId, matches) == Matching(c, matches)
  {
  }

  /** The row with the largest id heads a newest-first listing that holds it. */
  lemma NewestIsFirst<T>(c: Collection<T>, matches: T -> bool, id: Id)
    requires Valid(c) && id in c.rows && matches(c.rows[id])
    requires forall j :: j in c.rows ==> j <= id
    ensures FindNewestFirst(c, matches) != [] && FindNewestFirst(c, matches)[0] == id
  {
    var ids := FindNewestFirst(c, matches);
    assert id in ids;
    var k :| 0 <= k < |ids| && ids[k] == id;
    assert ids[0] in ids;
    assert forall i :: 0 < i < |ids| ==> ids[0] > ids[i];
    assert ids[0] >= ids[k];
  }

  /** A newest-first listing of a filter no row matches is empty. */
  lemma NothingListed<T>(c: Collection<T>, matches: T -> bool)
    requires Valid(c) && forall j :: j in c.rows ==> !matches(c.rows[j])
    ensures FindNewestFirst(c, matches) == []
  {
    assert Matching(c, matches) == {};
    assert |Find(c, matches)| == Count(c, matches) == 0;
  }
}
