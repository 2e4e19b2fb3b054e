/** What a table of rows with a generated primary key means for the queries storage.ts
    runs: `where(eq(t.id, id))` lookups, `update ... set ... where ... returning`,
    `delete ... where`, and the keys the store hands out. */
module Table {
  import opened Wrappers
  import opened Schema
  import Js
  import Seqs

  /** No two rows share a primary key. */
  ghost predicate UniqueIds<T>(t: seq<Row<T>>)
  {
    forall i, j :: 0 <= i < j < |t| ==> t[i].id != t[j].id
  }

  /** The key the store hands out as its n-th id. */
  function IdFor(n: nat): Id
  {
    Js.NatToString(n)
  }

  /** id is one of the first n keys the store handed out. */
  ghost predicate IssuedBelow(id: Id, n: nat)
  {
    exists k: nat :: k < n && id == IdFor(k)
  }

  /** The table's keys are unique and all handed out before key number n. */
  ghost predicate WellKeyed<T>(t: seq<Row<T>>, n: nat)
  {
    UniqueIds(t) && forall i :: 0 <= i < |t| ==> IssuedBelow(t[i].id, n)
  }

  /** The next key is not yet in any table the store keeps well keyed. */
  lemma IdForFresh<T>(t: seq<Row<T>>, n: nat)
    requires WellKeyed(t, n)
    ensures forall i :: 0 <= i < |t| ==> t[i].id != IdFor(n)
    ensures !IssuedBelow(IdFor(n), n) && IssuedBelow(IdFor(n), n + 1)
  {
    forall k: nat | k < n && IdFor(k) == IdFor(n) ensures false {
      Js.NatToStringInjective(k, n);
    }
    assert IdFor(n) == IdFor(n);
  }

  /** An insert with the next key keeps the table well keyed once the counter moves on. */
  lemma InsertWellKeyed<T>(t: seq<Row<T>>, n: nat, data: T)
    requires WellKeyed(t, n)
    ensures WellKeyed(t + [Row(IdFor(n), data)], n + 1)
  {
    IdForFresh(t, n);
  }

  /** A table that was well keyed stays so when the counter moves on. */
  lemma WellKeyedLater<T>(t: seq<Row<T>>, n: nat, m: nat)
    requires WellKeyed(t, n) && n <= m
    ensures WellKeyed(t, m)
  {
  }

  /** Whether some row satisfies p. */
  predicate Exists<T>(t: seq<Row<T>>, p: Row<T> -> bool)
  {
    exists i :: 0 <= i < |t| && p(t[i])
  }

  /** The position of the first row satisfying p (`find` / the first row a query returns). */
  function FirstIndex<T>(t: seq<Row<T>>, p: Row<T> -> bool): (k: Option<nat>)
    ensures k.None? <==> forall i :: 0 <= i < |t| ==> !p(t[i])
    ensures k.Some? ==> k.value < |t| && p(t[k.value]) && forall j :: 0 <= j < k.value ==> !p(t[j])
  {
    if t == [] then None
    else if p(t[0]) then Some(0)
    else
      match FirstIndex(t[1..], p)
      case None => None
      case Some(k) => Some(k + 1)
  }

  /** The first row satisfying p, if any. */
  function FindFirst<T>(t: seq<Row<T>>, p: Row<T> -> bool): (r: Option<Row<T>>)
    ensures r.None? <==> forall i :: 0 <= i < |t| ==> !p(t[i])
    ensures r.Some? ==> r.value in t && p(r.value)
  {
    match FirstIndex(t, p)
    case None => None
    case Some(k) => Some(t[k])
  }

  /** `select ... where(eq(t.id, id))`, first row. */
  function FindById<T>(t: seq<Row<T>>, id: Id): (r: Option<Row<T>>)
    ensures r.None? <==> forall i :: 0 <= i < |t| ==> t[i].id != id
    ensures r.Some? ==> r.value in t && r.value.id == id
  {
    FindFirst(t, (x: Row<T>) => x.id == id)
  }

  /** With unique keys, the row found by id is the row at any position holding that id. */
  lemma FindByIdUnique<T>(t: seq<Row<T>>, id: Id, i: nat)
    requires UniqueIds(t) && i < |t| && t[i].id == id
    ensures FindById(t, id) == Some(t[i])
  {
    var k := FirstIndex(t, (x: Row<T>) => x.id == id);
    assert k.Some?;
    assert t[k.value].id == id;
  }

  /** `update t set f(row) where p(row)`: every row satisfying p is rewritten, keeping its key. */
  function UpdateWhere<T>(t: seq<Row<T>>, p: Row<T> -> bool, f: T -> T): (r: seq<Row<T>>)
    ensures |r| == |t|
    ensures forall i :: 0 <= i < |t| ==> r[i] == if p(t[i]) then Row(t[i].id, f(t[i].data)) else t[i]
  {
    seq(|t|, (i: int) requires 0 <= i < |t| => if p(t[i]) then Row(t[i].id, f(t[i].data)) else t[i])
  }

  /** An update keeps every key where it was, so it keeps the table well keyed. */
  lemma UpdateWellKeyed<T>(t: seq<Row<T>>, p: Row<T> -> bool, f: T -> T, n: nat)
    requires WellKeyed(t, n)
    ensures WellKeyed(UpdateWhere(t, p, f), n)
  {
    var r := UpdateWhere(t, p, f);
    assert forall i :: 0 <= i < |t| ==> r[i].id == t[i].id;
  }

  /** What `update ... returning` gives back first: the first matching row, rewritten. */
  function UpdatedFirst<T>(t: seq<Row<T>>, p: Row<T> -> bool, f: T -> T): (r: Option<Row<T>>)
    ensures r.None? <==> forall i :: 0 <= i < |t| ==> !p(t[i])
    ensures r.Some? ==> exists i :: 0 <= i < |t| && p(t[i]) && r.value == Row(t[i].id, f(t[i].data))
    ensures r.Some? ==> r.value in UpdateWhere(t, p, f)
  {
    match FirstIndex(t, p)
    case None => None
    case Some(k) =>
      assert UpdateWhere(t, p, f)[k] == Row(t[k].id, f(t[k].data));
      Some(Row(t[k].id, f(t[k].data)))
  }

  /** `delete from t where p(row)`. */
  function DeleteWhere<T(!new)>(t: seq<Row<T>>, p: Row<T> -> bool): (r: seq<Row<T>>)
    ensures forall x :: x in r <==> x in t && !p(x)
    ensures |r| <= |t|
  {
    Seqs.Filter(t, (x: Row<T>) => !p(x))
  }

  /** A delete that matches no row leaves the table as it was. */
  lemma DeleteWhereNone<T(!new)>(t: seq<Row<T>>, p: Row<T> -> bool)
    requires forall i :: 0 <= i < |t| ==> !p(t[i])
    ensures DeleteWhere(t, p) == t
  {
    Seqs.FilterKeepsAll(t, (x: Row<T>) => !p(x));
  }

  lemma InTailOtherId<T>(t: seq<Row<T>>, y: Row<T>)
    requires UniqueIds(t) && |t| > 0 && y in t[1..]
    ensures y.id != t[0].id
  {
    var j :| 0 <= j < |t[1..]| && t[1..][j] == y;
    assert t[j + 1] == y;
  }

  lemma {:induction false} FilterUniqueIds<T(!new)>(t: seq<Row<T>>, q: Row<T> -> bool)
    requires UniqueIds(t)
    ensures UniqueIds(Seqs.Filter(t, q))
  {
    if t != [] {
      var rest := Seqs.Filter(t[1..], q);
      assert UniqueIds(t[1..]) by {
        forall i, j | 0 <= i < j < |t[1..]| ensures t[1..][i].id != t[1..][j].id {
          assert t[1..][i] == t[i + 1] && t[1..][j] == t[j + 1];
        }
      }
      FilterUniqueIds(t[1..], q);
      if q(t[0]) {
        var r := [t[0]] + rest;
        forall i, j | 0 <= i < j < |r| ensures r[i].id != r[j].id {
          if i == 0 {
            assert r[j] == rest[j - 1];
            InTailOtherId(t, rest[j - 1]);
          } else {
            assert r[i] == rest[i - 1] && r[j] == rest[j - 1];
          }
        }
        assert UniqueIds(r);
      }
    }
  }

  /** A delete keeps the table well keyed. */
  lemma DeleteWellKeyed<T(!new)>(t: seq<Row<T>>, p: Row<T> -> bool, n: nat)
    requires WellKeyed(t, n)
    ensures WellKeyed(DeleteWhere(t, p), n)
  {
    FilterUniqueIds(t, (x: Row<T>) => !p(x));
    var r := DeleteWhere(t, p);
    forall i | 0 <= i < |r| ensures IssuedBelow(r[i].id, n) {
      assert r[i] in t;
    }
  }
}
