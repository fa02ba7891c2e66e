/** Id-keyed lists of records, the shape every editor and table of the
    dashboard keeps in state: a row is matched by its `id`, updated with
    `map`, removed with `filter`, and the two multi-row forms number a new
    row `length + 1`. */
module Rows {
  import opened Wrappers
  import opened Seqs

  /** A row: the `id` the handlers match on, and the rest of the record. */
  datatype Row<F> = Row(id: int, fields: F)

  predicate HasId<F>(s: seq<Row<F>>, id: int) {
    exists i | 0 <= i < |s| :: s[i].id == id
  }

  /** No two rows share an id, so an id names at most one row. */
  predicate DistinctIds<F>(s: seq<Row<F>>) {
    forall i, j | 0 <= i < j < |s| :: s[i].id != s[j].id
  }

  /** `s.find(x => x.id === id)`: the first row carrying `id`. */
  function FindId<F>(s: seq<Row<F>>, id: int): (r: Option<Row<F>>)
    ensures r.Some? <==> HasId(s, id)
    ensures r.Some? ==> r.value in s && r.value.id == id
    ensures r.Some? ==> exists i | 0 <= i < |s| :: s[i] == r.value && forall j | 0 <= j < i :: s[j].id != id
  {
    match Find(s, (x: Row<F>) => x.id == id)
    case None => None
    case Some(i) => Some(s[i])
  }

  /** `s.filter(x => x.id !== id)`. */
  function RemoveId<F(==,!new)>(s: seq<Row<F>>, id: int): (r: seq<Row<F>>)
    ensures IsSubsequence(r, s)
    ensures forall x :: x in r <==> x in s && x.id != id
    ensures forall x :: multiset(r)[x] == if x.id != id then multiset(s)[x] else 0
    ensures !HasId(r, id)
  {
    var r := Filter(s, (x: Row<F>) => x.id != id);
    assert forall i | 0 <= i < |r| :: r[i] in r;
    r
  }

  /** `s.map(x => x.id === id ? f(x) : x)`, where `f` rewrites the record
      and keeps its id. */
  function UpdateId<F>(s: seq<Row<F>>, id: int, f: F -> F): (r: seq<Row<F>>)
    ensures |r| == |s|
    ensures forall i | 0 <= i < |s| :: r[i].id == s[i].id
    ensures forall i | 0 <= i < |s| :: r[i].fields == if s[i].id == id then f(s[i].fields) else s[i].fields
  {
    if s == [] then []
    else [if s[0].id == id then Row(id, f(s[0].fields)) else s[0]] + UpdateId(s[1..], id, f)
  }

  /** The two forms' "Add Item": a new row numbered one past the length. */
  function AppendNumbered<F>(s: seq<Row<F>>, blank: F): (r: seq<Row<F>>)
    ensures |r| == |s| + 1 && r[..|s|] == s
    ensures r[|s|] == Row(|s| + 1, blank)
  {
    s + [Row(|s| + 1, blank)]
  }

  /** The largest id in `s`, or 0 for the empty list. */
  function MaxId<F>(s: seq<Row<F>>): (m: int)
    ensures m >= 0
    ensures forall i | 0 <= i < |s| :: s[i].id <= m
    ensures m == 0 || HasId(s, m)
  {
    if s == [] then 0
    else
      var rest := MaxId(s[1..]);
      if s[0].id > rest then s[0].id else rest
  }

  /** "Add Item" numbering the new row one past the largest id, so that
      the new id is fresh whatever was removed before. */
  function AppendFresh<F>(s: seq<Row<F>>, blank: F): (r: seq<Row<F>>)
    ensures |r| == |s| + 1 && r[..|s|] == s
    ensures r[|s|].fields == blank && !HasId(s, r[|s|].id)
    ensures DistinctIds(s) ==> DistinctIds(r)
  {
    s + [Row(MaxId(s) + 1, blank)]
  }

  /** As long as the ids are exactly 1..n, as adding alone leaves them,
      fresh numbering and length numbering coincide. */
  lemma FreshAgreesWhileNumbered<F>(s: seq<Row<F>>, blank: F)
    requires forall i | 0 <= i < |s| :: s[i].id == i + 1
    ensures AppendFresh(s, blank) == AppendNumbered(s, blank)
  {
    if s != [] {
      assert s[|s| - 1].id == |s|;
      var m := MaxId(s);
      assert m != 0;
      var i :| 0 <= i < |s| && s[i].id == m;
    }
  }

  /** Every subsequence of a list with distinct ids has distinct ids. */
  lemma {:induction false} SubsequenceKeepsDistinct<F>(r: seq<Row<F>>, s: seq<Row<F>>)
    requires IsSubsequence(r, s) && DistinctIds(s)
    ensures DistinctIds(r)
    ensures forall x | x in r :: x in s
    decreases |s|
  {
    if r != [] {
      assert s != [];
      if r[0] == s[0] && IsSubsequence(r[1..], s[1..]) {
        SubsequenceKeepsDistinct(r[1..], s[1..]);
        forall j | 1 <= j < |r| ensures r[0].id != r[j].id {
          assert r[j] in r[1..];
          var k :| 0 <= k < |s[1..]| && s[1..][k] == r[j];
          assert s[k + 1] == r[j];
        }
        forall x | x in r ensures x in s {
          if x != r[0] {
            assert x in r[1..];
          }
        }
      } else {
        SubsequenceKeepsDistinct(r, s[1..]);
      }
    }
  }

  /** Removing rows keeps ids distinct. */
  lemma RemoveKeepsDistinct<F(!new)>(s: seq<Row<F>>, id: int)
    requires DistinctIds(s)
    ensures DistinctIds(RemoveId(s, id))
  {
    SubsequenceKeepsDistinct(RemoveId(s, id), s);
  }

  /** Updating a row that is not there changes nothing. */
  lemma UpdateAbsent<F>(s: seq<Row<F>>, id: int, f: F -> F)
    requires !HasId(s, id)
    ensures UpdateId(s, id, f) == s
  {
    var r := UpdateId(s, id, f);
    forall i | 0 <= i < |s| ensures r[i] == s[i] {
      assert s[i].id != id;
    }
  }

  /** Removing a row makes any earlier update of it invisible. */
  lemma {:induction false} RemoveAfterUpdate<F(!new)>(s: seq<Row<F>>, id: int, f: F -> F)
    ensures RemoveId(UpdateId(s, id, f), id) == RemoveId(s, id)
  {
    if s != [] {
      RemoveAfterUpdate(s[1..], id, f);
      var u := UpdateId(s, id, f);
      assert u == [u[0]] + UpdateId(s[1..], id, f);
      assert s == [s[0]] + s[1..];
    }
  }

  /** The first row carrying `id` after an update is the update of the
      first row carrying it before. */
  lemma FindAfterUpdate<F>(s: seq<Row<F>>, id: int, f: F -> F)
    ensures FindId(UpdateId(s, id, f), id) ==
              match FindId(s, id)
              case None => None
              case Some(x) => Some(Row(id, f(x.fields)))
  {
    var u := UpdateId(s, id, f);
    var p := (x: Row<F>) => x.id == id;
    var a := Find(s, p);
    var b := Find(u, p);
    assert forall i | 0 <= i < |s| :: p(u[i]) == p(s[i]);
    if a.Some? && b.Some? {
      assert !(a.value < b.value) && !(b.value < a.value);
    }
  }

  /** Removing from a list that starts with `x`. */
  lemma RemoveIdCons<F(!new)>(x: Row<F>, s: seq<Row<F>>, id: int)
    ensures RemoveId([x] + s, id) == if x.id != id then [x] + RemoveId(s, id) else RemoveId(s, id)
  {
    assert ([x] + s)[1..] == s;
  }

  /** Numbering by length after removing the first of two rows repeats the
      id of the row that is left. */
  lemma RenumberAfterRemoveFirst<F(!new)>(x: F, b: F)
    ensures AppendNumbered(RemoveId(AppendNumbered([Row(1, x)], b), 1), b) == [Row(2, b), Row(2, b)]
  {
    var s1 := AppendNumbered([Row(1, x)], b);
    assert s1 == [Row(1, x)] + [Row(2, b)];
    RemoveIdCons(Row(1, x), [Row(2, b)], 1);
    RemoveIdCons(Row(2, b), [], 1);
    assert [Row(2, b)] + [] == [Row(2, b)];
  }

  /** Removing an id every row carries leaves nothing. */
  lemma RemoveEveryRow<F(!new)>(s: seq<Row<F>>, id: int)
    requires forall i | 0 <= i < |s| :: s[i].id == id
    ensures RemoveId(s, id) == []
  {
    var r := RemoveId(s, id);
    assert forall x | x in r :: x in s && x.id != id;
    assert multiset(r) == multiset{};
  }

  /** Updating an id both rows of a pair carry updates both. */
  lemma UpdateBothRows<F>(id: int, b: F, g: F -> F)
    ensures UpdateId([Row(id, b), Row(id, b)], id, g) == [Row(id, g(b)), Row(id, g(b))]
  {
    var u := UpdateId([Row(id, b), Row(id, b)], id, g);
    assert u[0] == Row(id, g(b)) && u[1] == Row(id, g(b));
  }
}
