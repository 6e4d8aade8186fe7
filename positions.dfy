/**
  The dense `position` field of the two user-owned ordered collections
  (links, and catalog entries). Every list transform the client applies to
  its cached copy lives here, once, generic in what an entry carries besides
  its id and its position:

  - the three-pass rewrite plus sort of a drag-and-drop reorder,
  - the shift-and-prepend of a create,
  - the shift-and-filter of a delete.

  The invariant they keep is `Ordered`: the entry at index i has position i,
  i.e. the positions are exactly 0..N-1 and the list is sorted by them.
*/
module Positions {
  import opened Wrappers

  type Id = string

  /** An entry of an ordered collection: a link, or a catalog entry. */
  datatype Entry<P> = Entry(id: Id, position: int, payload: P)

  /** What an entry is apart from where it sits. */
  function Fields<P>(c: seq<Entry<P>>): seq<(Id, P)>
  {
    seq(|c|, i requires 0 <= i < |c| => (c[i].id, c[i].payload))
  }

  predicate Sorted<P>(c: seq<Entry<P>>)
  {
    forall i, j :: 0 <= i < j < |c| ==> c[i].position <= c[j].position
  }

  predicate StrictlySorted<P>(c: seq<Entry<P>>)
  {
    forall i, j :: 0 <= i < j < |c| ==> c[i].position < c[j].position
  }

  /** Dense and sorted: the positions are 0..N-1, in list order. */
  predicate Ordered<P>(c: seq<Entry<P>>)
  {
    forall i :: 0 <= i < |c| ==> c[i].position == i
  }

  /** `id` names the entry at index k and no other. */
  predicate IdentifiesOnly<P>(c: seq<Entry<P>>, id: Id, k: int)
  {
    forall i :: 0 <= i < |c| ==> (c[i].id == id <==> i == k)
  }

  predicate UniqueIds<P>(c: seq<Entry<P>>)
  {
    forall i, j :: 0 <= i < j < |c| ==> c[i].id != c[j].id
  }

  // ---------------------------------------------------------------------
  // The position passes

  /** Every entry positioned after p moves up by one (reorder pass 1, delete). */
  function CloseGapAfter<P>(c: seq<Entry<P>>, p: int): (r: seq<Entry<P>>)
    ensures |r| == |c| && Fields(r) == Fields(c)
    ensures forall i :: 0 <= i < |c| ==>
      r[i].position == if c[i].position > p then c[i].position - 1 else c[i].position
  {
    seq(|c|, i requires 0 <= i < |c| =>
      if c[i].position > p then c[i].(position := c[i].position - 1) else c[i])
  }

  /** Every entry positioned at or after d moves down by one (reorder pass 2). */
  function OpenGapAt<P>(c: seq<Entry<P>>, d: int): (r: seq<Entry<P>>)
    ensures |r| == |c| && Fields(r) == Fields(c)
    ensures forall i :: 0 <= i < |c| ==>
      r[i].position == if c[i].position >= d then c[i].position + 1 else c[i].position
  {
    seq(|c|, i requires 0 <= i < |c| =>
      if c[i].position >= d then c[i].(position := c[i].position + 1) else c[i])
  }

  /** Every entry carrying `id` is placed at d (reorder pass 3). */
  function PinAt<P>(c: seq<Entry<P>>, id: Id, d: int): (r: seq<Entry<P>>)
    ensures |r| == |c| && Fields(r) == Fields(c)
    ensures forall i :: 0 <= i < |c| ==> r[i].position == if c[i].id == id then d else c[i].position
  {
    seq(|c|, i requires 0 <= i < |c| =>
      if c[i].id == id then c[i].(position := d) else c[i])
  }

  /** Every entry moves down by one (the create shift). */
  function ShiftAll<P>(c: seq<Entry<P>>): (r: seq<Entry<P>>)
    ensures |r| == |c| && Fields(r) == Fields(c)
    ensures forall i :: 0 <= i < |c| ==> r[i].position == c[i].position + 1
  {
    seq(|c|, i requires 0 <= i < |c| => c[i].(position := c[i].position + 1))
  }

  // ---------------------------------------------------------------------
  // Sorting by position (the source's stable Array.prototype.sort)

  /** Inserts e before the first entry whose position is not smaller. */
  function Insert<P>(e: Entry<P>, s: seq<Entry<P>>): (r: seq<Entry<P>>)
    requires Sorted(s)
    ensures Sorted(r)
    ensures multiset(r) == multiset(s) + multiset{e}
    ensures r[0] == e || (|s| > 0 && r[0] == s[0])
    decreases |s|
  {
    if s == [] || e.position <= s[0].position then
      SortedCons(e, s);
      [e] + s
    else
      var t := Insert(e, s[1..]);
      assert s == [s[0]] + s[1..];
      SortedCons(s[0], t);
      [s[0]] + t
  }

  lemma SortedCons<P>(x: Entry<P>, t: seq<Entry<P>>)
    requires Sorted(t) && (|t| > 0 ==> x.position <= t[0].position)
    ensures Sorted([x] + t)
  {
    var r := [x] + t;
    forall i, j | 0 <= i < j < |r| ensures r[i].position <= r[j].position {
      if i > 0 {
        assert r[i] == t[i - 1] && r[j] == t[j - 1];
      } else {
        assert r[j] == t[j - 1];
        if j > 1 { assert t[0].position <= t[j - 1].position; }
      }
    }
  }

  /** The entries of c sorted ascending by position. */
  function SortByPosition<P>(c: seq<Entry<P>>): (r: seq<Entry<P>>)
    ensures Sorted(r)
    ensures multiset(r) == multiset(c)
  {
    if c == [] then []
    else
      assert c == [c[0]] + c[1..];
      Insert(c[0], SortByPosition(c[1..]))
  }

  // ---------------------------------------------------------------------
  // Reorder

  /**
    The drag-and-drop reorder of useLinks/useCatalog, without its guard:
    close the gap behind the source, open one at the destination, pin the
    moved entry there, sort.
  */
  function Reorder<P>(c: seq<Entry<P>>, id: Id, s: int, d: int): (r: seq<Entry<P>>)
    ensures |r| == |c|
    ensures Sorted(r)
    ensures multiset(r) == multiset(Pinned(c, id, s, d))
  {
    var pinned := Pinned(c, id, s, d);
    var r := SortByPosition(pinned);
    assert |r| == |multiset(r)| == |multiset(pinned)| == |pinned|;
    r
  }

  /** Where the three passes put an entry at position p: d if it is the moved one. */
  function NewPositionOf(moved: bool, p: int, s: int, d: int): int
  {
    if moved then d
    else
      var closed := if p > s then p - 1 else p;
      if closed >= d then closed + 1 else closed
  }

  /** The three position passes of a reorder, before the sort. */
  function Pinned<P>(c: seq<Entry<P>>, id: Id, s: int, d: int): (r: seq<Entry<P>>)
    ensures |r| == |c| && Fields(r) == Fields(c)
    ensures forall i :: 0 <= i < |c| ==>
      r[i].position == NewPositionOf(c[i].id == id, c[i].position, s, d)
  {
    PinAt(OpenGapAt(CloseGapAfter(c, s), d), id, d)
  }

  /** The list with its k-th element taken out and put back in at d. */
  function Moved<T>(c: seq<T>, s: int, d: int): (r: seq<T>)
    requires 0 <= s < |c| && 0 <= d < |c|
    ensures |r| == |c| && r[d] == c[s]
    ensures r[..d] + r[d + 1..] == c[..s] + c[s + 1..]
  {
    var rest := c[..s] + c[s + 1..];
    var r := rest[..d] + [c[s]] + rest[d..];
    assert r[..d] == rest[..d] && r[d + 1..] == rest[d..];
    assert rest[..d] + rest[d..] == rest;
    r
  }

  /** The index in c of the element Moved(c, s, d) holds at k. */
  function MovedSource(s: int, d: int, k: int): (j: int)
    ensures NewPosition(s, d, j) == k
  {
    if k == d then s
    else
      var r := if k < d then k else k - 1;
      if r < s then r else r + 1
  }

  /** Renumbers positions to match indices. */
  function Placed<P>(c: seq<Entry<P>>): (r: seq<Entry<P>>)
    ensures |r| == |c| && Ordered(r) && Fields(r) == Fields(c)
  {
    seq(|c|, i requires 0 <= i < |c| => c[i].(position := i))
  }

  // ---------------------------------------------------------------------
  // Create and delete

  /** The created entry first, every prior entry one position further down. */
  function Prepend<P>(c: seq<Entry<P>>, e: Entry<P>): (r: seq<Entry<P>>)
    ensures |r| == |c| + 1 && r[0] == e
    ensures Fields(r[1..]) == Fields(c)
    ensures forall i :: 0 <= i < |c| ==> r[i + 1].position == c[i].position + 1
  {
    [e] + ShiftAll(c)
  }

  /**
    Rewrites what each entry carries, by its id and payload (the edit and
    image merges): ids, positions, length and order all stay.
  */
  function Rewrite<P>(c: seq<Entry<P>>, f: (Id, P) -> P): (r: seq<Entry<P>>)
    ensures |r| == |c|
    ensures forall i :: 0 <= i < |c| ==> r[i].id == c[i].id && r[i].position == c[i].position
    ensures forall i :: 0 <= i < |c| ==> r[i].payload == f(c[i].id, c[i].payload)
    ensures Ordered(c) ==> Ordered(r)
  {
    seq(|c|, i requires 0 <= i < |c| => c[i].(payload := f(c[i].id, c[i].payload)))
  }

  /** The entries of c for which `gone` is false, in order. */
  function Drop<P>(c: seq<Entry<P>>, gone: (Id, P) -> bool): (r: seq<Entry<P>>)
    ensures |r| <= |c|
  {
    if c == [] then []
    else
      var t := Drop(c[1..], gone);
      if gone(c[0].id, c[0].payload) then t else [c[0]] + t
  }

  /**
    What a delete leaves: exactly the entries `gone` spares, each moved up
    by one when it sat behind position p, and nothing else.
  */
  ghost predicate DeletedFrom<P>(r: seq<Entry<P>>, c: seq<Entry<P>>, p: int, gone: (Id, P) -> bool)
  {
    && (forall e :: e in r ==> e in CloseGapAfter(c, p) && !gone(e.id, e.payload))
    && (forall i :: 0 <= i < |c| && !gone(c[i].id, c[i].payload) ==> CloseGapAfter(c, p)[i] in r)
  }

  /** Delete: close the gap behind position p, then filter out the removed entry. */
  function Removed<P>(c: seq<Entry<P>>, p: int, gone: (Id, P) -> bool): (r: seq<Entry<P>>)
    ensures |r| <= |c|
    ensures DeletedFrom(r, c, p, gone)
  {
    DropMembers(CloseGapAfter(c, p), gone);
    Drop(CloseGapAfter(c, p), gone)
  }

  /** The index of the entry `Array.prototype.find` returns: the first one satisfying `hit`. */
  function FindFirst<P>(c: seq<Entry<P>>, hit: (Id, P) -> bool): (r: Option<nat>)
    ensures r.Some? ==> r.value < |c| && hit(c[r.value].id, c[r.value].payload)
    ensures r.Some? ==> forall j :: 0 <= j < r.value ==> !hit(c[j].id, c[j].payload)
    ensures r.None? ==> forall j :: 0 <= j < |c| ==> !hit(c[j].id, c[j].payload)
  {
    if c == [] then None
    else if hit(c[0].id, c[0].payload) then Some(0)
    else match FindFirst(c[1..], hit)
      case None => None
      case Some(k) => Some(k + 1)
  }

  // ---------------------------------------------------------------------
  // What a reorder does

  lemma FieldsAppend<P>(a: seq<Entry<P>>, b: seq<Entry<P>>)
    ensures Fields(a + b) == Fields(a) + Fields(b)
  {
  }

  /** Entries that are a permutation of each other have permuted fields. */
  lemma {:induction false} FieldsOfPermutation<P>(a: seq<Entry<P>>, b: seq<Entry<P>>)
    requires multiset(a) == multiset(b)
    ensures multiset(Fields(a)) == multiset(Fields(b))
    decreases |a|
  {
    assert |a| == |multiset(a)| == |multiset(b)| == |b|;
    if a != [] {
      assert a[0] in multiset(b);
      var j :| 0 <= j < |b| && b[j] == a[0];
      var rest := b[..j] + b[j + 1..];
      assert b == b[..j] + [b[j]] + b[j + 1..];
      assert a == [a[0]] + a[1..];
      calc {
        multiset(a[1..]) + multiset{a[0]};
        multiset(a);
        multiset(b);
        multiset(b[..j]) + multiset{b[j]} + multiset(b[j + 1..]);
        multiset(rest) + multiset{a[0]};
      }
      assert multiset(a[1..]) == multiset(a[1..]) + multiset{a[0]} - multiset{a[0]};
      assert multiset(rest) == multiset(rest) + multiset{a[0]} - multiset{a[0]};
      FieldsOfPermutation(a[1..], rest);
      FieldsAppend([a[0]], a[1..]);
      FieldsAppend(b[..j], [b[j]]);
      FieldsAppend(b[..j] + [b[j]], b[j + 1..]);
      FieldsAppend(b[..j], b[j + 1..]);
    }
  }

  /** A reorder changes positions only: the same ids and payloads come out. */
  lemma ReorderKeepsFields<P>(c: seq<Entry<P>>, id: Id, s: int, d: int)
    ensures multiset(Fields(Reorder(c, id, s, d))) == multiset(Fields(c))
  {
    FieldsOfPermutation(Reorder(c, id, s, d), Pinned(c, id, s, d));
  }

  /** Whatever the input, every entry carrying the moved id ends at d. */
  lemma ReorderPinsMoved<P>(c: seq<Entry<P>>, id: Id, s: int, d: int)
    ensures forall i :: 0 <= i < |c| ==> var r := Reorder(c, id, s, d);
      r[i].id == id ==> r[i].position == d
  {
    var r := Reorder(c, id, s, d);
    var pinned := Pinned(c, id, s, d);
    forall i | 0 <= i < |c| && r[i].id == id ensures r[i].position == d {
      assert r[i] in multiset(pinned);
    }
  }

  /** A sorted permutation of a strictly sorted list is that list. */
  lemma {:induction false} SortedPermutationUnique<P>(x: seq<Entry<P>>, y: seq<Entry<P>>)
    requires StrictlySorted(x) && Sorted(y) && multiset(x) == multiset(y)
    ensures x == y
    decreases |x|
  {
    assert |x| == |multiset(x)| == |multiset(y)| == |y|;
    if x != [] {
      SameHead(x, y);
      SameTail(x, y);
      assert StrictlySorted(x[1..]) && Sorted(y[1..]);
      SortedPermutationUnique(x[1..], y[1..]);
      assert x == [x[0]] + x[1..] && y == [y[0]] + y[1..];
    }
  }

  /** Permutations with the same head have permuted tails. */
  lemma SameTail<T>(x: seq<T>, y: seq<T>)
    requires multiset(x) == multiset(y) && |x| > 0 && |y| > 0 && x[0] == y[0]
    ensures multiset(x[1..]) == multiset(y[1..])
  {
    assert x == [x[0]] + x[1..] && y == [y[0]] + y[1..];
    assert multiset(x) == multiset{x[0]} + multiset(x[1..]);
    assert multiset(y) == multiset{x[0]} + multiset(y[1..]);
    assert multiset(x[1..]) == multiset(x) - multiset{x[0]};
  }

  lemma SameHead<P>(x: seq<Entry<P>>, y: seq<Entry<P>>)
    requires StrictlySorted(x) && Sorted(y) && multiset(x) == multiset(y)
    requires |x| > 0 && |y| > 0
    ensures x[0] == y[0]
  {
    assert x[0] in multiset(y);
    assert y[0] in multiset(x);
    var j :| 0 <= j < |y| && y[j] == x[0];
    var i :| 0 <= i < |x| && x[i] == y[0];
    assert y[0].position <= x[0].position by {
      if j > 0 { assert y[0].position <= y[j].position; }
    }
    assert x[i].position <= x[0].position;
  }

  lemma MovedAt<T>(c: seq<T>, s: int, d: int, k: int)
    requires 0 <= s < |c| && 0 <= d < |c| && 0 <= k < |c|
    ensures 0 <= MovedSource(s, d, k) < |c|
    ensures Moved(c, s, d)[k] == c[MovedSource(s, d, k)]
  {
    var rest := c[..s] + c[s + 1..];
    assert Moved(c, s, d) == rest[..d] + [c[s]] + rest[d..];
    if k < d {
      assert Moved(c, s, d)[k] == rest[k];
    } else if k > d {
      assert Moved(c, s, d)[k] == rest[k - 1];
    }
  }

  /** Where the three passes put the entry at index j of an ordered list. */
  function NewPosition(s: int, d: int, j: int): int
  {
    NewPositionOf(j == s, j, s, d)
  }

  lemma PinnedAt<P>(c: seq<Entry<P>>, id: Id, s: int, d: int, j: int)
    requires Ordered(c) && IdentifiesOnly(c, id, s) && 0 <= j < |c|
    ensures Pinned(c, id, s, d)[j] == c[j].(position := NewPosition(s, d, j))
  {
    var a := CloseGapAfter(c, s);
    var b := OpenGapAt(a, d);
    assert a[j].position == if j > s then j - 1 else j;
    assert b[j].position == if a[j].position >= d then a[j].position + 1 else a[j].position;
  }

  /** The moved list, renumbered, is the pass results moved the same way. */
  lemma PinnedMatchesMove<P>(c: seq<Entry<P>>, id: Id, s: int, d: int, k: int)
    requires Ordered(c) && 0 <= s < |c| && 0 <= d < |c| && IdentifiesOnly(c, id, s)
    requires 0 <= k < |c|
    ensures Placed(Moved(c, s, d))[k] == Moved(Pinned(c, id, s, d), s, d)[k]
  {
    var j := MovedSource(s, d, k);
    MovedAt(c, s, d, k);
    MovedAt(Pinned(c, id, s, d), s, d, k);
    PinnedAt(c, id, s, d, j);
  }

  /** Moving an element permutes the list. */
  lemma MovedPermutes<T>(c: seq<T>, s: int, d: int)
    requires 0 <= s < |c| && 0 <= d < |c|
    ensures multiset(Moved(c, s, d)) == multiset(c)
  {
    var rest := c[..s] + c[s + 1..];
    assert Moved(c, s, d) == rest[..d] + [c[s]] + rest[d..];
    assert rest[..d] + rest[d..] == rest;
    assert c == c[..s] + [c[s]] + c[s + 1..];
    calc {
      multiset(Moved(c, s, d));
      multiset(rest[..d]) + multiset{c[s]} + multiset(rest[d..]);
      multiset(rest) + multiset{c[s]};
      multiset(c[..s]) + multiset(c[s + 1..]) + multiset{c[s]};
      multiset(c);
    }
  }

  /**
    The reconciliation theorem. On a list whose positions are its indices,
    with `id` naming exactly the entry at s, the three passes and the sort
    take that entry out, put it back in at d, and renumber everything
    0..N-1: the result is dense, sorted, and keeps the relative order and
    the fields of every other entry.
  */
  lemma {:induction false} ReorderMatchesMove<P>(c: seq<Entry<P>>, id: Id, s: int, d: int)
    requires Ordered(c) && 0 <= s < |c| && 0 <= d < |c| && IdentifiesOnly(c, id, s)
    ensures Reorder(c, id, s, d) == Placed(Moved(c, s, d))
  {
    var p := Pinned(c, id, s, d);
    var expected := Placed(Moved(c, s, d));
    forall k | 0 <= k < |c| ensures expected[k] == Moved(p, s, d)[k] {
      PinnedMatchesMove(c, id, s, d, k);
    }
    assert expected == Moved(p, s, d);
    MovedPermutes(p, s, d);
    SortedPermutationUnique(expected, Reorder(c, id, s, d));
  }

  /** Moving an entry from s to d and back from d to s restores the list. */
  lemma MovedBack<T>(c: seq<T>, s: int, d: int)
    requires 0 <= s < |c| && 0 <= d < |c|
    ensures Moved(Moved(c, s, d), d, s) == c
  {
    var m := Moved(c, s, d);
    forall k | 0 <= k < |c| ensures Moved(m, d, s)[k] == c[k] {
      MovedAt(m, d, s, k);
      MovedAt(c, s, d, MovedSource(d, s, k));
    }
  }

  /** Moving an entry onto its own index changes nothing. */
  lemma MovedInPlace<T>(c: seq<T>, p: int)
    requires 0 <= p < |c|
    ensures Moved(c, p, p) == c
  {
    forall k | 0 <= k < |c| ensures Moved(c, p, p)[k] == c[k] {
      MovedAt(c, p, p, k);
    }
  }

  lemma FieldsMoved<P>(c: seq<Entry<P>>, s: int, d: int)
    requires 0 <= s < |c| && 0 <= d < |c|
    ensures Fields(Moved(c, s, d)) == Moved(Fields(c), s, d)
  {
    forall k | 0 <= k < |c| ensures Fields(Moved(c, s, d))[k] == Moved(Fields(c), s, d)[k] {
      MovedAt(c, s, d, k);
      MovedAt(Fields(c), s, d, k);
    }
  }

  /** Renumbering depends only on ids and payloads; an ordered list is already renumbered. */
  lemma PlacedByFields<P>(a: seq<Entry<P>>, b: seq<Entry<P>>)
    requires Fields(a) == Fields(b)
    ensures Placed(a) == Placed(b)
    ensures Ordered(a) ==> Placed(a) == a
  {
    assert |a| == |Fields(a)|;
    forall i | 0 <= i < |a| ensures Placed(a)[i] == Placed(b)[i] {
      assert Fields(a)[i] == Fields(b)[i];
    }
  }

  /** After a move the moved id names exactly the entry at the destination. */
  lemma MovedIdentifies<P>(c: seq<Entry<P>>, id: Id, s: int, d: int)
    requires 0 <= s < |c| && 0 <= d < |c| && IdentifiesOnly(c, id, s)
    ensures IdentifiesOnly(Placed(Moved(c, s, d)), id, d)
  {
    forall k | 0 <= k < |c| ensures Placed(Moved(c, s, d))[k].id == Moved(c, s, d)[k].id {
    }
    forall k | 0 <= k < |c| ensures Moved(c, s, d)[k].id == id <==> k == d {
      MovedAt(c, s, d, k);
    }
  }

  /** Dropping an entry on its own position leaves an ordered list as it was. */
  lemma ReorderInPlace<P>(c: seq<Entry<P>>, id: Id, p: int)
    requires Ordered(c) && 0 <= p < |c| && IdentifiesOnly(c, id, p)
    ensures Reorder(c, id, p, p) == c
  {
    ReorderMatchesMove(c, id, p, p);
    MovedInPlace(c, p);
    PlacedByFields(c, c);
  }

  /** Moving an entry to d and then back to s restores the original list. */
  lemma ReorderRoundTrip<P>(c: seq<Entry<P>>, id: Id, s: int, d: int)
    requires Ordered(c) && 0 <= s < |c| && 0 <= d < |c| && IdentifiesOnly(c, id, s)
    ensures Reorder(Reorder(c, id, s, d), id, d, s) == c
  {
    ReorderMatchesMove(c, id, s, d);
    var r1 := Placed(Moved(c, s, d));
    MovedIdentifies(c, id, s, d);
    ReorderMatchesMove(r1, id, d, s);
    FieldsMoved(r1, d, s);
    FieldsMoved(c, s, d);
    MovedBack(Fields(c), s, d);
    PlacedByFields(Moved(r1, d, s), c);
  }

  // ---------------------------------------------------------------------
  // The intended guard

  const InvalidMove := "invalid move arguments"

  /** Both indices in range and `id` at position s: the move the drag describes. */
  predicate ValidMove<P>(c: seq<Entry<P>>, id: Id, s: int, d: int)
  {
    && 0 <= s < |c| && 0 <= d < |c|
    && exists i :: 0 <= i < |c| && c[i].id == id && c[i].position == s
  }

  /** Reorder behind a range check instead of a truthiness check. */
  function CheckedReorder<P>(c: seq<Entry<P>>, id: Id, s: int, d: int): (r: Result<seq<Entry<P>>, string>)
    ensures r.Err? <==> !ValidMove(c, id, s, d)
    ensures r.Err? ==> r.error == InvalidMove
  {
    if ValidMove(c, id, s, d) then Ok(Reorder(c, id, s, d)) else Err(InvalidMove)
  }

  /**
    Every drag between two rows of an ordered list with distinct ids is
    accepted, the first row included, and yields the moved list renumbered.
  */
  lemma CheckedReorderAcceptsEveryMove<P>(c: seq<Entry<P>>, k: int, d: int)
    requires Ordered(c) && UniqueIds(c) && 0 <= k < |c| && 0 <= d < |c|
    ensures CheckedReorder(c, c[k].id, k, d) == Ok(Placed(Moved(c, k, d)))
  {
    assert ValidMove(c, c[k].id, k, d);
    forall i | 0 <= i < |c| ensures c[i].id == c[k].id <==> i == k {
      if i < k { assert c[i].id != c[k].id; }
      if i > k { assert c[k].id != c[i].id; }
    }
    ReorderMatchesMove(c, c[k].id, k, d);
  }

  // ---------------------------------------------------------------------
  // Create and delete keep the list ordered

  /** A create on an ordered list, with the new entry at 0, is the list renumbered behind it. */
  lemma PrependKeepsOrdered<P>(c: seq<Entry<P>>, e: Entry<P>)
    requires Ordered(c) && e.position == 0
    ensures Prepend(c, e) == Placed([e] + c)
  {
    var p := Placed([e] + c);
    ShiftedIsPlacedTail(c, e);
    assert p == [p[0]] + p[1..];
  }

  lemma ShiftedIsPlacedTail<P>(c: seq<Entry<P>>, e: Entry<P>)
    requires Ordered(c)
    ensures ShiftAll(c) == Placed([e] + c)[1..]
  {
    var s := ShiftAll(c);
    var p := Placed([e] + c);
    forall i | 0 <= i < |c| ensures s[i] == p[i + 1] {
      assert ([e] + c)[i + 1] == c[i];
    }
  }

  /** A filter keeps exactly the entries it is not told to drop. */
  lemma {:induction false} DropMembers<P>(c: seq<Entry<P>>, gone: (Id, P) -> bool)
    ensures forall e :: e in Drop(c, gone) ==> e in c && !gone(e.id, e.payload)
    ensures forall i :: 0 <= i < |c| && !gone(c[i].id, c[i].payload) ==> c[i] in Drop(c, gone)
    decreases |c|
  {
    if c != [] {
      var t := c[1..];
      DropMembers(t, gone);
      assert forall i :: 1 <= i < |c| ==> c[i] == t[i - 1];
      assert forall e :: e in t ==> e in c;
    }
  }

  /** The filter works entry by entry, so it keeps the order of the entries it keeps. */
  lemma {:induction false} DropAppend<P>(a: seq<Entry<P>>, b: seq<Entry<P>>, gone: (Id, P) -> bool)
    ensures Drop(a + b, gone) == Drop(a, gone) + Drop(b, gone)
    decreases |a|
  {
    if a != [] {
      assert (a + b)[1..] == a[1..] + b;
      DropAppend(a[1..], b, gone);
    } else {
      assert a + b == b;
    }
  }

  /** Filtering out exactly the entry at k leaves the rest in order. */
  lemma {:induction false} DropOnly<P>(c: seq<Entry<P>>, gone: (Id, P) -> bool, k: int)
    requires 0 <= k < |c|
    requires forall i :: 0 <= i < |c| ==> (gone(c[i].id, c[i].payload) <==> i == k)
    ensures Drop(c, gone) == c[..k] + c[k + 1..]
    decreases |c|
  {
    var t := c[1..];
    if k == 0 {
      assert gone(c[0].id, c[0].payload);
      forall i | 0 <= i < |t| ensures !gone(t[i].id, t[i].payload) {
        assert t[i] == c[i + 1];
      }
      DropNone(t, gone);
      assert Drop(c, gone) == Drop(t, gone);
    } else {
      assert !gone(c[0].id, c[0].payload);
      forall i | 0 <= i < |t| ensures gone(t[i].id, t[i].payload) <==> i == k - 1 {
        assert t[i] == c[i + 1];
      }
      DropOnly(t, gone, k - 1);
      assert Drop(c, gone) == [c[0]] + Drop(t, gone);
      assert t[..k - 1] + t[k..] == c[1..k] + c[k + 1..];
      assert c[..k] == [c[0]] + c[1..k];
    }
  }

  lemma {:induction false} DropNone<P>(c: seq<Entry<P>>, gone: (Id, P) -> bool)
    requires forall i :: 0 <= i < |c| ==> !gone(c[i].id, c[i].payload)
    ensures Drop(c, gone) == c
    decreases |c|
  {
    if c != [] {
      var t := c[1..];
      forall i | 0 <= i < |t| ensures !gone(t[i].id, t[i].payload) {
        assert t[i] == c[i + 1];
      }
      DropNone(t, gone);
      assert Drop(c, gone) == [c[0]] + Drop(t, gone);
    }
  }

  /**
    A delete on an ordered list, removing exactly the entry at k and
    closing the gap behind position k, is the rest renumbered 0..N-2.
  */
  lemma RemovedKeepsOrdered<P>(c: seq<Entry<P>>, k: int, gone: (Id, P) -> bool)
    requires Ordered(c) && 0 <= k < |c|
    requires forall i :: 0 <= i < |c| ==> (gone(c[i].id, c[i].payload) <==> i == k)
    ensures Removed(c, k, gone) == Placed(c[..k] + c[k + 1..])
  {
    var a := CloseGapAfter(c, k);
    forall i | 0 <= i < |a| ensures gone(a[i].id, a[i].payload) <==> i == k {
      assert a[i].id == c[i].id && a[i].payload == c[i].payload;
    }
    DropOnly(a, gone, k);
    var rest := c[..k] + c[k + 1..];
    var kept := a[..k] + a[k + 1..];
    forall i | 0 <= i < |rest| ensures kept[i] == Placed(rest)[i] {
      if i < k {
        assert kept[i] == a[i] && rest[i] == c[i];
      } else {
        assert kept[i] == a[i + 1] && rest[i] == c[i + 1];
      }
    }
    assert kept == Placed(rest);
  }
}
