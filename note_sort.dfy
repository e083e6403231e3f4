/**
 * The list step of `notesState`: `if (ascending) notes.sortedBy { it.updatedAt } else notes`.
 * Kotlin's `sortedBy` is a stable sort; it is modelled here as an insertion sort that puts
 * each note before the first later note whose `updatedAt` is not smaller.
 */
module NoteSort {
  import opened NoteStore

  /** Non-decreasing `updatedAt`. */
  predicate SortedByUpdatedAt(s: seq<Note>) {
    forall i, j :: 0 <= i < j < |s| ==> s[i].updatedAt <= s[j].updatedAt
  }

  /** The notes of `s` whose `updatedAt` is `v`, in their order in `s`. A stable sort keeps
      each of these runs as it is. */
  function KeyRun(s: seq<Note>, v: int): (r: seq<Note>)
    ensures |r| <= |s|
    ensures forall i :: 0 <= i < |r| ==> r[i].updatedAt == v
  {
    if s == [] then []
    else (if s[0].updatedAt == v then [s[0]] else []) + KeyRun(s[1..], v)
  }

  lemma ConsSorted(h: Note, t: seq<Note>)
    requires SortedByUpdatedAt(t) && (t == [] || h.updatedAt <= t[0].updatedAt)
    ensures SortedByUpdatedAt([h] + t)
  {
  }

  /** Puts `x` in front of the first note of `s` whose key is not below its own. */
  function Insert(x: Note, s: seq<Note>): (r: seq<Note>)
    ensures |r| == |s| + 1
    ensures r[0] == x || (s != [] && r[0] == s[0])
    ensures multiset(r) == multiset(s) + multiset{x}
    ensures SortedByUpdatedAt(s) ==> SortedByUpdatedAt(r)
  {
    if s == [] || x.updatedAt <= s[0].updatedAt then
      [x] + s
    else
      var rest := Insert(x, s[1..]);
      assert s == [s[0]] + s[1..];
      assert multiset([s[0]] + rest) == multiset{s[0]} + multiset(rest);
      if SortedByUpdatedAt(s) then
        assert s[0].updatedAt <= rest[0].updatedAt;
        ConsSorted(s[0], rest);
        [s[0]] + rest
      else
        [s[0]] + rest
  }

  /** `sortedBy { it.updatedAt }`: sorted and a permutation of its input. */
  function SortByUpdatedAt(s: seq<Note>): (r: seq<Note>)
    ensures SortedByUpdatedAt(r)
    ensures multiset(r) == multiset(s)
  {
    if s == [] then []
    else
      assert s == [s[0]] + s[1..];
      Insert(s[0], SortByUpdatedAt(s[1..]))
  }

  /** The list step: the batch as delivered when descending, sorted by `updatedAt` when ascending. */
  function VisibleNotes(batch: seq<Note>, ascending: bool): (r: seq<Note>)
    ensures !ascending ==> r == batch
    ensures ascending ==> SortedByUpdatedAt(r) && multiset(r) == multiset(batch)
  {
    if ascending then SortByUpdatedAt(batch) else batch
  }

  lemma {:induction false} KeyRunInsert(x: Note, s: seq<Note>, v: int)
    ensures KeyRun(Insert(x, s), v) == if x.updatedAt == v then [x] + KeyRun(s, v) else KeyRun(s, v)
  {
    if s == [] || x.updatedAt <= s[0].updatedAt {
      assert ([x] + s)[1..] == s;
    } else {
      var rest := Insert(x, s[1..]);
      assert ([s[0]] + rest)[1..] == rest;
      KeyRunInsert(x, s[1..], v);
    }
  }

  /** `sortedBy` is stable: the notes sharing any one `updatedAt` keep their relative order. */
  lemma {:induction false} SortIsStable(s: seq<Note>, v: int)
    ensures KeyRun(SortByUpdatedAt(s), v) == KeyRun(s, v)
  {
    if s != [] {
      SortIsStable(s[1..], v);
      KeyRunInsert(s[0], SortByUpdatedAt(s[1..]), v);
    }
  }

  /** In ascending order the list step is a stable sort: every run of equal `updatedAt` in the
      shown list is that run of the batch, in the batch's order. */
  lemma AscendingIsStable(batch: seq<Note>)
    ensures forall v :: KeyRun(VisibleNotes(batch, true), v) == KeyRun(batch, v)
  {
    forall v ensures KeyRun(VisibleNotes(batch, true), v) == KeyRun(batch, v) {
      SortIsStable(batch, v);
    }
  }

  lemma {:induction false} KeyRunMembers(s: seq<Note>, v: int, n: Note)
    ensures n in KeyRun(s, v) <==> n in s && n.updatedAt == v
  {
    if s != [] {
      KeyRunMembers(s[1..], v, n);
      assert s == [s[0]] + s[1..];
    }
  }

  lemma HasOwnRun(s: seq<Note>)
    requires s != []
    ensures KeyRun(s, s[0].updatedAt) != []
  {
  }

  lemma {:induction false} KeyRunOfSortedTail(s: seq<Note>, v: int)
    requires s != [] && s[0].updatedAt == v
    ensures KeyRun(s, v) == [s[0]] + KeyRun(s[1..], v)
  {
  }

  /** The first note of a sorted list is the first note of the run of the smallest key, and that
      run is found in any other list with the same runs; so two such lists start alike. */
  lemma SameHead(a: seq<Note>, b: seq<Note>)
    requires a != [] && b != []
    requires SortedByUpdatedAt(a) && SortedByUpdatedAt(b)
    requires forall v :: KeyRun(a, v) == KeyRun(b, v)
    ensures a[0] == b[0]
  {
    var va, vb := a[0].updatedAt, b[0].updatedAt;
    KeyRunMembers(a, va, a[0]);
    KeyRunMembers(b, va, a[0]);
    KeyRunMembers(b, vb, b[0]);
    KeyRunMembers(a, vb, b[0]);
    assert a[0] in b && b[0] in a;
    assert vb <= va && va <= vb;
    KeyRunOfSortedTail(a, va);
    KeyRunOfSortedTail(b, va);
    assert KeyRun(a, va)[0] == KeyRun(b, va)[0];
  }

  lemma SameTailRun(a: seq<Note>, b: seq<Note>, v: int)
    requires a != [] && b != [] && a[0] == b[0]
    requires KeyRun(a, v) == KeyRun(b, v)
    ensures KeyRun(a[1..], v) == KeyRun(b[1..], v)
  {
    var h: seq<Note> := if a[0].updatedAt == v then [a[0]] else [];
    assert KeyRun(a, v) == h + KeyRun(a[1..], v);
    assert KeyRun(b, v) == h + KeyRun(b[1..], v);
    assert (h + KeyRun(a[1..], v))[|h|..] == KeyRun(a[1..], v);
    assert (h + KeyRun(b[1..], v))[|h|..] == KeyRun(b[1..], v);
  }

  /** Dropping the same first note from two lists with the same runs leaves lists with the same runs. */
  lemma SameTailRuns(a: seq<Note>, b: seq<Note>)
    requires a != [] && b != [] && a[0] == b[0]
    requires forall v :: KeyRun(a, v) == KeyRun(b, v)
    ensures forall v :: KeyRun(a[1..], v) == KeyRun(b[1..], v)
  {
    forall v ensures KeyRun(a[1..], v) == KeyRun(b[1..], v) {
      SameTailRun(a, b, v);
    }
  }

  /** Two sorted lists whose runs of equal `updatedAt` agree are the same list. */
  lemma {:induction false} SortedRunsDetermine(a: seq<Note>, b: seq<Note>)
    requires SortedByUpdatedAt(a) && SortedByUpdatedAt(b)
    requires forall v :: KeyRun(a, v) == KeyRun(b, v)
    ensures a == b
    decreases |a|
  {
    if a == [] && b == [] {
    } else if a == [] {
      HasOwnRun(b);
      assert false;
    } else if b == [] {
      HasOwnRun(a);
      assert false;
    } else {
      SameHead(a, b);
      SameTailRuns(a, b);
      SortedRunsDetermine(a[1..], b[1..]);
      assert a == [a[0]] + a[1..] && b == [b[0]] + b[1..];
    }
  }

  /** `sortedBy { it.updatedAt }` is THE stable sort by `updatedAt`: any sorted list that keeps
      every run of equal `updatedAt` of the batch in order is exactly the sorted list. */
  lemma StableSortIsUnique(batch: seq<Note>, r: seq<Note>)
    requires SortedByUpdatedAt(r)
    requires forall v :: KeyRun(r, v) == KeyRun(batch, v)
    ensures r == SortByUpdatedAt(batch)
  {
    forall v ensures KeyRun(SortByUpdatedAt(batch), v) == KeyRun(r, v) {
      SortIsStable(batch, v);
    }
    SortedRunsDetermine(SortByUpdatedAt(batch), r);
  }

  /** A batch already in ascending order is left as it is. */
  lemma SortKeepsSorted(s: seq<Note>)
    requires SortedByUpdatedAt(s)
    ensures SortByUpdatedAt(s) == s
  {
    StableSortIsUnique(s, s);
  }

  /** Two notes delivered newest first, [200, 100], are shown as [100, 200] in ascending order. */
  lemma AscendingReversesTwoNotes(older: Note, newer: Note)
    requires older.updatedAt == 100 && newer.updatedAt == 200
    ensures VisibleNotes([newer, older], false) == [newer, older]
    ensures VisibleNotes([newer, older], true) == [older, newer]
  {
    assert [newer, older][1..] == [older];
  }
}
