/** Ordering directory entries by modification time, as
    `dirs.sort(key=os.path.getmtime)` followed by `dirs.reverse()` does
    (jarvis/train_interface.py, lines 43-44). Python's sort is stable, so
    entries with equal times keep their listing order; sorting by the pair
    (time, listing position) is the same order, and it is strict. */
module KeySort {
  import opened Wrappers

  /** A listed entry: its path, its position in the listing and its time. */
  datatype Entry = Entry(name: string, pos: int, time: int)

  /** The stable sort's order: earlier time first, listing order on ties. */
  predicate Before(a: Entry, b: Entry) {
    a.time < b.time || (a.time == b.time && a.pos < b.pos)
  }

  predicate Ascending(s: seq<Entry>) {
    forall i, j :: 0 <= i < j < |s| ==> Before(s[i], s[j])
  }

  /** No two entries share a listing position. */
  predicate DistinctPositions(s: seq<Entry>) {
    forall i, j :: 0 <= i < |s| && 0 <= j < |s| && i != j ==> s[i].pos != s[j].pos
  }

  /** Insert `e` into an ascending sequence. */
  function Insert(e: Entry, s: seq<Entry>): (r: seq<Entry>)
    requires Ascending(s)
    requires forall x :: x in s ==> x.pos != e.pos
    ensures Ascending(r)
    ensures multiset(r) == multiset(s) + multiset{e}
  {
    if |s| == 0 then [e]
    else if Before(e, s[0]) then [e] + s
    else
      var rest := Insert(e, s[1..]);
      InsertStep(e, s, rest);
      [s[0]] + rest
  }

  /** The inductive step of Insert: the head stays in front of the rest. */
  lemma InsertStep(e: Entry, s: seq<Entry>, rest: seq<Entry>)
    requires |s| > 0 && Ascending(s) && !Before(e, s[0]) && e.pos != s[0].pos
    requires Ascending(rest) && multiset(rest) == multiset(s[1..]) + multiset{e}
    ensures Ascending([s[0]] + rest)
    ensures multiset([s[0]] + rest) == multiset(s) + multiset{e}
  {
    assert s == [s[0]] + s[1..];
    forall k | 0 <= k < |rest|
      ensures Before(s[0], rest[k])
    {
      assert rest[k] in multiset(rest);
      if rest[k] != e {
        assert rest[k] in multiset(s[1..]);
        var m :| 0 <= m < |s[1..]| && s[1..][m] == rest[k];
        assert s[m + 1] == rest[k];
      }
    }
    var r := [s[0]] + rest;
    forall i, j | 0 <= i < j < |r|
      ensures Before(r[i], r[j])
    {
      assert r[j] == rest[j - 1];
      if i > 0 { assert r[i] == rest[i - 1]; }
    }
  }

  /** Insertion sort into ascending (time, position) order. */
  function Sort(s: seq<Entry>): (r: seq<Entry>)
    requires DistinctPositions(s)
    ensures Ascending(r)
    ensures multiset(r) == multiset(s)
  {
    if |s| == 0 then []
    else
      var tail := Sort(s[1..]);
      assert s == [s[0]] + s[1..];
      assert forall x :: x in tail ==> x.pos != s[0].pos by {
        forall x | x in tail ensures x.pos != s[0].pos {
          assert x in multiset(tail);
          assert x in s[1..];
          var k :| 0 <= k < |s[1..]| && s[1..][k] == x;
          assert s[k + 1] == x;
        }
      }
      Insert(s[0], tail)
  }

  function Reverse<T>(s: seq<T>): (r: seq<T>)
    ensures |r| == |s|
    ensures forall i :: 0 <= i < |s| ==> r[i] == s[|s| - 1 - i]
    ensures forall i :: 0 <= i < |s| ==> s[i] == r[|s| - 1 - i]
  {
    if |s| == 0 then [] else Reverse(s[1..]) + [s[0]]
  }

  /** Reversing an ascending sequence puts later entries first. */
  lemma ReverseDescends(s: seq<Entry>, i: nat, k: nat)
    requires Ascending(s) && i < k < |s|
    ensures Before(Reverse(s)[k], Reverse(s)[i])
  {
    var rev := Reverse(s);
    assert rev[k] == s[|s| - 1 - k];
    assert rev[i] == s[|s| - 1 - i];
  }

  /** Where the `for ... return` loop stops: the first position satisfying
      `p`, or `|s|` when there is none. */
  function FirstMatchIndex(s: seq<Entry>, p: Entry -> bool): (r: nat)
    ensures r <= |s|
    ensures r < |s| ==> p(s[r])
    ensures forall j :: 0 <= j < r ==> !p(s[j])
  {
    if |s| == 0 then 0
    else if p(s[0]) then 0
    else 1 + FirstMatchIndex(s[1..], p)
  }

  /** The first entry satisfying `p`, if any. */
  function FirstMatch(s: seq<Entry>, p: Entry -> bool): (r: Option<Entry>)
    ensures r.None? <==> forall i :: 0 <= i < |s| ==> !p(s[i])
    ensures r.Some? ==> exists i :: 0 <= i < |s| && s[i] == r.value && p(s[i]) &&
                                    forall j :: 0 <= j < i ==> !p(s[j])
  {
    var i := FirstMatchIndex(s, p);
    if i < |s| then Some(s[i]) else None
  }

  /** Reversing keeps exactly the same entries. */
  lemma ReverseMembers(s: seq<Entry>)
    ensures forall x :: x in s <==> x in Reverse(s)
  {
    var rev := Reverse(s);
    forall x
      ensures x in s <==> x in rev
    {
      if x in s {
        var k :| 0 <= k < |s| && s[k] == x;
        assert rev[|s| - 1 - k] == x;
      }
      if x in rev {
        var k :| 0 <= k < |rev| && rev[k] == x;
        assert s[|s| - 1 - k] == x;
      }
    }
  }

  /** On an ascending sequence, the first match of the reversal is the
      greatest matching entry. */
  lemma LastOfAscending(sorted: seq<Entry>, p: Entry -> bool)
    requires Ascending(sorted)
    ensures FirstMatch(Reverse(sorted), p).None? <==> forall x :: x in sorted ==> !p(x)
    ensures var r := FirstMatch(Reverse(sorted), p);
      r.Some? ==> r.value in sorted && p(r.value) &&
                  forall x :: x in sorted && p(x) && x != r.value ==> Before(x, r.value)
  {
    var rev := Reverse(sorted);
    var r := FirstMatch(rev, p);
    ReverseMembers(sorted);
    if r.Some? {
      var i :| 0 <= i < |rev| && rev[i] == r.value && p(rev[i]) && forall j :: 0 <= j < i ==> !p(rev[j]);
      forall x | x in sorted && p(x) && x != r.value
        ensures Before(x, r.value)
      {
        var k :| 0 <= k < |rev| && rev[k] == x;
        assert k > i;
        ReverseDescends(sorted, i, k);
      }
    } else {
      forall x | x in sorted ensures !p(x) {
        var k :| 0 <= k < |rev| && rev[k] == x;
      }
    }
  }

  /** Sort, reverse, take the first match: the result is the newest matching
      entry, every other matching entry coming before it in (time, position)
      order; and there is none only when nothing matches. */
  lemma NewestMatch(s: seq<Entry>, p: Entry -> bool)
    requires DistinctPositions(s)
    ensures FirstMatch(Reverse(Sort(s)), p).None? <==> forall x :: x in s ==> !p(x)
    ensures var r := FirstMatch(Reverse(Sort(s)), p);
      r.Some? ==> r.value in s && p(r.value) &&
                  forall x :: x in s && p(x) && x != r.value ==> Before(x, r.value)
  {
    var sorted := Sort(s);
    LastOfAscending(sorted, p);
    forall x
      ensures x in s <==> x in sorted
    {
      assert x in s <==> x in multiset(s);
      assert x in sorted <==> x in multiset(sorted);
    }
  }
}
