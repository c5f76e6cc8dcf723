/** The order in which tasks are listed: a stable sort by creation time, newest first. */
module NewestFirst {
  import opened Valkey

  predicate Sorted(s: seq<Task>) {
    forall i, j :: 0 <= i < j < |s| ==> s[i].createdAt >= s[j].createdAt
  }

  predicate DistinctIds(s: seq<Task>) {
    forall i, j :: 0 <= i < j < |s| ==> s[i].id != s[j].id
  }

  /** `t` goes before the tasks that are not newer; it comes first among its equals, so
      inserting from the back keeps the given order of equals. */
  function Insert(t: Task, s: seq<Task>): seq<Task> {
    if s == [] || t.createdAt >= s[0].createdAt then [t] + s
    else [s[0]] + Insert(t, s[1..])
  }

  function Sort(s: seq<Task>): seq<Task> {
    if s == [] then [] else Insert(s[0], Sort(s[1..]))
  }

  /** The tasks of one creation time, in their given order. */
  function SameTime(s: seq<Task>, at: nat): seq<Task> {
    if s == [] then []
    else (if s[0].createdAt == at then [s[0]] else []) + SameTime(s[1..], at)
  }

  lemma {:induction false} InsertMultiset(t: Task, s: seq<Task>)
    ensures multiset(Insert(t, s)) == multiset([t]) + multiset(s)
  {
    if s != [] && t.createdAt < s[0].createdAt {
      InsertMultiset(t, s[1..]);
      assert s == [s[0]] + s[1..];
    }
  }

  lemma InsertMembers(t: Task, s: seq<Task>, x: Task)
    ensures x in Insert(t, s) <==> x == t || x in s
  {
    InsertMultiset(t, s);
    assert x in Insert(t, s) <==> x in multiset(Insert(t, s));
    assert x in s <==> x in multiset(s);
  }

  lemma {:induction false} InsertSorted(t: Task, s: seq<Task>)
    requires Sorted(s)
    ensures Sorted(Insert(t, s))
  {
    if s != [] && t.createdAt < s[0].createdAt {
      var r := Insert(t, s[1..]);
      InsertSorted(t, s[1..]);
      forall j | 0 <= j < |r|
        ensures s[0].createdAt >= r[j].createdAt
      {
        InsertMembers(t, s[1..], r[j]);
      }
    }
  }

  lemma {:induction false} InsertSameTime(t: Task, s: seq<Task>, at: nat)
    requires Sorted(s)
    ensures SameTime(Insert(t, s), at) == (if t.createdAt == at then [t] else []) + SameTime(s, at)
  {
    if s == [] || t.createdAt >= s[0].createdAt {
      assert ([t] + s)[1..] == s;
    } else {
      InsertSameTime(t, s[1..], at);
      var mine := if t.createdAt == at then [t] else [];
      var head := if s[0].createdAt == at then [s[0]] else [];
      var rest := SameTime(s[1..], at);
      assert mine == [] || head == [];
      assert head + (mine + rest) == mine + (head + rest);
      assert ([s[0]] + Insert(t, s[1..]))[1..] == Insert(t, s[1..]);
    }
  }

  /** The sort orders the tasks newest first, loses and adds none, and keeps the given
      order among tasks created at the same time. */
  lemma {:induction false} SortIsStable(s: seq<Task>, at: nat)
    ensures Sorted(Sort(s)) && multiset(Sort(s)) == multiset(s)
    ensures SameTime(Sort(s), at) == SameTime(s, at)
  {
    if s != [] {
      SortIsStable(s[1..], at);
      InsertMultiset(s[0], Sort(s[1..]));
      InsertSorted(s[0], Sort(s[1..]));
      InsertSameTime(s[0], Sort(s[1..]), at);
      assert s == [s[0]] + s[1..];
    }
  }

  lemma SortMembers(s: seq<Task>, t: Task)
    ensures t in Sort(s) <==> t in s
  {
    SortIsStable(s, 0);
    assert t in Sort(s) <==> t in multiset(Sort(s));
  }

  lemma {:induction false} InsertDistinct(t: Task, s: seq<Task>)
    requires DistinctIds(s) && forall i :: 0 <= i < |s| ==> s[i].id != t.id
    ensures DistinctIds(Insert(t, s))
  {
    if s != [] && t.createdAt < s[0].createdAt {
      var rest := s[1..];
      InsertDistinct(t, rest);
      var r := Insert(t, rest);
      forall j | 0 <= j < |r|
        ensures r[j].id != s[0].id
      {
        InsertMembers(t, rest, r[j]);
      }
    }
  }

  lemma {:induction false} SortDistinct(s: seq<Task>)
    requires DistinctIds(s)
    ensures DistinctIds(Sort(s))
  {
    if s != [] {
      SortDistinct(s[1..]);
      forall i | 0 <= i < |Sort(s[1..])|
        ensures Sort(s[1..])[i].id != s[0].id
      {
        SortMembers(s[1..], Sort(s[1..])[i]);
      }
      InsertDistinct(s[0], Sort(s[1..]));
    }
  }
}
