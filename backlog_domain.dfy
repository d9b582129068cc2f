/** The change queue of `src/BacklogManager/backlogDomain.mjs`: pairs of a task reference
  * and a change, handed out sorted by task reference when the queue is drained.
  *
  * `String.prototype.localeCompare` is modelled as plain lexicographic order on characters
  * (`RefLeq`), and the engine's stable `Array.prototype.sort` as a stable insertion sort
  * (`SortedByRef`), proved sorted, a permutation of its input, and stable. */
module BacklogDomain {

  datatype Entry<C> = Entry(taskRef: string, change: C)

  // ---------------------------------------------------------------------------------
  // The order on task references

  /** `a.localeCompare(b) <= 0`, taken as lexicographic order on characters. */
  predicate RefLeq(a: string, b: string)
    decreases |a|
  {
    a == [] || (b != [] && (a[0] < b[0] || (a[0] == b[0] && RefLeq(a[1..], b[1..]))))
  }

  lemma {:induction false} RefLeqReflexive(a: string)
    ensures RefLeq(a, a)
    decreases |a|
  {
    if a != [] {
      RefLeqReflexive(a[1..]);
    }
  }

  lemma {:induction false} RefLeqTotal(a: string, b: string)
    ensures RefLeq(a, b) || RefLeq(b, a)
    decreases |a|
  {
    if a != [] && b != [] && a[0] == b[0] {
      RefLeqTotal(a[1..], b[1..]);
    }
  }

  lemma {:induction false} RefLeqAntisymmetric(a: string, b: string)
    requires RefLeq(a, b) && RefLeq(b, a)
    ensures a == b
    decreases |a|
  {
    if a != [] {
      RefLeqAntisymmetric(a[1..], b[1..]);
      assert a == [a[0]] + a[1..] && b == [b[0]] + b[1..];
    }
  }

  lemma {:induction false} RefLeqTransitive(a: string, b: string, c: string)
    requires RefLeq(a, b) && RefLeq(b, c)
    ensures RefLeq(a, c)
    decreases |a|
  {
    if a != [] && a[0] == b[0] && b[0] == c[0] {
      RefLeqTransitive(a[1..], b[1..], c[1..]);
    }
  }

  // ---------------------------------------------------------------------------------
  // The stable sort of `drain`

  predicate Sorted<C>(s: seq<Entry<C>>) {
    forall i, j :: 0 <= i < j < |s| ==> RefLeq(s[i].taskRef, s[j].taskRef)
  }

  /** `[e]` if `e` has the reference `ref`, else nothing. */
  function Pick<C>(e: Entry<C>, ref: string): seq<Entry<C>> {
    if e.taskRef == ref then [e] else []
  }

  /** The entries of `s` whose task reference is `ref`, in their order in `s`. */
  function WithRef<C>(s: seq<Entry<C>>, ref: string): seq<Entry<C>>
    decreases |s|
  {
    if s == [] then [] else WithRef(s[..|s| - 1], ref) + Pick(s[|s| - 1], ref)
  }

  /** Inserting `x` after every entry whose reference is not greater than its own. */
  function Insert<C>(t: seq<Entry<C>>, x: Entry<C>): (r: seq<Entry<C>>)
    ensures multiset(r) == multiset(t) + multiset{x}
    decreases |t|
  {
    if t == [] || RefLeq(t[|t| - 1].taskRef, x.taskRef) then t + [x]
    else
      var last := t[|t| - 1];
      assert t == t[..|t| - 1] + [last];
      Insert(t[..|t| - 1], x) + [last]
  }

  /** `queue.sort((a, b) => a.taskRef.localeCompare(b.taskRef))` */
  function SortedByRef<C>(s: seq<Entry<C>>): (r: seq<Entry<C>>)
    ensures multiset(r) == multiset(s)
    decreases |s|
  {
    if s == [] then []
    else
      assert s == s[..|s| - 1] + [s[|s| - 1]];
      Insert(SortedByRef(s[..|s| - 1]), s[|s| - 1])
  }

  lemma SortedSnoc<C>(t: seq<Entry<C>>, x: Entry<C>)
    requires Sorted(t)
    requires forall i :: 0 <= i < |t| ==> RefLeq(t[i].taskRef, x.taskRef)
    ensures Sorted(t + [x])
  {
    var r := t + [x];
    forall i, j | 0 <= i < j < |r|
      ensures RefLeq(r[i].taskRef, r[j].taskRef)
    {
      assert r[i] == t[i];
    }
  }

  lemma {:induction false} InsertSorted<C>(t: seq<Entry<C>>, x: Entry<C>)
    requires Sorted(t)
    ensures Sorted(Insert(t, x))
    decreases |t|
  {
    if t == [] || RefLeq(t[|t| - 1].taskRef, x.taskRef) {
      forall i | 0 <= i < |t|
        ensures RefLeq(t[i].taskRef, x.taskRef)
      {
        if i < |t| - 1 {
          RefLeqTransitive(t[i].taskRef, t[|t| - 1].taskRef, x.taskRef);
        }
      }
      SortedSnoc(t, x);
    } else {
      var last := t[|t| - 1];
      var init := t[..|t| - 1];
      RefLeqTotal(last.taskRef, x.taskRef);
      InsertSorted(init, x);
      var u := Insert(init, x);
      forall i | 0 <= i < |u|
        ensures RefLeq(u[i].taskRef, last.taskRef)
      {
        assert u[i] in multiset(u);
        if u[i] != x {
          assert u[i] in multiset(init);
          var k :| 0 <= k < |init| && init[k] == u[i];
          assert t[k] == u[i];
        }
      }
      SortedSnoc(u, last);
    }
  }

  lemma WithRefSnoc<C>(s: seq<Entry<C>>, e: Entry<C>, ref: string)
    ensures e.taskRef == ref ==> WithRef(s + [e], ref) == WithRef(s, ref) + [e]
    ensures e.taskRef != ref ==> WithRef(s + [e], ref) == WithRef(s, ref)
  {
    assert (s + [e])[..|s|] == s;
  }

  lemma {:induction false} InsertStable<C>(t: seq<Entry<C>>, x: Entry<C>, ref: string)
    ensures x.taskRef == ref ==> WithRef(Insert(t, x), ref) == WithRef(t, ref) + [x]
    ensures x.taskRef != ref ==> WithRef(Insert(t, x), ref) == WithRef(t, ref)
    decreases |t|
  {
    if t == [] || RefLeq(t[|t| - 1].taskRef, x.taskRef) {
      WithRefSnoc(t, x, ref);
    } else {
      var last := t[|t| - 1];
      var init := t[..|t| - 1];
      assert t == init + [last];
      InsertStable(init, x, ref);
      RefLeqReflexive(x.taskRef);
      var u := Insert(init, x);
      assert Insert(t, x) == u + [last];
      WithRefSnoc(u, last, ref);
      WithRefSnoc(init, last, ref);
    }
  }

  /** `drain`'s order: ascending task references. */
  lemma {:induction false} SortIsSorted<C>(s: seq<Entry<C>>)
    ensures Sorted(SortedByRef(s))
    decreases |s|
  {
    if s != [] {
      SortIsSorted(s[..|s| - 1]);
      InsertSorted(SortedByRef(s[..|s| - 1]), s[|s| - 1]);
    }
  }

  /** Entries with the same task reference keep their enqueue order. */
  lemma {:induction false} SortIsStable<C>(s: seq<Entry<C>>, ref: string)
    ensures WithRef(SortedByRef(s), ref) == WithRef(s, ref)
    decreases |s|
  {
    if s != [] {
      var init, x := s[..|s| - 1], s[|s| - 1];
      SortIsStable(init, ref);
      InsertStable(SortedByRef(init), x, ref);
      assert s == init + [x];
      WithRefSnoc(init, x, ref);
    }
  }

  /** An already sorted queue is left as it is. */
  lemma {:induction false} SortKeepsSorted<C>(s: seq<Entry<C>>)
    requires Sorted(s)
    ensures SortedByRef(s) == s
    decreases |s|
  {
    if s != [] {
      var init, x := s[..|s| - 1], s[|s| - 1];
      assert Sorted(init) by {
        forall i, j | 0 <= i < j < |init| ensures RefLeq(init[i].taskRef, init[j].taskRef) {
          assert init[i] == s[i] && init[j] == s[j];
        }
      }
      SortKeepsSorted(init);
      assert SortedByRef(s) == Insert(init, x);
      if init != [] {
        assert RefLeq(init[|init| - 1].taskRef, x.taskRef) by {
          assert init[|init| - 1] == s[|s| - 2];
        }
      }
      assert init + [x] == s;
    }
  }

  // ---------------------------------------------------------------------------------
  // The queue

  class ChangeQueue<C> {
    var queue: seq<Entry<C>>

    constructor()
      ensures queue == []
    {
      queue := [];
    }

    /** `enqueue(taskRef, change)` */
    method Enqueue(taskRef: string, change: C)
      modifies this
      ensures queue == old(queue) + [Entry(taskRef, change)]
    {
      queue := queue + [Entry(taskRef, change)];
    }

    /** `drain()`: the queue sorted in place, a copy of it returned and the queue reset.
      * The returned sequence is a value, so later enqueues cannot alter it. */
    method Drain() returns (changes: seq<Entry<C>>)
      modifies this
      ensures changes == SortedByRef(old(queue))
      ensures multiset(changes) == multiset(old(queue)) && Sorted(changes)
      ensures queue == []
    {
      queue := SortedByRef(queue);
      SortIsSorted(old(queue));
      changes := queue;
      queue := [];
    }

    /** `clear()` */
    method Clear()
      modifies this
      ensures queue == []
    {
      queue := [];
    }
  }

  /** The sequence of the module's test: two enqueues, then two drains. */
  method DrainTwice() returns (first: seq<Entry<string>>, second: seq<Entry<string>>)
    ensures first == [Entry("ref1", "change1"), Entry("ref2", "change2")]
    ensures second == []
  {
    var q := new ChangeQueue<string>();
    q.Enqueue("ref1", "change1");
    q.Enqueue("ref2", "change2");
    assert RefLeq("ref1", "ref2") by {
      assert "ref1"[1..] == "ef1" && "ref2"[1..] == "ef2";
      assert "ef1"[1..] == "f1" && "ef2"[1..] == "f2";
      assert "f1"[1..] == "1" && "f2"[1..] == "2";
    }
    SortKeepsSorted(q.queue);
    first := q.Drain();
    second := q.Drain();
  }
}
