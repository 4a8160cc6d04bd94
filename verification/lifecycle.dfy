/** Call traces of Vulkan object creation and destruction. A trace is a
    sequence of events; an object is live while it has been created more
    often than destroyed. */
module Lifecycle {
  import opened Common

  /** A create or destroy call on object `obj`, or another recorded call. */
  datatype Event<O, A> = Create(obj: O) | Destroy(obj: O) | Act(action: A)

  /** Creations minus destructions of o in the trace. */
  function Net<O(==), A(==)>(trace: seq<Event<O, A>>, o: O): int
  {
    Count(trace, Create(o)) - Count(trace, Destroy(o))
  }

  /** Every object created in the trace is also destroyed in it, and nothing else is destroyed. */
  ghost predicate Balanced<O(!new), A>(trace: seq<Event<O, A>>)
  {
    forall o: O :: Net(trace, o) == 0
  }

  function CreatesOf<O, A>(objs: seq<O>): (trace: seq<Event<O, A>>)
    ensures |trace| == |objs|
  {
    seq(|objs|, i requires 0 <= i < |objs| => Create(objs[i]))
  }

  function DestroysOf<O, A>(objs: seq<O>): (trace: seq<Event<O, A>>)
    ensures |trace| == |objs|
  {
    seq(|objs|, i requires 0 <= i < |objs| => Destroy(objs[i]))
  }

  lemma NetAppend<O, A>(a: seq<Event<O, A>>, b: seq<Event<O, A>>, o: O)
    ensures Net(a + b, o) == Net(a, o) + Net(b, o)
  {
    CountAppend(a, b, Create(o));
    CountAppend(a, b, Destroy(o));
  }

  lemma NetSingle<O, A>(e: Event<O, A>, o: O)
    ensures Net([e], o) == (if e == Create(o) then 1 else if e == Destroy(o) then -1 else 0)
  {
    assert [e][..0] == [];
  }

  /** Creating a list of objects raises each object's net count by its number of occurrences. */
  lemma {:induction false} NetCreates<O, A>(objs: seq<O>, o: O)
    ensures Net(CreatesOf<O, A>(objs), o) == Count(objs, o)
    decreases |objs|
  {
    if |objs| > 0 {
      var init := objs[..|objs| - 1];
      var last := objs[|objs| - 1];
      assert CreatesOf<O, A>(objs) == CreatesOf<O, A>(init) + [Create(last)];
      NetCreates<O, A>(init, o);
      NetAppend(CreatesOf<O, A>(init), [Create(last)], o);
      NetSingle<O, A>(Create(last), o);
    }
  }

  /** Destroying a list of objects lowers each object's net count by its number of occurrences. */
  lemma {:induction false} NetDestroys<O, A>(objs: seq<O>, o: O)
    ensures Net(DestroysOf<O, A>(objs), o) + Count(objs, o) == 0
    decreases |objs|
  {
    if |objs| > 0 {
      var init := objs[..|objs| - 1];
      var last := objs[|objs| - 1];
      assert DestroysOf<O, A>(objs) == DestroysOf<O, A>(init) + [Destroy(last)];
      NetDestroys<O, A>(init, o);
      NetAppend(DestroysOf<O, A>(init), [Destroy(last)], o);
      NetSingle<O, A>(Destroy(last), o);
    }
  }
  function ActsOf<O, A>(actions: seq<A>): (trace: seq<Event<O, A>>)
    ensures |trace| == |actions|
  {
    seq(|actions|, i requires 0 <= i < |actions| => Act(actions[i]))
  }

  /** Calls that neither create nor destroy leave every net count alone. */
  lemma {:induction false} NetActs<O, A>(actions: seq<A>, o: O)
    ensures Net(ActsOf<O, A>(actions), o) == 0
    decreases |actions|
  {
    if |actions| > 0 {
      var init := actions[..|actions| - 1];
      var last := actions[|actions| - 1];
      assert ActsOf<O, A>(actions) == ActsOf<O, A>(init) + [Act(last)];
      NetActs<O, A>(init, o);
      NetAppend(ActsOf<O, A>(init), [Act(last)], o);
      NetSingle<O, A>(Act(last), o);
    }
  }
}
