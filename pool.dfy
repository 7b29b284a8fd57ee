// A LIFO resource pool: released objects are pushed on a stack and handed out
// again, newest first; new objects come from a factory when the stack is empty.
//
// The pooled type is a reference type that may be null, so a stack entry is an
// `Option<T>`.  The factory is code this model cannot see: each operation that
// calls it takes the value the factory returns as a parameter.  The optional
// hooks (destroy, fetch, release) are recorded, in call order, in `calls`.

module ObjectPool {
  import opened Wrappers

  /** Default number of starting pool items created on init. */
  const DEFAULT_POOL_SIZE: nat := 32

  /**
   * One observable call into the pool's factory or one of its hooks.  The
   * destroy hook has no case: only Clear would call it, and Clear never does.
   */
  datatype Call<T> =
    | Create(made: Option<T>)          // the factory produced `made`
    | BeforeFetch(item: Option<T>)     // the fetch hook ran on `item`
    | BeforeRelease(released: T)       // the release hook ran on `released`

  /** The only way Fetch fails: `Peek` on a stack emptied by discarding nulls. */
  datatype FetchError = PeekOnEmptyStack

  /** Every entry of `s` is a null reference. */
  predicate AllNull<T>(s: seq<Option<T>>) {
    forall i :: 0 <= i < |s| ==> s[i].None?
  }

  /** The factory calls made while pushing `made`, one per item, in order. */
  function Creations<T>(made: seq<Option<T>>): (r: seq<Call<T>>)
    ensures |r| == |made|
    ensures forall i :: 0 <= i < |made| ==> r[i] == Create(made[i])
  {
    seq(|made|, i requires 0 <= i < |made| => Create(made[i]))
  }

  /**
   * The stack after discarding null entries from the top (the end of the
   * sequence): a prefix of `s` whose top, if any, is a live object, and which
   * is empty exactly when `s` holds nothing but nulls.
   */
  function DropNullTop<T>(s: seq<Option<T>>): (r: seq<Option<T>>)
    ensures |r| <= |s| && r == s[..|r|]
    ensures forall i :: |r| <= i < |s| ==> s[i].None?
    ensures r != [] ==> r[|r| - 1].Some?
    ensures r == [] <==> AllNull(s)
    decreases |s|
  {
    if |s| == 0 then s
    else if s[|s| - 1].Some? then s
    else DropNullTop(s[..|s| - 1])
  }

  /** What Fetch returns on a stack `s`, when the factory would produce `made`. */
  function FetchResult<T>(s: seq<Option<T>>, made: Option<T>): (r: Result<Option<T>, FetchError>)
    ensures |s| == 0 ==> r == Success(made)
    ensures r.Failure? <==> |s| > 0 && AllNull(s)
    ensures |s| > 0 && r.Success? ==> r.value.Some? && r.value in s
  {
    if |s| == 0 then Success(made)
    else
      var d := DropNullTop(s);
      if d == [] then Failure(PeekOnEmptyStack)
      else Success(d[|d| - 1])
  }

  /** The stack Fetch leaves behind on a stack `s`. */
  function FetchRest<T>(s: seq<Option<T>>): (r: seq<Option<T>>)
    ensures |s| == 0 ==> r == []
    ensures |r| < |s| || |s| == 0
    ensures r == s[..|r|]
  {
    var d := DropNullTop(s);
    if d == [] then [] else d[..|d| - 1]
  }

  /**
   * Releasing a live object and then fetching hands back that same object
   * and restores the stack as it was before the release.
   */
  lemma ReleaseThenFetch<T>(s: seq<Option<T>>, x: T, made: Option<T>)
    ensures FetchResult(s + [Some(x)], made) == Success(Some(x))
    ensures FetchRest(s + [Some(x)]) == s
  {
    var s' := s + [Some(x)];
    assert s'[|s'| - 1] == Some(x);
    assert s'[..|s'| - 1] == s;
  }

  /**
   * Fetching from a stack whose top is null behaves as fetching from the stack
   * without that entry, unless nothing else is left.
   */
  lemma FetchSkipsNullTop<T>(s: seq<Option<T>>, made: Option<T>)
    requires s != [] && !AllNull(s)
    ensures FetchResult(s + [None], made) == FetchResult(s, made)
    ensures FetchRest(s + [None]) == FetchRest(s)
  {
    var s' := s + [None];
    assert s'[..|s'| - 1] == s;
  }

  class Pool<T> {
    /** The pooled items, bottom first; the top of the stack is the last entry. */
    var stack: seq<Option<T>>
    /** Every factory and hook call made so far, oldest first. */
    var calls: seq<Call<T>>
    /** The number of items Init creates. */
    const initialPoolSize: nat
    const hasDestroyHook: bool
    const hasFetchHook: bool
    const hasReleaseHook: bool

    /** A pool with a factory and no hooks. */
    constructor (argInitialPoolSize: int)
      requires argInitialPoolSize >= 0
      ensures initialPoolSize == argInitialPoolSize
      ensures !hasDestroyHook && !hasFetchHook && !hasReleaseHook
      ensures stack == [] && calls == []
    {
      initialPoolSize := argInitialPoolSize;
      hasDestroyHook, hasFetchHook, hasReleaseHook := false, false, false;
      stack, calls := [], [];
    }

    /** A pool with a factory and the hooks whose presence the flags give. */
    constructor WithHooks(argDestroy: bool, argFetch: bool, argRelease: bool, argInitialPoolSize: int)
      requires argInitialPoolSize >= 0
      ensures initialPoolSize == argInitialPoolSize
      ensures hasDestroyHook == argDestroy && hasFetchHook == argFetch && hasReleaseHook == argRelease
      ensures stack == [] && calls == []
    {
      initialPoolSize := argInitialPoolSize;
      hasDestroyHook, hasFetchHook, hasReleaseHook := argDestroy, argFetch, argRelease;
      stack, calls := [], [];
    }

    /**
     * Clears the pool, then pushes `initialPoolSize` items from the factory,
     * `made` being what the factory returns on each call.  Since Clear
     * removes nothing, the existing items stay below the new ones.
     */
    method Init(made: seq<Option<T>>)
      requires |made| == initialPoolSize
      modifies this
      ensures stack == old(stack) + made
      ensures calls == old(calls) + Creations(made)
    {
      Clear();
      for i := 0 to initialPoolSize
        invariant stack == old(stack) + made[..i]
        invariant calls == old(calls) + Creations(made[..i])
      {
        assert made[..i + 1] == made[..i] + [made[i]];
        assert Creations(made[..i + 1]) == Creations(made[..i]) + [Create(made[i])];
        stack := stack + [made[i]];
        calls := calls + [Create(made[i])];
      }
      assert made[..initialPoolSize] == made;
    }

    /**
     * Clears the pool.  Its loop runs while the stack holds fewer than zero
     * items, which never happens, so no item is popped and the destroy hook
     * is never called.
     */
    method Clear()
      ensures stack == old(stack) && calls == old(calls)
    {
    }

    /**
     * Fetches a pooled item: discards nulls from the top, then pops the top
     * item; on an empty stack it asks the factory for a new one (`made`).
     * The fetch hook, when present, runs on the item handed out.  When every
     * entry is null, the discarding empties the stack and the following
     * `Peek` fails.
     */
    method Fetch(made: Option<T>) returns (r: Result<Option<T>, FetchError>)
      modifies this
      ensures r == FetchResult(old(stack), made)
      ensures stack == FetchRest(old(stack))
      ensures r.Failure? ==> calls == old(calls)
      ensures r.Success? && old(stack) == [] ==>
        calls == old(calls) + [Create(made)] + (if hasFetchHook then [BeforeFetch(made)] else [])
      ensures r.Success? && old(stack) != [] ==>
        calls == old(calls) + (if hasFetchHook then [BeforeFetch(r.value)] else [])
    {
      var item: Option<T> := None;
      if |stack| > 0 {
        while true
          invariant |stack| <= |old(stack)| && stack == old(stack)[..|stack|]
          invariant DropNullTop(stack) == DropNullTop(old(stack))
          invariant calls == old(calls)
          decreases |stack|
        {
          if |stack| == 0 {
            return Failure(PeekOnEmptyStack);
          }
          if stack[|stack| - 1].Some? {
            break;
          }
          stack := stack[..|stack| - 1];
        }
        if |stack| > 0 {
          item := stack[|stack| - 1];
          stack := stack[..|stack| - 1];
        }
      }
      if item.None? {
        item := made;
        calls := calls + [Create(made)];
      }
      if hasFetchHook {
        calls := calls + [BeforeFetch(item)];
      }
      r := Success(item);
    }

    /**
     * Returns an object to the pool: a null reference is ignored; otherwise
     * the release hook, when present, runs and the object goes on top.
     */
    method Release(argPoolObject: Option<T>)
      modifies this
      ensures argPoolObject.None? ==> stack == old(stack) && calls == old(calls)
      ensures argPoolObject.Some? ==> stack == old(stack) + [argPoolObject]
      ensures argPoolObject.Some? ==>
        calls == old(calls) + (if hasReleaseHook then [BeforeRelease(argPoolObject.value)] else [])
    {
      if argPoolObject.Some? {
        if hasReleaseHook {
          calls := calls + [BeforeRelease(argPoolObject.value)];
        }
        stack := stack + [argPoolObject];
      }
    }
  }
}
