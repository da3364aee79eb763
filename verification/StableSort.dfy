/** Priority lists kept in order by an in-place bubble sort: the shutdown hooks of
    internal/server/shutdown.go and the change handlers of internal/config/dynamic.go. */
module PriorityLists {

  datatype Item<T> = Item(priority: int, value: T)

  /** The items of priority `p`, in order. */
  function WithPriority<T>(s: seq<Item<T>>, p: int): seq<Item<T>> {
    if s == [] then []
    else
      var last := s[|s|-1];
      WithPriority(s[..|s|-1], p) + (if last.priority == p then [last] else [])
  }

  predicate Sorted<T>(s: seq<Item<T>>) {
    forall i, j | 0 <= i < j < |s| :: s[i].priority <= s[j].priority
  }

  /** `t` has, priority by priority, the items of `s` in the order of `s`. */
  ghost predicate SameOrder<T>(s: seq<Item<T>>, t: seq<Item<T>>) {
    |s| == |t| && forall p :: WithPriority(s, p) == WithPriority(t, p)
  }

  /** `t` is `s` sorted by priority with ties left in order. */
  ghost predicate StablySorts<T>(s: seq<Item<T>>, t: seq<Item<T>>) {
    Sorted(t) && SameOrder(s, t)
  }

  lemma {:induction false} WithPriorityConcat<T>(a: seq<Item<T>>, b: seq<Item<T>>, p: int)
    ensures WithPriority(a + b, p) == WithPriority(a, p) + WithPriority(b, p)
  {
    if b == [] {
      assert a + b == a;
    } else {
      WithPriorityConcat(a, b[..|b|-1], p);
      assert (a + b)[..|a + b| - 1] == a + b[..|b|-1];
    }
  }

  /** Swapping neighbours of different priority keeps every priority's order. */
  lemma SwapKeepsOrder<T>(s: seq<Item<T>>, j: nat)
    requires j + 1 < |s| && s[j].priority != s[j+1].priority
    ensures SameOrder(s, s[j := s[j+1]][j+1 := s[j]])
  {
    var t := s[j := s[j+1]][j+1 := s[j]];
    var front, x, y, back := s[..j], [s[j]], [s[j+1]], s[j+2..];
    assert s == front + x + y + back && t == front + y + x + back;
    forall p ensures WithPriority(s, p) == WithPriority(t, p) {
      FourParts(front, x, y, back, p);
      FourParts(front, y, x, back, p);
    }
  }

  lemma FourParts<T>(a: seq<Item<T>>, b: seq<Item<T>>, c: seq<Item<T>>, d: seq<Item<T>>, p: int)
    ensures WithPriority(a + b + c + d, p)
         == WithPriority(a, p) + (WithPriority(b, p) + WithPriority(c, p)) + WithPriority(d, p)
  {
    WithPriorityConcat(a + b + c, d, p);
    WithPriorityConcat(a + b, c, p);
    WithPriorityConcat(a, b, p);
  }

  /** The bubble sort as both files have it: stable because only strict inversions swap. */
  method SortByPriority<T>(a: array<Item<T>>)
    modifies a
    ensures StablySorts(old(a[..]), a[..])
  {
    var n, i := a.Length, 0;
    while i < n - 1
      invariant 0 <= i <= n && (n > 0 ==> i <= n - 1)
      invariant SameOrder(old(a[..]), a[..])
      invariant forall k, l | 0 <= k < l < n && n - i <= l :: a[k].priority <= a[l].priority
    {
      BubbleOnce(a, n - i);
      i := i + 1;
    }
  }

  /** The inner loop: the largest of the first `m` items moves to their end. */
  method BubbleOnce<T>(a: array<Item<T>>, m: nat)
    requires 1 <= m <= a.Length
    requires forall k, l | 0 <= k < l < a.Length && m <= l :: a[k].priority <= a[l].priority
    modifies a
    ensures SameOrder(old(a[..]), a[..])
    ensures forall k, l | 0 <= k < l < a.Length && m - 1 <= l :: a[k].priority <= a[l].priority
  {
    var j := 0;
    while j < m - 1
      invariant 0 <= j <= m - 1
      invariant SameOrder(old(a[..]), a[..])
      invariant forall k, l | 0 <= k < l < a.Length && m <= l :: a[k].priority <= a[l].priority
      invariant forall k | 0 <= k < j :: a[k].priority <= a[j].priority
    {
      if a[j].priority > a[j+1].priority {
        SwapKeepsOrder(a[..], j);
        a[j], a[j+1] := a[j+1], a[j];
      }
      j := j + 1;
    }
  }

  // ---- Sorting after every registration ----

  lemma {:induction false} LowPrioritiesFirst<T>(s: seq<Item<T>>, k: nat)
    requires Sorted(s) && k < |s|
    ensures WithPriority(s, s[k].priority) != []
    ensures WithPriority(s, s[0].priority) != [] && WithPriority(s, s[0].priority)[0] == s[0]
  {
    var n := |s| - 1;
    if n > 0 {
      LowPrioritiesFirst(s[..n], if k < n then k else 0);
      assert s[..n][0] == s[0];
    }
  }

  lemma {:induction false} AllListed<T>(s: seq<Item<T>>, p: int)
    ensures forall x | x in WithPriority(s, p) :: x in s && x.priority == p
  {
    if s != [] { AllListed(s[..|s|-1], p); }
  }

  lemma DropFirst<T>(s: seq<Item<T>>, p: int)
    requires s != []
    ensures WithPriority(s, p) == (if s[0].priority == p then [s[0]] else []) + WithPriority(s[1..], p)
  {
    assert s == [s[0]] + s[1..];
    WithPriorityConcat([s[0]], s[1..], p);
  }

  /** A stable sort has one result: sorted lists with the same order are equal. */
  lemma {:induction false} StableSortIsUnique<T>(s: seq<Item<T>>, t: seq<Item<T>>)
    requires Sorted(s) && Sorted(t) && SameOrder(s, t)
    ensures s == t
    decreases |s|
  {
    if s != [] {
      var p, q := s[0].priority, t[0].priority;
      LowPrioritiesFirst(s, 0);
      LowPrioritiesFirst(t, 0);
      AllListed(t, p);
      AllListed(s, q);
      assert WithPriority(t, p)[0] in t && WithPriority(s, q)[0] in s;
      assert p == q && s[0] == t[0];
      forall r ensures WithPriority(s[1..], r) == WithPriority(t[1..], r) {
        DropFirst(s, r);
        DropFirst(t, r);
        var skip := if p == r then 1 else 0;
        assert WithPriority(s[1..], r) == WithPriority(s, r)[skip..] && WithPriority(t[1..], r) == WithPriority(t, r)[skip..];
      }
      StableSortIsUnique(s[1..], t[1..]);
    }
  }

  lemma AppendKeepsOrder<T>(s: seq<Item<T>>, t: seq<Item<T>>, x: Item<T>)
    requires SameOrder(s, t)
    ensures SameOrder(s + [x], t + [x])
  {
    forall p ensures WithPriority(s + [x], p) == WithPriority(t + [x], p) {
      WithPriorityConcat(s, [x], p);
      WithPriorityConcat(t, [x], p);
    }
  }
}

/** ShutdownManager of internal/server/shutdown.go. */
module Shutdown {
  import opened PriorityLists

  datatype Hook = Hook(name: string, timeout: int)

  const DEFAULT_TIMEOUT := 30 * 1_000_000_000

  function WithTimeout(h: Item<Hook>): Item<Hook> {
    if h.value.timeout == 0 then Item(h.priority, h.value.(timeout := DEFAULT_TIMEOUT)) else h
  }

  class ShutdownManager {
    var hooks: array<Item<Hook>>
    ghost var registered: seq<Item<Hook>>

    ghost predicate Valid()
      reads this, hooks
    {
      StablySorts(registered, hooks[..])
    }

    constructor ()
      ensures Valid() && registered == [] && fresh(hooks)
    {
      hooks := new Item<Hook>[0];
      registered := [];
    }

    /** After every registration the hooks are the stable sort of the registration
        sequence. */
    method RegisterHook(h: Item<Hook>)
      requires Valid()
      modifies this, hooks
      ensures Valid() && fresh(hooks)
      ensures |registered| == |old(registered)| + 1 && registered[..|old(registered)|] == old(registered)
      ensures registered[|old(registered)|] ==
        Item(h.priority, Hook(h.value.name, if h.value.timeout == 0 then 30_000_000_000 else h.value.timeout))
    {
      var hook := WithTimeout(h);
      var before := hooks[..];
      var longer := new Item<Hook>[|before| + 1](i => if 0 <= i < |before| then before[i] else hook);
      assert longer[..] == before + [hook];
      AppendKeepsOrder(registered, before, hook);
      SortByPriority(longer);
      hooks := longer;
      registered := registered + [hook];
    }

    /** executeShutdownHooks over a copy of the hooks; `expired[i]` says that the shutdown
        deadline is past when hook i is reached. */
    method ExecuteShutdownHooks(expired: seq<bool>) returns (executed: seq<Item<Hook>>)
      requires Valid() && |expired| == hooks.Length
      ensures executed <= hooks[..]
      ensures forall i | 0 <= i < |executed| :: !expired[i]
      ensures |executed| < hooks.Length ==> expired[|executed|]
    {
      var list := hooks[..];
      executed := [];
      for i := 0 to |list|
        invariant executed == list[..i] && forall k | 0 <= k < i :: !expired[k]
      {
        if expired[i] { return; }
        executed := executed + [list[i]];
      }
    }
  }

  /** Whatever was registered in whatever order, two managers with the same registrations
      run their hooks in the same order. */
  lemma OrderIsDetermined(registered: seq<Item<Hook>>, a: seq<Item<Hook>>, b: seq<Item<Hook>>)
    requires StablySorts(registered, a) && StablySorts(registered, b)
    ensures a == b
  {
    StableSortIsUnique(a, b);
  }

  /** The hooks that run in a shutdown never include one of a later priority before, or
      without, all of an earlier priority. */
  lemma EarlierPrioritiesRunFirst(hooks: seq<Item<Hook>>, executed: seq<Item<Hook>>, i: nat, j: nat)
    requires Sorted(hooks) && executed <= hooks && i < |executed| && j < |hooks|
    requires hooks[j].priority < executed[i].priority
    ensures j < i && executed[j] == hooks[j]
  {
  }
}
