/** Properties of the Android registry, stated over the steps of `AndroidPlugin`. */
module AndroidProperties {
  import opened Common
  import opened OrderedMap
  import opened AndroidPlugin
  import Fetch
  import Strings

  // ---------------------------------------------------------------------
  // The enqueued requests

  lemma {:induction false} RequestsAppend(a: seq<Task>, b: seq<Task>)
    ensures Requests(a + b) == Requests(a) + Requests(b)
    decreases |a|
  {
    if |a| == 0 {
      assert a + b == b;
    } else {
      assert (a + b)[1..] == a[1..] + b;
      RequestsAppend(a[1..], b);
    }
  }

  lemma MultisetRemoveAt<T>(ys: seq<T>, i: nat)
    requires i < |ys|
    ensures multiset(ys[..i] + ys[i + 1..]) == multiset(ys) - multiset{ys[i]}
  {
    assert ys == ys[..i] + [ys[i]] + ys[i + 1..];
  }

  lemma MultisetMiddle<T>(a: seq<T>, x: seq<T>, b: seq<T>)
    ensures multiset(a + (x + b)) == multiset(x) + multiset(a + b)
  {
    assert multiset(a + (x + b)) == multiset(a) + (multiset(x) + multiset(b));
    assert multiset(a + b) == multiset(a) + multiset(b);
  }

  /** The requests of a one-task list followed by more tasks. */
  lemma RequestsCons(x: Task, b: seq<Task>)
    ensures Requests([x] + b) == RequestOf(x) + Requests(b)
  {
    assert ([x] + b)[1..] == b;
  }

  lemma SplitAt<T>(ys: seq<T>, i: nat)
    requires i < |ys|
    ensures ys == ys[..i] + ([ys[i]] + ys[i + 1..])
  {
    assert ys[i..] == [ys[i]] + ys[i + 1..];
    assert ys == ys[..i] + ys[i..];
  }

  /** The requests of a list, split around position `i`. */
  lemma RequestsSplit(ys: seq<Task>, i: nat)
    requires i < |ys|
    ensures Requests(ys) == Requests(ys[..i]) + (RequestOf(ys[i]) + Requests(ys[i + 1..]))
  {
    SplitAt(ys, i);
    RequestsAppend(ys[..i], [ys[i]] + ys[i + 1..]);
    RequestsCons(ys[i], ys[i + 1..]);
  }

  lemma MultisetTail<T>(xs: seq<T>)
    requires |xs| > 0
    ensures multiset(xs[1..]) == multiset(xs) - multiset{xs[0]}
  {
    assert xs == [xs[0]] + xs[1..];
  }

  lemma RequestsRemoveAt(ys: seq<Task>, i: nat)
    requires i < |ys|
    ensures multiset(Requests(ys)) == multiset(RequestOf(ys[i])) + multiset(Requests(ys[..i] + ys[i + 1..]))
  {
    RequestsSplit(ys, i);
    RequestsAppend(ys[..i], ys[i + 1..]);
    MultisetMiddle(Requests(ys[..i]), RequestOf(ys[i]), Requests(ys[i + 1..]));
  }

  /** Reordering the tasks only reorders their requests. */
  lemma {:induction false} RequestsPermutation(xs: seq<Task>, ys: seq<Task>)
    requires multiset(xs) == multiset(ys)
    ensures multiset(Requests(xs)) == multiset(Requests(ys))
    decreases |xs|
  {
    if |xs| == 0 {
      assert |ys| == |multiset(ys)| == 0;
    } else {
      var x := xs[0];
      assert x in multiset(ys);
      var i :| 0 <= i < |ys| && ys[i] == x;
      var rest := ys[..i] + ys[i + 1..];
      MultisetRemoveAt(ys, i);
      MultisetTail(xs);
      RequestsPermutation(xs[1..], rest);
      RequestsRemoveAt(ys, i);
    }
  }

  /**
   * What the re-enqueue rule hands to the library: the requests of the
   * registry's entries arranged in ascending `index` order, each entry's
   * request exactly once and nothing else.
   */
  lemma EnqueuedRequestsAreSortedPermutation(reg: Registry, library: seq<Fetch.Download>)
    requires EnqueueRule(reg, library).Some?
    ensures var rs := EnqueueRule(reg, library).value;
      && multiset(rs) == multiset(Requests(Values(reg)))
      && exists ts :: SortedByIndex(ts) && multiset(ts) == multiset(Values(reg)) && Requests(ts) == rs
  {
    var ts := TreeOrder(Values(reg));
    RequestsPermutation(ts, Values(reg));
    assert SortedByIndex(ts) && multiset(ts) == multiset(Values(reg)) && Requests(ts) == EnqueueRule(reg, library).value;
  }

  /** Equal indices come out in reverse insertion order. */
  lemma TiesComeOutReversed(a: Task, b: Task)
    requires a.index == b.index
    ensures TreeOrder([a, b]) == [b, a]
  {
    assert [a, b][..1] == [a];
    assert [a][..0] == [];
  }

  /** The tasks of `ts` whose index is `k`, in the order of `ts`. */
  function WithIndex(ts: seq<Task>, k: int): seq<Task> {
    if |ts| == 0 then [] else (if ts[0].index == k then [ts[0]] else []) + WithIndex(ts[1..], k)
  }

  function Reverse<T>(s: seq<T>): seq<T> {
    if |s| == 0 then [] else [s[|s| - 1]] + Reverse(s[..|s| - 1])
  }

  lemma {:induction false} WithIndexAppend(a: seq<Task>, b: seq<Task>, k: int)
    ensures WithIndex(a + b, k) == WithIndex(a, k) + WithIndex(b, k)
    decreases |a|
  {
    if |a| == 0 {
      assert a + b == b;
    } else {
      assert (a + b)[1..] == a[1..] + b;
      WithIndexAppend(a[1..], b, k);
    }
  }

  /** One insertion puts the new task in front of every task with its index. */
  lemma {:induction false} WithIndexInsert(t: Task, s: seq<Task>, k: int)
    ensures WithIndex(Insert(t, s), k) == WithIndex([t], k) + WithIndex(s, k)
    decreases |s|
  {
    if |s| == 0 {
    } else if t.index > s[0].index {
      assert s == [s[0]] + s[1..];
      WithIndexInsert(t, s[1..], k);
      WithIndexAppend([s[0]], Insert(t, s[1..]), k);
      WithIndexAppend([s[0]], s[1..], k);
    } else {
      WithIndexAppend([t], s, k);
    }
  }

  /**
   * The general tie rule: in the enqueue order the tasks sharing any one
   * index appear in the reverse of their order in the registry.
   */
  lemma {:induction false} TreeOrderReversesTies(ts: seq<Task>, k: int)
    ensures WithIndex(TreeOrder(ts), k) == Reverse(WithIndex(ts, k))
    decreases |ts|
  {
    if |ts| > 0 {
      var init, last := ts[..|ts| - 1], ts[|ts| - 1];
      TreeOrderSnoc(ts);
      TreeOrderReversesTies(init, k);
      WithIndexInsert(last, TreeOrder(init), k);
      WithIndexSnoc(ts, k);
      ReverseSnoc(WithIndex(init, k), WithIndex([last], k));
    }
  }

  lemma WithIndexSnoc(ts: seq<Task>, k: int)
    requires |ts| > 0
    ensures WithIndex(ts, k) == WithIndex(ts[..|ts| - 1], k) + WithIndex([ts[|ts| - 1]], k)
  {
    assert ts == ts[..|ts| - 1] + [ts[|ts| - 1]];
    WithIndexAppend(ts[..|ts| - 1], [ts[|ts| - 1]], k);
  }

  lemma TreeOrderSnoc(ts: seq<Task>)
    requires |ts| > 0
    ensures TreeOrder(ts) == Insert(ts[|ts| - 1], TreeOrder(ts[..|ts| - 1]))
  {
  }

  /** Appending at most one element puts it at the front of the reversal. */
  lemma ReverseSnoc<T>(w: seq<T>, e: seq<T>)
    requires |e| <= 1
    ensures Reverse(w + e) == e + Reverse(w)
  {
    if |e| == 1 {
      assert (w + e)[..|w|] == w;
    } else {
      assert w + e == w;
    }
  }

  // ---------------------------------------------------------------------
  // Bridge calls

  /** `add` strips at most one scheme: a doubled scheme keeps the second copy. */
  lemma AddStripsOneScheme(reg: Registry, p: Params, now: int, availableSize: int, requestId: int, rest: string)
    requires InInt(p.size) && p.filePath == Strings.Scheme + rest
    ensures Add(reg, p, now, availableSize, requestId).next.entries[p.id].filePath == rest
  {
    Strings.RemovePrefixOnce(Strings.Scheme, rest);
  }

  /** A size rejection does not stop `add`: the entry is stored and the call resolved after the reject. */
  lemma AddStoresDespiteReject(reg: Registry, p: Params, now: int, availableSize: int, requestId: int)
    requires InInt(p.size) && availableSize < p.size
    ensures var s := Add(reg, p, now, availableSize, requestId);
      && p.id in s.next.entries
      && s.effects == [Reject(SizeOver), Resolve(s.next.entries[p.id])]
  {
  }

  /** Under the id invariant `stop` removes exactly the requested entry. */
  lemma StopRemovesExactlyId(reg: Registry, id: string)
    requires KeysMatchIds(reg) && id in reg.entries
    ensures var n := Stop(reg, id).next;
      && Get(n, id) == None
      && (forall k :: k != id ==> Get(n, k) == Get(reg, k))
      && KeysMatchIds(n)
  {
  }

  /** Stopping a freshly added id gives back the registry as it was, order included. */
  lemma AddThenStopRestores(reg: Registry, p: Params, now: int, availableSize: int, requestId: int)
    requires p.id !in reg.entries
    ensures Stop(Add(reg, p, now, availableSize, requestId).next, p.id).next == reg
  {
    if InInt(p.size) {
      var t := NewTask(p, now, requestId);
      assert Add(reg, p, now, availableSize, requestId).next == Put(reg, p.id, t);
      RemoveAfterPut(reg, p.id, t);
    }
  }

  // ---------------------------------------------------------------------
  // Traces

  datatype Event =
    | AddEv(p: Params, now: int, availableSize: int, requestId: int)
    | StartEv(id: string, library: seq<Fetch.Download>)
    | PauseEv(id: string)
    | ResumeEv(id: string)
    | StopEv(id: string)
    | CancelledEv(d: Fetch.Download)
    | CompletedEv(d: Fetch.Download, library: seq<Fetch.Download>)

  function Apply(reg: Registry, e: Event): Step {
    match e
    case AddEv(p, now, a, rid) => Add(reg, p, now, a, rid)
    case StartEv(id, lib) => Start(reg, id, lib)
    case PauseEv(id) => Pause(reg, id)
    case ResumeEv(id) => Resume(reg, id)
    case StopEv(id) => Stop(reg, id)
    case CancelledEv(d) => OnCancelled(reg, d)
    case CompletedEv(d, lib) => OnCompleted(reg, d, lib)
  }

  function Trace(reg: Registry, es: seq<Event>): Registry
    decreases |es|
  {
    if |es| == 0 then reg else Trace(Apply(reg, es[0]).next, es[1..])
  }

  lemma ApplyKeepsIds(reg: Registry, e: Event)
    requires KeysMatchIds(reg)
    ensures KeysMatchIds(Apply(reg, e).next)
  {
    match e
    case AddEv(p, now, a, rid) =>
      if InInt(p.size) {
        var n := Add(reg, p, now, a, rid).next;
        forall k | k in n.entries ensures n.entries[k].id == k {
          if k != p.id { assert Get(n, k) == Get(reg, k); }
          else { assert Get(n, k) == Some(NewTask(p, now, rid)); }
        }
      }
    case StopEv(id) =>
      if id in reg.entries {
        var n := Stop(reg, id).next;
        forall k | k in n.entries ensures n.entries[k].id == k {
          assert Get(n, k) == Get(reg, k);
        }
      }
    case _ =>
  }

  /** Whatever the calls and callbacks, every entry stays stored under its own id. */
  lemma {:induction false} TraceKeepsIds(reg: Registry, es: seq<Event>)
    requires KeysMatchIds(reg)
    ensures KeysMatchIds(Trace(reg, es))
    decreases |es|
  {
    if |es| > 0 {
      ApplyKeepsIds(reg, es[0]);
      TraceKeepsIds(Apply(reg, es[0]).next, es[1..]);
    }
  }

  /** `start`, `pause` and `resume` only read the registry. */
  predicate ReadOnly(e: Event) {
    e.StartEv? || e.PauseEv? || e.ResumeEv?
  }

  /**
   * Only `add`, `stop` and the two listener callbacks change the registry:
   * any run of the other calls, however long, leaves it exactly as it was.
   */
  lemma {:induction false} ReadOnlyTraceKeepsRegistry(reg: Registry, es: seq<Event>)
    requires forall i :: 0 <= i < |es| ==> ReadOnly(es[i])
    ensures Trace(reg, es) == reg
    decreases |es|
  {
    if |es| > 0 {
      assert Apply(reg, es[0]).next == reg;
      ReadOnlyTraceKeepsRegistry(reg, es[1..]);
    }
  }
}
