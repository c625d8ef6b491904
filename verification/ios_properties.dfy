/** Properties of the iOS downloader, stated over the transition functions of `IosDownload`. */
module IosProperties {
  import opened Common
  import opened IosDownload

  /** Every operation and every transport callback preserves the registry invariant. */
  lemma ApplyPreservesValid(d: Downloader, e: Event)
    requires Valid(d)
    ensures Valid(Apply(d, e).next)
  {
    match e
    case StartEv(id, f, h) =>
      if id in d.tasks { RunPreservesValid(d, id, f, h); }
    case ResponseEv(id, u, r, o, f, h) =>
      ResponsePreservesValid(d, id, u, r, o, f, h);
    case _ =>
  }

  lemma RunPreservesValid(d: Downloader, id: string, freeSize: Option<int>, h: Handle)
    requires Valid(d) && id in d.tasks
    ensures Valid(Run(d, id, freeSize, h).next)
  {
    var s := Run(d, id, freeSize, h);
    forall k | k in s.next.tasks
      ensures s.next.tasks[k].id == k && RequestMatchesStatus(s.next.tasks[k])
    {
      if k != id {
        assert Get(s.next, k) == Get(d, k);
      }
    }
  }

  lemma ResponsePreservesValid(d: Downloader, id: string, fileUrl: string, response: Response,
                               order: seq<string>, freeSize: Option<int>, h: Handle)
    requires Valid(d)
    ensures Valid(OnResponse(d, id, fileUrl, response, order, freeSize, h).next)
  {
    var first := Settle(d, id, fileUrl, response);
    assert Valid(first.next) by {
      forall k | k in first.next.tasks ensures first.next.tasks[k].id == k && RequestMatchesStatus(first.next.tasks[k]) {
        if k != id { assert Get(first.next, k) == Get(d, k); }
      }
    }
    match NextWaiting(first.next.tasks, order)
    case None =>
    case Some(w) => RunPreservesValid(first.next, w, freeSize, h);
  }

  /** The invariant holds after any sequence of operations and callbacks. */
  lemma {:induction false} TracePreservesValid(d: Downloader, es: seq<Event>)
    requires Valid(d)
    ensures Valid(Trace(d, es))
    decreases |es|
  {
    if |es| > 0 {
      ApplyPreservesValid(d, es[0]);
      TracePreservesValid(Apply(d, es[0]).next, es[1..]);
    }
  }

  /** Adding the same descriptor twice is the same as adding it once, and the second add is silent. */
  lemma AddIdempotent(d: Downloader, x: Descriptor)
    ensures Add(Add(d, x).next, x) == Step(Add(d, x).next, [])
  {
  }

  /** Pausing a Processing task and resuming it gives back the same downloader. */
  lemma PauseThenResume(d: Downloader, id: string)
    requires Valid(d) && id in d.tasks && d.tasks[id].status == Processing
    ensures Resume(Pause(d, id).next, id).next == d
    ensures Pause(d, id).effects + Resume(Pause(d, id).next, id).effects ==
      [Suspend(d.tasks[id].request.value), StatusChanged(id, Paused),
       ResumeRequest(d.tasks[id].request.value), StatusChanged(id, Processing)]
  {
    var p := Pause(d, id).next;
    assert p.tasks[id := p.tasks[id].(status := Processing)] == d.tasks;
  }

  /** Resuming a Paused task and pausing it again gives back the same downloader. */
  lemma ResumeThenPause(d: Downloader, id: string)
    requires Valid(d) && id in d.tasks && d.tasks[id].status == Paused
    ensures Pause(Resume(d, id).next, id).next == d
  {
    var p := Resume(d, id).next;
    assert p.tasks[id := p.tasks[id].(status := Paused)] == d.tasks;
  }

  /** A cancelled task stays registered; cancelling it again does nothing. */
  lemma CancelKeepsTask(d: Downloader, id: string)
    requires id in d.tasks
    ensures id in Cancel(d, id).next.tasks
    ensures Cancel(Cancel(d, id).next, id) == Step(Cancel(d, id).next, [])
  {
  }

  /** A Waiting task never holds a request, so `cancel` cannot reach it. */
  lemma CancelWaitingIsNoop(d: Downloader, id: string)
    requires Valid(d) && id in d.tasks && d.tasks[id].status == Waiting
    ensures Cancel(d, id) == Step(d, [])
  {
    assert RequestMatchesStatus(d.tasks[id]);
  }

  /**
   * The response handler ignores the task's current status: whatever it was
   * (Canceled included), an error leaves it Failed and success Complete. Its
   * destination goes from the list only on success; afterwards at most one
   * more destination, the next task's, is appended.
   */
  lemma ResponseOverridesStatus(d: Downloader, id: string, fileUrl: string, response: Response,
                                order: seq<string>, freeSize: Option<int>, h: Handle)
    requires id in d.tasks
    ensures var s := OnResponse(d, id, fileUrl, response, order, freeSize, h);
      && id in s.next.tasks
      && s.next.tasks[id].status == (if response == Errored then Failed else Complete)
      && s.next.tasks[id].request == d.tasks[id].request
      && var kept := if response == Errored then d.downloadingFileUrls
                     else RemoveFirst(d.downloadingFileUrls, fileUrl);
         exists extra :: |extra| <= 1 && s.next.downloadingFileUrls == kept + extra
  {
    var s := OnResponse(d, id, fileUrl, response, order, freeSize, h);
    var first := Settle(d, id, fileUrl, response);
    var kept := if response == Errored then d.downloadingFileUrls
                else RemoveFirst(d.downloadingFileUrls, fileUrl);
    assert first.next.downloadingFileUrls == kept;
    match NextWaiting(first.next.tasks, order)
    case None =>
      assert s.next.downloadingFileUrls == kept + [];
    case Some(w) =>
      assert w != id;
      var r := Run(first.next, w, freeSize, h);
      assert Get(r.next, id) == Get(first.next, id);
      if Admits(freeSize, first.next.tasks[w].size) {
        var t := first.next.tasks[w];
        assert s.next.downloadingFileUrls == kept + [GenerateFileUrl(d.home, t.filePath, t.fileName)];
      } else {
        assert s.next.downloadingFileUrls == kept + [];
      }
  }

  /** Cancelling a transfer and then receiving its error response leaves the task Failed, not Canceled. */
  lemma CancelThenErrorFails(d: Downloader, id: string, fileUrl: string, order: seq<string>,
                             freeSize: Option<int>, h: Handle)
    requires Valid(d) && id in d.tasks && d.tasks[id].status == Processing
    ensures Cancel(d, id).next.tasks[id].status == Canceled
    ensures OnResponse(Cancel(d, id).next, id, fileUrl, Errored, order, freeSize, h).next.tasks[id].status == Failed
  {
    var c := Cancel(d, id).next;
    ResponseOverridesStatus(c, id, fileUrl, Errored, order, freeSize, h);
  }

  /**
   * When the iteration order covers the registry and some other task is
   * Waiting, the response handler runs one of the Waiting tasks: it becomes
   * Processing when admitted and Failed otherwise.
   */
  lemma ResponseRunsAWaitingTask(d: Downloader, id: string, fileUrl: string, response: Response,
                                 order: seq<string>, freeSize: Option<int>, h: Handle, other: string)
    requires other != id && other in d.tasks && d.tasks[other].status == Waiting
    requires forall k :: k in d.tasks ==> k in order
    ensures var s := OnResponse(d, id, fileUrl, response, order, freeSize, h);
      exists w :: w in d.tasks && w != id && d.tasks[w].status == Waiting && w in s.next.tasks &&
        s.next.tasks[w].status == (if Admits(freeSize, d.tasks[w].size) then Processing else Failed)
  {
    var first := Settle(d, id, fileUrl, response);
    assert Get(first.next, other) == Get(d, other);
    var n := NextWaiting(first.next.tasks, order);
    assert n.Some?;
    var w := n.value;
    assert id in first.next.tasks ==> first.next.tasks[id].status != Waiting;
    assert w != id;
    assert Get(first.next, w) == Get(d, w);
    var r := Run(first.next, w, freeSize, h);
    assert OnResponse(d, id, fileUrl, response, order, freeSize, h).next == r.next;
  }

  /** Without any Waiting task in the registry, the response handler starts nothing. */
  lemma ResponseWithoutWaitingStartsNothing(d: Downloader, id: string, fileUrl: string, response: Response,
                                            order: seq<string>, freeSize: Option<int>, h: Handle)
    requires forall k :: k in d.tasks ==> d.tasks[k].status != Waiting
    ensures OnResponse(d, id, fileUrl, response, order, freeSize, h) == Settle(d, id, fileUrl, response)
  {
    var first := Settle(d, id, fileUrl, response);
    forall k | k in first.next.tasks ensures first.next.tasks[k].status != Waiting {
      if k != id { assert Get(first.next, k) == Get(d, k); }
    }
    assert NextWaiting(first.next.tasks, order).None?;
  }

  /** `start` does not check for a transfer in flight: two tasks can be Processing at once. */
  lemma StartIsNotSingleFlight(d: Downloader, a: string, b: string, freeSize: Option<int>, h: Handle)
    requires a != b && a in d.tasks && b in d.tasks
    requires d.tasks[a].status == Processing && d.tasks[b].status == Waiting
    requires Admits(freeSize, d.tasks[b].size)
    ensures var n := Start(d, b, freeSize, h).next;
      n.tasks[a].status == Processing && n.tasks[b].status == Processing
  {
    var n := Start(d, b, freeSize, h).next;
    assert Get(n, a) == Get(d, a);
  }

  /** A successful run followed by a successful response takes the destination back out of the list. */
  lemma RunThenSuccessRestoresList(d: Downloader, id: string, freeSize: Option<int>, h: Handle, order: seq<string>, h2: Handle)
    requires id in d.tasks && Admits(freeSize, d.tasks[id].size)
    requires forall k :: k in d.tasks ==> d.tasks[k].status != Waiting
    requires GenerateFileUrl(d.home, d.tasks[id].filePath, d.tasks[id].fileName) !in d.downloadingFileUrls
    ensures var t := d.tasks[id];
      var u := GenerateFileUrl(d.home, t.filePath, t.fileName);
      var r := Start(d, id, freeSize, h).next;
      OnResponse(r, id, u, Succeeded, order, freeSize, h2).next.downloadingFileUrls == d.downloadingFileUrls
  {
    var t := d.tasks[id];
    var u := GenerateFileUrl(d.home, t.filePath, t.fileName);
    var r := Start(d, id, freeSize, h).next;
    assert forall k :: k in r.tasks ==> r.tasks[k].status != Waiting by {
      forall k | k in r.tasks ensures r.tasks[k].status != Waiting {
        if k != id { assert Get(r, k) == Get(d, k); }
      }
    }
    ResponseWithoutWaitingStartsNothing(r, id, u, Succeeded, order, freeSize, h2);
    RemoveFirstAppended(d.downloadingFileUrls, u);
  }
}
