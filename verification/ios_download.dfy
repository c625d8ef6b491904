/**
 * The iOS task registry of the native downloader (`NativeDownload`): a
 * dictionary from task id to task, each task with a six-valued status and an
 * optional transport request, plus the persisted list of file URLs whose
 * download has been started but not yet finished.
 *
 * Every operation and every transport callback is one atomic step
 * (the source serialises them with one lock) and is modelled as a pure
 * function from the downloader to a `Step`: the next downloader and the
 * effects the step emits, in order (status callbacks to the bridge and
 * commands to the transport). The free-space query, the transport's new
 * request handle and the dictionary's iteration order are inputs.
 */
module IosDownload {
  import opened Common
  import Strings

  datatype Status = Waiting | Processing | Paused | Canceled | Complete | Failed

  /** Opaque reference to one transport request. */
  type Handle = nat

  datatype Task = Task(
    id: string,
    url: string,
    headers: map<string, string>,
    size: int,
    filePath: string,
    fileName: string,
    request: Option<Handle>,
    status: Status)

  /** What the bridge hands to `add`. */
  datatype Descriptor = Descriptor(
    id: string,
    url: string,
    headers: map<string, string>,
    size: int,
    filePath: string,
    fileName: string)

  /**
   * `home` is the application's home directory; `downloadingFileUrls` is the
   * list kept in the user defaults.
   */
  datatype Downloader = Downloader(
    home: string,
    tasks: map<string, Task>,
    downloadingFileUrls: seq<string>)

  /** The transport's final response: without or with an error. */
  datatype Response = Succeeded | Errored

  datatype Effect =
    | StatusChanged(id: string, status: Status)
    | ProgressReported(id: string, fraction: real)
    | Completed(id: string, fileUrl: string, fileName: string)
    | FailedWith(id: string, message: string)
    | Begin(request: Handle, url: string, headers: map<string, string>, fileUrl: string)
    | Suspend(request: Handle)
    | ResumeRequest(request: Handle)
    | CancelRequest(request: Handle)
    | RemoveFile(fileUrl: string)

  datatype Step = Step(next: Downloader, effects: seq<Effect>)

  const MsgDownloadFailed: string := "データのダウンロードに失敗しました"
  const MsgCapacityLack: string := "端末の容量が不足しているため、ダウンロードできませんでした"

  function NewTask(x: Descriptor): Task {
    Task(x.id, x.url, x.headers, x.size, x.filePath, x.fileName, None, Waiting)
  }

  // ---------------------------------------------------------------------
  // Invariant

  /** A task's request is absent while it waits and present once it has run. */
  predicate RequestMatchesStatus(t: Task) {
    && (t.status == Waiting ==> t.request.None?)
    && (t.status in {Processing, Paused, Canceled} ==> t.request.Some?)
  }

  /**
   * Every task is stored under its own id, with no request while Waiting and
   * a request while Processing, Paused or Canceled; a Complete or Failed
   * task may have either.
   */
  predicate Valid(d: Downloader) {
    forall k :: k in d.tasks ==> d.tasks[k].id == k && RequestMatchesStatus(d.tasks[k])
  }

  /** A fresh downloader: no tasks yet, and the list left in the user defaults by earlier runs. */
  function Init(home: string, persisted: seq<string>): (d: Downloader)
    ensures Valid(d) && d.tasks == map[] && d.downloadingFileUrls == persisted && d.home == home
  {
    Downloader(home, map[], persisted)
  }

  // ---------------------------------------------------------------------
  // Pure helpers

  /** The destination of a task: under the home directory's Documents, with every "file://" deleted. */
  function GenerateFileUrl(home: string, filePath: string, fileName: string): (r: string)
    ensures |r| <= |home| + |"/Documents"| + |filePath| + 1 + |fileName|
  {
    Strings.RemoveAll(home + "/Documents" + filePath + "/" + fileName, Strings.Scheme)
  }

  /** The documents directory of a colon-free home is a safe cut for the scheme. */
  lemma DocumentsSafe(home: string)
    requires Strings.Lacks(home, ':')
    ensures Strings.SafeCut(home + "/Documents")
  {
    var a := home + "/Documents";
    assert a[|a| - 1] == 's';
    forall i | 0 <= i < |a| ensures a[i] != ':' {
      if i >= |home| {
        assert a[i] == "/Documents"[i - |home|];
      }
    }
  }

  /** Joining colon-free parts with "/" gives a colon-free string. */
  lemma JoinLacks(path: string, fileName: string)
    requires Strings.Lacks(path, ':') && Strings.Lacks(fileName, ':')
    ensures Strings.Lacks(path + "/" + fileName, ':')
  {
    var tail := path + "/" + fileName;
    forall i | 0 <= i < |tail| ensures tail[i] != ':' {
      if i < |path| {
        assert tail[i] == path[i];
      } else if i > |path| {
        assert tail[i] == fileName[i - |path| - 1];
      }
    }
  }

  lemma Regroup(a: string, b: string, p: string, c: string, d: string)
    ensures a + b + (p + c) + "/" + d == (a + b) + (p + (c + "/" + d))
    ensures a + b + c + "/" + d == (a + b) + (c + "/" + d)
  {
  }

  /** With colon-free parts, the destination is the plain concatenation, whether or not the path carries the scheme. */
  lemma GenerateFileUrlStripsScheme(home: string, path: string, fileName: string)
    requires Strings.Lacks(home, ':') && Strings.Lacks(path, ':') && Strings.Lacks(fileName, ':')
    ensures GenerateFileUrl(home, Strings.Scheme + path, fileName) == home + "/Documents" + path + "/" + fileName
    ensures GenerateFileUrl(home, path, fileName) == home + "/Documents" + path + "/" + fileName
  {
    var a := home + "/Documents";
    var tail := path + "/" + fileName;
    DocumentsSafe(home);
    JoinLacks(path, fileName);
    Strings.RemoveAllIdentity(tail, Strings.Scheme, ':');
    Strings.RemoveAllLeading(tail);
    Strings.RemoveAllAppend(a, Strings.Scheme + tail);
    Strings.RemoveAllAppend(a, tail);
    Regroup(home, "/Documents", Strings.Scheme, path, fileName);
  }

  /** Free space is known and strictly larger than the declared size. */
  predicate Admits(freeSize: Option<int>, size: int) {
    freeSize.Some? && freeSize.value > size
  }

  /** `setDownloaded`: deletes the first entry equal to `u`, if any. */
  function RemoveFirst(l: seq<string>, u: string): (r: seq<string>)
    ensures u !in l ==> r == l
    ensures u in l ==> |r| == |l| - 1
    ensures multiset(r) == multiset(l) - multiset{u}
  {
    if |l| == 0 then []
    else
      assert l == [l[0]] + l[1..];
      if l[0] == u then l[1..]
      else [l[0]] + RemoveFirst(l[1..], u)
  }

  /** How the slices of `l` relate to the slices of its tail. */
  lemma SliceShift<T>(l: seq<T>, i: nat)
    requires 0 < i < |l|
    ensures l[1..][..i - 1] == l[1..i] && l[1..][i..] == l[i + 1..]
    ensures l[..i] == [l[0]] + l[1..i]
    ensures l[..i] + l[i + 1..] == [l[0]] + (l[1..i] + l[i + 1..])
  {
  }

  /** Exactly the first matching entry goes; the others keep their order. */
  lemma {:induction false} RemoveFirstSplit(l: seq<string>, u: string, i: nat)
    requires i < |l| && l[i] == u && u !in l[..i]
    ensures RemoveFirst(l, u) == l[..i] + l[i + 1..]
  {
    if i == 0 {
      assert l[..0] + l[1..] == l[1..];
    } else {
      SliceShift(l, i);
      assert l[0] in l[..i];
      assert l[1..][i - 1] == u;
      RemoveFirstSplit(l[1..], u, i - 1);
    }
  }

  /** Appending a URL on admission and deleting it on success restores the list. */
  lemma {:induction false} RemoveFirstAppended(l: seq<string>, u: string)
    requires u !in l
    ensures RemoveFirst(l + [u], u) == l
  {
    assert (l + [u])[..|l|] == l;
    RemoveFirstSplit(l + [u], u, |l|);
    assert (l + [u])[|l| + 1..] == [];
  }

  /**
   * The Waiting task the completion handler runs next: the first key, in the
   * dictionary's iteration order `order`, whose task is Waiting.
   */
  function NextWaiting(tasks: map<string, Task>, order: seq<string>): (r: Option<string>)
    ensures r.Some? ==> r.value in tasks && tasks[r.value].status == Waiting && r.value in order
    ensures r.None? ==> forall k :: k in order && k in tasks ==> tasks[k].status != Waiting
    ensures r.Some? ==>
      exists i :: 0 <= i < |order| && order[i] == r.value &&
        (forall j :: 0 <= j < i ==> !(order[j] in tasks && tasks[order[j]].status == Waiting))
  {
    if |order| == 0 then None
    else if order[0] in tasks && tasks[order[0]].status == Waiting then Some(order[0])
    else NextWaiting(tasks, order[1..])
  }

  // ---------------------------------------------------------------------
  // Operations

  function Get(d: Downloader, id: string): (r: Option<Task>)
    ensures r.Some? <==> id in d.tasks
    ensures r.Some? ==> r.value == d.tasks[id]
  {
    if id in d.tasks then Some(d.tasks[id]) else None
  }

  /** `clean`: asks to delete every file still listed as downloading and empties the list. */
  function Clean(d: Downloader): (s: Step)
    ensures s.next.downloadingFileUrls == []
    ensures s.next.tasks == d.tasks && s.next.home == d.home
    ensures |s.effects| == |d.downloadingFileUrls|
    ensures forall i :: 0 <= i < |s.effects| ==> s.effects[i] == RemoveFile(d.downloadingFileUrls[i])
  {
    var urls := d.downloadingFileUrls;
    Step(d.(downloadingFileUrls := []), seq(|urls|, i requires 0 <= i < |urls| => RemoveFile(urls[i])))
  }

  /** `add`: a known id is ignored; a fresh one is registered as Waiting and reported. */
  function Add(d: Downloader, x: Descriptor): (s: Step)
    ensures x.id in d.tasks ==> s == Step(d, [])
    ensures x.id !in d.tasks ==>
      && s.next.tasks == d.tasks[x.id := NewTask(x)]
      && s.next.downloadingFileUrls == d.downloadingFileUrls
      && s.next.home == d.home
      && s.effects == [StatusChanged(x.id, Waiting)]
  {
    if x.id in d.tasks then Step(d, [])
    else Step(d.(tasks := d.tasks[x.id := NewTask(x)]), [StatusChanged(x.id, Waiting)])
  }

  /** `setFailed`: an unknown id is a no-op; otherwise the task becomes Failed and both callbacks fire. */
  function SetFailed(d: Downloader, id: string, message: string): (s: Step)
    ensures id !in d.tasks ==> s == Step(d, [])
    ensures id in d.tasks ==>
      && s.next == d.(tasks := d.tasks[id := d.tasks[id].(status := Failed)])
      && s.effects == [StatusChanged(id, Failed), FailedWith(id, message)]
  {
    if id !in d.tasks then Step(d, [])
    else
      var t := d.tasks[id];
      Step(d.(tasks := d.tasks[id := t.(status := Failed)]), [StatusChanged(id, Failed), FailedWith(id, message)])
  }

  /** `setComplete`: an unknown id is a no-op; otherwise the task becomes Complete and both callbacks fire. */
  function SetComplete(d: Downloader, id: string, fileUrl: string): (s: Step)
    ensures id !in d.tasks ==> s == Step(d, [])
    ensures id in d.tasks ==>
      && s.next == d.(tasks := d.tasks[id := d.tasks[id].(status := Complete)])
      && s.effects == [StatusChanged(id, Complete), Completed(id, fileUrl, d.tasks[id].fileName)]
  {
    if id !in d.tasks then Step(d, [])
    else
      var t := d.tasks[id];
      Step(d.(tasks := d.tasks[id := t.(status := Complete)]),
           [StatusChanged(id, Complete), Completed(id, fileUrl, t.fileName)])
  }

  /** `setProgress`: relays the fraction for a known id and never touches the downloader. */
  function SetProgress(d: Downloader, id: string, fraction: real): (s: Step)
    ensures s.next == d
    ensures s.effects == if id in d.tasks then [ProgressReported(id, fraction)] else []
  {
    if id in d.tasks then Step(d, [ProgressReported(id, fraction)]) else Step(d, [])
  }

  /**
   * `run`: the admission check, then the start of the transfer. Admission
   * fails when free space is unknown or not strictly above the declared size;
   * the task then becomes Failed with the capacity message and keeps whatever
   * request it had. Otherwise the task becomes Processing, its destination is
   * appended to the downloading list and a new request `h` is attached.
   */
  function Run(d: Downloader, id: string, freeSize: Option<int>, h: Handle): (s: Step)
    requires id in d.tasks
    ensures s.next.home == d.home && id in s.next.tasks
    ensures forall k :: k != id ==> Get(s.next, k) == Get(d, k)
    ensures !Admits(freeSize, d.tasks[id].size) ==>
      && s.next.tasks[id] == d.tasks[id].(status := Failed)
      && s.next.downloadingFileUrls == d.downloadingFileUrls
      && s.effects == [StatusChanged(id, Failed), FailedWith(id, MsgCapacityLack)]
    ensures Admits(freeSize, d.tasks[id].size) ==>
      var t := d.tasks[id];
      var u := GenerateFileUrl(d.home, t.filePath, t.fileName);
      && s.next.tasks[id] == t.(status := Processing, request := Some(h))
      && s.next.downloadingFileUrls == d.downloadingFileUrls + [u]
      && s.effects == [StatusChanged(id, Processing), Begin(h, t.url, t.headers, u)]
  {
    var t := d.tasks[id];
    if !Admits(freeSize, t.size) then SetFailed(d, id, MsgCapacityLack)
    else
      var u := GenerateFileUrl(d.home, t.filePath, t.fileName);
      Step(d.(tasks := d.tasks[id := t.(status := Processing, request := Some(h))],
              downloadingFileUrls := d.downloadingFileUrls + [u]),
           [StatusChanged(id, Processing), Begin(h, t.url, t.headers, u)])
  }

  /** `start`: an unknown id changes nothing; a known one is run whatever its current status. */
  function Start(d: Downloader, id: string, freeSize: Option<int>, h: Handle): (s: Step)
    ensures id !in d.tasks ==> s == Step(d, [])
    ensures id in d.tasks ==> s == Run(d, id, freeSize, h)
  {
    if id !in d.tasks then Step(d, []) else Run(d, id, freeSize, h)
  }

  /** `pause`: only a Processing task with a request is suspended and becomes Paused. */
  function Pause(d: Downloader, id: string): (s: Step)
    ensures !(id in d.tasks && d.tasks[id].request.Some? && d.tasks[id].status == Processing) ==> s == Step(d, [])
    ensures id in d.tasks && d.tasks[id].request.Some? && d.tasks[id].status == Processing ==>
      && s.next == d.(tasks := d.tasks[id := d.tasks[id].(status := Paused)])
      && s.effects == [Suspend(d.tasks[id].request.value), StatusChanged(id, Paused)]
  {
    if id in d.tasks && d.tasks[id].request.Some? && d.tasks[id].status == Processing then
      var t := d.tasks[id];
      Step(d.(tasks := d.tasks[id := t.(status := Paused)]), [Suspend(t.request.value), StatusChanged(id, Paused)])
    else Step(d, [])
  }

  /** `resume`: only a Paused task with a request is resumed and becomes Processing. */
  function Resume(d: Downloader, id: string): (s: Step)
    ensures !(id in d.tasks && d.tasks[id].request.Some? && d.tasks[id].status == Paused) ==> s == Step(d, [])
    ensures id in d.tasks && d.tasks[id].request.Some? && d.tasks[id].status == Paused ==>
      && s.next == d.(tasks := d.tasks[id := d.tasks[id].(status := Processing)])
      && s.effects == [ResumeRequest(d.tasks[id].request.value), StatusChanged(id, Processing)]
  {
    if id in d.tasks && d.tasks[id].request.Some? && d.tasks[id].status == Paused then
      var t := d.tasks[id];
      Step(d.(tasks := d.tasks[id := t.(status := Processing)]), [ResumeRequest(t.request.value), StatusChanged(id, Processing)])
    else Step(d, [])
  }

  predicate Cancellable(t: Task) {
    t.request.Some? && t.status in {Waiting, Processing, Paused}
  }

  /** `cancel`: a live task with a request is cancelled and stays in the registry as Canceled. */
  function Cancel(d: Downloader, id: string): (s: Step)
    ensures !(id in d.tasks && Cancellable(d.tasks[id])) ==> s == Step(d, [])
    ensures id in d.tasks && Cancellable(d.tasks[id]) ==>
      && s.next == d.(tasks := d.tasks[id := d.tasks[id].(status := Canceled)])
      && s.effects == [CancelRequest(d.tasks[id].request.value), StatusChanged(id, Canceled)]
  {
    if id in d.tasks && Cancellable(d.tasks[id]) then
      var t := d.tasks[id];
      Step(d.(tasks := d.tasks[id := t.(status := Canceled)]), [CancelRequest(t.request.value), StatusChanged(id, Canceled)])
    else Step(d, [])
  }

  /**
   * The first half of the response handler `run` installs for task `id`
   * with destination `fileUrl`: an error marks the task Failed; success marks
   * it Complete and deletes the destination from the downloading list
   * (whether or not the task is still registered). Neither checks the task's
   * current status.
   */
  function Settle(d: Downloader, id: string, fileUrl: string, response: Response): (s: Step)
    ensures s.next.home == d.home && s.next.tasks.Keys == d.tasks.Keys
    ensures forall k :: k != id ==> Get(s.next, k) == Get(d, k)
    ensures id in d.tasks ==>
      s.next.tasks[id] == d.tasks[id].(status := if response == Errored then Failed else Complete)
    ensures s.next.downloadingFileUrls ==
      if response == Errored then d.downloadingFileUrls else RemoveFirst(d.downloadingFileUrls, fileUrl)
    ensures id !in d.tasks ==> s.effects == []
    ensures id in d.tasks && response == Errored ==>
      s.effects == [StatusChanged(id, Failed), FailedWith(id, MsgDownloadFailed)]
    ensures id in d.tasks && response == Succeeded ==>
      s.effects == [StatusChanged(id, Complete), Completed(id, fileUrl, d.tasks[id].fileName)]
  {
    if response == Errored then
      var f := SetFailed(d, id, MsgDownloadFailed);
      assert f.next.tasks.Keys == d.tasks.Keys;
      f
    else
      var c := SetComplete(d, id, fileUrl);
      assert c.next.tasks.Keys == d.tasks.Keys;
      Step(c.next.(downloadingFileUrls := RemoveFirst(c.next.downloadingFileUrls, fileUrl)), c.effects)
  }

  /**
   * The second half of the handler: the first Waiting task in the
   * dictionary's iteration order `order` is run, with its own free-space
   * answer `freeSize` and request `h`.
   */
  function RunNextWaiting(first: Step, order: seq<string>, freeSize: Option<int>, h: Handle): (s: Step)
    ensures s.next.home == first.next.home && s.next.tasks.Keys == first.next.tasks.Keys
    ensures |first.effects| <= |s.effects| && s.effects[..|first.effects|] == first.effects
    ensures NextWaiting(first.next.tasks, order).None? ==> s == first
    ensures NextWaiting(first.next.tasks, order).Some? ==>
      var w := NextWaiting(first.next.tasks, order).value;
      var r := Run(first.next, w, freeSize, h);
      s == Step(r.next, first.effects + r.effects)
  {
    match NextWaiting(first.next.tasks, order)
    case None => first
    case Some(w) =>
      var second := Run(first.next, w, freeSize, h);
      assert second.next.tasks.Keys == first.next.tasks.Keys by {
        forall k ensures k in second.next.tasks <==> k in first.next.tasks {
          if k != w { assert Get(second.next, k) == Get(first.next, k); }
        }
      }
      assert (first.effects + second.effects)[..|first.effects|] == first.effects;
      Step(second.next, first.effects + second.effects)
  }

  /** The whole response handler: settle the task, then run the next Waiting one. */
  function OnResponse(d: Downloader, id: string, fileUrl: string, response: Response,
                      order: seq<string>, freeSize: Option<int>, h: Handle): (s: Step)
  {
    RunNextWaiting(Settle(d, id, fileUrl, response), order, freeSize, h)
  }

  // ---------------------------------------------------------------------
  // Events and traces

  datatype Event =
    | AddEv(x: Descriptor)
    | StartEv(id: string, freeSize: Option<int>, h: Handle)
    | PauseEv(id: string)
    | ResumeEv(id: string)
    | CancelEv(id: string)
    | CleanEv
    | ProgressEv(id: string, fraction: real)
    | ResponseEv(id: string, fileUrl: string, response: Response, order: seq<string>, freeSize: Option<int>, h: Handle)

  function Apply(d: Downloader, e: Event): Step {
    match e
    case AddEv(x) => Add(d, x)
    case StartEv(id, f, h) => Start(d, id, f, h)
    case PauseEv(id) => Pause(d, id)
    case ResumeEv(id) => Resume(d, id)
    case CancelEv(id) => Cancel(d, id)
    case CleanEv => Clean(d)
    case ProgressEv(id, p) => SetProgress(d, id, p)
    case ResponseEv(id, u, r, o, f, h) => OnResponse(d, id, u, r, o, f, h)
  }

  /** The downloader after a sequence of events. */
  function Trace(d: Downloader, es: seq<Event>): Downloader
    decreases |es|
  {
    if |es| == 0 then d else Trace(Apply(d, es[0]).next, es[1..])
  }
}
