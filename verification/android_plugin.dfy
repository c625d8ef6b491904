/**
 * The Android side of the native downloader (`NativeDownloaderPlugin`): a
 * task registry persisted as one JSON object, re-read at the start of every
 * call and written back after every change, and the rule that hands the
 * registered requests to the download library when it has nothing active.
 *
 * The registry is an insertion-ordered map (Gson reads a JSON object back
 * into an insertion-ordered map and writes it out in the same order). Each
 * bridge call and each listener callback is one pure step returning the new
 * registry and the effects it emits in order: the call's resolve or reject,
 * commands to the library and events to the bridge's listeners. The
 * library's answer to "which downloads are DOWNLOADING, QUEUED or ADDED" is
 * an input: the list of downloads it knows, with their statuses.
 */
module AndroidPlugin {
  import opened Common
  import opened OrderedMap
  import Fetch
  import Strings

  /** A registry entry (`NativeDownloadTask`); `index` is the time of its `add`, in milliseconds. */
  datatype Task = Task(
    id: string,
    url: string,
    size: int,
    filePath: string,
    fileName: string,
    displayName: string,
    headers: map<string, string>,
    request: Option<Fetch.Request>,
    index: int)

  /** The parameters of an `add` call. */
  datatype Params = Params(
    id: string,
    url: string,
    size: int,
    filePath: string,
    fileName: string,
    displayName: string,
    headers: map<string, string>)

  type Registry = OMap<string, Task>

  datatype Effect =
    | Resolve(task: Task)
    | Reject(message: string)
    | Enqueue(requests: seq<Fetch.Request>)
    | PauseDownload(requestId: int)
    | ResumeDownload(requestId: int)
    | RemoveDownload(requestId: int)
    | StatusNotice(downloadId: int, status: Fetch.Status)
    | CompleteNotice(downloadId: int, fileUrl: string)

  datatype Step = Step(next: Registry, effects: seq<Effect>)

  const SizeOver: string := "size over"

  /** Every entry is stored under its own id. */
  predicate KeysMatchIds(reg: Registry) {
    forall k :: k in reg.entries ==> reg.entries[k].id == k
  }

  // ---------------------------------------------------------------------
  // Free space

  const TwoTo63: int := 0x8000_0000_0000_0000

  predicate InLong(x: int) {
    -TwoTo63 <= x < TwoTo63
  }

  /** Two's-complement wrap-around of a 64-bit `Long`. */
  function ToLong(x: int): (r: int)
    ensures InLong(r)
    ensures InLong(x) ==> r == x
    ensures (r - x) % (2 * TwoTo63) == 0
  {
    (x + TwoTo63) % (2 * TwoTo63) - TwoTo63
  }

  /**
   * `getAvailableSize`: -1 without a path, otherwise the block size times the
   * number of available blocks, as a `Long` product (which wraps on overflow).
   */
  function AvailableSize(path: Option<string>, blockSize: int, availableBlocks: int): (r: int)
    requires InLong(blockSize) && InLong(availableBlocks)
    ensures path.None? ==> r == -1
    ensures path.Some? && InLong(blockSize * availableBlocks) ==> r == blockSize * availableBlocks
    ensures InLong(r)
  {
    if path.None? then -1 else ToLong(blockSize * availableBlocks)
  }

  // ---------------------------------------------------------------------
  // The order in which requests are enqueued

  predicate SortedByIndex(ts: seq<Task>) {
    forall i, j :: 0 <= i < j < |ts| ==> ts[i].index <= ts[j].index
  }

  /**
   * Inserting `t` into a `TreeMap` whose comparator answers "greater" when
   * the first index is larger and "less" otherwise, never "equal": `t` goes
   * after every entry with a smaller index and before all the others.
   */
  function Insert(t: Task, s: seq<Task>): (r: seq<Task>)
    ensures multiset(r) == multiset(s) + multiset{t}
    ensures |r| == |s| + 1
    ensures forall i :: 0 <= i < |r| ==> r[i] == t || r[i] in s
  {
    if |s| == 0 then [t]
    else if t.index > s[0].index then
      assert s == [s[0]] + s[1..];
      [s[0]] + Insert(t, s[1..])
    else [t] + s
  }

  /** A task no later than every task of a sorted sequence can go in front of it. */
  lemma SortedCons(x: Task, rest: seq<Task>)
    requires SortedByIndex(rest)
    requires forall j :: 0 <= j < |rest| ==> x.index <= rest[j].index
    ensures SortedByIndex([x] + rest)
  {
    var r := [x] + rest;
    forall i, j | 0 <= i < j < |r| ensures r[i].index <= r[j].index {
      assert r[j] == rest[j - 1];
      if i > 0 { assert r[i] == rest[i - 1]; }
    }
  }

  /** The tail of a sorted sequence is sorted and no earlier than its head. */
  lemma SortedTail(s: seq<Task>)
    requires |s| > 0 && SortedByIndex(s)
    ensures SortedByIndex(s[1..])
    ensures forall x :: x in s[1..] ==> s[0].index <= x.index
  {
    forall i, j | 0 <= i < j < |s[1..]| ensures s[1..][i].index <= s[1..][j].index {
      assert s[1..][i] == s[i + 1] && s[1..][j] == s[j + 1];
    }
    forall x | x in s[1..] ensures s[0].index <= x.index {
      var k :| 0 <= k < |s[1..]| && s[1..][k] == x;
      assert s[k + 1] == x;
    }
  }

  /** Insertion keeps the sequence sorted by index. */
  lemma {:induction false} InsertSorted(t: Task, s: seq<Task>)
    requires SortedByIndex(s)
    ensures SortedByIndex(Insert(t, s))
    decreases |s|
  {
    if |s| == 0 {
    } else if t.index > s[0].index {
      SortedTail(s);
      InsertSorted(t, s[1..]);
      var rest := Insert(t, s[1..]);
      assert forall j :: 0 <= j < |rest| ==> rest[j] == t || rest[j] in s[1..];
      SortedCons(s[0], rest);
    } else {
      SortedCons(t, s);
    }
  }

  /** `toSortedMap` over the registry's entries, inserted in iteration order. */
  function TreeOrder(ts: seq<Task>): (r: seq<Task>)
    ensures multiset(r) == multiset(ts)
    ensures SortedByIndex(r)
    decreases |ts|
  {
    if |ts| == 0 then []
    else
      assert ts == ts[..|ts| - 1] + [ts[|ts| - 1]];
      var rest := TreeOrder(ts[..|ts| - 1]);
      InsertSorted(ts[|ts| - 1], rest);
      Insert(ts[|ts| - 1], rest)
  }

  function RequestOf(t: Task): seq<Fetch.Request> {
    if t.request.Some? then [t.request.value] else []
  }

  /** `filterNotNull` over the tasks' requests, in order. */
  function Requests(ts: seq<Task>): (r: seq<Fetch.Request>)
    ensures |r| <= |ts|
  {
    if |ts| == 0 then [] else RequestOf(ts[0]) + Requests(ts[1..])
  }

  /** One of DOWNLOADING, QUEUED, ADDED: the statuses the plugin asks the library about. */
  predicate Active(d: Fetch.Download) {
    d.status in {Fetch.Downloading, Fetch.Queued, Fetch.Added}
  }

  /**
   * The re-enqueue rule: when the library reports nothing active and the
   * registry is not empty, every registered request is enqueued, in
   * ascending `index` order.
   */
  function EnqueueRule(reg: Registry, library: seq<Fetch.Download>): (r: Option<seq<Fetch.Request>>)
    ensures r.Some? <==> (forall i :: 0 <= i < |library| ==> !Active(library[i])) && |reg.entries| > 0
  {
    if (forall i :: 0 <= i < |library| ==> !Active(library[i])) && Size(reg) > 0 then
      Some(Requests(TreeOrder(Values(reg))))
    else None
  }

  function EnqueueEffects(reg: Registry, library: seq<Fetch.Download>): seq<Effect> {
    match EnqueueRule(reg, library)
    case Some(rs) => [Enqueue(rs)]
    case None => []
  }

  // ---------------------------------------------------------------------
  // Bridge calls

  /** The entry `add` builds: the path loses one leading "file://", the request targets that path. */
  function NewTask(p: Params, now: int, requestId: int): (t: Task)
    ensures t.id == p.id && t.index == now
    ensures t.filePath == Strings.RemovePrefix(p.filePath, Strings.Scheme)
    ensures t.request == Some(Fetch.Request(requestId, p.url, t.filePath, p.headers))
  {
    var path := Strings.RemovePrefix(p.filePath, Strings.Scheme);
    Task(p.id, p.url, p.size, path, p.fileName, p.displayName, p.headers,
         Some(Fetch.Request(requestId, p.url, path, p.headers)), now)
  }

  const TwoTo31: int := 0x8000_0000

  /** Whether a declared size fits the task record's 32-bit `Int` field. */
  predicate InInt(x: int) {
    -TwoTo31 <= x < TwoTo31
  }

  /**
   * `add`: stores the new entry under its id, replacing any entry with that
   * id. When the available size is below the declared size the call is
   * rejected, but the entry is stored and the call resolved all the same.
   * A declared size that does not fit an `Int` makes the JSON parse of the
   * parameters throw before anything is stored or resolved.
   */
  function Add(reg: Registry, p: Params, now: int, availableSize: int, requestId: int): (s: Step)
    ensures !InInt(p.size) ==> s == Step(reg, [])
    ensures InInt(p.size) ==> Get(s.next, p.id) == Some(NewTask(p, now, requestId))
    ensures InInt(p.size) ==> forall k :: k != p.id ==> Get(s.next, k) == Get(reg, k)
    ensures InInt(p.size) && p.id in reg.entries ==> s.next.keys == reg.keys
    ensures InInt(p.size) && p.id !in reg.entries ==> s.next.keys == reg.keys + [p.id]
    ensures InInt(p.size) ==>
      s.effects == (if availableSize < p.size then [Reject(SizeOver)] else []) + [Resolve(NewTask(p, now, requestId))]
  {
    if !InInt(p.size) then Step(reg, [])
    else
      var t := NewTask(p, now, requestId);
      Step(Put(reg, p.id, t), (if availableSize < p.size then [Reject(SizeOver)] else []) + [Resolve(t)])
  }

  /**
   * `start`: an unknown id returns without effect (the call is never
   * resolved). Otherwise the call resolves with the entry and, once the
   * library answers, the re-enqueue rule applies. The registry never changes.
   */
  function Start(reg: Registry, id: string, library: seq<Fetch.Download>): (s: Step)
    ensures s.next == reg
    ensures id !in reg.entries ==> s.effects == []
    ensures id in reg.entries ==> s.effects == [Resolve(reg.entries[id])] + EnqueueEffects(reg, library)
  {
    if id !in reg.entries then Step(reg, [])
    else Step(reg, [Resolve(reg.entries[id])] + EnqueueEffects(reg, library))
  }

  /** `pause`: asks the library to pause the entry's request, if it has one. The registry never changes. */
  function Pause(reg: Registry, id: string): (s: Step)
    ensures s.next == reg
    ensures id !in reg.entries ==> s.effects == []
    ensures id in reg.entries ==>
      s.effects == (match reg.entries[id].request
                    case Some(r) => [PauseDownload(r.id)]
                    case None => []) + [Resolve(reg.entries[id])]
  {
    if id !in reg.entries then Step(reg, [])
    else
      var t := reg.entries[id];
      var cmd := match t.request case Some(r) => [PauseDownload(r.id)] case None => [];
      Step(reg, cmd + [Resolve(t)])
  }

  /** `resume`: asks the library to resume the entry's request, if it has one. The registry never changes. */
  function Resume(reg: Registry, id: string): (s: Step)
    ensures s.next == reg
    ensures id !in reg.entries ==> s.effects == []
    ensures id in reg.entries ==>
      s.effects == (match reg.entries[id].request
                    case Some(r) => [ResumeDownload(r.id)]
                    case None => []) + [Resolve(reg.entries[id])]
  {
    if id !in reg.entries then Step(reg, [])
    else
      var t := reg.entries[id];
      var cmd := match t.request case Some(r) => [ResumeDownload(r.id)] case None => [];
      Step(reg, cmd + [Resolve(t)])
  }

  /**
   * `stop`: asks the library to remove the entry's request and deletes the
   * entry, looked up by `id` and removed by its own `id` field.
   */
  function Stop(reg: Registry, id: string): (s: Step)
    ensures id !in reg.entries ==> s == Step(reg, [])
    ensures id in reg.entries ==>
      var t := reg.entries[id];
      && s.next == Remove(reg, t.id)
      && s.effects == (match t.request
                       case Some(r) => [RemoveDownload(r.id)]
                       case None => []) + [Resolve(t)]
  {
    if id !in reg.entries then Step(reg, [])
    else
      var t := reg.entries[id];
      var cmd := match t.request case Some(r) => [RemoveDownload(r.id)] case None => [];
      Step(Remove(reg, t.id), cmd + [Resolve(t)])
  }

  // ---------------------------------------------------------------------
  // Library callbacks

  /** An entry belongs to the download when its request has the download's request id. */
  predicate BelongsTo(t: Task, d: Fetch.Download) {
    t.request.Some? && t.request.value.id == d.requestId
  }

  /** The registry without the entries that belong to `d`; entries without a request are kept. */
  function Without(reg: Registry, d: Fetch.Download): (r: Registry)
    ensures forall k :: Get(r, k) == if k in reg.entries && !BelongsTo(reg.entries[k], d) then Get(reg, k) else None
  {
    Filter(reg, t => !BelongsTo(t, d))
  }

  /** `onCancelled`: drops the download's entries and relays its status. */
  function OnCancelled(reg: Registry, d: Fetch.Download): (s: Step)
    ensures forall k :: k in s.next.entries <==> k in reg.entries && !BelongsTo(reg.entries[k], d)
    ensures forall k :: k in s.next.entries ==> s.next.entries[k] == reg.entries[k]
    ensures s.effects == [StatusNotice(d.id, d.status)]
  {
    var r := Without(reg, d);
    assert forall k :: k in r.entries <==> Get(r, k).Some?;
    Step(r, [StatusNotice(d.id, d.status)])
  }

  /**
   * `onCompleted`: drops the download's entries, relays the completion and,
   * once the library answers, applies the re-enqueue rule to what is left.
   */
  function OnCompleted(reg: Registry, d: Fetch.Download, library: seq<Fetch.Download>): (s: Step)
    ensures forall k :: k in s.next.entries <==> k in reg.entries && !BelongsTo(reg.entries[k], d)
    ensures forall k :: k in s.next.entries ==> s.next.entries[k] == reg.entries[k]
    ensures s.effects == [CompleteNotice(d.id, d.url)] + EnqueueEffects(s.next, library)
  {
    var r := Without(reg, d);
    assert forall k :: k in r.entries <==> Get(r, k).Some?;
    Step(r, [CompleteNotice(d.id, d.url)] + EnqueueEffects(r, library))
  }
}
