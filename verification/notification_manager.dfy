/**
 * The Android notification bookkeeping (`NativeDownloadFetchNotificationManager`):
 * a map from notification id to the last known state of a download, a map of
 * notification builders, and the set of notification ids that must not be
 * updated again. Every call of the OS notification manager (post or cancel
 * a notification) is appended to `log`; what a posted notification shows is
 * recorded as a `View`.
 *
 * Flags the library derives from a notification's status (failed, completed,
 * paused, queued, downloading, cancelled, on-going) are written out here;
 * the notification title and the indeterminate-progress flag come from the
 * library and are inputs.
 */
module NotificationManager {
  import opened Common
  import opened OrderedMap
  import Fetch

  const SilentChannelId: string := "1900009"
  const LoudChannelId: string := "1900099"

  /** Above this many tracked notifications, `postDownloadUpdate` forgets them all. */
  const MaxTracked: int := 50

  /** A `DownloadNotification` as `postDownloadUpdate` fills it in. */
  datatype Notification = Notification(
    status: Fetch.Status,
    progress: int,
    notificationId: int,
    groupId: int,
    etaInMilliSeconds: int,
    downloadedBytesPerSecond: int,
    total: int,
    downloaded: int,
    namespace: string,
    title: string,
    progressIndeterminate: bool)

  predicate IsFailed(n: Notification) { n.status == Fetch.Failed }
  predicate IsCompleted(n: Notification) { n.status == Fetch.Completed }
  predicate IsPaused(n: Notification) { n.status == Fetch.Paused }
  predicate IsQueued(n: Notification) { n.status == Fetch.Queued }
  predicate IsDownloading(n: Notification) { n.status == Fetch.Downloading }
  predicate IsCancelledNotification(n: Notification) {
    n.status in {Fetch.Cancelled, Fetch.Removed, Fetch.Deleted}
  }
  predicate IsOnGoingNotification(n: Notification) {
    n.status in {Fetch.Queued, Fetch.Downloading}
  }

  /** Failed or completed: the notifications that are posted once more and then left alone. */
  predicate Terminal(n: Notification) { IsFailed(n) || IsCompleted(n) }

  // ---------------------------------------------------------------------
  // What a posted notification shows

  /** The notification action types of the library. */
  datatype ActionType =
    | Pause | Resume | Delete | Cancel | Retry
    | PauseAll | ResumeAll | DeleteAll | CancelAll | RetryAll

  /** The action codes carried by the broadcast intents. */
  datatype IntentAction =
    | ActionPause | ActionResume | ActionDelete | ActionCancel | ActionRetry
    | ActionPauseAll | ActionResumeAll | ActionDeleteAll | ActionCancelAll | ActionRetryAll
    | ActionInvalid

  predicate IsGroupAction(a: ActionType) {
    a in {PauseAll, ResumeAll, DeleteAll, CancelAll, RetryAll}
  }

  /** The action code of a per-download action; group actions have none. */
  function SingleAction(a: ActionType): (r: IntentAction)
    ensures IsGroupAction(a) <==> r == ActionInvalid
  {
    match a
    case Cancel => ActionCancel
    case Delete => ActionDelete
    case Resume => ActionResume
    case Pause => ActionPause
    case Retry => ActionRetry
    case _ => ActionInvalid
  }

  /** The action code of a group action; per-download actions have none. */
  function GroupAction(a: ActionType): (r: IntentAction)
    ensures !IsGroupAction(a) <==> r == ActionInvalid
  {
    match a
    case CancelAll => ActionCancelAll
    case DeleteAll => ActionDeleteAll
    case ResumeAll => ActionResumeAll
    case PauseAll => ActionPauseAll
    case RetryAll => ActionRetryAll
    case _ => ActionInvalid
  }

  /** Distinct actions get distinct codes, except that every action of the wrong kind is invalid. */
  lemma ActionCodesInjective(a: ActionType, b: ActionType)
    ensures SingleAction(a) == SingleAction(b) && SingleAction(a) != ActionInvalid ==> a == b
    ensures GroupAction(a) == GroupAction(b) && GroupAction(a) != ActionInvalid ==> a == b
  {
  }

  /** The broadcast a notification button sends. */
  datatype ActionIntent = ActionIntent(
    namespace: string,
    downloadId: int,
    notificationId: int,
    groupAction: bool,
    groupId: int,
    action: IntentAction)

  /** `getActionPendingIntent`: the intent of one button of one notification. */
  function ActionPendingIntent(n: Notification, a: ActionType): (r: ActionIntent)
    ensures r.downloadId == r.notificationId == n.notificationId
    ensures !r.groupAction && r.groupId == n.groupId && r.namespace == n.namespace
    ensures r.action == SingleAction(a)
  {
    ActionIntent(n.namespace, n.notificationId, n.notificationId, false, n.groupId, SingleAction(a))
  }

  datatype ProgressBar = ProgressBar(max: int, progress: int, indeterminate: bool)

  /** The progress bar `updateNotification` sets. */
  function ProgressBarOf(n: Notification): (r: ProgressBar)
    ensures Terminal(n) ==> r == ProgressBar(0, 0, false)
    ensures !Terminal(n) ==>
      && r.indeterminate == n.progressIndeterminate
      && r.max == (if n.progressIndeterminate then 0 else 100)
      && r.progress >= 0
      && (n.progress >= 0 ==> r.progress == n.progress)
      && (n.progress < 0 ==> r.progress == 0)
  {
    if IsFailed(n) || IsCompleted(n) then ProgressBar(0, 0, false)
    else
      var max := if n.progressIndeterminate then 0 else 100;
      var progress := if n.progress < 0 then 0 else n.progress;
      ProgressBar(max, progress, n.progressIndeterminate)
  }

  /** The remaining time as one of the three string resources. */
  datatype Eta = Hours(h: int, m: int, s: int) | Minutes(m: int, s: int) | Seconds(s: int)

  /** Kotlin's `Long` division, which truncates toward zero. */
  function Quot(a: int, b: int): int
    requires b > 0
  {
    if a >= 0 then a / b else -((-a) / b)
  }

  /**
   * `getEtaText`: whole seconds split into hours, minutes and seconds. The
   * format follows the time left: hours from one hour on, minutes from one
   * minute on, and seconds below that, negative estimates included.
   */
  function EtaOf(etaInMilliSeconds: int): (r: Eta)
    ensures r.Hours? <==> etaInMilliSeconds >= 3_600_000
    ensures r.Minutes? <==> 60_000 <= etaInMilliSeconds < 3_600_000
    ensures r.Seconds? <==> etaInMilliSeconds < 60_000
    ensures r.Seconds? && etaInMilliSeconds >= 0 ==> r.s == etaInMilliSeconds / 1000
  {
    var total := Quot(etaInMilliSeconds, 1000);
    var hours := Quot(total, 3600);
    var rest := total - hours * 3600;
    var minutes := Quot(rest, 60);
    var seconds := rest - minutes * 60;
    if hours > 0 then Hours(hours, minutes, seconds)
    else if minutes > 0 then Minutes(minutes, seconds)
    else Seconds(seconds)
  }

  /** The hours, minutes and seconds an `Eta` stands for. */
  function Parts(e: Eta): (int, int, int) {
    match e
    case Hours(h, m, s) => (h, m, s)
    case Minutes(m, s) => (0, m, s)
    case Seconds(s) => (0, 0, s)
  }

  /**
   * For a non-negative estimate the split is the clock reading of the whole
   * seconds: minutes and seconds below 60, adding up to `eta / 1000`, and
   * the format chosen by the leading non-zero unit.
   */
  lemma EtaDecomposition(eta: int)
    requires eta >= 0
    ensures var (h, m, s) := Parts(EtaOf(eta));
      && h >= 0 && 0 <= m < 60 && 0 <= s < 60
      && h * 3600 + m * 60 + s == eta / 1000
      && (EtaOf(eta).Hours? <==> h > 0)
      && (EtaOf(eta).Minutes? <==> h == 0 && m > 0)
      && (EtaOf(eta).Seconds? <==> h == 0 && m == 0)
  {
    var total := eta / 1000;
    var hours := total / 3600;
    var rest := total - hours * 3600;
    assert 0 <= rest < 3600;
    var minutes := rest / 60;
    assert 0 <= minutes < 60;
  }

  /** The split is the only one with minutes and seconds below 60. */
  lemma EtaUnique(eta: int, h: int, m: int, s: int)
    requires eta >= 0 && h >= 0 && 0 <= m < 60 && 0 <= s < 60
    requires h * 3600 + m * 60 + s == eta / 1000
    ensures Parts(EtaOf(eta)) == (h, m, s)
  {
    EtaDecomposition(eta);
    var (h', m', s') := Parts(EtaOf(eta));
    assert 0 <= m * 60 + s < 3600 && 0 <= m' * 60 + s' < 3600;
    QuotientUnique(h, m * 60 + s, h', m' * 60 + s', 3600);
    QuotientUnique(m, s, m', s', 60);
  }

  /** Division with remainder in `[0, q)` has one answer. */
  lemma QuotientUnique(x: int, a: int, y: int, b: int, q: int)
    requires q > 0 && 0 <= a < q && 0 <= b < q && x * q + a == y * q + b
    ensures x == y && a == b
  {
    assert (x - y) * q == b - a;
    assert x - y >= 1 ==> (x - y) * q >= q;
    assert x - y <= -1 ==> (x - y) * q <= -q;
  }

  /** The second line of a notification. */
  datatype Subtitle =
    | CompleteText | FailedText | PausedText | StartingText | DownloadingText | EtaText(eta: Eta)

  /** `getSubtitleText`: completed, failed, paused, queued, unknown time, in that order of priority. */
  function SubtitleOf(n: Notification): (r: Subtitle)
    ensures r == CompleteText <==> IsCompleted(n)
    ensures r == FailedText <==> IsFailed(n)
    ensures r == PausedText <==> IsPaused(n)
    ensures r == StartingText <==> IsQueued(n)
    ensures r == DownloadingText <==> !IsCompleted(n) && !IsFailed(n) && !IsPaused(n) && !IsQueued(n) && n.etaInMilliSeconds < 0
    ensures r.EtaText? ==> r.eta == EtaOf(n.etaInMilliSeconds) && n.etaInMilliSeconds >= 0
  {
    if IsCompleted(n) then CompleteText
    else if IsFailed(n) then FailedText
    else if IsPaused(n) then PausedText
    else if IsQueued(n) then StartingText
    else if n.etaInMilliSeconds < 0 then DownloadingText
    else EtaText(EtaOf(n.etaInMilliSeconds))
  }

  /** How long the OS keeps the notification: the library's timeout or its reset value. */
  datatype Timeout = NotificationTimeout | ResetTimeout

  /** Everything `updateNotification` sets on a builder, plus the channel the builder was made for. */
  datatype View = View(
    channel: string,
    downloadingIcon: bool,
    title: string,
    text: Subtitle,
    ongoing: bool,
    group: int,
    bar: ProgressBar,
    timeout: Timeout,
    actions: seq<ActionIntent>)

  /** `updateNotification` on a freshly reset builder of channel `channel`. */
  function ViewOf(n: Notification, channel: string): (v: View)
    ensures v.channel == channel && v.title == n.title && v.group == n.groupId
    ensures v.downloadingIcon == IsDownloading(n) && v.ongoing == IsOnGoingNotification(n)
    ensures v.text == SubtitleOf(n) && v.bar == ProgressBarOf(n)
    ensures IsDownloading(n) ==> v.actions == [ActionPendingIntent(n, Pause), ActionPendingIntent(n, Cancel)]
    ensures IsPaused(n) ==> v.actions == [ActionPendingIntent(n, Resume), ActionPendingIntent(n, Cancel)]
    ensures !IsDownloading(n) && !IsPaused(n) ==> v.actions == []
    ensures v.timeout == (if IsDownloading(n) || IsPaused(n) || IsQueued(n) then NotificationTimeout else ResetTimeout)
  {
    var actions :=
      if IsDownloading(n) then [ActionPendingIntent(n, Pause), ActionPendingIntent(n, Cancel)]
      else if IsPaused(n) then [ActionPendingIntent(n, Resume), ActionPendingIntent(n, Cancel)]
      else [];
    var timeout := if IsDownloading(n) || IsPaused(n) || IsQueued(n) then NotificationTimeout else ResetTimeout;
    View(channel, IsDownloading(n), n.title, SubtitleOf(n), IsOnGoingNotification(n), n.groupId,
         ProgressBarOf(n), timeout, actions)
  }

  // ---------------------------------------------------------------------
  // The manager

  datatype OsCall = Post(id: int, view: View) | Dismiss(id: int)

  /**
   * `builders` maps a notification id to the channel its builder was created
   * on; a builder keeps its channel for as long as it is kept.
   */
  datatype Manager = Manager(
    notifications: OMap<int, Notification>,
    builders: map<int, string>,
    exclude: set<int>,
    log: seq<OsCall>)

  /** Every notification is stored under its own id. */
  predicate IdsMatch(m: Manager) {
    forall k :: k in m.notifications.entries ==> m.notifications.entries[k].notificationId == k
  }

  /** The manager as the plugin creates it: nothing tracked, no builders, nothing excluded, nothing posted. */
  function Init(): (m: Manager)
    ensures IdsMatch(m) && m.log == []
    ensures m.notifications.entries == map[] && m.builders == map[] && m.exclude == {}
  {
    Manager(Empty(), map[], {}, [])
  }

  /** `getChannelId`: the loud channel for a tracked failed or completed download, the silent one otherwise. */
  function ChannelId(m: Manager, id: int): (r: string)
    ensures r == LoudChannelId <==> id in m.notifications.entries && Terminal(m.notifications.entries[id])
    ensures r == SilentChannelId <==> !(id in m.notifications.entries && Terminal(m.notifications.entries[id]))
  {
    match Get(m.notifications, id)
    case Some(n) => if IsCompleted(n) || IsFailed(n) then LoudChannelId else SilentChannelId
    case None => SilentChannelId
  }

  /** `getNotificationBuilder`: reuses the builder of `id`, or creates one on the channel `id` has now. */
  function GetBuilder(m: Manager, id: int): (r: Manager)
    ensures r.notifications == m.notifications && r.exclude == m.exclude && r.log == m.log
    ensures id in r.builders
    ensures id in m.builders ==> r.builders == m.builders
    ensures id !in m.builders ==> r.builders == m.builders[id := ChannelId(m, id)]
  {
    if id in m.builders then m else m.(builders := m.builders[id := ChannelId(m, id)])
  }

  /** `shouldUpdateNotification`. */
  predicate ShouldUpdate(m: Manager, n: Notification) {
    n.notificationId !in m.exclude
  }

  /** `shouldCancelNotification`. */
  predicate ShouldCancel(n: Notification) {
    IsPaused(n)
  }

  /** The tracked notifications of a group, in iteration order. */
  function Members(m: Manager, group: int): (r: seq<Notification>)
    ensures forall i :: 0 <= i < |r| ==> r[i].groupId == group && r[i] in Values(m.notifications)
  {
    MembersOf(Values(m.notifications), group)
  }

  function MembersOf(ns: seq<Notification>, group: int): (r: seq<Notification>)
    ensures forall i :: 0 <= i < |r| ==> r[i].groupId == group && r[i] in ns
    ensures forall n :: n in ns && n.groupId == group ==> n in r
  {
    if |ns| == 0 then []
    else if ns[0].groupId == group then [ns[0]] + MembersOf(ns[1..], group)
    else MembersOf(ns[1..], group)
  }

  /** The channel the builder of `id` has, or would be created on. */
  function BuilderChannel(m: Manager, id: int): (c: string)
    ensures id in m.builders ==> c == m.builders[id]
    ensures id !in m.builders ==> c == ChannelId(m, id)
  {
    if id in m.builders then m.builders[id] else ChannelId(m, id)
  }

  /** What the OS is asked to show for `n`, given the builders of `m`. */
  function PostFor(m: Manager, n: Notification): OsCall {
    Post(n.notificationId, ViewOf(n, BuilderChannel(m, n.notificationId)))
  }

  /**
   * One pass of the loop of `notify`: an excluded notification is skipped;
   * otherwise it is posted through its builder and, when failed or
   * completed, excluded from then on.
   */
  function Visit(m: Manager, n: Notification): (r: Manager)
    ensures r.notifications == m.notifications
    ensures !ShouldUpdate(m, n) ==> r == m
    ensures ShouldUpdate(m, n) ==>
      && r.log == m.log + [PostFor(m, n)]
      && r.exclude == (if Terminal(n) then m.exclude + {n.notificationId} else m.exclude)
      && r.builders == m.builders[n.notificationId := BuilderChannel(m, n.notificationId)]
  {
    if !ShouldUpdate(m, n) then m
    else
      var id := n.notificationId;
      var b := GetBuilder(m, id);
      var posted := b.(log := b.log + [Post(id, ViewOf(n, b.builders[id]))]);
      if IsCompleted(n) || IsFailed(n) then posted.(exclude := posted.exclude + {id}) else posted
  }

  /** The ids of the notifications of `ns`. */
  function IdsOf(ns: seq<Notification>): set<int> {
    set n | n in ns :: n.notificationId
  }

  /** The loop of `notify` over the group's notifications. */
  function NotifyEach(m: Manager, ns: seq<Notification>): (r: Manager)
    decreases |ns|
    ensures r.notifications == m.notifications
    ensures m.exclude <= r.exclude <= m.exclude + IdsOf(ns)
    ensures |m.log| <= |r.log| && r.log[..|m.log|] == m.log
    ensures m.builders.Keys <= r.builders.Keys <= m.builders.Keys + IdsOf(ns)
    ensures forall k :: k in m.builders ==> r.builders[k] == m.builders[k]
  {
    if |ns| == 0 then m
    else
      var next := Visit(m, ns[0]);
      assert next.log[..|m.log|] == m.log;
      NotifyEach(next, ns[1..])
  }

  /**
   * `notify(groupId)`: makes sure the group's summary builder exists, then
   * posts every notification of the group that is not excluded and excludes
   * the failed and completed ones it has posted. The summary itself is never
   * posted: `updateGroupSummaryNotification` always answers false.
   */
  function Notify(m: Manager, group: int): (r: Manager)
    ensures r.notifications == m.notifications
    ensures m.exclude <= r.exclude <= m.exclude + IdsOf(Members(m, group))
    ensures |m.log| <= |r.log| && r.log[..|m.log|] == m.log
    ensures m.builders.Keys <= r.builders.Keys <= m.builders.Keys + {group} + IdsOf(Members(m, group))
    ensures forall k :: k in m.builders ==> r.builders[k] == m.builders[k]
  {
    NotifyEach(GetBuilder(m, group), Members(m, group))
  }

  /**
   * `cancelNotification(id)`: cancels the OS notification, forgets the
   * builder and the exclusion of `id` and, when `id` was tracked, stops
   * tracking it and re-notifies its group.
   */
  function CancelNotification(m: Manager, id: int): (r: Manager)
    ensures Get(r.notifications, id) == None
    ensures forall k :: k != id ==> Get(r.notifications, k) == Get(m.notifications, k)
    ensures |r.log| > |m.log| && r.log[..|m.log| + 1] == m.log + [Dismiss(id)]
    ensures id !in m.notifications.entries ==>
      r == m.(builders := m.builders - {id}, exclude := m.exclude - {id}, log := m.log + [Dismiss(id)])
    ensures id in m.notifications.entries ==>
      r == Notify(m.(notifications := Remove(m.notifications, id), builders := m.builders - {id},
                     exclude := m.exclude - {id}, log := m.log + [Dismiss(id)]),
                  m.notifications.entries[id].groupId)
  {
    var cleared := m.(builders := m.builders - {id}, exclude := m.exclude - {id}, log := m.log + [Dismiss(id)]);
    match Get(m.notifications, id)
    case None => cleared
    case Some(n) =>
      var r := Notify(cleared.(notifications := Remove(m.notifications, id)), n.groupId);
      assert r.log[..|m.log| + 1] == r.log[..|cleared.log|];
      r
  }

  /** One step of `cancelOngoingNotifications`: the entry under key `k`. */
  function CancelIfOngoing(m: Manager, k: int): (r: Manager)
    ensures forall j :: j != k ==> Get(r.notifications, j) == Get(m.notifications, j)
    ensures k in m.notifications.entries && !Terminal(m.notifications.entries[k]) ==> Get(r.notifications, k) == None
    ensures !(k in m.notifications.entries && !Terminal(m.notifications.entries[k])) ==> r == m
  {
    match Get(m.notifications, k)
    case None => m
    case Some(n) =>
      if IsFailed(n) || IsCompleted(n) then m
      else
        var id := n.notificationId;
        var removed := m.(notifications := Remove(m.notifications, k), builders := m.builders - {id},
                          exclude := m.exclude - {id}, log := m.log + [Dismiss(id)]);
        Notify(removed, n.groupId)
  }

  function CancelOngoingFrom(m: Manager, ks: seq<int>): (r: Manager)
    ensures forall k :: k in r.notifications.entries ==>
      k in m.notifications.entries && r.notifications.entries[k] == m.notifications.entries[k]
    ensures forall k :: k in ks && k in r.notifications.entries ==> Terminal(r.notifications.entries[k])
    decreases |ks|
  {
    if |ks| == 0 then m else CancelOngoingFrom(CancelIfOngoing(m, ks[0]), ks[1..])
  }

  /**
   * `cancelOngoingNotifications`: walks the tracked notifications in order.
   * Whatever stays tracked was tracked before, unchanged, and is failed or
   * completed.
   */
  function CancelOngoing(m: Manager): (r: Manager)
    ensures forall k :: k in r.notifications.entries ==>
      && k in m.notifications.entries
      && r.notifications.entries[k] == m.notifications.entries[k]
      && Terminal(r.notifications.entries[k])
  {
    CancelOngoingFrom(m, m.notifications.keys)
  }

  /** The notification `postDownloadUpdate` records for a download. */
  function FromDownload(d: Fetch.Download, title: string, indeterminate: bool): (n: Notification)
    ensures n.notificationId == d.id && n.groupId == d.group && n.status == d.status
  {
    Notification(d.status, d.progress, d.id, d.group, d.etaInMilliSeconds, d.downloadedBytesPerSecond,
                 d.total, d.downloaded, d.namespace, title, indeterminate)
  }

  datatype Update = Update(next: Manager, handled: bool)

  /** The part of `postDownloadUpdate` before the cancel-or-notify decision. */
  function Record(m: Manager, n: Notification): (r: Manager)
    ensures r.log == m.log
    ensures Get(r.notifications, n.notificationId) == Some(n)
    ensures Size(m.notifications) > MaxTracked ==>
      && r.builders == map[]
      && forall k :: k != n.notificationId ==> Get(r.notifications, k) == None
    ensures Size(m.notifications) <= MaxTracked ==>
      && r.builders == m.builders
      && forall k :: k != n.notificationId ==> Get(r.notifications, k) == Get(m.notifications, k)
    ensures r.exclude == if Terminal(n) then m.exclude else m.exclude - {n.notificationId}
    ensures Size(r.notifications) <= MaxTracked + 1
  {
    var base := if Size(m.notifications) > MaxTracked then m.(notifications := Empty(), builders := map[]) else m;
    var stored := base.(notifications := Put(base.notifications, n.notificationId, n));
    assert Size(base.notifications) <= MaxTracked;
    if n.notificationId in stored.exclude && !IsFailed(n) && !IsCompleted(n) then
      stored.(exclude := stored.exclude - {n.notificationId})
    else stored
  }

  /**
   * `postDownloadUpdate`: records the download's state (after forgetting
   * everything when more than `MaxTracked` notifications are tracked), lifts
   * its exclusion unless it failed or completed, then cancels the
   * notification of a cancelled, removed, deleted or paused download and
   * notifies the download's group otherwise. Always answers true.
   */
  function PostDownloadUpdate(m: Manager, d: Fetch.Download, title: string, indeterminate: bool): (u: Update)
    ensures u.handled
  {
    var n := FromDownload(d, title, indeterminate);
    var r := Record(m, n);
    if IsCancelledNotification(n) || ShouldCancel(n) then Update(CancelNotification(r, n.notificationId), true)
    else Update(Notify(r, d.group), true)
  }
}
