/**
 * Properties of the notification bookkeeping: what `notify` posts and whom
 * it excludes, that a failed or completed notification is posted once and
 * then left alone, what `cancelNotification` and `cancelOngoingNotifications`
 * leave behind, and the bound on the number of tracked notifications.
 */
module NotificationProperties {
  import opened Common
  import opened OrderedMap
  import Fetch
  import opened NotificationManager

  /** No two notifications of `ns` share an id. */
  predicate DistinctIds(ns: seq<Notification>) {
    forall i, j :: 0 <= i < j < |ns| ==> ns[i].notificationId != ns[j].notificationId
  }

  /** The notifications of `ns` whose id is not excluded, in order. */
  function Eligible(ns: seq<Notification>, ex: set<int>): (r: seq<Notification>)
    ensures forall n :: n in r <==> n in ns && n.notificationId !in ex
  {
    if |ns| == 0 then []
    else if ns[0].notificationId in ex then Eligible(ns[1..], ex)
    else [ns[0]] + Eligible(ns[1..], ex)
  }

  /** The ids of the failed and completed notifications of `ns`. */
  function TerminalIds(ns: seq<Notification>): set<int> {
    set n | n in ns && Terminal(n) :: n.notificationId
  }

  /** The posts `notify` would make for `ns`, in order, given the builders of `m`. */
  function Posts(m: Manager, ns: seq<Notification>): (r: seq<OsCall>)
    ensures |r| == |ns|
  {
    if |ns| == 0 then [] else [PostFor(m, ns[0])] + Posts(m, ns[1..])
  }

  lemma PostsAgree(m1: Manager, m2: Manager, ns: seq<Notification>)
    requires forall x :: x in ns ==> PostFor(m1, x) == PostFor(m2, x)
    ensures Posts(m1, ns) == Posts(m2, ns)
  {
  }

  lemma EligibleAgree(ns: seq<Notification>, ex1: set<int>, ex2: set<int>)
    requires forall n :: n in ns ==> (n.notificationId in ex1 <==> n.notificationId in ex2)
    ensures Eligible(ns, ex1) == Eligible(ns, ex2)
  {
  }

  /** After the head of a list with distinct ids, the head's id is not seen again. */
  lemma HeadIdFresh(ns: seq<Notification>)
    requires |ns| > 0 && DistinctIds(ns)
    ensures DistinctIds(ns[1..])
    ensures forall x :: x in ns[1..] ==> x.notificationId != ns[0].notificationId
  {
    forall x | x in ns[1..] ensures x.notificationId != ns[0].notificationId {
      var j :| 0 <= j < |ns[1..]| && ns[1..][j] == x;
      assert ns[j + 1] == x;
    }
  }

  /** Posting `n` does not change the channel any other notification would be posted on. */
  lemma VisitKeepsOtherChannels(m: Manager, n: Notification, x: Notification)
    requires x.notificationId != n.notificationId
    ensures PostFor(Visit(m, n), x) == PostFor(m, x)
  {
  }

  lemma VisitKeepsChannelsOf(m: Manager, n: Notification, rest: seq<Notification>)
    requires forall x :: x in rest ==> x.notificationId != n.notificationId
    ensures forall x :: x in rest ==> PostFor(Visit(m, n), x) == PostFor(m, x)
  {
    forall x | x in rest ensures PostFor(Visit(m, n), x) == PostFor(m, x) {
      VisitKeepsOtherChannels(m, n, x);
    }
  }

  lemma PostsCons(m: Manager, n: Notification, ns: seq<Notification>)
    ensures Posts(m, [n] + ns) == [PostFor(m, n)] + Posts(m, ns)
  {
    assert ([n] + ns)[1..] == ns;
  }

  lemma EligibleCons(n: Notification, ns: seq<Notification>, ex: set<int>)
    ensures Eligible([n] + ns, ex) == (if n.notificationId in ex then [] else [n]) + Eligible(ns, ex)
  {
    assert ([n] + ns)[1..] == ns;
  }

  /** The posting pass of the loop, followed by what the rest of the loop posts. */
  lemma PostedHead(m: Manager, n: Notification, rest: seq<Notification>)
    requires ShouldUpdate(m, n)
    requires forall x :: x in rest ==> x.notificationId != n.notificationId
    ensures var next := Visit(m, n);
      next.log + Posts(next, Eligible(rest, next.exclude)) == m.log + Posts(m, Eligible([n] + rest, m.exclude))
  {
    var next := Visit(m, n);
    var e' := Eligible(rest, m.exclude);
    var p := PostFor(m, n);
    VisitKeepsExclusionOf(m, n, rest);
    EligibleAgree(rest, next.exclude, m.exclude);
    VisitKeepsChannelsOf(m, n, rest);
    EligibleCons(n, rest, m.exclude);
    PostsAgree(next, m, e');
    PostsCons(m, n, e');
    calc {
      next.log + Posts(next, Eligible(rest, next.exclude));
      (m.log + [p]) + Posts(m, e');
      { SeqAssoc(m.log, [p], Posts(m, e')); }
      m.log + ([p] + Posts(m, e'));
      m.log + Posts(m, [n] + e');
    }
  }

  lemma SeqAssoc<T>(a: seq<T>, b: seq<T>, c: seq<T>)
    ensures (a + b) + c == a + (b + c)
  {
  }

  /**
   * The loop of `notify` posts every notification whose id is not
   * excluded, in order, on the channel its builder has or gets.
   */
  lemma {:induction false} NotifyEachPosts(m: Manager, ns: seq<Notification>)
    requires DistinctIds(ns)
    ensures NotifyEach(m, ns).log == m.log + Posts(m, Eligible(ns, m.exclude))
    decreases |ns|
  {
    if |ns| > 0 {
      var n, rest := ns[0], ns[1..];
      var next := Visit(m, n);
      var tail := NotifyEach(next, rest).log;
      assert NotifyEach(m, ns).log == tail;
      HeadIdFresh(ns);
      NotifyEachPosts(next, rest);
      HeadTail(ns);
      if ShouldUpdate(m, n) {
        PostedHead(m, n, rest);
      } else {
        EligibleCons(n, rest, m.exclude);
      }
    }
  }

  lemma HeadTail<T>(s: seq<T>)
    requires |s| > 0
    ensures s == [s[0]] + s[1..]
  {
  }

  /** The loop of `notify` excludes exactly the failed and completed notifications it posts. */
  lemma {:induction false} NotifyEachExcludes(m: Manager, ns: seq<Notification>)
    requires DistinctIds(ns)
    ensures NotifyEach(m, ns).exclude == m.exclude + TerminalIds(Eligible(ns, m.exclude))
    decreases |ns|
  {
    if |ns| == 0 {
      assert TerminalIds([]) == {};
    } else {
      var n, rest := ns[0], ns[1..];
      var next := Visit(m, n);
      assert NotifyEach(m, ns).exclude == NotifyEach(next, rest).exclude;
      HeadIdFresh(ns);
      NotifyEachExcludes(next, rest);
      VisitKeepsExclusionOf(m, n, rest);
      EligibleAgree(rest, next.exclude, m.exclude);
      HeadTail(ns);
      EligibleCons(n, rest, m.exclude);
      var e := Eligible(rest, m.exclude);
      if ShouldUpdate(m, n) {
        var t: set<int> := if Terminal(n) then {n.notificationId} else {};
        calc {
          NotifyEach(m, ns).exclude;
          next.exclude + TerminalIds(e);
          (m.exclude + t) + TerminalIds(e);
          { UnionAssoc(m.exclude, t, TerminalIds(e)); }
          m.exclude + (t + TerminalIds(e));
          { TerminalIdsCons(n, e); }
          m.exclude + TerminalIds([n] + e);
        }
      } else {
        assert next == m && Eligible(ns, m.exclude) == e;
      }
    }
  }

  lemma VisitKeepsExclusionOf(m: Manager, n: Notification, rest: seq<Notification>)
    requires forall x :: x in rest ==> x.notificationId != n.notificationId
    ensures forall x :: x in rest ==> (x.notificationId in Visit(m, n).exclude <==> x.notificationId in m.exclude)
  {
  }

  lemma UnionAssoc<T>(a: set<T>, b: set<T>, c: set<T>)
    ensures (a + b) + c == a + (b + c)
  {
  }

  lemma TerminalIdsCons(n: Notification, ns: seq<Notification>)
    ensures TerminalIds([n] + ns) == (if Terminal(n) then {n.notificationId} else {}) + TerminalIds(ns)
  {
  }

  // -------------------------------------------------------------------
  // What a posted notification shows

  /**
   * The progress clamp is a projection: a notification that already shows
   * the bar's progress gets the same bar again.
   */
  lemma ProgressBarClampIdempotent(n: Notification)
    ensures ProgressBarOf(n.(progress := ProgressBarOf(n).progress)) == ProgressBarOf(n)
  {
  }

  /**
   * The buttons of a view act on the download of that notification alone.
   * Exactly a downloading or paused notification has buttons, and its last
   * button cancels. A failed or completed one has no buttons and an empty,
   * determinate bar.
   */
  lemma ViewButtonsTargetOwnDownload(n: Notification, channel: string)
    ensures var v := ViewOf(n, channel);
      && (forall i :: 0 <= i < |v.actions| ==>
            && v.actions[i].downloadId == n.notificationId
            && v.actions[i].notificationId == n.notificationId
            && !v.actions[i].groupAction
            && v.actions[i].action != ActionInvalid)
      && (|v.actions| > 0 <==> IsDownloading(n) || IsPaused(n))
      && (|v.actions| > 0 ==> v.actions[|v.actions| - 1].action == ActionCancel)
      && (Terminal(n) ==> v.actions == [] && v.bar == ProgressBar(0, 0, false))
  {
  }

  // -------------------------------------------------------------------
  // notify

  /** Under matching ids, the tracked notifications have distinct ids and each sits under its own id. */
  lemma ValuesMatchIds(m: Manager)
    requires IdsMatch(m)
    ensures DistinctIds(Values(m.notifications))
    ensures forall x :: x in Values(m.notifications) ==>
      x.notificationId in m.notifications.entries && m.notifications.entries[x.notificationId] == x
  {
    var vs := Values(m.notifications);
    forall i, j | 0 <= i < j < |vs| ensures vs[i].notificationId != vs[j].notificationId {
      assert vs[i].notificationId == m.notifications.keys[i];
      assert vs[j].notificationId == m.notifications.keys[j];
    }
    forall x | x in vs
      ensures x.notificationId in m.notifications.entries && m.notifications.entries[x.notificationId] == x
    {
      var i :| 0 <= i < |vs| && vs[i] == x;
      var k := m.notifications.keys[i];
      assert k in m.notifications.entries;
      assert x == m.notifications.entries[k];
      assert x.notificationId == k;
    }
  }

  /** A tracked notification is among the members of its group. */
  lemma TrackedIsMember(m: Manager, k: int)
    requires k in m.notifications.entries
    ensures m.notifications.entries[k] in Members(m, m.notifications.entries[k].groupId)
  {
    var i :| 0 <= i < |m.notifications.keys| && m.notifications.keys[i] == k;
    assert Values(m.notifications)[i] == m.notifications.entries[k];
  }

  /** A notification whose id is not among those of a distinct sequence can go in front of it. */
  lemma DistinctCons(n: Notification, t: seq<Notification>)
    requires DistinctIds(t)
    requires forall x :: x in t ==> x.notificationId != n.notificationId
    ensures DistinctIds([n] + t)
  {
    var r := [n] + t;
    forall i, j | 0 <= i < j < |r| ensures r[i].notificationId != r[j].notificationId {
      assert r[j] == t[j - 1];
      if i > 0 { assert r[i] == t[i - 1]; }
    }
  }

  lemma {:induction false} MembersOfDistinct(ns: seq<Notification>, group: int)
    requires DistinctIds(ns)
    ensures DistinctIds(MembersOf(ns, group))
    decreases |ns|
  {
    if |ns| > 0 {
      HeadIdFresh(ns);
      MembersOfDistinct(ns[1..], group);
      var t := MembersOf(ns[1..], group);
      if ns[0].groupId == group {
        DistinctCons(ns[0], t);
      }
    }
  }

  /** Creating the summary builder does not change the channel of anyone's post. */
  lemma SummaryBuilderKeepsChannels(m: Manager, group: int, ns: seq<Notification>)
    ensures Posts(GetBuilder(m, group), ns) == Posts(m, ns)
  {
    forall x | x in ns ensures PostFor(GetBuilder(m, group), x) == PostFor(m, x) {
    }
    PostsAgree(GetBuilder(m, group), m, ns);
  }

  /**
   * `notify(groupId)` posts the not-excluded notifications of the group in
   * tracking order, each on its builder's channel, excludes the failed and
   * completed ones among them, and posts nothing else.
   */
  lemma NotifyExact(m: Manager, group: int)
    requires IdsMatch(m)
    ensures var e := Eligible(Members(m, group), m.exclude);
      && Notify(m, group).log == m.log + Posts(m, e)
      && Notify(m, group).exclude == m.exclude + TerminalIds(e)
  {
    var ms := Members(m, group);
    var b := GetBuilder(m, group);
    ValuesMatchIds(m);
    MembersOfDistinct(Values(m.notifications), group);
    NotifyEachPosts(b, ms);
    NotifyEachExcludes(b, ms);
    SummaryBuilderKeepsChannels(m, group, Eligible(ms, m.exclude));
  }

  lemma PostsMember(m: Manager, ns: seq<Notification>, x: Notification)
    requires x in ns
    ensures PostFor(m, x) in Posts(m, ns)
  {
    if ns[0] != x {
      assert x in ns[1..];
      PostsMember(m, ns[1..], x);
    }
  }

  lemma PostsOnlyOf(m: Manager, ns: seq<Notification>)
    ensures forall c :: c in Posts(m, ns) ==> c.Post? && c.id in IdsOf(ns)
  {
    if |ns| > 0 {
      PostsOnlyOf(m, ns[1..]);
      assert forall x :: x in ns[1..] ==> x in ns;
    }
  }

  // -------------------------------------------------------------------
  // cancelNotification

  lemma RemoveKeepsIds(m: Manager, k: int)
    requires IdsMatch(m)
    ensures IdsMatch(m.(notifications := Remove(m.notifications, k)))
  {
    var r := Remove(m.notifications, k);
    forall j | j in r.entries ensures r.entries[j].notificationId == j {
      assert Get(r, j) == Get(m.notifications, j);
    }
  }

  lemma SubsetCard<T>(x: set<T>, y: set<T>)
    requires x <= y
    ensures |x| <= |y|
  {
    assert y == x + (y - x);
  }

  lemma SubmapSize(a: OMap<int, Notification>, b: OMap<int, Notification>)
    requires forall k :: k in a.entries ==> k in b.entries
    ensures Size(a) <= Size(b)
  {
    var ka, kb := a.entries.Keys, b.entries.Keys;
    assert ka <= kb by {
      forall k | k in ka ensures k in kb {
        assert k in a.entries;
      }
    }
    SubsetCard(ka, kb);
  }

  lemma SizeAfterRemove(m: OMap<int, Notification>, k: int)
    ensures Size(Remove(m, k)) <= Size(m)
  {
    var r := Remove(m, k);
    forall j | j in r.entries ensures j in m.entries {
      assert Get(r, j) == Get(m, j);
    }
    SubmapSize(r, m);
  }

  /**
   * After `cancelNotification(id)` the id is neither tracked nor excluded,
   * and it keeps a builder only when it is its own group's id (the summary
   * builder is made again when the group is re-notified).
   */
  lemma CancelNotificationClears(m: Manager, id: int)
    requires IdsMatch(m)
    ensures var r := CancelNotification(m, id);
      && IdsMatch(r)
      && id !in r.notifications.entries
      && id !in r.exclude
      && (id in r.builders ==> id in m.notifications.entries && m.notifications.entries[id].groupId == id)
      && Size(r.notifications) <= Size(m.notifications)
  {
    var r := CancelNotification(m, id);
    var cleared := m.(builders := m.builders - {id}, exclude := m.exclude - {id}, log := m.log + [Dismiss(id)]);
    if id in m.notifications.entries {
      var g := m.notifications.entries[id].groupId;
      var c := cleared.(notifications := Remove(m.notifications, id));
      RemoveKeepsIds(cleared, id);
      SizeAfterRemove(m.notifications, id);
      ValuesMatchIds(c);
      assert id !in IdsOf(Members(c, g)) by {
        forall x | x in Members(c, g) ensures x.notificationId != id {
          assert x in Values(c.notifications);
        }
      }
    }
  }

  /** Cancelling the same notification again only dismisses it again (and drops a re-made summary builder). */
  lemma CancelNotificationIdempotent(m: Manager, id: int)
    requires IdsMatch(m)
    ensures var r := CancelNotification(m, id);
      CancelNotification(r, id) == r.(builders := r.builders - {id}, log := r.log + [Dismiss(id)])
  {
    CancelNotificationClears(m, id);
  }

  // -------------------------------------------------------------------
  // cancelOngoingNotifications

  /** The entries `cancelOngoingNotifications` keeps: the failed and completed ones. */
  function Settled(m: Manager, k: int): Option<Notification> {
    if k in m.notifications.entries && !Terminal(m.notifications.entries[k]) then None
    else Get(m.notifications, k)
  }

  lemma {:induction false} CancelOngoingFromKeepsTerminal(m: Manager, ks: seq<int>)
    requires NoDuplicates(ks)
    ensures forall k :: Get(CancelOngoingFrom(m, ks).notifications, k) == if k in ks then Settled(m, k) else Get(m.notifications, k)
    decreases |ks|
  {
    if |ks| > 0 {
      var m1 := CancelIfOngoing(m, ks[0]);
      assert NoDuplicates(ks[1..]);
      CancelOngoingFromKeepsTerminal(m1, ks[1..]);
      forall k | k in ks[1..] ensures Settled(m1, k) == Settled(m, k) {
        assert k != ks[0];
        assert Get(m1.notifications, k) == Get(m.notifications, k);
      }
    }
  }

  /**
   * `cancelOngoingNotifications` stops tracking exactly the notifications
   * that are neither failed nor completed; the others stay as they were.
   */
  lemma CancelOngoingKeepsTerminal(m: Manager)
    ensures forall k ::
      Get(CancelOngoing(m).notifications, k) == Settled(m, k)
  {
    CancelOngoingFromKeepsTerminal(m, m.notifications.keys);
    forall k ensures Get(CancelOngoing(m).notifications, k) == Settled(m, k) {
      if k !in m.notifications.keys {
        assert k !in m.notifications.entries;
      }
    }
  }

  lemma {:induction false} CancelOngoingFromSettled(m: Manager, ks: seq<int>)
    requires forall k :: k in m.notifications.entries ==> Terminal(m.notifications.entries[k])
    ensures CancelOngoingFrom(m, ks) == m
    decreases |ks|
  {
    if |ks| > 0 {
      assert CancelIfOngoing(m, ks[0]) == m;
      CancelOngoingFromSettled(m, ks[1..]);
    }
  }

  /** With every tracked download failed or completed, a second cancel changes nothing at all. */
  lemma CancelOngoingIdempotent(m: Manager)
    ensures CancelOngoing(CancelOngoing(m)) == CancelOngoing(m)
  {
    var r := CancelOngoing(m);
    CancelOngoingKeepsTerminal(m);
    forall k | k in r.notifications.entries ensures Terminal(r.notifications.entries[k]) {
      assert Get(r.notifications, k) == Settled(m, k);
    }
    CancelOngoingFromSettled(r, r.notifications.keys);
  }

  lemma CancelOngoingShrinks(m: Manager)
    requires IdsMatch(m)
    ensures IdsMatch(CancelOngoing(m))
    ensures Size(CancelOngoing(m).notifications) <= Size(m.notifications)
  {
    var r := CancelOngoing(m).notifications;
    CancelOngoingKeepsTerminal(m);
    forall k | k in r.entries ensures k in m.notifications.entries && r.entries[k] == m.notifications.entries[k] {
      assert Get(r, k) == Settled(m, k);
    }
    SubmapSize(r, m.notifications);
  }

  // -------------------------------------------------------------------
  // postDownloadUpdate

  /** Every notification under its own id, and never more than `MaxTracked + 1` of them. */
  predicate Bounded(m: Manager) {
    IdsMatch(m) && Size(m.notifications) <= MaxTracked + 1
  }

  /** Whether `postDownloadUpdate` cancels the notification of `n` rather than notifying its group. */
  predicate Cancels(n: Notification) {
    IsCancelledNotification(n) || ShouldCancel(n)
  }

  lemma RecordKeepsIds(m: Manager, n: Notification)
    requires IdsMatch(m)
    ensures IdsMatch(Record(m, n))
  {
    var r := Record(m, n).notifications;
    forall k | k in r.entries ensures r.entries[k].notificationId == k {
      if k == n.notificationId {
        assert Get(r, k) == Some(n);
      } else if Size(m.notifications) <= MaxTracked {
        assert Get(r, k) == Get(m.notifications, k);
      }
    }
  }

  /**
   * A cancelled, removed, deleted or paused download is dismissed, first of
   * all OS calls, and forgotten, exclusion included.
   */
  lemma PostDownloadUpdateCancels(m: Manager, d: Fetch.Download, title: string, indeterminate: bool)
    requires IdsMatch(m)
    requires Cancels(FromDownload(d, title, indeterminate))
    ensures var u := PostDownloadUpdate(m, d, title, indeterminate).next;
      && Bounded(u)
      && d.id !in u.notifications.entries && d.id !in u.exclude
      && |u.log| > |m.log| && u.log[..|m.log| + 1] == m.log + [Dismiss(d.id)]
  {
    var n := FromDownload(d, title, indeterminate);
    var r := Record(m, n);
    RecordKeepsIds(m, n);
    CancelNotificationClears(r, d.id);
    var u := CancelNotification(r, d.id);
    assert PostDownloadUpdate(m, d, title, indeterminate).next == u;
    assert r.log == m.log && Size(u.notifications) <= Size(r.notifications) <= MaxTracked + 1;
  }

  /**
   * Any other download is tracked with its new state and stays excluded
   * exactly when it failed or completed.
   */
  lemma PostDownloadUpdateTracks(m: Manager, d: Fetch.Download, title: string, indeterminate: bool)
    requires IdsMatch(m)
    requires !Cancels(FromDownload(d, title, indeterminate))
    ensures var n := FromDownload(d, title, indeterminate);
      var u := PostDownloadUpdate(m, d, title, indeterminate).next;
      && Bounded(u)
      && u.log[..|m.log|] == m.log
      && Get(u.notifications, d.id) == Some(n)
      && (d.id in u.exclude <==> Terminal(n))
  {
    var n := FromDownload(d, title, indeterminate);
    var r := Record(m, n);
    RecordKeepsIds(m, n);
    var e := Eligible(Members(r, d.group), r.exclude);
    NotifyExact(r, d.group);
    TrackedIsMember(r, d.id);
    ValuesMatchIds(r);
    if Terminal(n) && d.id !in r.exclude {
      assert n in e;
    }
    if !Terminal(n) {
      assert d.id !in TerminalIds(e) by {
        forall x | x in e && Terminal(x) ensures x.notificationId != d.id {
          assert x in Values(r.notifications);
        }
      }
    }
  }

  /** The channel a notification of `n` goes out on after `postDownloadUpdate` has recorded it. */
  function PostChannel(m: Manager, n: Notification): (c: string)
    ensures Size(m.notifications) <= MaxTracked && n.notificationId in m.builders ==>
      c == m.builders[n.notificationId]
    ensures Size(m.notifications) > MaxTracked || n.notificationId !in m.builders ==>
      && (c == LoudChannelId <==> Terminal(n))
      && (c == SilentChannelId <==> !Terminal(n))
  {
    BuilderChannel(Record(m, n), n.notificationId)
  }

  /**
   * When a download is not cancelled or paused, `postDownloadUpdate` posts
   * its notification unless it is failed or completed and was already
   * excluded; in that case nothing at all is posted for it. A builder kept
   * from an earlier update keeps its channel, so a completion can go out
   * silently.
   */
  lemma PostDownloadUpdatePosts(m: Manager, d: Fetch.Download, title: string, indeterminate: bool)
    requires IdsMatch(m)
    requires !Cancels(FromDownload(d, title, indeterminate))
    ensures var n := FromDownload(d, title, indeterminate);
      var u := PostDownloadUpdate(m, d, title, indeterminate).next;
      && (d.id !in m.exclude || !Terminal(n) ==>
            Post(d.id, ViewOf(n, PostChannel(m, n))) in u.log[|m.log|..])
      && (d.id in m.exclude && Terminal(n) ==>
            forall c :: c in u.log[|m.log|..] ==> !(c.Post? && c.id == d.id))
  {
    var n := FromDownload(d, title, indeterminate);
    var r := Record(m, n);
    var u := PostDownloadUpdate(m, d, title, indeterminate).next;
    var e := Eligible(Members(r, d.group), r.exclude);
    RecordKeepsIds(m, n);
    NotifyExact(r, d.group);
    assert u.log[|m.log|..] == Posts(r, e);
    TrackedIsMember(r, d.id);
    if d.id !in r.exclude {
      PostsMember(r, e, n);
    } else {
      PostsOnlyOf(r, e);
    }
  }

  // -------------------------------------------------------------------
  // Sequences of calls

  datatype Event =
    | UpdateEv(download: Fetch.Download, title: string, indeterminate: bool)
    | CancelEv(id: int)
    | CancelOngoingEv

  function Apply(m: Manager, ev: Event): Manager {
    match ev
    case UpdateEv(d, title, indeterminate) => PostDownloadUpdate(m, d, title, indeterminate).next
    case CancelEv(id) => CancelNotification(m, id)
    case CancelOngoingEv => CancelOngoing(m)
  }

  function Trace(m: Manager, evs: seq<Event>): Manager
    decreases |evs|
  {
    if |evs| == 0 then m else Trace(Apply(m, evs[0]), evs[1..])
  }

  lemma ApplyKeepsBounded(m: Manager, ev: Event)
    requires Bounded(m)
    ensures Bounded(Apply(m, ev))
  {
    match ev
    case UpdateEv(d, title, indeterminate) =>
      if Cancels(FromDownload(d, title, indeterminate)) {
        PostDownloadUpdateCancels(m, d, title, indeterminate);
      } else {
        PostDownloadUpdateTracks(m, d, title, indeterminate);
      }
    case CancelEv(id) => CancelNotificationClears(m, id);
    case CancelOngoingEv => CancelOngoingShrinks(m);
  }

  /** Starting empty, the manager never tracks more than `MaxTracked + 1` notifications, whatever the calls. */
  lemma {:induction false} TraceKeepsBounded(m: Manager, evs: seq<Event>)
    requires Bounded(m)
    ensures Bounded(Trace(m, evs))
    decreases |evs|
  {
    if |evs| > 0 {
      ApplyKeepsBounded(m, evs[0]);
      TraceKeepsBounded(Apply(m, evs[0]), evs[1..]);
    }
  }
}
