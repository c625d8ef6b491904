# Native downloader: a Dafny model of its download registries and notification bookkeeping

The native downloader is a Capacitor plugin that downloads files on iOS and
Android on behalf of a web app. This project models the three pieces of its
own logic that sit around the download libraries it uses:

- **iOS task registry** (`NativeDownload`, in `ios_download.dfy`).
  - A dictionary from id to task. Each task has a six-valued status (Waiting, Processing, Paused, Canceled, Complete, Failed) and an optional transport request.
  - The list of destination URLs that have been started but not finished, which is kept in the user defaults.
  - Operations: `add`, `get`, `start`/`run`, `pause`, `resume`, `cancel` and `clean`.
  - The per-task callbacks `setProgress`, `setComplete`, `setFailed` and `setDownloaded`.
  - The transport's response handler, which settles the task and then runs the next Waiting task.
  - `generateFileURL`.
- **Android task registry and enqueue rule** (`NativeDownloaderPlugin` and `NativeDownloadTask`, in `android_plugin.dfy`).
  - An insertion-ordered map from id to task record, persisted as JSON.
  - The bridge calls `add`, `start`, `pause`, `resume` and `stop`.
  - The listener callbacks `onCancelled` and `onCompleted`.
  - The re-enqueue rule: when the library reports nothing DOWNLOADING, QUEUED or ADDED, every registered request is enqueued in ascending `index` order.
  - `getAvailableSize`, with 64-bit wrap-around.
- **Android notification bookkeeping** (`NativeDownloadFetchNotificationManager`, in `notification_manager.dfy`).
  - The notification map, the builder map (each builder remembered by the channel it was created on) and the set of excluded notification ids.
  - The operations `postDownloadUpdate`, `notify`, `cancelNotification` and `cancelOngoingNotifications`.
  - The pure helpers `getChannelId`, `updateNotification`, `getActionPendingIntent`, `getGroupActionPendingIntent`, `getSubtitleText` and `getEtaText`.

Modelling conventions:
- Every operation and callback is a pure function from a state to the next state.
- The effects an operation emits are returned in order, or appended to a log. Effects are bridge callbacks, transport or library commands, and OS notification calls.
- Anything the code asks the outside world for is an input:
  - free space;
  - the new request handle;
  - the dictionary's iteration order;
  - the library's list of active downloads;
  - the current time;
  - the notification title;
  - the indeterminate-progress flag.

Shared pieces:
- `common.dfy`: `Option`.
- `strings.dfy`: Kotlin's `removePrefix` and Foundation's `replacingOccurrences`.
- `ordered_map.dfy`: an insertion-ordered map, matching Kotlin's `LinkedHashMap` and Gson's map.
- `fetch.dfy`: the download library's `Status`, `Request` and `Download`.

The properties are in `ios_properties.dfy`, `android_properties.dfy` and `notification_properties.dfy`.

Behaviour of the code that the model keeps, because that is what the code does:
- **iOS `start` does not check for a transfer in flight.** Two tasks can be Processing at once (`StartIsNotSingleFlight`).
- **A cancelled iOS task stays registered.** The response handler does not look at the current status, so a cancel followed by the transport's error response ends in Failed (`CancelThenErrorFails`).
- **A failed iOS admission keeps any request the task already had.**
- **Android `add` overwrites an entry with the same id.** It also still stores the task and resolves the call after rejecting it for lack of space (`AddStoresDespiteReject`).
- **Android `start`, `pause`, `resume` and `stop` on an unknown id return without resolving the call.**
- **Android's sorted map uses a comparator that never answers "equal".** As a result, tasks with equal `index` are enqueued in reverse insertion order (`TiesComeOutReversed`, `TreeOrderReversesTies`).
- **Android never posts the group summary notification.** `updateGroupSummaryNotification` always answers false.
- **A notification builder keeps the channel it was created on.** A completion posted through a builder created while downloading therefore goes out on the silent channel (`NotificationProperties.PostChannel`).
- **`cancelNotification` can re-create the builder of the id it cancels.** This happens when the id is also its group's id, because re-notifying the group re-creates the summary builder.

## Model

| member | source | states |
|---|---|---|
| IosDownload.Init | ios/Plugin/NativeDownload.swift:59-64 | A new downloader has no tasks, keeps the downloading list left by earlier runs, and satisfies the registry invariant |
| IosDownload.GenerateFileUrlStripsScheme | ios/Plugin/NativeDownload.swift:263-268 | For colon-free parts, the destination is home + "/Documents" + path + "/" + fileName, and a path given with a leading "file://" yields the same destination |
| Strings.RemoveAllSinglePass | ios/Plugin/NativeDownload.swift:266 | Deleting "file://" is a single left-to-right pass: an occurrence formed by the deletion itself survives |
| Strings.RemoveAllIdentity | ios/Plugin/NativeDownload.swift:266 | A string lacking one of the pattern's characters is left unchanged by the deletion |
| Strings.RemoveAllAppend | ios/Plugin/NativeDownload.swift:266 | The deletion works piecewise across a prefix that cannot start or end an occurrence |
| IosDownload.Clean | ios/Plugin/NativeDownload.swift:70-83 | Asks to delete exactly the listed files, in list order; the list ends empty and the tasks are untouched |
| IosDownload.Add | ios/Plugin/NativeDownload.swift:85-95 | A known id leaves everything unchanged and emits nothing; a fresh id is registered as Waiting without a request, and Waiting is reported |
| IosProperties.AddIdempotent | ios/Plugin/NativeDownload.swift:85-95 | Adding the same task twice equals adding it once, and the second add is silent |
| IosDownload.Get | ios/Plugin/NativeDownload.swift:97-99 | The lookup finds exactly the registered ids |
| IosDownload.Start | ios/Plugin/NativeDownload.swift:105-113 | An unknown id changes nothing; a known id is run whatever its current status |
| IosDownload.Run | ios/Plugin/NativeDownload.swift:161-216 | Unknown or insufficient free space (not strictly above the size) gives Failed with the capacity message and leaves the list alone; otherwise the task becomes Processing with the new request and its destination is appended; no other task changes |
| IosProperties.StartIsNotSingleFlight | ios/Plugin/NativeDownload.swift:105-113 | Starting a Waiting task while another is Processing leaves both Processing |
| IosDownload.Pause | ios/Plugin/NativeDownload.swift:115-126 | Only a Processing task with a request is suspended and becomes Paused; in every other case nothing changes |
| IosDownload.Resume | ios/Plugin/NativeDownload.swift:128-139 | Only a Paused task with a request is resumed and becomes Processing; in every other case nothing changes |
| IosProperties.PauseThenResume | ios/Plugin/NativeDownload.swift:115-139 | Pausing a Processing task and resuming it restores the downloader, with suspend, Paused, resume, Processing as the effects |
| IosProperties.ResumeThenPause | ios/Plugin/NativeDownload.swift:115-139 | Resuming a Paused task and pausing it again restores the downloader |
| IosDownload.Cancel | ios/Plugin/NativeDownload.swift:141-155 | Only a task with a request that is Waiting, Processing or Paused is cancelled; it becomes Canceled and stays registered |
| IosProperties.CancelKeepsTask | ios/Plugin/NativeDownload.swift:141-155 | A cancelled task stays in the registry and a second cancel does nothing |
| IosProperties.CancelWaitingIsNoop | ios/Plugin/NativeDownload.swift:141-155 | Under the registry invariant a Waiting task has no request, so cancelling it does nothing |
| IosDownload.SetProgress | ios/Plugin/NativeDownload.swift:230-236 | Never changes the downloader; relays the fraction only for a registered id |
| IosDownload.SetComplete | ios/Plugin/NativeDownload.swift:238-246 | An unknown id is a no-op; otherwise the task becomes Complete and the status and completion callbacks fire in that order |
| IosDownload.SetFailed | ios/Plugin/NativeDownload.swift:248-261 | An unknown id is a no-op; otherwise the task becomes Failed and the status and failure callbacks fire in that order |
| IosDownload.RemoveFirst | ios/Plugin/NativeDownload.swift:218-228 | Removes one copy of the URL if present (multiset minus one), and leaves a list without it unchanged |
| IosDownload.RemoveFirstSplit | ios/Plugin/NativeDownload.swift:218-228 | Exactly the first matching entry is removed; the others keep their order |
| IosDownload.NextWaiting | ios/Plugin/NativeDownload.swift:209-212 | Picks a registered Waiting task listed in the iteration order, with no Waiting task listed before it, or none when no listed task is Waiting |
| IosDownload.Settle | ios/Plugin/NativeDownload.swift:196-207 | Error gives Failed plus the download-failed message; success gives Complete and deletes the destination from the list even for an unknown id; the current status is not checked; other tasks are untouched |
| IosDownload.RunNextWaiting | ios/Plugin/NativeDownload.swift:209-212 | Without a Waiting task nothing more happens; otherwise that task is run and its effects follow the handler's own |
| IosProperties.ResponseOverridesStatus | ios/Plugin/NativeDownload.swift:196-216 | After the whole handler the task is Failed or Complete whatever it was, keeps its request, and the list is the settled list plus at most one new destination |
| IosProperties.CancelThenErrorFails | ios/Plugin/NativeDownload.swift:196-201 | A cancelled transfer whose error response arrives ends Failed, not Canceled |
| IosProperties.ResponseRunsAWaitingTask | ios/Plugin/NativeDownload.swift:209-212 | If another task is Waiting, some Waiting task is run: Processing when admitted, Failed otherwise |
| IosProperties.ResponseWithoutWaitingStartsNothing | ios/Plugin/NativeDownload.swift:209-212 | With no Waiting task, the handler only settles its own task |
| IosProperties.RunThenSuccessRestoresList | ios/Plugin/NativeDownload.swift:161-228 | With no task Waiting and the destination not yet listed, admission followed by a successful response gives back the downloading list as it was |
| IosProperties.RunPreservesValid | ios/Plugin/NativeDownload.swift:161-216 | `run` keeps every task under its own id, with no request while Waiting and a request while Processing, Paused or Canceled |
| IosProperties.ResponsePreservesValid | ios/Plugin/NativeDownload.swift:196-212 | The response handler keeps the registry invariant |
| IosProperties.ApplyPreservesValid | ios/Plugin/NativeDownload.swift:85-155 | Every operation and callback keeps the registry invariant |
| IosProperties.TracePreservesValid | ios/Plugin/NativeDownload.swift:85-155 | The registry invariant holds after any sequence of operations and callbacks |
| AndroidPlugin.ToLong | android/src/main/java/jp/snuffy/cap/plugins/nativedownloader/NativeDownloaderPlugin.kt:331 | A Long result is in range, equals the exact value when that fits, and is congruent to it modulo 2^64 |
| AndroidPlugin.AvailableSize | android/src/main/java/jp/snuffy/cap/plugins/nativedownloader/NativeDownloaderPlugin.kt:325-334 | -1 without a path; otherwise block size times available blocks whenever that fits a Long |
| AndroidPlugin.NewTask | android/src/main/java/jp/snuffy/cap/plugins/nativedownloader/NativeDownloaderPlugin.kt:72-90 | The record keeps the id, takes the call time as index, loses one leading "file://" from the path, and gets a request for that path |
| AndroidPlugin.Add | android/src/main/java/jp/snuffy/cap/plugins/nativedownloader/NativeDownloaderPlugin.kt:68-104 | A declared size outside the 32-bit `Int` range of the record makes the JSON parse throw, so nothing is stored or resolved; otherwise stores the record under its id, replacing any entry with that id in place, leaves other entries unchanged, and puts a reject before the resolve when space is short |
| AndroidProperties.AddStripsOneScheme | android/src/main/java/jp/snuffy/cap/plugins/nativedownloader/NativeDownloaderPlugin.kt:72-75 | Exactly one leading "file://" is removed; the rest of the path is kept |
| AndroidProperties.AddStoresDespiteReject | android/src/main/java/jp/snuffy/cap/plugins/nativedownloader/NativeDownloaderPlugin.kt:95-103 | When space is short the call is rejected, yet the record is stored and the call resolved |
| AndroidPlugin.Insert | android/src/main/java/jp/snuffy/cap/plugins/nativedownloader/NativeDownloaderPlugin.kt:120 | One sorted-map insertion adds the task exactly once and nothing else |
| AndroidPlugin.InsertSorted | android/src/main/java/jp/snuffy/cap/plugins/nativedownloader/NativeDownloaderPlugin.kt:120 | Inserting into entries ordered by index keeps them ordered by index |
| AndroidPlugin.TreeOrder | android/src/main/java/jp/snuffy/cap/plugins/nativedownloader/NativeDownloaderPlugin.kt:120 | The sorted map holds the registry's tasks, each once, in ascending index order |
| AndroidProperties.TiesComeOutReversed | android/src/main/java/jp/snuffy/cap/plugins/nativedownloader/NativeDownloaderPlugin.kt:120 | Two tasks with the same index come out in reverse insertion order |
| AndroidProperties.TreeOrderReversesTies | android/src/main/java/jp/snuffy/cap/plugins/nativedownloader/NativeDownloaderPlugin.kt:120 | For every registry and every index, the tasks with that index appear in the enqueue order in the reverse of their registry order |
| AndroidProperties.RequestsPermutation | android/src/main/java/jp/snuffy/cap/plugins/nativedownloader/NativeDownloaderPlugin.kt:121-123 | Reordering the tasks reorders their non-null requests and nothing else |
| AndroidPlugin.EnqueueRule | android/src/main/java/jp/snuffy/cap/plugins/nativedownloader/NativeDownloaderPlugin.kt:115-127 | Requests are enqueued exactly when the library reports nothing DOWNLOADING, QUEUED or ADDED and the registry is not empty |
| AndroidProperties.EnqueuedRequestsAreSortedPermutation | android/src/main/java/jp/snuffy/cap/plugins/nativedownloader/NativeDownloaderPlugin.kt:115-127 | The enqueued list is every registered request exactly once, arranged by ascending index |
| AndroidPlugin.Start | android/src/main/java/jp/snuffy/cap/plugins/nativedownloader/NativeDownloaderPlugin.kt:106-130 | Never changes the registry; an unknown id emits nothing; a known id resolves and then applies the enqueue rule |
| AndroidPlugin.Pause | android/src/main/java/jp/snuffy/cap/plugins/nativedownloader/NativeDownloaderPlugin.kt:132-146 | Never changes the registry; pauses the entry's request if it has one, then resolves |
| AndroidPlugin.Resume | android/src/main/java/jp/snuffy/cap/plugins/nativedownloader/NativeDownloaderPlugin.kt:149-163 | Never changes the registry; resumes the entry's request if it has one, then resolves |
| AndroidPlugin.Stop | android/src/main/java/jp/snuffy/cap/plugins/nativedownloader/NativeDownloaderPlugin.kt:165-182 | An unknown id changes nothing; otherwise the request is removed from the library and the entry is deleted by its own id |
| AndroidProperties.StopRemovesExactlyId | android/src/main/java/jp/snuffy/cap/plugins/nativedownloader/NativeDownloaderPlugin.kt:176-179 | With entries stored under their ids, `stop` removes exactly the given id and keeps the rest |
| AndroidProperties.AddThenStopRestores | android/src/main/java/jp/snuffy/cap/plugins/nativedownloader/NativeDownloaderPlugin.kt:99-179 | Stopping a freshly added id gives back the registry as it was, order included |
| AndroidProperties.ReadOnlyTraceKeepsRegistry | android/src/main/java/jp/snuffy/cap/plugins/nativedownloader/NativeDownloaderPlugin.kt:106-163 | Any sequence of `start`, `pause` and `resume` calls, of any length, leaves the registry exactly as it was |
| AndroidPlugin.Without | android/src/main/java/jp/snuffy/cap/plugins/nativedownloader/NativeDownloaderPlugin.kt:202 | Drops exactly the entries whose request has the download's request id; entries without a request stay |
| AndroidPlugin.OnCancelled | android/src/main/java/jp/snuffy/cap/plugins/nativedownloader/NativeDownloaderPlugin.kt:199-210 | Keeps exactly the entries that do not belong to the download, unchanged, and relays its status |
| AndroidPlugin.OnCompleted | android/src/main/java/jp/snuffy/cap/plugins/nativedownloader/NativeDownloaderPlugin.kt:212-237 | Keeps exactly the entries that do not belong to the download, relays the completion, then applies the enqueue rule to what is left |
| AndroidProperties.ApplyKeepsIds | android/src/main/java/jp/snuffy/cap/plugins/nativedownloader/NativeDownloaderPlugin.kt:99 | Every call and callback keeps each entry stored under its own id |
| AndroidProperties.TraceKeepsIds | android/src/main/java/jp/snuffy/cap/plugins/nativedownloader/NativeDownloaderPlugin.kt:99 | Entries stay under their own ids across any sequence of calls and callbacks |
| NotificationManager.ChannelId | android/src/main/java/jp/snuffy/cap/plugins/nativedownloader/NativeDownloadFetchNotificationManager.kt:81-91 | The loud channel exactly when the id is tracked as completed or failed; the silent one otherwise |
| NotificationManager.ViewOf | android/src/main/java/jp/snuffy/cap/plugins/nativedownloader/NativeDownloadFetchNotificationManager.kt:112-173 | Download icon only while downloading; ongoing while queued or downloading; pause and cancel buttons while downloading, resume and cancel while paused, none otherwise; the library timeout while downloading, paused or queued, the reset timeout otherwise |
| NotificationProperties.ProgressBarClampIdempotent | android/src/main/java/jp/snuffy/cap/plugins/nativedownloader/NativeDownloadFetchNotificationManager.kt:127-134 | Building the bar again from a notification that already shows the bar's progress gives the same bar |
| NotificationProperties.ViewButtonsTargetOwnDownload | android/src/main/java/jp/snuffy/cap/plugins/nativedownloader/NativeDownloadFetchNotificationManager.kt:112-195 | Every button acts on its own notification's download and is not a group action; exactly downloading or paused notifications have buttons, the last of which cancels; failed or completed ones have none and an empty bar |
| NotificationManager.ProgressBarOf | android/src/main/java/jp/snuffy/cap/plugins/nativedownloader/NativeDownloadFetchNotificationManager.kt:127-134 | (0, 0, false) when failed or completed; otherwise max 0 if indeterminate and 100 if not, with negative progress clamped to 0 |
| NotificationManager.ActionPendingIntent | android/src/main/java/jp/snuffy/cap/plugins/nativedownloader/NativeDownloadFetchNotificationManager.kt:175-195 | The intent names the notification as both download and notification, is not a group action, and carries the action's code |
| NotificationManager.SingleAction | android/src/main/java/jp/snuffy/cap/plugins/nativedownloader/NativeDownloadFetchNotificationManager.kt:184-191 | Exactly the group actions map to the invalid code |
| NotificationManager.GroupAction | android/src/main/java/jp/snuffy/cap/plugins/nativedownloader/NativeDownloadFetchNotificationManager.kt:205-212 | Exactly the per-download actions map to the invalid code |
| NotificationManager.ActionCodesInjective | android/src/main/java/jp/snuffy/cap/plugins/nativedownloader/NativeDownloadFetchNotificationManager.kt:184-212 | Two actions with the same valid code are the same action |
| NotificationManager.SubtitleOf | android/src/main/java/jp/snuffy/cap/plugins/nativedownloader/NativeDownloadFetchNotificationManager.kt:348-357 | Completed, failed, paused, queued and unknown-time texts in that priority; otherwise the time left for a non-negative estimate |
| NotificationManager.EtaOf | android/src/main/java/jp/snuffy/cap/plugins/nativedownloader/NativeDownloadFetchNotificationManager.kt:359-382 | The hours format is used exactly from one hour left, minutes from one minute up to an hour, seconds below a minute (negative estimates included), and the seconds format shows the whole seconds left; partners: `EtaDecomposition`, `EtaUnique` |
| NotificationManager.EtaDecomposition | android/src/main/java/jp/snuffy/cap/plugins/nativedownloader/NativeDownloadFetchNotificationManager.kt:359-382 | For eta >= 0: minutes and seconds below 60, h*3600 + m*60 + s = eta/1000, and the hours, minutes or seconds format by the leading non-zero unit |
| NotificationManager.EtaUnique | android/src/main/java/jp/snuffy/cap/plugins/nativedownloader/NativeDownloadFetchNotificationManager.kt:359-364 | The split is the only one with minutes and seconds below 60 |
| NotificationManager.Init | android/src/main/java/jp/snuffy/cap/plugins/nativedownloader/NativeDownloadFetchNotificationManager.kt:26-28 | The manager starts with nothing tracked, no builders, no exclusions and no OS calls |
| NotificationManager.GetBuilder | android/src/main/java/jp/snuffy/cap/plugins/nativedownloader/NativeDownloadFetchNotificationManager.kt:316-320 | An existing builder is reused with its channel; a missing one is created on the id's current channel; nothing else changes |
| NotificationManager.Members | android/src/main/java/jp/snuffy/cap/plugins/nativedownloader/NativeDownloadFetchNotificationManager.kt:250 | Every member is a tracked notification of the group |
| NotificationProperties.TrackedIsMember | android/src/main/java/jp/snuffy/cap/plugins/nativedownloader/NativeDownloadFetchNotificationManager.kt:250 | Every tracked notification is among its group's members |
| NotificationManager.Visit | android/src/main/java/jp/snuffy/cap/plugins/nativedownloader/NativeDownloadFetchNotificationManager.kt:256-267 | An excluded notification is skipped; otherwise it is posted on its builder's channel, and excluded if failed or completed |
| NotificationManager.NotifyEach | android/src/main/java/jp/snuffy/cap/plugins/nativedownloader/NativeDownloadFetchNotificationManager.kt:255-269 | The loop only appends to the OS log, never touches tracking, and changes builders and exclusions only for the notifications it visits |
| NotificationProperties.NotifyEachPosts | android/src/main/java/jp/snuffy/cap/plugins/nativedownloader/NativeDownloadFetchNotificationManager.kt:255-269 | The loop posts exactly the notifications not excluded at its start, in order, each on the channel its builder has or gets |
| NotificationProperties.NotifyEachExcludes | android/src/main/java/jp/snuffy/cap/plugins/nativedownloader/NativeDownloadFetchNotificationManager.kt:255-268 | The loop adds to the exclusions exactly the failed and completed notifications it posted |
| NotificationManager.Notify | android/src/main/java/jp/snuffy/cap/plugins/nativedownloader/NativeDownloadFetchNotificationManager.kt:248-274 | Never changes tracking; keeps existing builders' channels; new builders and exclusions only for the group id and its members |
| NotificationProperties.SummaryBuilderKeepsChannels | android/src/main/java/jp/snuffy/cap/plugins/nativedownloader/NativeDownloadFetchNotificationManager.kt:251 | Creating the group's summary builder changes no member's channel |
| NotificationProperties.NotifyExact | android/src/main/java/jp/snuffy/cap/plugins/nativedownloader/NativeDownloadFetchNotificationManager.kt:248-274 | `notify` posts exactly the group's members that are not excluded, in tracking order, and excludes exactly the failed and completed ones among them; no summary is posted |
| NotificationManager.CancelNotification | android/src/main/java/jp/snuffy/cap/plugins/nativedownloader/NativeDownloadFetchNotificationManager.kt:218-229 | Dismisses the id first and stops tracking it; for an untracked id only the builder and exclusion are dropped; a tracked id's group is re-notified |
| NotificationProperties.CancelNotificationClears | android/src/main/java/jp/snuffy/cap/plugins/nativedownloader/NativeDownloadFetchNotificationManager.kt:218-229 | Afterwards the id is neither tracked nor excluded, and it keeps a builder only when it is its own group's id |
| NotificationProperties.CancelNotificationIdempotent | android/src/main/java/jp/snuffy/cap/plugins/nativedownloader/NativeDownloadFetchNotificationManager.kt:218-229 | Cancelling again only dismisses again and drops a re-made builder |
| NotificationManager.CancelIfOngoing | android/src/main/java/jp/snuffy/cap/plugins/nativedownloader/NativeDownloadFetchNotificationManager.kt:236-243 | One iteration stops tracking the visited entry exactly when it is neither failed nor completed and leaves every other entry alone |
| NotificationManager.CancelOngoing | android/src/main/java/jp/snuffy/cap/plugins/nativedownloader/NativeDownloadFetchNotificationManager.kt:231-246 | Every entry still tracked afterwards was tracked before, is unchanged and is failed or completed; partners: `CancelOngoingKeepsTerminal`, `CancelOngoingIdempotent` |
| NotificationProperties.CancelOngoingKeepsTerminal | android/src/main/java/jp/snuffy/cap/plugins/nativedownloader/NativeDownloadFetchNotificationManager.kt:231-246 | Exactly the entries that are neither failed nor completed are dropped; the others stay as they were |
| NotificationProperties.CancelOngoingIdempotent | android/src/main/java/jp/snuffy/cap/plugins/nativedownloader/NativeDownloadFetchNotificationManager.kt:231-246 | A second `cancelOngoingNotifications` changes nothing at all |
| NotificationProperties.CancelOngoingShrinks | android/src/main/java/jp/snuffy/cap/plugins/nativedownloader/NativeDownloadFetchNotificationManager.kt:231-246 | Never tracks more than before and keeps every notification under its own id |
| NotificationManager.FromDownload | android/src/main/java/jp/snuffy/cap/plugins/nativedownloader/NativeDownloadFetchNotificationManager.kt:290-300 | The record takes its id, group and status from the download |
| NotificationManager.Record | android/src/main/java/jp/snuffy/cap/plugins/nativedownloader/NativeDownloadFetchNotificationManager.kt:286-305 | Above 50 tracked entries both maps are emptied first while the exclusions survive; the download is then tracked under its id, and its exclusion lifted unless failed or completed; at most 51 entries remain |
| NotificationManager.PostDownloadUpdate | android/src/main/java/jp/snuffy/cap/plugins/nativedownloader/NativeDownloadFetchNotificationManager.kt:311 | Always answers true |
| NotificationProperties.PostDownloadUpdateCancels | android/src/main/java/jp/snuffy/cap/plugins/nativedownloader/NativeDownloadFetchNotificationManager.kt:306-307 | A cancelled, removed, deleted or paused download is dismissed before any other OS call, and is neither tracked nor excluded afterwards |
| NotificationProperties.PostDownloadUpdateTracks | android/src/main/java/jp/snuffy/cap/plugins/nativedownloader/NativeDownloadFetchNotificationManager.kt:284-311 | Any other download stays tracked with its new state and is excluded afterwards exactly when it failed or completed |
| NotificationProperties.PostChannel | android/src/main/java/jp/snuffy/cap/plugins/nativedownloader/NativeDownloadFetchNotificationManager.kt:316-320 | A builder kept from earlier keeps its channel; a new one is loud exactly for a failed or completed download |
| NotificationProperties.PostDownloadUpdatePosts | android/src/main/java/jp/snuffy/cap/plugins/nativedownloader/NativeDownloadFetchNotificationManager.kt:302-310 | The download's notification is posted unless it is failed or completed and already excluded, in which case nothing is posted for it |
| NotificationProperties.ApplyKeepsBounded | android/src/main/java/jp/snuffy/cap/plugins/nativedownloader/NativeDownloadFetchNotificationManager.kt:284-313 | Each update or cancel keeps notifications under their own ids and at most 51 tracked |
| NotificationProperties.TraceKeepsBounded | android/src/main/java/jp/snuffy/cap/plugins/nativedownloader/NativeDownloadFetchNotificationManager.kt:286-289 | Whatever the sequence of updates and cancels, at most 51 notifications are tracked |

## Left out

- Transport and library internals: Alamofire requests and Fetch's queue are opaque handles and commands in the effect list. Progress fractions are passed through as `real`, without floating-point rounding.
- Locks (`NSLock`, `synchronized`): each operation is one atomic step.
- The delay in Android `start` and `onCompleted`: `start` resolves the call and `onCompleted` sends its completion notice, and only later, in the library's `getDownloadsWithStatus` callback, does either re-read the registry and apply the enqueue rule. The model applies the rule at once, with the library's answer given as input. For `start` it uses the same registry, and for `onCompleted` the registry it has just filtered. So an `add` or `stop` that lands between the first step and the callback is not modelled.
- Persistence: the Gson JSON and `SharedPreferences` round trip, and the user-defaults wrapper. These are plain values here, assuming the map order survives the round trip.
- `URL(fileURLWithPath:)` and `absoluteString` on iOS: the destination is the plain path after deleting "file://". The `URL(string:)` failure skipped in `clean` is not modelled.
- File deletion is an effect (`RemoveFile`). Free space (`NativeDownloadSystem.freeSize`, `StatFs`) and the current time are inputs.
- `list()` and `echo`: pure reads with no logic.
- The Android listener callbacks other than `onCancelled` and `onCompleted`, which only relay events.
- Notification channel creation, broadcast receivers, PendingIntent request codes, the integer values of the action codes, and the styling of the group summary.
- Flags the download library derives from a status:
  - failed, completed, paused, queued and downloading are the status tests;
  - "cancelled notification" is Cancelled, Removed or Deleted;
  - "on-going" is Queued or Downloading.
- `progressIndeterminate` and `getDownloadNotificationTitle` are inputs to `postDownloadUpdate`.
- Behaviour the code does not have, and so neither does the model:
  - single-flight transfers on iOS;
  - removing finished or cancelled iOS tasks;
  - ignoring stale transport callbacks;
  - resetting tasks on restart.
- IosDownload.GenerateFileUrl: the function's own contract is only a length bound. The exact destination is proved by `GenerateFileUrlStripsScheme` for colon-free parts, because a general statement about the single-pass deletion adds nothing the lemmas do not already show.
- IosDownload.OnResponse: it has no contract of its own. Its behaviour is stated by `Settle`, `RunNextWaiting` and the response lemmas.
- AndroidPlugin.Add: a non-integral declared size, which also makes the JSON parse throw, cannot be expressed in the model's integer parameters. What the bridge does with the thrown exception is not modelled, so the failed call has no effects in the model.
- The plugin names a `NativeDownloadTask` from its own package, and that file is not part of this model. The record's fields and their widths, including the 32-bit `size`, follow the declaration in `android/src/main/java/jp/snuffy/capacitor/native/downloader/NativeDownloadTask.kt`.
- AndroidPlugin.AvailableSize: when the product does not fit a Long, the contract only says that the result is a Long. The body wraps it with `ToLong`.
- NotificationManager.PostDownloadUpdate: its own contract states only the answer. What it does to the state is stated by the `PostDownloadUpdate*` lemmas.
