# SSLazyList in Dafny

SSLazyList is a SwiftUI list component. It adds three behaviours to a plain
list:

- a slide-in animation for rows as they appear, driven by the scroll direction;
- pull-to-refresh at the top edge;
- "load more" at the bottom edge, armed by pulling past the bottom or by the
  last row coming into view.

It also shows "loading" and "no data" placeholders when there are no rows.

This project models the component's logic and proves properties of it. The
view hierarchy, the Combine pipelines and real time are not modelled.

- `geometry.dfy` (`Geometry`): a raw `CGRect` (origin and size, as stored).
  It has the standardized accessors `minX`, `minY`, `width` and `height`
  that the trackers read.
- `view_type.dfy` (`ViewTypes`): `SSViewType`, its `description`, and its
  `==`, which compares descriptions.
- `cell_animator.dfy` (`CellAnimator`): `SSCellAnimationType` with `times`,
  `description` and `==`. It also has the offset switch of
  `calculateOffsetForAnimation`, the scroll-direction observer, the
  appear/disappear handlers, and the `SSListCellAnimator` modifier as a class
  over its `@State` fields.
- `refresher.dfy` (`ListRefresher`): the pull-to-refresh tracker
  `SSListRefresher`. It is a class whose methods are each specified by a pure
  `Step` function over the tracker's state. The same function drives the
  trace lemmas: at most one trigger per pull, no re-fire without a
  retraction, and a disabled tracker stays disabled.
- `page_loader.dfy` (`PageLoader`): the load-more tracker `SSNewPageLoader`,
  built the same way. Its trace lemma: at most one load is scheduled per
  completion.
- `config.dfy` (`Config`): `SSConfigLazyList`. It holds the defaults, the
  convenience initialisers, the setters, and `onResponseAllowLoading`
  forwarding to the stored completion handle.
- `lazy_list.dfy` (`LazyList`): the list host. It covers:
  - the list / "no data" / "loading" / nothing choice and the placeholder
    switches;
  - the split of the rows into first, middle and last, with the animators
    and observers each row gets;
  - when the two trackers are mounted, and the load-more margin
    `notifyVariableHeight`;
  - re-arming load-more when a refresh starts;
  - the merge of measurements into the load-more indicator's frame.
- `legacy_config.dfy` (`LegacyConfig`) and `legacy_lazy_list.dfy`
  (`LegacyLazyList`): the earlier configuration object and list, which have
  no refresh or load-more.
- `pagination.dfy` (`Pagination`): `DataPaginationService.paginateData`.
- `optional.dfy` (`Optional`): an option type for Swift optionals.

Deferred work is explicit in the model:

- A block handed to `DispatchQueue.main.async` goes on a FIFO `queue`. The
  `RunQueued` event runs the oldest one, and the block re-reads the state
  when it runs, as the closures do.
- `asyncAfter` timers (the 0.7-second load delay and the 2-second cooldown)
  are counters. `LoadDelayElapsed` and `CooldownElapsed` events fire them.
- The debounced publisher delivering a value is a `TriggerReceived` event.
- A tracker counts the values it sends (`sent`) and the calls it makes to the
  host's `onRefresh` / `onPageLoad` (`refreshRequests`, `loadRequests`).

Coordinates are `real`. A rect equals `.zero` only when all four stored
components are zero, which is Swift's `CGRect ==`.

Under `.auto` with the scroll direction `.top`, the animator moves a new cell
in from above: the offset is `(0, -distance)`
(`SSLazyList/Sources/SSLazyList/SSListCellAnimator.swift:209-212`), as
`CellAnimator.OffsetScrollingUp` states.

## Model

| member | source | states |
|---|---|---|
| ViewTypes.Description | Sources/SSViewType.swift:42-51 | each case's description is its case name, and the three names are distinct |
| ViewTypes.Same | Sources/SSViewType.swift:55-57 | `==` compares the descriptions; characterized by `ViewTypes.SameIffSameCase` |
| ViewTypes.SameIffSameCase | Sources/SSViewType.swift:55-57 | `==` holds exactly between values of the same case |
| ViewTypes.CustomViewsAreSame | Sources/SSViewType.swift:55-57 | any two custom views compare equal, and these are the only distinct values `==` identifies |
| ViewTypes.SameIsEquivalence | Sources/SSViewType.swift:55-57 | `==` is reflexive, symmetric and transitive |
| ViewTypes.NotNoneMeansShown | Sources/SSViewType.swift:55-57 | `x != .none` holds exactly for `.system` and custom views |
| CellAnimator.Timing | SSLazyList/Sources/SSLazyList/SSListCellAnimator.swift:42-51 | the `times` property; characterized by `CellAnimator.TimingFollowsPayload` |
| CellAnimator.Description | SSLazyList/Sources/SSLazyList/SSListCellAnimator.swift:66-81 | the case name of each value, payload ignored |
| CellAnimator.Same | SSLazyList/Sources/SSLazyList/SSListCellAnimator.swift:88-90 | `==` compares descriptions; characterized by `CellAnimator.SameIffSameCase` |
| CellAnimator.OffsetForAnimation | SSLazyList/Sources/SSLazyList/SSListCellAnimator.swift:187-228 | `calculateOffsetForAnimation`: zero once visible, otherwise the switch in its case order; specified by the `Offset…` lemmas below |
| CellAnimator.NextDirection | SSLazyList/Sources/SSLazyList/SSListCellAnimator.swift:127-138 | the `didSet` direction choice; specified by `CellAnimator.NextDirectionIsKnown` |
| CellAnimator.CellStep | SSLazyList/Sources/SSLazyList/SSListCellAnimator.swift:127-174 | one scroll, appear or disappear event on the animator's state; the methods of `CellAnimator.SSListCellAnimator` are specified by it |
| CellAnimator.TimingFollowsPayload | SSLazyList/Sources/SSLazyList/SSListCellAnimator.swift:42-51 | `times` is the payload of `auto`/`fromTop`/`fromBottom`; only those can be `.always` |
| CellAnimator.SameIffSameCase | SSLazyList/Sources/SSLazyList/SSListCellAnimator.swift:66-90 | `==` compares descriptions, so it holds exactly between values of the same case |
| CellAnimator.SameIgnoresPayload | SSLazyList/Sources/SSLazyList/SSListCellAnimator.swift:88-90 | `==` ignores the animation and the `Times` payload |
| CellAnimator.VisibleCellHasNoOffset | SSLazyList/Sources/SSLazyList/SSListCellAnimator.swift:187-190 | a visible cell is offset by zero |
| CellAnimator.OffsetScrollingDown | SSLazyList/Sources/SSLazyList/SSListCellAnimator.swift:201-226 | scrolling to the bottom: `auto`/`fromBottom` start `distance` below, `fromRight` right, `fromLeft` left, `fromTop`/`none` not moved |
| CellAnimator.OffsetScrollingUp | SSLazyList/Sources/SSLazyList/SSListCellAnimator.swift:201-224 | scrolling to the top: `auto`/`fromTop` start `distance` above; all others not moved |
| CellAnimator.OffsetWithoutDirection | SSLazyList/Sources/SSLazyList/SSListCellAnimator.swift:194-200 | with no direction, only `fromTop` (above) and `fromBottom` (below) are moved |
| CellAnimator.OffsetIsAxisAligned | SSLazyList/Sources/SSLazyList/SSListCellAnimator.swift:187-227 | every offset is zero or on one axis at the full distance; horizontal only for the side types, vertical only for the vertical types |
| CellAnimator.NextDirectionIsKnown | SSLazyList/Sources/SSLazyList/SSListCellAnimator.swift:127-138 | a new position gives `.bottom` exactly when it is further down, otherwise `.top`, never `.none` |
| CellAnimator.DirectionStaysKnown | SSLazyList/Sources/SSLazyList/SSListCellAnimator.swift:114-138 | starting from `.bottom`, no sequence of events leads to `.none` |
| CellAnimator.OnceCellNeverReanimates | SSLazyList/Sources/SSLazyList/SSListCellAnimator.swift:167-174 | a `.once` cell that has appeared stays visible with zero offset after any events |
| CellAnimator.AlwaysCellReanimates | SSLazyList/Sources/SSLazyList/SSListCellAnimator.swift:167-174 | an `.always` cell is invisible after disappearing and visible again after reappearing |
| CellAnimator.SSListCellAnimator.constructor | SSLazyList/Sources/SSLazyList/SSListCellAnimator.swift:110-120 | a new animator: direction `.bottom`, distance 700, not visible, at position zero |
| CellAnimator.SSListCellAnimator.SetScrollPosition | SSLazyList/Sources/SSLazyList/SSListCellAnimator.swift:127-139 | stores the position and sets the direction from the old and new `y`; visibility unchanged |
| CellAnimator.SSListCellAnimator.OnAppear | SSLazyList/Sources/SSLazyList/SSListCellAnimator.swift:167-169 | the cell becomes visible and its offset zero |
| CellAnimator.SSListCellAnimator.OnDisappear | SSLazyList/Sources/SSLazyList/SSListCellAnimator.swift:170-174 | visibility resets only for `.always` |
| ListRefresher.Initial | Sources/SSListRefresher.swift:21-45 | a new tracker is armed, not stopped and has nothing queued |
| ListRefresher.InBand | Sources/SSListRefresher.swift:64-66 | `refresherView`'s band: sentinel below the indicator's top and above three times the larger height |
| ListRefresher.PastThreshold | Sources/SSListRefresher.swift:89-92 | the sentinel is more than 8 below the indicator's top and more than height + 20 down |
| ListRefresher.Track | Sources/SSListRefresher.swift:84-113 | `trackRefreshableEvent`; specified by `ListRefresher.FireConditions` |
| ListRefresher.RunBlock | Sources/SSListRefresher.swift:94-109 | a main-queue block re-reads `enableCallback` when it runs |
| ListRefresher.Step | Sources/SSListRefresher.swift:49-123 | one event on the tracker's state; the class methods are specified by it |
| ListRefresher.IndicatorHeight | Sources/SSListRefresher.swift:64-74 | inside the band the indicator frame is positive and reaches from the indicator's top to the sentinel |
| ListRefresher.InactiveIgnoresGeometry | Sources/SSListRefresher.swift:49-59 | while inactive, samples and triggers change nothing |
| ListRefresher.StoppedIgnoresGeometry | Sources/SSListRefresher.swift:84-86 | while `stopNotifying`, samples change nothing |
| ListRefresher.FireConditions | Sources/SSListRefresher.swift:84-101 | a send happens exactly when a fire block runs while armed, and it disarms; a fire block is queued exactly for an active, unstopped, armed tracker whose sentinel is in the band and past height + 20 |
| ListRefresher.StepCredit | Sources/SSListRefresher.swift:84-111 | sends plus re-arm credit never grow by one step, except through a sample in the retracted zone |
| ListRefresher.SendsBoundedByRetractions | Sources/SSListRefresher.swift:84-111 | over any run, sends plus credit grow by at most the number of retracting samples |
| ListRefresher.AtMostOneSendPerPull | Sources/SSListRefresher.swift:84-111 | from a new tracker, sends are at most one more than the re-arming samples (retracted samples taken while disarmed) |
| ListRefresher.NoRefireWithoutRetraction | Sources/SSListRefresher.swift:89-110 | a disarmed tracker with no re-arm queued sends nothing more until a re-arming sample; `ListRefresher.SendLeavesNoReArm` shows every send leaves such a state |
| ListRefresher.StepShaped | Sources/SSListRefresher.swift:93-110 | every step keeps the queue's shape: re-arm blocks ahead of fire blocks while armed, fire blocks ahead of re-arm blocks while disarmed |
| ListRefresher.RunShaped | Sources/SSListRefresher.swift:93-110 | the queue's shape holds after any run |
| ListRefresher.SendLeavesNoReArm | Sources/SSListRefresher.swift:93-99 | a send leaves the tracker disarmed with no re-arm block queued |
| ListRefresher.NoRefireAfterSend | Sources/SSListRefresher.swift:84-113 | in any run of a new tracker, after a send nothing more is sent until the sentinel comes back to the retracted zone |
| ListRefresher.SentNeverDecreases | Sources/SSListRefresher.swift:93-99 | the send count never decreases |
| ListRefresher.DisabledForGood | Sources/SSListRefresher.swift:49-59 | once inactive, and with no completion allowing more, it stays inactive, never calls `onRefresh`, and sends only fire blocks already queued |
| ListRefresher.CompletionThenCooldown | Sources/SSListRefresher.swift:115-123 | `stopObserving` sets `stopNotifying`, `isActive := allowMore` and `isRefreshing := false` and starts a cooldown, whose end clears `stopNotifying` |
| ListRefresher.TriggerStartsRefresh | Sources/SSListRefresher.swift:52-55 | a received trigger sets `isRefreshing` and calls `onRefresh` once |
| ListRefresher.RearmAfterCooldown | Sources/SSListRefresher.swift:84-123 | completion allowing more, cooldown, retraction, then a deep pull: exactly one more send |
| ListRefresher.PullSequenceSendsOnce | Sources/SSListRefresher.swift:62-113 | indicator height 50, sentinel pulled through 0, 10, 30, 55, 72, 76, 80: one send, at 72 |
| ListRefresher.SSListRefresher.constructor | Sources/SSListRefresher.swift:27-45 | the tracker starts in `Initial` |
| ListRefresher.SSListRefresher.Body | Sources/SSListRefresher.swift:49-82 | one evaluation of `body`/`refresherView` is one sample step; inactive or stopped, nothing changes |
| ListRefresher.SSListRefresher.TrackRefreshableEvent | Sources/SSListRefresher.swift:84-113 | queues a fire block past the threshold while armed, a re-arm block in the retracted zone while disarmed, otherwise nothing |
| ListRefresher.SSListRefresher.RunQueued | Sources/SSListRefresher.swift:94-109 | runs the oldest block, which re-checks `enableCallback` before toggling it |
| ListRefresher.SSListRefresher.ReceiveTrigger | Sources/SSListRefresher.swift:52-55 | sets `isRefreshing` and requests a refresh |
| ListRefresher.SSListRefresher.StopObserving | Sources/SSListRefresher.swift:115-123 | the completion step |
| ListRefresher.SSListRefresher.CooldownElapsed | Sources/SSListRefresher.swift:120-122 | the oldest cooldown ends and clears `stopNotifying` |
| PageLoader.Initial | Sources/SSLazyList/SSNewPageLoader.swift:45-49 | a new tracker is armed, not stopped, not loading, with nothing queued or pending |
| PageLoader.Tracked | Sources/SSLazyList/SSNewPageLoader.swift:72-79 | the sentinel is measured and its top is at or above the indicator's top |
| PageLoader.NotifyAtHeight | Sources/SSLazyList/SSNewPageLoader.swift:107 | the rise needed: the indicator's height plus `notifyVariableHeight` |
| PageLoader.PastThreshold | Sources/SSLazyList/SSNewPageLoader.swift:109 | the outer test of `trackRefreshableEvent` |
| PageLoader.Track | Sources/SSLazyList/SSNewPageLoader.swift:102-128 | `trackRefreshableEvent`; specified by `PageLoader.SendConditions` |
| PageLoader.Step | Sources/SSLazyList/SSNewPageLoader.swift:53-136 | one event on the tracker's state; the class methods are specified by it |
| PageLoader.FrameHeight | Sources/SSLazyList/SSNewPageLoader.swift:83-90 | the indicator frame is the sentinel's rise above the indicator's top, clamped to [0, height] |
| PageLoader.InnerTestIsOuterTest | Sources/SSLazyList/SSNewPageLoader.swift:107-112 | the inner test `newHeight > notifyAtHeight` is the outer test restated |
| PageLoader.UntrackedSampleQueuesNothing | Sources/SSLazyList/SSNewPageLoader.swift:71-81 | a zero sentinel, or one below the indicator's top, only updates the sentinel |
| PageLoader.SendConditions | Sources/SSLazyList/SSNewPageLoader.swift:102-128 | a send is queued exactly when tracked, not stopped, armed and past height + margin; a re-enable exactly when tracked, not stopped, disarmed and not past |
| PageLoader.TriggerSchedulesOnce | Sources/SSLazyList/SSNewPageLoader.swift:56-67 | every trigger disarms; a load is scheduled only when not stopped and not loading; a second trigger changes nothing |
| PageLoader.DelayedLoadCallsOnPageLoad | Sources/SSLazyList/SSNewPageLoader.swift:62-65 | the delayed step resets the sentinel to zero and calls `onPageLoad` |
| PageLoader.CompletionThenCooldown | Sources/SSLazyList/SSNewPageLoader.swift:129-136 | `stopRefreshing` sets its three fields and starts a cooldown; a trigger during the cooldown schedules nothing, and the cooldown's end clears `stopRefresh` |
| PageLoader.StepLoads | Sources/SSLazyList/SSNewPageLoader.swift:53-68 | one step schedules a load only by turning `isPageLoading` on; only a completion turns it off |
| PageLoader.LoadsBoundedByCompletions | Sources/SSLazyList/SSNewPageLoader.swift:53-136 | over any run, scheduled loads grow by at most the completions |
| PageLoader.AtMostOneLoadPerCompletion | Sources/SSLazyList/SSNewPageLoader.swift:53-136 | from a new tracker, scheduled loads are at most one more than the completions |
| PageLoader.SSNewPageLoader.constructor | Sources/SSLazyList/SSNewPageLoader.swift:28-50 | the tracker starts in `Initial` with the given margin |
| PageLoader.SSNewPageLoader.Body | Sources/SSLazyList/SSNewPageLoader.swift:53-99 | a new sentinel followed by `loadMoreView` is one sample step |
| PageLoader.SSNewPageLoader.TrackRefreshableEvent | Sources/SSLazyList/SSNewPageLoader.swift:102-128 | queues a send past the threshold while armed, a re-enable otherwise while disarmed |
| PageLoader.SSNewPageLoader.RunQueued | Sources/SSLazyList/SSNewPageLoader.swift:114-124 | runs the oldest block: a send, or re-arming |
| PageLoader.SSNewPageLoader.ReceiveTrigger | Sources/SSLazyList/SSNewPageLoader.swift:56-67 | disarms, and starts a load unless stopped or loading |
| PageLoader.SSNewPageLoader.LoadDelayElapsed | Sources/SSLazyList/SSNewPageLoader.swift:62-65 | the oldest load delay ends: sentinel reset, `onPageLoad` called |
| PageLoader.SSNewPageLoader.StopRefreshing | Sources/SSLazyList/SSNewPageLoader.swift:129-136 | the completion step |
| PageLoader.SSNewPageLoader.CooldownElapsed | Sources/SSLazyList/SSNewPageLoader.swift:133-135 | the oldest cooldown ends and clears `stopRefresh` |
| Config.DefaultsAreOff | Sources/SSConfigLazyList.swift:17-27 | by default no animation, no refresh, no load-more, no placeholders, no stored handle |
| Config.LastSetWins | Sources/SSConfigLazyList.swift:78-108 | every setter called twice, interleaved: the last value of each field wins, fields do not interfere, the stored handle is untouched |
| Config.ResponseCall | Sources/SSConfigLazyList.swift:113-115 | the stored handle is called with `allow`; with none stored, nothing is called |
| Config.SSConfigLazyList.constructor | Sources/SSConfigLazyList.swift:31 | every field at its default |
| Config.SSConfigLazyList.WithAnimator | Sources/SSConfigLazyList.swift:36-39 | defaults with the given animation |
| Config.SSConfigLazyList.WithLoadingView | Sources/SSConfigLazyList.swift:44-47 | defaults with the given loading view |
| Config.SSConfigLazyList.WithDataNotFound | Sources/SSConfigLazyList.swift:52-55 | defaults with the given "no data" view |
| Config.SSConfigLazyList.WithPullToRefresh | Sources/SSConfigLazyList.swift:60-64 | defaults with pull-to-refresh set |
| Config.SSConfigLazyList.WithPageLoading | Sources/SSConfigLazyList.swift:69-72 | defaults with load-more set |
| Config.SSConfigLazyList.SetNewCellAnimation | Sources/SSConfigLazyList.swift:78-80 | replaces the animation only |
| Config.SSConfigLazyList.SetLoadingView | Sources/SSConfigLazyList.swift:85-87 | replaces the loading view only |
| Config.SSConfigLazyList.SetNoDataView | Sources/SSConfigLazyList.swift:92-94 | replaces the "no data" view only |
| Config.SSConfigLazyList.SetReloadType | Sources/SSConfigLazyList.swift:99-101 | replaces the pull-to-refresh setting only |
| Config.SSConfigLazyList.SetLoadMoreType | Sources/SSConfigLazyList.swift:106-108 | replaces the load-more setting only |
| Config.SSConfigLazyList.StoreCompletion | Sources/SSLazyList/SSLazyList.swift:91-93 | the list stores the handed-out completion in `dataLoadingClosure`, nothing else |
| Config.SSConfigLazyList.OnResponseAllowLoading | Sources/SSConfigLazyList.swift:113-115 | calls the stored completion with `allow`, changes no field |
| LegacyConfig.LastSetWins | SSLazyList/Sources/SSLazyList/SSConfigLazyList.swift:53-69 | every setter called twice, interleaved: the last value of each field wins |
| LegacyConfig.SSConfigLazyList.constructor | SSLazyList/Sources/SSLazyList/SSConfigLazyList.swift:16-26 | every field at its default |
| LegacyConfig.SSConfigLazyList.WithAnimator | SSLazyList/Sources/SSLazyList/SSConfigLazyList.swift:31-33 | defaults with the given animation |
| LegacyConfig.SSConfigLazyList.WithProgressIndicator | SSLazyList/Sources/SSLazyList/SSConfigLazyList.swift:38-40 | defaults with the given loading view |
| LegacyConfig.SSConfigLazyList.WithDataNotFound | SSLazyList/Sources/SSLazyList/SSConfigLazyList.swift:45-47 | defaults with the given "no data" view |
| LegacyConfig.SSConfigLazyList.SetNewCellAnimation | SSLazyList/Sources/SSLazyList/SSConfigLazyList.swift:53-55 | replaces the animation only |
| LegacyConfig.SSConfigLazyList.SetLoadingView | SSLazyList/Sources/SSLazyList/SSConfigLazyList.swift:60-62 | replaces the loading view only |
| LegacyConfig.SSConfigLazyList.SetNoDataView | SSLazyList/Sources/SSLazyList/SSConfigLazyList.swift:67-69 | replaces the "no data" view only |
| LegacyLazyList.LoadListWrapper | SSLazyList/Sources/SSLazyList/SSLazyList.swift:63-79 | rows exactly for non-empty data, one per item in order, animated iff the animation is not `.none`; "no data" placeholder for empty data with a view set; otherwise the loading placeholder if set; never an empty placeholder |
| LegacyLazyList.SameChoiceAsCurrentList | SSLazyList/Sources/SSLazyList/SSLazyList.swift:63-79 | the earlier list chooses list / "no data" / loading / nothing exactly as the current list does |
| LazyList.WrapperState | Sources/SSLazyList/SSLazyList.swift:72-178 | the list exactly for non-empty data; "no data" exactly for empty (not absent) data with a view set; "loading" exactly otherwise with a loading view set |
| LazyList.DataNotFoundView | Sources/SSLazyList/SSLazyList.swift:294-304 | `getDataNotFoundView`'s switch; characterized by `LazyList.PlaceholderMapping` |
| LazyList.DefaultProgressView | Sources/SSLazyList/SSLazyList.swift:306-316 | `getDefaultProgressView`'s switch; characterized by `LazyList.PlaceholderMapping` |
| LazyList.PlaceholderMapping | Sources/SSLazyList/SSLazyList.swift:294-316 | `.system` gives the built-in message, a custom view itself, and an empty view exactly for `.none` |
| LazyList.ChosenPlaceholderIsShown | Sources/SSLazyList/SSLazyList.swift:171-177 | a chosen placeholder is never the empty view |
| LazyList.MiddleRows | Sources/SSLazyList/SSLazyList.swift:134-141 | the `ForEach` keeping items whose id is neither the first's nor the last's |
| LazyList.RowsAsWritten | Sources/SSLazyList/SSLazyList.swift:124-149 | the rows as the list body builds them, the last with two animators |
| LazyList.Rows | Sources/SSLazyList/SSLazyList.swift:124-149 | the corrected rows, one animator per row |
| LazyList.MiddleRowsKeepAll | Sources/SSLazyList/SSLazyList.swift:134-141 | items carrying neither end's id are all kept in order, without observers |
| LazyList.MiddleRowsSkip | Sources/SSLazyList/SSLazyList.swift:134-141 | an item with the first's or the last's id gives no middle row |
| LazyList.MiddleOfDistinct | Sources/SSLazyList/SSLazyList.swift:134-141 | with distinct ids, the middle rows are exactly the items strictly between the ends |
| LazyList.MiddleRowsAnimators | Sources/SSLazyList/SSLazyList.swift:134-141 | each middle row has one animator when animation applies, none otherwise |
| LazyList.RowsReproduceData | Sources/SSLazyList/SSLazyList.swift:124-149 | with distinct ids the rows are the data in order; only the last has the last-row modifier; only the first can observe the refresh sentinel, and it does exactly when refresh is configured and nothing is loading |
| LazyList.AsWrittenDiffersOnlyInLastAnimator | Sources/SSLazyList/SSLazyList.swift:124-149 | the rows as written equal the corrected rows except that the last row's animator count is doubled |
| LazyList.RowsAsWrittenReproduceData | Sources/SSLazyList/SSLazyList.swift:124-149 | the rows the list renders are the data in order; only the last has the last-row modifier; only the first can observe the refresh sentinel |
| LazyList.RowsAnimateUniformly | Sources/SSLazyList/SSLazyList.swift:124-149 | corrected rows: every row has one animator when animation applies, none otherwise |
| LazyList.LastRowAnimatedTwice | Sources/SSLazyList/SSLazyList.swift:143-148 | as written, two animated items: the first row has one animator, the last row two |
| LazyList.NotifyVariableHeight | Sources/SSLazyList/SSLazyList.swift:105 | `-18` for `onPullUp`, `18 - height` of the indicator for `onLastRow`; its effect stated by `LazyList.LoadMoreThreshold` |
| LazyList.LoadMoreThreshold | Sources/SSLazyList/SSLazyList.swift:103-113 | the load-more threshold is height - 18 for `onPullUp` and 18 for `onLastRow` |
| LazyList.RefresherMounted | Sources/SSLazyList/SSLazyList.swift:73-88 | a mounted refresh tracker implies the list body is shown, nothing is loading, and pull-to-refresh is active, configured and measured |
| LazyList.LoaderMounted | Sources/SSLazyList/SSLazyList.swift:73-104 | a mounted load-more tracker implies the list body is shown, nothing is loading, and load-more is active, measured and configured |
| LazyList.NoTrackerWithoutRows | Sources/SSLazyList/SSLazyList.swift:73-178 | whenever a placeholder or nothing is shown (absent or empty data) neither tracker is mounted |
| LazyList.TrackersWaitForLoads | Sources/SSLazyList/SSLazyList.swift:86-104 | a refresh or page load in progress unmounts both trackers; with rows, nothing loading, and a feature active, configured and measured, its tracker is mounted |
| LazyList.MeasuringStopsOnceMeasured | Sources/SSLazyList/SSLazyList.swift:154-156 | a measuring view excludes the loader; one measurement of a view with a height makes the frame non-zero and ends both re-measures |
| LazyList.MergePagerRect | Sources/SSLazyList/SSLazyList.swift:199-215 | the origin is filled only where it is zero; the size is replaced only by non-zero measured values |
| LazyList.MergeFromZero | Sources/SSLazyList/SSLazyList.swift:199-215 | measured from zero, the frame is the list's left edge, the given origin and the measured size |
| LazyList.MergeIdempotent | Sources/SSLazyList/SSLazyList.swift:199-215 | the merge keeps a frame standardized, and repeating it changes nothing |
| LazyList.SSLazyList.constructor | Sources/SSLazyList/SSLazyList.swift:33-41 | both features active, nothing loading, both indicator frames zero |
| LazyList.SSLazyList.OnRefresh | Sources/SSLazyList/SSLazyList.swift:91-96 | stores the refresh completion; re-arms load-more if a load-more type is set; nothing else changes |
| LazyList.SSLazyList.OnPageLoad | Sources/SSLazyList/SSLazyList.swift:110-113 | stores the page-load completion |
| LazyList.SSLazyList.SetUpRefreshRect | Sources/SSLazyList/SSLazyList.swift:182-191 | the deferred measurement sets the refresh indicator's frame only |
| LazyList.SSLazyList.SetUpPageLoaderRect | Sources/SSLazyList/SSLazyList.swift:194-219 | the frame becomes the merge with origin `y` the list height; nothing else changes |
| LazyList.SSLazyList.SetUpLastRowLoaderRect | Sources/SSLazyList/SSLazyList.swift:221-240 | the frame becomes the merge with origin `y` the list height plus the row height; nothing else changes |
| Pagination.PaginateDataAsWritten | Example/SSLazyList/Services/DataPaginationService.swift:17-27 | the function as written, with `start + length` trapping above `Int.max`; exhibited by `Pagination.AsWrittenTrapsOnLongPage` |
| Pagination.PaginateData | Example/SSLazyList/Services/DataPaginationService.swift:17-27 | corrected page: total is the count; empty exactly for a rejected request; otherwise `min(length, count - start)` items, item `i` being `list[start + i]` |
| Pagination.AsWrittenTrapsOnLongPage | Example/SSLazyList/Services/DataPaginationService.swift:19-23 | as written, an accepted request (two items, start 1, length `Int.max`) overflows `start + length` |
| Pagination.AsWrittenAgreesWithoutOverflow | Example/SSLazyList/Services/DataPaginationService.swift:17-27 | wherever the original does not trap, it returns the corrected page |
| Pagination.PagesReassemble | Example/SSLazyList/Services/DataPaginationService.swift:17-27 | consecutive pages of one length concatenate to the rest of the list |
| Pagination.HundredNumbers | Example/SSLazyList/Services/DataPaginationService.swift:17-27 | 1...100 at 0/20 gives 1...20, at 95/20 gives 96...100, and an empty list gives an empty page |

## Left out

- SwiftUI rendering is not modelled: opacity, clipping, `.hidden()`,
  animation curves, coordinate spaces and the `List`/`ForEach` machinery.
  Rows are values that record which modifiers wrap them.
- The Combine pipelines (`removeDuplicates`, the 10 ms `debounce`) are not
  modelled. Their output is the `TriggerReceived` event, which may come at
  any point of a run, so the trace lemmas hold for every delivery order.
- Real time is not modelled. The 0.7-second and 2-second timers are pending
  counters fired by events, in any order relative to other events.
- `@State` storage is not modelled as SwiftUI keeps it. The model treats each
  modifier's state as living as long as one tracker object. In the program,
  the host unmounts both trackers whenever `isRefreshing` or `isPageLoading`
  is true, or the data is empty (`Sources/SSLazyList/SSLazyList.swift:73`,
  `:86`), and the trackers set those flags themselves. A tracker is therefore
  mounted again with fresh state after every refresh or page load: not
  stopped, armed. The values written by `stopObserving` / `stopRefreshing`
  are lost when that happens.
- ListRefresher.CompletionThenCooldown, ListRefresher.RearmAfterCooldown,
  ListRefresher.NoRefireWithoutRetraction, ListRefresher.NoRefireAfterSend,
  ListRefresher.AtMostOneSendPerPull and PageLoader.CompletionThenCooldown:
  hold for a tracker that stays mounted across the events of the run. They
  say nothing about a tracker mounted again with fresh state.
- PageLoader.InnerTestIsOuterTest: holds over `real`. With `CGFloat`
  rounding, `newY + notifyAtHeight < minY` and
  `minY - newY > notifyAtHeight` can differ in the last bit, so the inner
  test can reject a sample the outer one accepted. Floating point is not
  modelled anywhere.
- The `x` coordinate of `scrollPosition` is not modelled; the animator reads
  only `y`.
- `SSListCellObserver` and `SSListPagger` (the frame observer and the
  `SSPullToRefresh` / `SSLoadMore` structures) are not part of this model.
  Their views and callbacks are opaque handles, and the `type` of
  `SSLoadMore` is `LoadMoreTypes`.
- The views and the callback of the application are not modelled. The
  callbacks `pullToRefreshType?.callback` and `pageLoadingType?.callback`
  are recorded as the stored completion handle.
- `Package.swift` and the example applications are not part of this model,
  apart from the pagination function.
- The refresher re-arms only on a sample inside the band whose sentinel is
  within 8 points of the indicator's top. That is how the code is written,
  and `ListRefresher.StepCredit` counts exactly those samples.
- CellAnimator.SSListCellAnimator.constructor: the animation curve
  (`animation`) is carried only as an identity; its timing effect is not
  modelled.

## Findings

| source | as written | input that shows it | evidently intended | confidence | as-written member | corrected member |
|---|---|---|---|---|---|---|
| Sources/SSLazyList/SSLazyList.swift:144-147 | the last row is wrapped in `SSListCellAnimator` by an outer and an inner conditional modifier, so it gets two animators | two items with distinct ids and animation `.auto`: the first row has one animator, the last has two, and their slide-in offsets add up | one animator per row, as the first and middle rows have | not executed | LazyList.LastRowAnimatedTwice | LazyList.RowsAnimateUniformly |
| Example/SSLazyList/Services/DataPaginationService.swift:23 | `min(start + length, totalCount)` computes `start + length` in `Int`, which traps on overflow | a two-item list, `start` 1, `length` `Int.max`: the guard accepts it and the addition overflows | the page `start ..< start + min(length, totalCount - start)`, which cannot overflow | not executed | Pagination.AsWrittenTrapsOnLongPage | Pagination.PaginateData |
