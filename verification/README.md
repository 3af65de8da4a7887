# Verified model of OTel Lite

OTel Lite is a small system of record for logs and metrics. It keeps samples in memory under two retention
rules, shows them as a virtual filesystem, watches metrics streams with alert rules, and tells Slack and a web
dashboard about what fires. This project models that logic in Dafny and proves what its users rely on.

Time is an integer counted from Go's zero time, values are reals. Every part of the source that changes state is a
class or a method with the source's own loops, specified by a function or a relation on values; the theorems are
about those functions, over all inputs and all runs.

| file | what it models |
|---|---|
| `domain.dfy` | identifiers, samples, rules, events, the two retention rules |
| `paths.dfy` | the Go path parser and printer, the dashboard's path expression |
| `sequences.dfy` | what the library's sort, min and max do |
| `names.dfy`, `memstore.dfy` | sorted listings; the in-memory store |
| `retention.dfy` | ingestion under a budget, one call at a time |
| `concurrent_ingest.dfy`, `concurrent_order.dfy` | the same with calls interleaved step by step: how much is held, and in what order |
| `over_drops.dfy` | when such calls forget more than they should |
| `browse.dfy` | `ls` and `cat` over the store |
| `monitors.dfy`, `alerting.dfy` | one alert monitor; all of them behind the alerter |
| `alarm_runs.dfy` | the runs of the alerter that can occur, and those that make given rules fire |
| `feed.dfy` | the live feed with bounded buffers |
| `kpitree.dfy`, `live.dfy`, `delivery.dfy` | the dashboard's tree, its replica of the alert state, and the feed in between |
| `catching_up.dfy` | a dashboard that missed events |
| `slack.dfy` | the Slack notifier's memory of open alerts |
| `conf_text.dfy`, `alertconf.dfy`, `config_closure.dfy`, `config_printing.dfy` | alert.conf: its text, its parser, which files are accepted, and its printed form |
| `conf_lines.dfy` | what each line of alert.conf does, read off the file as written |
| `wiring.dfy` | an accepted alert.conf driving Slack and the dashboard |
| `treemap.dfy`, `timeline.dfy`, `chart_scales.dfy` | the dashboard's geometry: the treemap, the timeline's commands and gaps, and what they show |
| `redaction.dfy` | log redaction and rendering in the client |

`dafny verify dfyconfig.toml` checks everything.

## Main results

- The squarified treemap partitions its box exactly, point by point, with areas in proportion to the items' weights,
  and a fiftieth of the heaviest item's area for an item without one (`Treemap.SharesAreFair`). It is drawn in rows of
  which every one is locally best: no item taken into it worsened the worst aspect ratio actually drawn, and the next
  item would have (`Treemap.Squarify`, `Treemap.EveryRowIsLocallyBest`).
- The budgeted store is "stable-sort everything that ever arrived and keep the newest", late and equal-time samples
  included (`Retention.RetentionRefinesSort`).
- Interleaved ingestion can be over the budget by as many samples as there are calls in flight and no more
  (`ConcurrentIngest.OverBudgetIff`). A call's drop forgets more than it should exactly when the store has shrunk
  since the call counted, though not to nothing (`OverDrops.DropsTooMuchIff`). With at most w calls at a time no trace
  holds such a drop exactly when w is zero, or w is one and no eviction falls between a call's count and its drop
  (`OverDrops.NeverDropsTooMuchIff`): for every budget two calls suffice, or one call and one eviction
  (`OverDrops.TwoCallsDropTooMuch`, `OverDrops.EvictionInBetween`). From any count over the budget on, what is held
  and what was evicted since stay within w(w-1) of the budget with w calls at a time
  (`ConcurrentIngest.OverDropIsBounded`), and for every budget and every w a trace ends there
  (`ConcurrentIngest.InterleavedCallsOverDrop`). Whatever the interleaving, each stream is part of the stable sort of
  what arrived there, in that order (`ConcurrentOrder.StreamsStayInOrder`).
- A threshold monitor and an absent monitor are each characterised by their history, in both directions.
- The dashboard, which is rebuilt from events under lossy string keys, agrees with the alerter over every run that can
  occur exactly when no rule's path contains `|` (`LiveView.AgreementIffNoPipes`), and its windows are right exactly
  when the history is at least one (`LiveView.WindowsKeptIff`). A dashboard behind the bounded feed receives exactly
  what the run published if and only if it keeps up (`Delivery.ReceivesFeedIff`,
  `Delivery.DashboardThatKeepsUpAgrees`). One that lost events is wrong about a key exactly when the last alert it got
  under the key tells otherwise than the last one published (`CatchingUp.RightAboutIff`); once it keeps up, the next
  alert under the key puts it right, and nothing else but a load does (`CatchingUp.LaggingDashboardCatchesUp`,
  `LiveView.LoadReplicates`).
- Slack's map of open alerts serves every rule as if it had a slot of its own, over every run that can occur and every
  failure pattern, exactly when no two rules share a key (`SlackBook.PrivateIffDistinctKeys`).
- For both of these a run begins with a check at the program's start, whenever that is, and its clock never goes back
  (`AlarmRuns.CanOccur`); texts stand for the numbers they parse to, and webhooks answer with no message timestamp.
  The failing runs are of that kind for every start.
- A walk of the filesystem finds every stored stream once and nothing else; a stream can be read back at its path
  exactly when its names are non-empty and slash-free and it has a kind (`Browsing.ReadableIffGood`).
- alert.conf is accepted exactly when its lines are consistent; an accepted file satisfies what the modules above
  assume, and every printable closed configuration is read back from its printed form. Comments and white space have
  no effect, and a rule or channel line is taken exactly when it has the documented shape
  (`ConfLines.CommentsChangeNothing`, `ConfLines.RuleLineIff`, `ConfLines.ChannelLineIff`).
- The timeline shows what it is given: equal steps of time and value are equal steps to the right and upwards, the
  axes end at the extremes, and the default gap threshold is three times the median spacing
  (`ChartScales.ValuesAreHeights`, `ChartScales.TimesAreWidths`, `ChartScales.AxesEndAtExtremes`,
  `ChartScales.DefaultIsThreeMedians`).
- Redaction commutes with rendering for every chain of groups and attributes, and a redacted value cannot influence
  the body (`Redaction.BodyIsRedactedText`, `Redaction.SecretsDoNotShow`).

## Where code and documentation differ

- `history` is documented as the samples kept per KPI (`webui/src/live.ts:19-20`); with `history` 0 the seed is not
  cut at all (`webui/src/live.ts:63`). `LiveView.WindowsKeptIff` states exactly that.
- The store's budget is described as the most samples that are kept (`internal/domain/domain.go:189-190`); concurrent
  ingestion can be over it for a moment, and can forget more than needed. For every budget above zero,
  `ConcurrentIngest.OverBudgetIff` says by how much it can be over, and `OverDrops.NeverDropsTooMuchIff` what rules
  out that a drop forgets more than needed: calls must not overlap, and the evictor, which runs beside them
  (`cmd/sor/main.go:108-114`), must not come between a call's count and its drop. Nothing in the code ensures either.

## Model

| member | source | states |
|---|---|---|
| Treemap.Squarify | webui/src/treemap.ts:23-48 | for every item list and every box with positive sides the loop ends, never divides by zero, and its tiles partition the box, keep the input keys in order, have area in proportion to the weights as they are given, and lie in rows each of which is locally best |
| Treemap.SharesAreFair | webui/src/treemap.ts:18-29 | the areas of the tiles add up to the box and are in proportion to the weights above zero; an item without such a weight has a fiftieth of the heaviest item's area, and where no item has one all areas are equal |
| Treemap.LayoutRow | webui/src/treemap.ts:61-83 | places exactly the tiles of the row in a strip along the shorter side, behind what was placed before, and returns the rest of the rectangle |
| Treemap.WorstOfRow | webui/src/treemap.ts:51-58 | the loop over a row's indexes computes the score of the row's areas |
| Treemap.LayoutHits | webui/src/treemap.ts:31-47 | the number of tiles covering a point is one inside the box and none outside |
| Treemap.LayoutPartitions | webui/src/treemap.ts:31-47 | each point of the half-open box is in exactly one tile, nothing sticks out |
| Treemap.LayoutProportional | webui/src/treemap.ts:29-47 | keys in input order, each tile's area is its share |
| Treemap.WorstIsDrawn | webui/src/treemap.ts:50-83 | the score of a row is the largest aspect ratio among the tiles it would be drawn as |
| Treemap.WorstAspectUnique | webui/src/treemap.ts:50-58 | there is only one largest drawn aspect ratio |
| Treemap.RowLenGreedy | webui/src/treemap.ts:35-45 | a row takes items while the score does not get worse and stops at the first item that makes it strictly worse |
| Treemap.EveryRowIsLocallyBest | webui/src/treemap.ts:31-47 | every layout is made of rows that follow each other through all items, each drawn in what was left free; in every one no item taken worsened the drawn ratio and the next one would have |
| Treemap.RowIsStrip | webui/src/treemap.ts:61-83 | a row stands along the left edge of what is free, top to bottom, when that is at least as wide as high, and else lies along the upper edge, left to right; what is left free begins behind it |
| Treemap.RowsAreStrips | webui/src/treemap.ts:31-47 | the rows of a layout stand one behind the other in that way, starting with the whole box |
| Treemap.RestFits | webui/src/treemap.ts:61-83 | cutting a row off keeps the free area equal to the weight not yet laid out, with a strip of positive thickness |
| Treemap.SharesFit | webui/src/treemap.ts:25-29 | the scaled weights are positive and add up to the area of the box |
| MemStore.Store.Append | internal/adapter/memstore/memstore.go:26-39 | the sample goes behind every sample of its stream that is not newer, nothing else changes, the total grows by one |
| MemStore.Store.Count | internal/adapter/memstore/memstore.go:41-45 | the cached count is the number of samples held |
| MemStore.Store.FindOldest | internal/adapter/memstore/memstore.go:53-62 | in whatever order the map is visited, the stream found has a globally oldest sample |
| MemStore.Store.DropOldest | internal/adapter/memstore/memstore.go:48-71 | some outcome of removing the n globally oldest samples one by one; reports how many went |
| MemStore.DropsOldestContract | internal/adapter/memstore/memstore.go:47-71 | whatever the ties, exactly min(n, count) samples go, each stream keeps a suffix, none forgotten is newer than any kept |
| MemStore.Store.SearchCutoff | internal/adapter/memstore/memstore.go:79-79 | binary search finds the first sample not older than the cutoff |
| MemStore.Store.DropBefore | internal/adapter/memstore/memstore.go:73-92 | every stream is filtered by time at or after the cutoff, emptied streams go, the number dropped is reported |
| MemStore.PrunedForgetsOldest | internal/adapter/memstore/memstore.go:73-92 | pruning keeps the store valid; exactly the samples older than the cutoff go, and none of them is newer than a kept one |
| MemStore.Store.Samples | internal/adapter/memstore/memstore.go:108-117 | a stream is found exactly when it holds a sample, and comes whole, oldest sample first |
| MemStore.Store.Collect | internal/adapter/memstore/memstore.go:119-137 | the picked names, each once, in increasing order |
| MemStore.Store.Namespaces | internal/adapter/memstore/memstore.go:94-96 | the namespaces that hold a stream, sorted |
| MemStore.Store.Services | internal/adapter/memstore/memstore.go:98-100 | the services of a namespace that hold a stream, sorted |
| MemStore.Store.StreamNames | internal/adapter/memstore/memstore.go:102-106 | the streams of one kind of a service, sorted |
| MemStore.InsertAt | internal/adapter/memstore/memstore.go:29-36 | there is only one place in a sorted stream for a sample to go |
| MemStore.AppendedKeeps | internal/adapter/memstore/memstore.go:26-39 | appending keeps every stream non-empty and time-sorted and adds one to the total |
| Names.ListingUnique | internal/adapter/memstore/memstore.go:131-136 | a set of names has only one sorted listing |
| Names.SortedNames | internal/adapter/memstore/memstore.go:131-136 | copying a set out in any order and sorting lists it |
| Names.BeforeIff | internal/adapter/memstore/memstore.go:131-136 | the order of a listing: the shorter of two names when it begins the other, and else the one with the smaller character where they first differ |
| Retention.Ingester.Ingest | internal/usecase/ingest.go:33-38 | append, then drop the excess if there is any |
| Retention.Evict | internal/usecase/ingest.go:61-63 | of every stream exactly the samples at most the window's duration old stay, in their order, and the number that went is reported |
| Retention.PrunedKeepsYoung | internal/domain/domain.go:178-187 | of every stream exactly the samples at most the window's duration old are left, one exactly that old included, in their order |
| Retention.SortIsStable | internal/adapter/memstore/memstore.go:24-39 | appending one by one sorts by time and keeps the arrival order of equal times |
| Retention.StableSortUnique | internal/adapter/memstore/memstore.go:24-39 | only one sequence is sorted and keeps the arrival order at every instant |
| Retention.EverythingIsSorted | internal/adapter/memstore/memstore.go:24-39 | a store that never forgets holds each stream's stable sort |
| Retention.LateIsDropped | internal/usecase/ingest.go:33-38 | a sample older than everything kept is forgotten at once, whatever the ties |
| Retention.RetentionRefinesSort | internal/usecase/ingest.go:21-38 | after k ingests under a budget M > 0: min(M, k) samples, every stream a suffix of the stable sort of its arrivals, nothing forgotten newer than anything kept |
| Retention.UnlimitedKeepsEverything | internal/domain/domain.go:189-201 | a budget of zero or less never forgets |
| ConcurrentIngest.BudgetHolds | internal/usecase/ingest.go:33-38 | over every interleaving of append, count, drop and eviction: at most the budget plus the calls in flight, at most the budget when none is, and arrived = held + dropped + evicted |
| ConcurrentIngest.StepBounded | internal/usecase/ingest.go:33-38 | each step keeps the invariant behind the bound |
| ConcurrentIngest.OverDropIsBounded | internal/usecase/ingest.go:33-38 | with at most w calls at a time: from any count over the budget on, held plus evicted since that count is at least the budget less w(w-1) |
| ConcurrentIngest.NoCountNoDrop | internal/usecase/ingest.go:33-38 | before the first count over the budget nothing is dropped and no call is going to drop |
| ConcurrentIngest.InterleavedCallsOverDrop | internal/usecase/ingest.go:33-38 | for every budget and every w a trace of w calls that is over the budget by w on the way and ends, no call in flight, with exactly the budget less w(w-1) held, or nothing |
| OverDrops.DropsTooMuchIff | internal/usecase/ingest.go:33-38 | in any trace a drop forgets something and leaves less than the budget exactly when the store holds something but less than when the call counted |
| OverDrops.NeverDropsTooMuchIff | internal/domain/domain.go:189-201 | over all traces with at most w calls at a time no drop does so exactly when there is no call, or at most one at a time and no eviction between a call's count and its drop |
| OverDrops.EvictionInBetween | cmd/sor/main.go:108-114 | for every budget a trace of one call at a time and one eviction that ends with the newest sample forgotten and the store empty |
| OverDrops.TwoCallsDropTooMuch | internal/usecase/ingest.go:33-38 | for every budget a trace of two calls, without evictions between a count and its drop, in which a drop goes too far |
| OverDrops.OnlyEvictionsGoBelow | internal/usecase/ingest.go:33-38 | in a trace in which no drop goes too far, held plus evicted never falls below the budget once something was dropped |
| ConcurrentIngest.OverBudgetIff | internal/domain/domain.go:189-201 | with at most w calls at a time the store can hold the budget and so many more exactly when so many is at most w |
| ConcurrentOrder.StreamsStayInOrder | internal/usecase/ingest.go:33-38 | in every state of every interleaving each stream is time-sorted and is what is left of the stable sort of its arrivals, order kept |
| ConcurrentOrder.StepsAreAnIngest | internal/usecase/ingest.go:33-38 | the atomic steps of one call, with nothing in between, are an ingest |
| Monitors.Monitor.Observe | internal/domain/alert.go:89-114 | the whole new state and the event, as the specification's step has them |
| Monitors.Monitor.Check | internal/domain/alert.go:120-133 | the whole new state and the event of a clock check |
| Monitors.FiresAtOnceIff | internal/domain/alert.go:34-45 | a quiet monitor that need not wait fires on a sample exactly when the value is above, at or above, below, at or below the threshold, as its comparison says, and never for absent rules |
| Monitors.ResolvesAtOnceIff | internal/domain/alert.go:98-105 | a firing threshold monitor resolves on a sample exactly when the comparison is false of it |
| Monitors.EventsAlternate | internal/domain/alert.go:71-74 | events alternate Fired, Resolved, starting with Fired; there is one Fired more exactly while firing |
| Monitors.ThresholdFiringIff | internal/domain/alert.go:48-50 | a threshold monitor is firing exactly when the current breach holds a sample at least For after its first, whatever the order of times |
| Monitors.BreachStartUnique | internal/domain/alert.go:98-108 | the current breach starts at one place only |
| Monitors.AnchorMeaning | internal/domain/alert.go:116-127 | the anchor is the last sample's time, or else the first check plus the grace |
| Monitors.AbsentFiringIff | internal/domain/alert.go:116-133 | an absent monitor is firing exactly when some check since came at least For after the anchor |
| Monitors.GraceOnlyBeforeFirstSample | internal/domain/alert.go:116-119 | once a sample was seen the grace has no effect |
| Monitors.FiresOncePerSilence | internal/domain/alert.go:71-74 | between two alarms of an absent rule there is a sample |
| Monitors.SilenceIsReported | internal/domain/alert.go:116-133 | with checks at most p apart, one of them before anchor + For, silence is reported before anchor + For + p |
| Alerting.Alerter.constructor | internal/usecase/alert.go:32-40 | one fresh monitor per rule, in configuration order, indexed by stream |
| Alerting.Alerter.SetAbsentGrace | internal/usecase/alert.go:46-52 | every monitor gets the grace, nothing else changes |
| Alerting.Alerter.Status | internal/usecase/alert.go:55-63 | every rule in configuration order with its firing state |
| Alerting.Alerter.Check | internal/usecase/alert.go:67-77 | every monitor steps on the clock; what is sent, in order, and the errors that came back |
| Alerting.Alerter.Observe | internal/usecase/alert.go:92-110 | walking only the indexed monitors steps all monitors as specified on the number the text parses to; a text that does not parse changes nothing; what is sent, in order, and the errors |
| Alerting.Alerter.Send | internal/usecase/alert.go:79-87 | every notification is handed over, whatever the notifier answered before, and all its errors are collected |
| Alerting.NotesOfIndexed | internal/usecase/alert.go:93-96 | the monitors that the index leaves out have nothing to say |
| Alerting.EachRunsAlone | internal/usecase/alert.go:92-110 | each monitor runs on its own view of the inputs, so the theorems about one monitor hold inside the alerter |
| Alerting.NoteOrigin | internal/usecase/alert.go:101-109 | exactly which notifications a step sends |
| Alerting.NotesInOrder | internal/usecase/alert.go:67-110 | a step sends one notification for each rule that starts or stops firing, in configuration order, with the rule, the event, and the time, text and unit of the sample, or the time of the check |
| Alerting.EventIsTransition | internal/domain/alert.go:58-65 | Fired is sent exactly when a monitor starts firing, Resolved exactly when it stops |
| AlarmRuns.FireRunOccurs | cmd/sor/main.go:80-89 | a run made to let a rule fire begins with a check, never turns the clock back, and is over at its stated end |
| AlarmRuns.FireRunFires | internal/domain/alert.go:89-133 | after such a run the rule's monitor is firing, if nothing newer had reached it before |
| AlarmRuns.FireRunKeeps | internal/domain/alert.go:89-133 | a run that lets one rule fire leaves a rule on another stream, or with the same condition, firing if it was |
| AlarmRuns.CanCrossIff | internal/usecase/alert.go:92-99 | where a rule's threshold can be written, texts can breach and clear the rule exactly when one number can be written on the threshold's other side |
| LiveFeed.Feed.PublishEvent | internal/usecase/feed.go:75-84 | every live subscriber is offered the event once, in any order, and none of their channels is closed |
| LiveFeed.Feed.SubscribeNew | internal/usecase/feed.go:38-55 | a new open, empty subscription; the others are untouched |
| LiveFeed.Feed.CancelSub | internal/usecase/feed.go:43-53 | closes the channel once, and may be called again |
| LiveFeed.Feed.ReceiveFrom | internal/usecase/feed.go:36-42 | takes the oldest waiting event of this subscriber only, or tells blocking from a closed channel |
| LiveFeed.SubscribersAreIndependent | internal/usecase/feed.go:18-28 | a subscription's state depends on its own story alone: others never cost it an event |
| LiveFeed.SeenExactly | internal/usecase/feed.go:75-84 | received and buffered events are the published ones in order, missing exactly those published while the buffer was full |
| LiveFeed.MissesNothingIff | internal/usecase/feed.go:18-20 | a subscriber sees everything published while it was open exactly when its buffer is never full at a publication |
| LiveFeed.MissesNothingSinceIff | internal/usecase/feed.go:75-84 | from any moment on, whatever was missed before, a subscriber misses nothing exactly when its buffer is never full at a publication from then on |
| LiveFeed.FeedDelivers | internal/usecase/feed.go:36-84 | the same for each subscription of any interleaving of subscribe, publish, receive and cancel |
| KpiTree.BuildTree | webui/src/status.ts:77-90 | the loops build the tree grouped in first-seen order, and fail exactly when some path does not parse |
| KpiTree.NamesUnique | webui/src/status.ts:76-90 | namespaces, services and paths are unique |
| KpiTree.TreeHolds | webui/src/status.ts:76-90 | a KPI is in the tree exactly when some rule is on its path, and it holds those rules in order |
| KpiTree.KpiIsItsPath | webui/src/status.ts:76-90 | a KPI carries the namespace, service and name its path spells, and exactly the rules on that path as they were received |
| KpiTree.OnePlacePerPath | webui/src/status.ts:76-90 | a path is at one place of the tree only |
| KpiTree.IndexKpis | webui/src/live.ts:56-57 | the loops over the tree index every KPI by its path |
| KpiTree.IndexIsKpis | webui/src/live.ts:56-57 | that index is the table of all KPIs of the rules |
| LiveView.Live.Load | webui/src/live.ts:46-66 | rebuilds tree, firing set and windows and clears lastError; a failed request or an unparsable path leaves all of them |
| LiveView.Live.Handle | webui/src/live.ts:124-136 | the whole new state after one event, events on unknown paths ignored |
| LiveView.StrangersAreIgnored | webui/src/live.ts:124-126 | events on paths that are no KPI's have no effect, wherever they come |
| LiveView.NoRuleNoColour | webui/src/live.ts:105-110 | a path that no rule is on is unknown, whatever was delivered |
| LiveView.LastNIs | webui/src/live.ts:63-63 | the last h of a sequence are its end, as long as that, or all of it |
| LiveView.WindowAfter | webui/src/live.ts:60-65 | a window is the last h of its seed and what was delivered since |
| LiveView.WindowsKeptIff | webui/src/live.ts:60-65 | that holds of every run exactly when h is at least one |
| LiveView.DeliveredIsWhatArrived | cmd/sor/main.go:141-150 | what a run delivers for a path is every sample that arrived on a stream with that path, once and in order, with its time, number, text and unit |
| LiveView.KeysMeetIff | webui/src/live.ts:150-152 | rules with pipe-free paths and thresholds that print differently share a key exactly when path, operator and threshold are equal |
| LiveView.ResolveTogether | internal/domain/alert.go:98-105 | monitors that share a key resolve on the same sample |
| LiveView.StepReplicates | webui/src/live.ts:124-136 | delivering one step keeps the firing set in agreement with the monitors |
| LiveView.RunReplicates | cmd/sor/main.go:141-150 | so does any run delivered in order |
| LiveView.LoadReplicates | webui/src/live.ts:54-59 | loading from the status is a consistent start |
| LiveView.ColourAfterRun | webui/src/live.ts:106-116 | after any run each path is red exactly when a rule on it fires, amber when the latest value crosses a threshold, else green or unknown |
| LiveView.AgreementIffNoPipes | webui/src/live.ts:112-116 | for every start of the program, agreement over every run that can occur holds exactly when no rule's path contains the separator |
| LiveView.DisagreesOnPipe | webui/src/live.ts:112-116 | from every start, a run of checks and samples that can occur, after which a firing rule with such a path is not shown red |
| SlackBook.Notifier.Notify | internal/adapter/slack/slack.go:66-97 | the new map and what is posted or edited, failures included |
| SlackBook.ResolutionAnswersAlert | internal/adapter/slack/slack.go:66-97 | an alert is posted; its resolution edits that message when it was posted through a bot and has a timestamp, else quotes it in a new message, and does not speak of it when it could not be posted |
| SlackBook.FailureChangesNothing | internal/adapter/slack/slack.go:66-97 | without a destination, or when an alert cannot be posted, the map stays as it is; with one, a resolution removes its alert whether or not it is delivered |
| SlackBook.DeliveredInOrder | internal/usecase/alert.go:79-87 | delivering a step's notifications one by one, in order, is what the run theorems speak of |
| SlackBook.BookRepresentsSlots | internal/adapter/slack/slack.go:66-97 | with distinct keys the map is one slot per rule over every run with any failures |
| SlackBook.OpenOnlyFiring | internal/adapter/slack/slack.go:66-97 | an entry belongs to a rule that is firing now and is a Fired notification of it |
| SlackBook.SlotIsPresentEpisode | internal/adapter/slack/slack.go:66-97 | a firing rule's slot holds what the Fired of its present episode posted, or nothing if that failed; a quiet rule's slot is empty |
| SlackBook.ReactionIsPrivate | internal/adapter/slack/slack.go:86-97 | a resolution edits or quotes its own rule's message, never another's |
| SlackBook.SameKeySameCondition | internal/adapter/slack/slack.go:155-157 | rules that share a key are on different streams or differ in hold time only |
| SlackBook.SharedKeyLosesOne | internal/adapter/slack/slack.go:66-97 | two different rules under one key: from every start, a run that makes one fire and then the other, after which the message of one is lost |
| SlackBook.RepeatedRuleLosesOne | internal/adapter/slack/slack.go:86-90 | one rule configured twice: from every start, a run in which the second resolution finds its alert gone |
| SlackBook.PrivateIffDistinctKeys | internal/adapter/slack/slack.go:66-97 | for every start of the program, over every run that can occur and every reply the destinations can give, the map holds what the slots hold and every notification is treated as its slot demands, exactly when keys are pairwise distinct |
| Delivery.RunIsWatched | cmd/sor/main.go:141-150 | what a run publishes on the feed is what the dashboard's theorems call its feed |
| Delivery.PublishedTells | internal/usecase/feed.go:63-73 | an event tells the sample that arrived, or a notification that was sent and its time, text and unit |
| Delivery.WatchedTells | internal/adapter/grpcapi/grpcapi.go:110-137 | what the dashboard receives of an event: path, time, number, text and unit, and of an alert the whole rule and whether it began or ended |
| Delivery.ReceivesFeedIff | internal/usecase/feed.go:18-20 | a subscriber that has drained its channel received exactly what the run published since it subscribed if and only if its buffer was never full at a publication |
| Delivery.DashboardThatKeepsUpAgrees | webui/src/live.ts:106-136 | a dashboard that loads, keeps up and handles what it receives shows every rule's path in the colour it ought to have |
| CatchingUp.LastWordIsTrue | webui/src/live.ts:124-136 | whether some monitor under a key is firing after a run is what the last alert published under the key tells |
| CatchingUp.RightAboutIff | webui/src/live.ts:124-136 | a dashboard that got any selection of events is right about a key exactly when the last alert it got under it tells the same as the last one published |
| CatchingUp.CatchesUpIff | webui/src/live.ts:124-136 | from any state, after everything of a run was delivered, the dashboard is right about a key exactly when it was before or the run published an alert under it |
| CatchingUp.RedAgain | webui/src/live.ts:112-116 | a path is red as it should be again once that holds of all keys on it |
| CatchingUp.ReceivesRestIff | internal/usecase/feed.go:75-84 | a subscriber that has drained its channel received what it had seen by some moment and everything published since, if and only if it has kept up since |
| CatchingUp.LaggingDashboardCatchesUp | internal/usecase/feed.go:75-84 | a dashboard behind a bounded buffer that kept up from some moment on is right about a key exactly when what it had seen by then was enough or an alert under the key was published since |
| Paths.ParsePath | internal/domain/domain.go:98-133 | the loop over the components fills the path, or stops with the error of the first bad one |
| Paths.ParseOfPrint | internal/domain/domain.go:98-176 | parsing a printed well-formed path gives it back |
| Paths.PrintOfParse | internal/domain/domain.go:98-176 | every accepted string is printed back unchanged, and what was parsed is well-formed |
| Paths.PrintInjective | internal/domain/domain.go:155-176 | different well-formed paths print differently |
| Paths.ErrorsExactly | internal/domain/domain.go:94-133 | which strings are malformed rather than missing |
| Paths.DirectoryPaths | internal/domain/domain.go:98-133 | the paths of the root, a namespace, a service and its directories "logs" and "metrics", spelled out |
| Paths.FilePaths | internal/domain/domain.go:98-133 | the paths of log and metric files, spelled out |
| Paths.NothingElse | internal/domain/domain.go:98-133 | a service has no other directory, and nothing lies in it but a non-empty name followed by ".dat" |
| Paths.TsParseIsRegex | webui/src/status.ts:47-51 | the dashboard's scan finds a match exactly when the expression has one, with unique groups |
| Paths.ParsersAgree | webui/src/status.ts:47-51 | the dashboard accepts exactly the metrics stream paths Go accepts, with equal components |
| Browsing.Browser.Ls | internal/usecase/browse.go:34-68 | the listing or the error of every path, over the current contents |
| Browsing.Browser.Cat | internal/usecase/browse.go:71-84 | the samples or the error of every path |
| Browsing.Browser.CheckService | internal/usecase/browse.go:86-91 | whether the service holds a stream |
| Browsing.ChildIsPrinted | internal/domain/domain.go:155-176 | going down one level appends the entry's name to the printed path |
| Browsing.LsOfDirectory | internal/usecase/browse.go:31-61 | every directory can be listed, without repetition, and each entry leads exactly to the streams below it |
| Browsing.ListingOrder | internal/usecase/browse.go:31-61 | directories are listed in lexicographic order, a service as "logs" and "metrics", files by the names of their streams |
| Browsing.ListableIffDirectory | internal/usecase/browse.go:31-61 | a directory path is listed exactly when it is the root or a stream is held under its namespace and service, and is otherwise reported missing; cat refuses every directory path |
| Browsing.WalkIsExact | internal/usecase/browse.go:31-68 | walking from the root visits each stored stream exactly once and nothing else |
| Browsing.CatReadsWhatIsWalked | internal/usecase/browse.go:70-84 | cat succeeds exactly on visited paths, with the whole time-ordered stream |
| Browsing.UnvisitedIsNotFound | internal/usecase/browse.go:62-84 | an unvisited stream path is reported missing by ls and cat, a visited one is no directory |
| Browsing.ReadableIffGood | internal/adapter/otlp/receiver.go:176-187 | which identifiers can be read back at their path, whatever the store holds: exactly the well-formed ones |
| ConfText.Expand | internal/adapter/alertconf/alertconf.go:122-141 | the left-to-right scan replaces every reference and remembers the first that is not set |
| ConfText.ExpansionIsSubstitution | internal/adapter/alertconf/alertconf.go:118-141 | for any division of a line into references and text in which none starts, expansion is substitution piece by piece, and complains about the first unset name |
| ConfText.UnsetIsNamed | internal/adapter/alertconf/alertconf.go:127-139 | what is complained about is the first reference to a name that is not set, as it is written |
| ConfText.EveryLineHasPieces | internal/adapter/alertconf/alertconf.go:118-141 | every line has such a division |
| ConfText.BareDollarsStay | internal/adapter/alertconf/alertconf.go:14-16 | a line without a complete reference, whatever dollar signs it holds, is left as written |
| ConfText.RefLenIff | internal/adapter/alertconf/alertconf.go:118-118 | what starts with a reference: a dollar sign, an opening brace, a name and the first closing brace |
| ConfText.FieldsOfJoined | internal/adapter/alertconf/alertconf.go:81-84 | words joined by blanks are found again |
| ConfLines.FieldsOfSpaced | internal/adapter/alertconf/alertconf.go:81-84 | words are found again however much white space is between them |
| AlertConf.ParseEnv | internal/adapter/alertconf/alertconf.go:68-116 | the line loop with its early returns computes the configuration, or the first complaint and its line |
| ConfLines.CommentsChangeNothing | internal/adapter/alertconf/alertconf.go:14-16 | a blank line or a comment, whatever it refers to, anywhere in a file changes nothing but the numbers of the lines behind it |
| ConfLines.PaddingChangesNothing | internal/adapter/alertconf/alertconf.go:73-73 | white space around a line changes nothing |
| ConfLines.RuleLineIff | internal/adapter/alertconf/alertconf.go:163-192 | a rule line is accepted exactly when it spells a metrics file, a comparison and a threshold or the word absent, a duration and a declared channel, and adds that rule |
| ConfLines.ChannelLineIff | internal/adapter/alertconf/alertconf.go:145-161 | a channel line is accepted exactly when it has one of the two documented shapes and a new name, and adds that channel |
| ConfLines.OtherLinesAreRefused | internal/adapter/alertconf/alertconf.go:106-107 | any other first word is refused by its name |
| ConfLines.RuleComplaints | internal/adapter/alertconf/alertconf.go:163-192 | what a rule line with a threshold is refused for, in the order of the checks |
| ConfLines.OtherComplaints | internal/adapter/alertconf/alertconf.go:143-161 | what a channel line, and a rule line of the wrong length, is refused for |
| ConfLines.UnsetIsRefused | internal/adapter/alertconf/alertconf.go:77-80 | a line that refers to a name that is not set is refused with the first such reference |
| ConfLines.ValuesAreRead | internal/adapter/alertconf/alertconf.go:77-84 | a line whose references are all set is read as if the values stood in their places |
| ConfigClosure.AcceptsIff | internal/adapter/alertconf/alertconf.go:60-116 | a file is accepted exactly when no line is broken, no channel is declared twice and each rule's channel is declared on an earlier line; it then holds what the lines declare, in order |
| ConfigClosure.RejectsIff | internal/adapter/alertconf/alertconf.go:109-111 | a rejected file is blamed on its first line that does not fit, with that line's complaint |
| ConfigClosure.ParsedRuleIsGood | internal/adapter/alertconf/alertconf.go:163-192 | a parsed rule watches a well-formed metrics stream whose path prints as it was written |
| ConfigClosure.AcceptedIsClosed | internal/adapter/alertconf/alertconf.go:68-116 | distinct channel names, a declared channel and a dashboard-parsable stream for every rule |
| ConfigClosure.AcceptedFileIsGrouped | webui/src/status.ts:76-90 | the tree of an accepted file holds every rule under its path, and per path exactly its rules in file order |
| ConfigClosure.AcceptedRuleIsInTree | webui/src/status.ts:76-90 | every rule of an accepted file is in the tree under its stream, with its comparison, threshold, hold time and channel |
| ConfigPrinting.ParseOfPrint | internal/adapter/alertconf/alertconf.go:1-19 | every closed configuration of printable words is what the parser makes of its printed form |
| Wiring.BuildDestinations | cmd/sor/main.go:124-131 | the loop over the channels fills the map with webhook, token and channel of each |
| Wiring.EachChannelIsThere | cmd/sor/main.go:124-131 | with distinct names each channel keeps its own destination, and there are no others |
| Wiring.EveryRuleHasDestination | cmd/sor/main.go:124-131 | no rule of an accepted file lacks a destination |
| Wiring.AcceptedRulesCrossIff | internal/adapter/alertconf/alertconf.go:163-192 | the rules of an accepted file can all be breached and cleared exactly when each has a number that can be written on the other side of its threshold |
| Wiring.SlackOfAcceptedFile | cmd/sor/main.go:75-80 | for an accepted file, Slack's map serves every rule privately over every run that can occur exactly when keys differ |
| Wiring.DashboardOfAcceptedFile | cmd/sor/main.go:75-80 | for an accepted file, the dashboard agrees over every run that can occur exactly when no path holds the separator |
| Timelines.Draw | webui/src/chart.ts:70-100 | the axes, commands and gaps that the loops produce |
| ChartScales.FiniteInOrder | webui/src/chart.ts:71-71 | exactly the points with a finite value are drawn, in order |
| ChartScales.AxesEndAtExtremes | webui/src/chart.ts:72-88 | where the axes end: first point, last point or now, lowest and highest of values and thresholds, and around a single height a tenth of it or one |
| ChartScales.ValuesAreHeights | webui/src/chart.ts:64-67 | equal steps of value are equal steps of y, more is higher, the axis's lowest value is at the bottom and its highest at the top |
| ChartScales.TimesAreWidths | webui/src/chart.ts:59-62 | equal steps of time are equal steps of x, the first point is at the left edge and the end of the axis at the right |
| ChartScales.DefaultIsThreeMedians | webui/src/chart.ts:51-57 | the default threshold is three times the median of the spacings above zero, and there is none without such a spacing |
| ChartScales.StrokesStartAfterGaps | webui/src/chart.ts:91-95 | a new stroke starts at the first point and after every spacing above the threshold |
| ChartScales.GapsOnAxisIff | webui/src/chart.ts:89-98 | the gaps of a timeline cover exactly the instants between neighbouring points, or behind the last, that are further apart than the threshold |
| Timelines.InGapIff | webui/src/chart.ts:90-97 | an instant is inside a gap exactly when its surroundings are further apart than the threshold |
| Timelines.GapsAreSilent | webui/src/chart.ts:90-97 | gaps are ordered, interior-disjoint, and hold no sample strictly inside |
| Timelines.LengthsAddUp | webui/src/chart.ts:90-97 | gaps, connected stretches and the trailing remainder add up to the axis |
| Timelines.OneRunMoreThanGaps | webui/src/chart.ts:90-95 | the path has one run more than there are gaps between samples |
| Timelines.DefaultGapsAreFew | webui/src/chart.ts:51-57 | with the default threshold, of n positive spacings at most n/2 rounded up, less one, are gaps |
| Timelines.GapsOfTimeline | webui/src/chart.ts:70-100 | all of this, the bound for the default threshold included, for every timeline of time-ordered samples |
| Timelines.DrawnInsideBox | webui/src/chart.ts:59-67 | every point and threshold line lies in the box and the path never turns back |
| Timelines.FlatIsCentred | webui/src/chart.ts:75-79 | a flat series is drawn at half height |
| Redaction.AppendAttr | client/slog.go:147-164 | the recursive append renders the attribute tree behind what the builder holds |
| Redaction.BridgeHandle | client/slog.go:108-115 | the body is the message, the pre-rendered attributes and the record's attributes |
| Redaction.FanoutHandle | client/slog.go:36-49 | every sink that takes the record's level gets the redacted record, whatever the others answer, and their errors are joined in order |
| Redaction.RenderIsText | client/slog.go:147-164 | flattening an attribute tree renders its leaves in order |
| Redaction.QuotedIff | client/slog.go:166-172 | a value is quoted exactly when it is empty or holds a blank, '=', a quote, a tab or a line break |
| Redaction.PathIsDotted | client/slog.go:147-155 | a leaf's path is its keys from the outside in, with dots between them; groups without a name add nothing |
| Redaction.HiddenText | client/slog.go:89-92 | what matches is replaced whole by "[REDACTED]" |
| Redaction.LeavesOfRedacted | client/slog.go:74-94 | redaction changes exactly the leaves whose dotted path matches |
| Redaction.RedactTwice | client/slog.go:74-94 | redacting twice is redacting once |
| Redaction.ChainState | client/slog.go:51-145 | after any chain of groups and attributes, handler and sinks agree on the open groups, and the sinks hold the redacted text |
| Redaction.BodyIsRedactedText | client/slog.go:36-164 | for any chain and record the body is the message and one " path=value" per leaf in order, redacted exactly where the pattern matches |
| Redaction.SecretsDoNotShow | client/slog.go:36-164 | records and chains that differ only in matching values have the same body |

## Left out

- HTTP, gRPC, server-sent events, OTLP decoding, protobuf and JSON: rules, paths and samples pass through them unchanged here.
- Web pages, client instrumentation, the command line, the sample application, authentication and health checks.
- Floating point: rounding, NaN and infinities in thresholds and values. A point of the timeline whose value is not finite is absent (`Timelines.Point`); for the alerter a text either parses to a real number or does not parse.
- Printed numbers and times: `toFixed`, `%v` and number formatting are a function that tells the thresholds of the rules apart where keys are built from them; the differences between JavaScript's and Go's number texts are not modelled.
- Saturation of Go durations and the truncation of a rule's hold time to whole seconds on the wire.
- The order in which concurrent Observe and Check calls deliver their notifications, and events lost while the dashboard reloads: the run theorems speak of runs in which each call is delivered before the next begins.
- Go's zero time as a timestamp: it is the "unset" mark of a monitor, the receiver never produces it (`internal/adapter/otlp/receiver.go:162-167`), and the monitor theorems exclude it.
- How numbers are written: the failing runs of `LiveView.AgreementIffNoPipes` and `SlackBook.PrivateIffDistinctKeys` use that texts breach and clear every rule (`AlarmRuns.Crossable`). In an accepted file that fails only for a threshold on whose other side no number can be written (`Wiring.AcceptedRulesCrossIff`), the largest or smallest there is.
- What a notifier does: `Alerting.Alerter` lists what it is given and the errors it answers, and a failed delivery is an absent reply in `SlackBook`.
- Notifiers.Notify (`internal/usecase/feed.go:89-97`), which tries every notifier whatever the others return: Slack and the feed are modelled as independent receivers of the same notifications.
- Roll-ups, pressure and tile weights of the dashboard (`webui/src/status.ts:98-127`): the treemap is proved for all weights.
- Slack message texts, the Web API exchange and its retries: only success, failure and the message timestamp matter.
- LiveView.Live.Load: seeds the windows, in any order, in one step. No event is handled before load returns (`webui/src/main.ts:34-35`, `webui/src/live.ts:79-90`); what a page shows between two answers is not modelled. Each KPI's seed is a function of its path, empty where the request fails.
- Listeners and the timing of reconnection in `Live`.
- Unbuffered channels: a feed with buffer 0 never delivers in the model, where Go would hand an event to a waiting receiver. The program uses 256.
- Blocking: a receive on an empty channel returns at once and says that it would block.
- Splitting a file into lines and its longest accepted line; a file is given as its lines. strconv.ParseFloat, time.ParseDuration, strconv.Quote, the redaction pattern and the environment are parameters.
- strings.TrimSpace, strings.Fields, sort.Strings and the regular expressions are written as direct scans.
- The texts of errors: paths and usage lines inside messages; the kind of error and what it names are kept.
- Redaction.FanoutHandle: every sink emits as the bridge does; what another slog handler makes of the redacted record is its own. Which sinks take a level and what they answer are parameters.
- Severities and timestamps of log records; values that resolve lazily are taken as resolved.
- Timelines.Draw: the path is its list of commands before its coordinates are rounded to one decimal.
- Sparklines and axis ticks.
- Retention.Evict: takes the current time as a parameter instead of asking the clock.
