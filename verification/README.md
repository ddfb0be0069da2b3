# VisionTAK client: a verified model

A Dafny model of the VisionTAK kiosk client (`xfradio/visiontak_client`) and proofs about it.
`dafny verify dfyconfig.toml` checks the whole project.

The client is a full-screen display with no keyboard. It keeps a few dashboards alive as
WebViews and steps through them on remote keys, refreshes and a carousel clock; it enrols itself
with a server that hands out one token exactly once; and it survives reboots on two small settings
files, one of which a snap hook rewrites. The model has three parts.

**The window** (`Menu`, `Navigation`, `KioskWindow`, `Lru`, `Competitive`, `Phases`, `Runs`,
`Controller`).
`KioskWindow.Window` is the source's class, field by field and method by method. Its pool of views
is a map, an order list and an eviction loop; every method is proved against `Navigation`, which
says where the screen and the chooser stand and records what was asked of the pool. `Valid()` ties
the pool to that record: the order list is `Lru.Pool(trace, limit)` and the number of page loads
is `Lru.Loads(trace, limit)`. The theorems about all traces then hold of every run of the window:
stack inclusion, competitive bounds against rivals with the same or a smaller limit that survive
refreshes which drop dashboards, an exact reuse-distance law and the behaviour of carousel laps.

**Settings and enrolment** (`Settings`, `Readings`, `Provisioning`, `Refresh`, `Enrolment`, `Tokens`,
`Identity`, `Losses`, `Raising`, `Requests`). `Settings.Disk` loads, persists and runs the configure hook step by step;
`Provisioning` interleaves hook steps with client writes and interruptions. `Enrolment` is a
protocol over many boots: timers, a worker thread that reads the configuration, calls the server
and writes the configuration back, the setup screen, an administrator, hook runs and power cuts.
A step that is not due changes nothing, so every sequence of steps is a run.

**Parsers and codecs** (`Text`, `Digits`, `ServerUrl`, `Discovery`, `Models`, `Api`, `Payloads`,
`Cec`).

## Where the code does not do what is written about it

Each of these is kept as the code has it, with the exact condition proved.

- Normalising an address twice is not always normalising it once
  (`ServerUrl.NormaliseIdempotentIff`, `ServerUrl.SecondPassDiffers`).
- "Ordering is cosmetic" (src/visiontak_client/models.py:73): an order such as `--5` does not sort
  first but loses the dashboard, and so does a digit that `int` cannot read, such as a superscript
  (`Models.OrderFailsIff`, `Models.OddOrderDropped`, `Models.OrderWitnesses`).
- `snap set dhcp-discovery=true` (docs/dhcp-discovery.md:159) has no effect, because the hook does
  not read that key (snap/hooks/configure:9-11): `Provisioning.DiscoveryIgnoresSnap`.
- "Corrupt self-config must not stop a display starting" (src/visiontak_client/config.py:297): a
  file that is a JSON number, boolean or null does, and so does a key with a value its field
  cannot take
  (`Settings.SelfStopsIff`, `Settings.StrayKeyStops`).
- A hook run cut short after its swap can leave settings that cannot be loaded
  (`Provisioning.InterruptIff`, `Provisioning.InterruptBreaks`), and only a run with settings that
  can be loaded mends it (`Provisioning.StuckUntilMended`).
- "The client re-registers every 20s while pending" (docs/dhcp-discovery.md:109-112): only as long as
  no attempt raises an exception other than `ApiError`, which `_request`
  (src/visiontak_client/api.py:137-158) and `attempt_registration`
  (src/visiontak_client/firstrun.py:52-58) let through (`Raising.CarriedOnIff`). An address with a
  space inside, which the setup screen accepts, raises in every attempt of every boot
  (`Raising.InnerSpace`, `Raising.SubmitMutes`, `Raising.MuteForever`), and so does a bare host
  name, which the hook accepts (`Raising.HookMutes`).
- A server that answers does not end setup when a token was preset, nor when the address cannot be
  requested (`Enrolment.SetupEndsIff`).
- Approval starts a second refresh chain beside the first (`Enrolment.ChainCount`).
- Opening on a start dashboard that is not the first loads the first as well
  (`Runs.ApplyStarts`).
- A token whose reply is lost, or that is not saved before the process ends, is lost for good
  (`Losses.TokenLedger`, `Losses.TokenKeptIff`, `Losses.LossStrands`, `Tokens.StrandedForever`); one lost reply is
  enough on a new device (`Losses.OneLostReply`).

## Model

| member | source | states |
|---|---|---|
| `KioskWindow.Window.constructor` | src/visiontak_client/ui/kiosk_window.py:37-90 | the window starts in setup exactly when no server is configured, with nothing listed, shown or loaded, and the whole-window invariant holds |
| `KioskWindow.Window.RemoveFromOrder` | src/visiontak_client/ui/kiosk_window.py:225-229 | removing an id closes its gap and leaves the rest of the order alone |
| `KioskWindow.Window.Touch` | src/visiontak_client/ui/kiosk_window.py:225-229 | the id becomes the most recent and the others keep their order, without repetition |
| `KioskWindow.Window.ReleaseView` | src/visiontak_client/ui/kiosk_window.py:184-193 | exactly that view, its place in the order and its loading mark go; the stack's child is left to the toolkit when it was the visible one |
| `KioskWindow.Window.FindVictim` | src/visiontak_client/ui/kiosk_window.py:242-245 | the first live id in the order other than the current one, None exactly when there is none |
| `KioskWindow.Window.EvictOne` | src/visiontak_client/ui/kiosk_window.py:241-249 | with two views there always is a victim, and it is the least recently used of all |
| `KioskWindow.Window.EvictSurplus` | src/visiontak_client/ui/kiosk_window.py:231-249 | the loop ends, never by its missing-victim exit, with the most recent end of the order; nothing goes while the setting allows as many views, and no more than the setting, or one, stay |
| `KioskWindow.Window.ViewFor` | src/visiontak_client/ui/kiosk_window.py:205-223 | a page is loaded exactly when the dashboard had no view; the pool stays the LRU pool of the request history, most recent last |
| `KioskWindow.Window.LoadView` | src/visiontak_client/ui/kiosk_window.py:210-223 | the miss half of the above: one load, one new serial, marked as loading; with fewer views than the setting nothing is released, and never more than the setting, or one, are kept |
| `KioskWindow.Window.DropStaleViews` | src/visiontak_client/ui/kiosk_window.py:180-182 | exactly the views that left the list go, the others keep their order |
| `KioskWindow.Window.ShowIndex` | src/visiontak_client/ui/kiosk_window.py:195-203 | the index wraps round the list; the live view of that dashboard becomes visible, loading only if it was not live |
| `KioskWindow.Window.SyncLoading` | src/visiontak_client/ui/kiosk_window.py:258-261 | the splash covers the screen exactly while the current dashboard is marked loading |
| `KioskWindow.Window.Position` | src/visiontak_client/ui/kiosk_window.py:173-177 | the search loop finds the first listed position of an id |
| `KioskWindow.Window.SetDashboards` | src/visiontak_client/ui/kiosk_window.py:156-178 | a refresh is ignored in setup; otherwise the invariant holds again for the new list, and the current dashboard is kept by id when it is still listed |
| `KioskWindow.Window.ShowRefreshed` | src/visiontak_client/ui/kiosk_window.py:173-178 | the end of a refresh: back to the previous id's first position, else to the first dashboard |
| `KioskWindow.Window.OnLoadChanged` | src/visiontak_client/ui/kiosk_window.py:251-261 | load events move marks and splash only; marks stay among live views as long as only live views report a start |
| `KioskWindow.Window.OnLoadFailed` | src/visiontak_client/ui/kiosk_window.py:263-273 | any failure clears the current dashboard's mark and splash, and nothing else |
| `KioskWindow.Window.LeaveSetup` | src/visiontak_client/ui/kiosk_window.py:125-130 | setup gives way to the placeholder, once |
| `KioskWindow.Window.HandleAction` | src/visiontak_client/ui/kiosk_window.py:286-306 | every remote action keeps the whole-window invariant and moves screen and chooser as the key table says |
| `KioskWindow.Window.MenuStep` | src/visiontak_client/ui/kiosk_window.py:308-313 | up and down open a closed chooser and move an open one |
| `KioskWindow.Window.Activate` | src/visiontak_client/ui/kiosk_window.py:315-320 | OK opens a closed chooser, confirms an open one, and does nothing in an open but empty one |
| `KioskWindow.Window.Step` | src/visiontak_client/ui/kiosk_window.py:322-328 | channel keys move an open chooser, else the screen |
| `KioskWindow.Window.JumpToDigit` | src/visiontak_client/ui/kiosk_window.py:330-335 | a digit jumps and closes the chooser only when that dashboard exists |
| `KioskWindow.Window.OnMenuActivate` | src/visiontak_client/ui/kiosk_window.py:337-339 | the chooser closes and the chosen dashboard is shown |
| `KioskWindow.Window.Play` | src/visiontak_client/ui/kiosk_window.py:156-339 | any sequence of actions, refreshes and load events played on the window: the screen follows the run's law, live views and page loads are those of the LRU pool on the run's requests, and no more views live than the setting says, or one |
| `Menu.DashboardMenu.constructor` | src/visiontak_client/ui/menu.py:20-55 | the chooser starts closed and empty |
| `Menu.DashboardMenu.SetDashboards` | src/visiontak_client/ui/menu.py:67-73 | rows are rebuilt one per dashboard in order, and the highlight is put back in range |
| `Menu.DashboardMenu.Select` | src/visiontak_client/ui/menu.py:93-100 | the highlight is clamped to the list, and the row highlighted is the selected one |
| `Menu.DashboardMenu.Open` | src/visiontak_client/ui/menu.py:75-80 | opens on the current dashboard, only when there is one |
| `Menu.DashboardMenu.Toggle` | src/visiontak_client/ui/menu.py:82-86 | closes an open chooser, opens a closed one |
| `Menu.DashboardMenu.Move` | src/visiontak_client/ui/menu.py:88-91 | the highlight moves round the list, wrapping at both ends |
| `Menu.RowIs` | src/visiontak_client/ui/menu.py:110-134 | a row carries name and group, under its number up to nine and under a bullet beyond |
| `Navigation.Find` | src/visiontak_client/ui/kiosk_window.py:173-177 | the first position of an id, the length of the list when absent |
| `Lru.PoolShape` | src/visiontak_client/ui/kiosk_window.py:225-249 | after every history the pool lists no id twice, never exceeds the limit and ends with the id shown last |
| `Lru.PoolIsRecentSuffix` | src/visiontak_client/ui/kiosk_window.py:180-249 | the pool is always a suffix of the unbounded most-recently-shown list of allowed ids |
| `Lru.StackInclusion` | src/visiontak_client/ui/kiosk_window.py:180-249 | on every history a smaller pool is a suffix of a larger one, so a larger limit never loads more |
| `Lru.ReuseDistance` | src/visiontak_client/ui/kiosk_window.py:205-249 | an id is still live exactly when fewer than the limit of different ids were shown since |
| `Competitive.LruCompetitive` | src/visiontak_client/ui/kiosk_window.py:205-249 | on every history, refreshes that drop ids included, loads are at most the limit times those of any rival policy with the same limit |
| `Competitive.HistoryIsRival` | src/visiontak_client/ui/kiosk_window.py:205-249 | the LRU history is itself such a rival and costs exactly its loads |
| `Phases.LruAgainstSmaller` | src/visiontak_client/ui/kiosk_window.py:205-249 | on every history, refreshes that drop ids included, against any rival that keeps at most h views where the limit is k: loads are at most k/(k-h+1) times the rival's, and less than k more |
| `Runs.StepInv` | src/visiontak_client/ui/kiosk_window.py:156-203 | every event keeps the screen invariant: no current index exactly when the list is empty, highlight in range, setup means nothing listed or requested |
| `Runs.RunInv` | src/visiontak_client/ui/kiosk_window.py:156-339 | the same after every run from the start |
| `Runs.SetupFirst` | src/visiontak_client/ui/kiosk_window.py:156-160 | until setup is left no event lists, shows, loads or opens anything |
| `Runs.KeysClosed` | src/visiontak_client/ui/kiosk_window.py:286-328 | with the chooser closed: channel keys step round the list, HOME goes to its first dashboard, four keys open the chooser on what is showing, the rest do nothing |
| `Runs.KeysOpen` | src/visiontak_client/ui/kiosk_window.py:286-328 | with the chooser open: arrows and channel keys move the highlight, down towards the end; toggle and close shut it, OK shows the highlight, HOME the first dashboard behind it |
| `Runs.KeysEmpty` | src/visiontak_client/ui/kiosk_window.py:286-328 | with nothing listed keys only shut an open chooser |
| `Runs.PositionsShown` | src/visiontak_client/ui/kiosk_window.py:195-203 | an activated row or a position asked for is shown |
| `Runs.WindowInclusion` | src/visiontak_client/ui/kiosk_window.py:231-249 | two kiosks on the same inputs show the same dashboard; the one with the smaller limit has a suffix of the other's pool and loaded at least as much, whatever load events each saw |
| `Runs.WindowCompetitive` | src/visiontak_client/ui/kiosk_window.py:205-249 | the competitive bound for every run of the window |
| `Runs.WindowAgainstSmaller` | src/visiontak_client/ui/kiosk_window.py:205-249 | that bound for the page loads of every run of the window |
| `Runs.OppositesUndo` | src/visiontak_client/ui/kiosk_window.py:308-328 | next and previous, down and up undo each other at both ends of the list, and channel keys move an open chooser |
| `Runs.ConfirmShowsHighlight` | src/visiontak_client/ui/kiosk_window.py:315-339 | confirming shows what is highlighted, and opening highlights what is showing |
| `Runs.DigitsReach` | src/visiontak_client/ui/kiosk_window.py:330-335 | the digit keys reach exactly the first ten dashboards, each by one key, and the other digits do nothing |
| `Runs.BadgeIsKey` | src/visiontak_client/ui/menu.py:110-117 | the badge of each of the first nine rows is the digit key that jumps to it |
| `Runs.RefreshStable` | src/visiontak_client/ui/kiosk_window.py:156-203 | a refresh that still lists the current dashboard keeps it, loads nothing, drops exactly the ids that left and keeps the recency order |
| `Runs.RefreshMoves` | src/visiontak_client/ui/kiosk_window.py:156-178 | any other refresh goes to the first dashboard, or to nothing; the chooser stays, its highlight at most on the last row |
| `Runs.RefreshInSetup` | src/visiontak_client/ui/kiosk_window.py:156-160 | a refresh during setup is ignored |
| `Runs.ApplyKeepsChoice` | src/visiontak_client/controller.py:172-193 | whatever the start dashboard is, a later list never moves the viewer off a dashboard still listed |
| `Runs.ApplyEmpty` | src/visiontak_client/controller.py:172-182 | an empty list from the cache is ignored, one from the server clears the screen |
| `Runs.ApplyStarts` | src/visiontak_client/controller.py:172-193 | in every run, the first list after an empty one, from cache or server, opens on the start dashboard exactly when that is set and listed, else on the first, at one load, or two when it is not the first |
| `Runs.Lap` | src/visiontak_client/ui/kiosk_window.py:322-328 | one lap of NEXT visits every position exactly once and comes home |
| `Runs.LapLoads` | src/visiontak_client/ui/kiosk_window.py:205-249 | after one lap each later step loads no page if the dashboards fit the limit and one page if they do not |
| `Controller.Controller.ApplyRotation` | src/visiontak_client/controller.py:246-252 | at most one rotate source is live, the old one removed first, due one interval from now |
| `Controller.Controller.CancelRotation` | src/visiontak_client/controller.py:258-263 | no rotate source is left live |
| `Controller.Controller.Attach` | src/visiontak_client/controller.py:43-50 | the clock runs from the start exactly when an interval is configured, its first advance due one interval from now |
| `Controller.Controller.RestartRotationClock` | src/visiontak_client/controller.py:265-267 | a live clock starts its interval afresh, a paused one stays paused |
| `Controller.Controller.ToggleRotation` | src/visiontak_client/controller.py:269-275 | toggling pauses or resumes, and is refused without an interval |
| `Controller.Controller.Dispatch` | src/visiontak_client/controller.py:235-242 | every remote action is recorded and puts the next advance at least an interval away; the log of advances and actions stays spaced |
| `Controller.Controller.Rotate` | src/visiontak_client/controller.py:254-256 | an advance steps the window, keeps every advance at least an interval after the previous advance and after any remote action, and the next is due one interval on |
| `Controller.Controller.Stop` | src/visiontak_client/controller.py:132-140 | no rotate source survives the stop |
| `Controller.Controller.ApplyConfig` | src/visiontak_client/controller.py:172-182 | an empty cache changes nothing; the start dashboard is selected only when nothing was listed before |
| `Controller.Controller.SelectStartDashboard` | src/visiontak_client/controller.py:184-193 | the window moves as the choice of a start dashboard says |
| `Controller.StartChosen` | src/visiontak_client/controller.py:184-193 | the device's own setting decides, listed or not, and the server's only where the device has none; an unlisted choice changes nothing |
| `Settings.Coerce` | src/visiontak_client/config.py:100-110 | a coerced value has its field's type, and text never fails |
| `Settings.Disk.FromMapping` | src/visiontak_client/config.py:113-127 | exactly the known entries that are neither null nor empty, raw |
| `Settings.Disk.Load` | src/visiontak_client/config.py:284-346 | environment beats the hook's file beats the client's file beats the board's defaults, field by field; and exactly when a load fails, and how |
| `Settings.Disk.Defaults` | src/visiontak_client/config.py:308-337 | host name and memory profile fill in only what nobody set |
| `Settings.Disk.Build` | src/visiontak_client/config.py:338-346 | every field is coerced to its type and the result meets the constructor's checks, or the load is refused |
| `Settings.Disk.Persist` | src/visiontak_client/config.py:241-281 | one key is recorded, the others kept, or nothing changes; it fails on a file that is not UTF-8 or holds another JSON value than an object |
| `Settings.Disk.Compose` | snap/hooks/configure:20-31 | the hook's file holds every key that is set and nothing else, and is not JSON when a value holds a control character |
| `Settings.Disk.Configure` | snap/hooks/configure:13-60 | a hook run is accepted exactly when the new settings load; otherwise config.json is exactly as before, or absent as before, whatever stale files lay about |
| `Settings.LoadDeterministic` | src/visiontak_client/config.py:284-346 | the load specification admits one outcome only |
| `Settings.LoadableFieldwise` | src/visiontak_client/config.py:71-85 | a start succeeds exactly when both files can be searched for keys and every field's raw value can be read and passes that field's check |
| `Settings.SelfTolerated` | src/visiontak_client/config.py:289-299 | a client file that cannot be parsed, or an array or a string without a setting's name, is as good as none; a type error comes exactly from a number, a boolean, null, or an array or a string with such a name |
| `Settings.SelfStopsIff` | src/visiontak_client/config.py:289-346 | the client's file stops a start exactly when it is such a value or gives a field that nobody overrides a value the field cannot take |
| `Settings.StrayKeyStops` | src/visiontak_client/config.py:289-346 | one stray key with a bad value in the client's file stops the start of a device that starts without the file, while a file that is not JSON changes nothing |
| `Settings.DefaultsLoadable` | src/visiontak_client/config.py:306-346 | with nothing set anywhere every board can start |
| `Settings.OwnFileIrrelevant` | src/visiontak_client/config.py:241-346 | whether a load succeeds never depends on what the client recorded for itself |
| `Readings.IntReads` | src/visiontak_client/config.py:108-109 | a number in decimal digits, perhaps signed, however padded, reads as what its digits are worth by their places, and is refused beyond 4300 digits |
| `Readings.IntRoundTrip` | src/visiontak_client/config.py:108-109 | every number reads back from its own spelling, positive or negative, as JSON number or text |
| `Readings.UnderscoreIgnored` | src/visiontak_client/config.py:108-109 | an underscore between two digits changes nothing |
| `Readings.ScriptsAgree` | src/visiontak_client/config.py:108-109 | digits of any script read as the ASCII digits they correspond to |
| `Readings.BoolReads` | src/visiontak_client/config.py:101-107 | four words for yes, four for no, in any letters, and nothing else |
| `Readings.FactoryField` | src/visiontak_client/config.py:33-69 | what a board nobody has configured starts with, field by field, by its memory |
| `Readings.ConstructorTakes` | src/visiontak_client/config.py:71-85 | the bounds within which a configuration is taken, both ways |
| `Readings.NameSize` | src/visiontak_client/config.py:84 | the length of the name is counted in UTF-8 bytes |
| `Readings.Layers` | src/visiontak_client/config.py:289-306 | the environment ignores both files, the hook's file the client's, and a field only the client sets is read from it |
| `Readings.EmptyIsUnset` | src/visiontak_client/config.py:124 | null or empty in a file is as good as no entry |
| `Readings.HookKeysAre` | snap/hooks/configure:9-11 | the hook passes on every setting but the request timeout and discovery |
| `Readings.SnapReaches` | snap/hooks/configure:20-31 | what is set through snap, less line breaks at its end, is what the start reads |
| `Readings.SnapLeaves` | snap/hooks/configure:20-31 | a key not set, or to line breaks only, leaves the field as it was |
| `Readings.ComposesJson` | snap/hooks/configure:16-31 | the hook's file is JSON exactly when no value it passes on has a character below the space |
| `Provisioning.AlwaysLoadable` | snap/hooks/configure:35-60 | in every interleaving of client writes and uninterrupted hook runs the settings load at every moment but between a run's swap and its check |
| `Provisioning.RejectionRestores` | snap/hooks/configure:50-58 | a rejected run leaves config.json as it found it |
| `Provisioning.HookRunAtomic` | snap/hooks/configure:35-60 | wherever client writes fall among its steps, and after any earlier interruption, a run accepts exactly the loadable settings and else restores |
| `Provisioning.InterruptIff` | snap/hooks/configure:35-60 | cut short before its swap a run leaves the settings as loadable as it found them; cut short after it, exactly as loadable as the new ones, wherever client writes fall; the composed and the kept file stay where the cut left them |
| `Provisioning.InterruptBreaks` | snap/hooks/configure:46-58 | an interrupted run that leaves unloadable settings |
| `Provisioning.StuckUntilMended` | snap/hooks/configure:35-60 | over every sequence of client writes, hook steps and interruptions unloadable settings stay so exactly as long as no run swaps in loadable ones |
| `Provisioning.StuckUntilAccepted` | snap/hooks/configure:35-60 | one complete run mends unloadable settings exactly when its own are loadable |
| `Provisioning.HookSilence` | snap/hooks/configure:9-11 | a key the hook does not read never reaches any file |
| `Provisioning.RecordStays` | src/visiontak_client/config.py:248-271 | what the client recorded stays on disk through every hook step, interruption and write of its other keys |
| `Provisioning.DiscoveryIgnoresSnap` | snap/hooks/configure:9-11 | whatever is set through snap, discovery is on exactly when the environment turns it on |
| `Refresh.AdvanceKeeps` | src/visiontak_client/controller.py:144-170 | a refresh chain neither dies nor multiplies before the stop |
| `Refresh.Drains` | src/visiontak_client/controller.py:132-170 | after the stop the chains do a bounded number of things, start at most one refresh for each armed or about-to-arm chain, and re-arm none that had not passed its check |
| `Refresh.CancelsAll` | src/visiontak_client/controller.py:132-135 | cancelling every armed timer leaves only the refreshes under way, and no cancelled timer fires |
| `Enrolment.AlwaysOk` | src/visiontak_client/controller.py:54-130 | the process invariant in every run; crashes, hook runs and attempts that raise included |
| `Enrolment.StartedAs` | src/visiontak_client/controller.py:28-50 | a process starts with the interval, token and address its files load to, an offered address only where none is configured and discovery is on, in setup exactly without an address, polling exactly with an address and no token, under the configured device id when that is good and an invented one otherwise |
| `Enrolment.SingleFlight` | src/visiontak_client/controller.py:54-130 | at most one registration attempt at a time; while an enrolment is wanted exactly one timer, thread, callback or setup entry carries it on, and none once an attempt of the process has raised |
| `Enrolment.NoLostUpdate` | src/visiontak_client/controller.py:67-112 | the configuration an attempt writes back differs from the one it overwrites in the token only |
| `Enrolment.ChainCount` | src/visiontak_client/controller.py:114-170 | a process started on settings with a refresh interval has exactly one refresh chain before it gains a token and two after, until the stop, and at most two refreshes after it; one started without an interval has none |
| `Enrolment.StopIsQuiet` | src/visiontak_client/controller.py:132-140 | no request leaves a process once it is stopped and at rest, whatever timers are left |
| `Requests.StopDisarms` | src/visiontak_client/controller.py:132-137 | at any moment of any run the stop leaves no poll timer armed |
| `Requests.SubmitUnwritten` | src/visiontak_client/ui/kiosk_window.py:132-150 | an address that could not be written down leaves everything as it was, and the same entry can be submitted again |
| `Requests.AlwaysBootable` | src/visiontak_client/config.py:284-346 | after every run, wherever it is cut, the device can start again if it could with nothing set, and its own file holds no key but its address, token and id |
| `Enrolment.NextPollEnrols` | src/visiontak_client/controller.py:108-119 | once approved, the next poll that is answered brings the token into memory and onto disk, if the address can be requested and no attempt has raised |
| `Enrolment.SetupEndsIff` | src/visiontak_client/controller.py:67-91 | an answering server ends setup exactly when no token was preset and the address can be requested; with a preset token the entry comes back, with an address that cannot be requested nothing does |
| `Raising.CarriedOnIff` | src/visiontak_client/controller.py:67-130 | within one process, an enrolment still wanted is carried on exactly when no attempt has raised |
| `Raising.RunRaised` | src/visiontak_client/api.py:125-158 | a process has had an attempt raise exactly when some step of its run was a request that raised, or whose address has no scheme or a character that cannot go on the wire |
| `Raising.InnerSpace` | src/visiontak_client/config.py:191-211 | for every host name, an address with a space inside its path is accepted and cannot be requested |
| `Raising.RequestableIff` | src/visiontak_client/api.py:125-158 | an accepted address without a fragment can be requested exactly when every character is visible ASCII |
| `Raising.FragmentIgnored` | src/visiontak_client/api.py:128-130 | what stands behind the last `#` does not matter |
| `Raising.SubmitMutes` | src/visiontak_client/controller.py:54-74 | one such address typed at the setup screen ends in an exception, whatever the network does, with the address on disk and the entry closed |
| `Raising.MuteForever` | src/visiontak_client/controller.py:93-130 | while the address in force cannot be requested and none is being asked for, no request reaches the server and no setup entry opens, over any number of boots, until the hook changes the address |
| `Raising.HookMutes` | snap/hooks/configure:35-60 | the hook accepts any bare host name as the server address on every device that starts, and the device is mute from then on |
| `Tokens.TokenConservation` | src/visiontak_client/firstrun.py:43-72 | in every run that does not lose the token itself, whatever else is lost: at most one token issued, no request after it, and outside the moment between hearing and saving it is on disk, where every later start finds it |
| `Requests.CallLedger` | src/visiontak_client/firstrun.py:43-58 | the server hears exactly the requests that reach it, in order, and counts as late each one after a token was issued |
| `Requests.TokenEndsCalls` | src/visiontak_client/firstrun.py:49-72 | where no token is lost, the request that brings it is the last the server hears, over all later boots |
| `Tokens.CarefulStep` | src/visiontak_client/firstrun.py:43-72 | each step that does not lose the token conserves it, lost replies without a token included |
| `Tokens.OfferSticks` | src/visiontak_client/firstrun.py:29-40 | an address taken from the network is written down |
| `Tokens.StrandedForever` | docs/dhcp-discovery.md:114-116 | a device whose token was delivered but is nowhere on it never gets one again in any run, and the server issues no other |
| `Losses.TokenLedger` | src/visiontak_client/firstrun.py:43-72 | in every run where nobody else sets the token, whatever becomes of the device's id: the tokens issued are those that a step lost, and the one on disk or just heard |
| `Losses.TokenKeptIff` | src/visiontak_client/firstrun.py:43-72 | in every run where nobody else sets token or id and an invented id is written down: at most one token is issued, and once issued it is on disk, and found by the next start, exactly when no step of the run lost it |
| `Losses.LossStrands` | src/visiontak_client/firstrun.py:52-70 | in a run where nobody else sets token or id and an invented id is written down, the first step that loses the token, be it a lost reply, a failed save or an end before the save, strands the device, at once or when the process ends |
| `Losses.OneLostReply` | docs/dhcp-discovery.md:99-116 | from the factory, whatever the host name, nine faultless steps lead to a poll whose reply, if lost, strands the device and, if heard and saved, puts the token on disk |
| `Identity.OneIdentity` | src/visiontak_client/config.py:154-188 | over any number of boots every register call carries one id, at least 8 characters and none of the five weak names, and the server keeps one record |
| `Identity.StartSettlesId` | src/visiontak_client/config.py:167-188 | after a start the files name the strong id the process goes by |
| `Enrolment.StrongIdIff` | src/visiontak_client/config.py:154-179 | an id is good exactly with at least eight characters and none of the weak names long enough to matter |
| `ServerUrl.AuthorityIff` | src/visiontak_client/config.py:214-238 | the authority check accepts exactly a host name or bracketed literal with an optional port from 1 to 65535 |
| `ServerUrl.PortIff` | src/visiontak_client/config.py:237-238 | a port is spelled in digits and worth 1 to 65535 by their places |
| `ServerUrl.PortNumbers` | src/visiontak_client/config.py:237-238 | every number is a port exactly in that range |
| `ServerUrl.HostNameIff` | src/visiontak_client/config.py:234 | a host name is a letter or digit, or two with letters, digits, dots and hyphens between |
| `ServerUrl.LiteralIff` | src/visiontak_client/config.py:229 | an address literal is hexadecimal digits, colons and dots |
| `ServerUrl.AcceptedIff` | src/visiontak_client/config.py:191-211 | an input is accepted exactly when, trimmed, it is `http://` or `https://` in any case, or no `://` at all, then an authority in the grammar, then nothing or a path |
| `ServerUrl.NormaliseSound` | src/visiontak_client/config.py:191-211 | every result is http or https, an authority in that grammar and a path without trailing slash |
| `ServerUrl.CanonicalKept` | src/visiontak_client/config.py:191-211 | every such address that does not end in a space is kept as it is |
| `ServerUrl.TypedForm` | src/visiontak_client/config.py:191-211 | an address typed without scheme, padded or with trailing slashes, means the pedantic form |
| `ServerUrl.SchemedForm` | src/visiontak_client/config.py:205-211 | an address typed with a scheme in any letters keeps that scheme in small letters |
| `ServerUrl.NormaliseIdempotentIff` | src/visiontak_client/config.py:191-211 | a second pass changes nothing exactly when the input is no such address or does not end in a space once trimmed of spaces and then slashes |
| `ServerUrl.SecondPassDiffers` | src/visiontak_client/config.py:191-211 | a family of inputs that the second pass does change |
| `Text.StripExact` | src/visiontak_client/config.py:198 | trimming takes spaces from both ends and nothing else |
| `Text.SpaceCodes` | src/visiontak_client/config.py:198 | the 29 characters that count as spaces |
| `Discovery.HexBytesCompact` | src/visiontak_client/discovery.py:45-61 | the hexadecimal spelling of a printable text, in either case and with or without colons, is read back as exactly its bytes |
| `Discovery.HexDigitTable` | src/visiontak_client/discovery.py:45-61 | the sixteen digits and their values, in either case |
| `Discovery.CompactSkips` | src/visiontak_client/discovery.py:51 | pieces are read one after the other, colons and spaces between them skipped |
| `Discovery.DecodeHexBytes` | src/visiontak_client/discovery.py:45-61 | decoding undoes the hexadecimal spelling of any trimmed printable text of two or more characters, with or without colons, in either case |
| `Discovery.WireAgrees` | src/visiontak_client/discovery.py:64-69 | such an option means the address its bytes spell |
| `Discovery.TextAgrees` | src/visiontak_client/discovery.py:45-69 | bytes and bare text mean the same address whenever the text cannot be taken for hexadecimal |
| `Discovery.DecodeIff` | src/visiontak_client/discovery.py:45-61 | a bare text is taken as itself exactly when it does not spell printable bytes |
| `Discovery.QuotedOption` | src/visiontak_client/discovery.py:47 | quotes around an option, and spaces around those, mean nothing |
| `Discovery.FewDigits` | src/visiontak_client/discovery.py:51-52 | fewer than four digits, or an odd number, are taken as text |
| `Discovery.ZeroTerminated` | src/visiontak_client/discovery.py:54 | bytes ended by a zero byte mean the text before it |
| `Models.OrderFailsIff` | src/visiontak_client/models.py:72-79 | an order text fails exactly when it is minus signs and digits that are no number to `int`: two or more signs, a digit that is no decimal digit, or more than 4300 digits |
| `Digits.DecimalIff` | src/visiontak_client/models.py:74-76 | a character is worth d to `int` exactly when it is the d-th after the ASCII zero or one of the listed zeros |
| `Digits.LooksIff` | src/visiontak_client/models.py:74-76 | `str.isdigit` says yes to the decimal digits and the listed runs, and to no more |
| `Models.OddOrderDropped` | src/visiontak_client/models.py:51-63 | such an order loses the dashboard, and no other text order does |
| `Models.OrderWitnesses` | src/visiontak_client/models.py:72-79 | `--5` and a superscript two fail |
| `Models.SortCorrect` | src/visiontak_client/models.py:82-83 | the list comes out in display order, the same dashboards, ties as they came |
| `Models.StableSortUnique` | src/visiontak_client/models.py:82-83 | there is only one such list |
| `Models.SortedKept` | src/visiontak_client/models.py:82-83 | a list in display order is left alone |
| `Payloads.DisplayOrder` | src/visiontak_client/models.py:82-83 | the list runs from the smallest order to the largest, at equal orders by name in small letters, character by character, and holds the same dashboards |
| `Payloads.KeysRead` | src/visiontak_client/models.py:18-32 | the spellings of each key, the first present and not null deciding |
| `Payloads.Given` | src/visiontak_client/models.py:53-56 | which values are not taken as given |
| `Payloads.SwitchedOff` | src/visiontak_client/models.py:65-69 | a dashboard is switched off exactly by a flag that is false, zero or empty; the text "false" does not do it |
| `Payloads.Made` | src/visiontak_client/models.py:51-63 | id, name, address, order and group of a dashboard, and what stands in for a missing one |
| `Payloads.ShownAs` | src/visiontak_client/models.py:57-62 | a number is shown in decimal digits worth it, behind a minus when negative |
| `Payloads.PageAddress` | src/visiontak_client/models.py:35-37 | a page lies under `/view/`, however many slashes the server's address ends in |
| `Payloads.OrderReads` | src/visiontak_client/models.py:72-79 | an order in digits, perhaps behind one minus, is that number |
| `Payloads.NoNumber` | src/visiontak_client/models.py:72-79 | any other text counts as order zero |
| `Api.ParseClientConfig` | src/visiontak_client/api.py:93-111 | the stable display order of exactly the usable entries, and the default, or an error without a collection |
| `Payloads.ListFound` | src/visiontak_client/api.py:82-90 | a list is taken as it is, an object by the first of five keys that holds one |
| `Payloads.DefaultRead` | src/visiontak_client/api.py:107-111 | the default is the text of its key, when given |
| `Api.BadEntryIgnored` | src/visiontak_client/api.py:95-105 | one entry that is no object, disabled or without id loses nothing else |
| `Payloads.Listed` | src/visiontak_client/api.py:95-106 | an entry that is switched on, has an id and a readable order adds exactly its own dashboard, wherever it stands |
| `Api.DeliveryIff` | src/visiontak_client/api.py:176-193 | a reply delivers a token exactly when it is approved and carries a text that is not empty |
| `Api.ConfigCache.Save` | src/visiontak_client/api.py:202-212 | the file holds the whole document |
| `Payloads.CacheKeys` | src/visiontak_client/api.py:204-209 | the stored copy has two keys, and each of its entries three, under these names |
| `Api.ConfigCache.Load` | src/visiontak_client/api.py:214-221 | a missing, corrupt or unusable file reads as nothing; only one that is not UTF-8 raises |
| `Api.CacheRoundTrip` | src/visiontak_client/api.py:202-221 | what was parsed and saved is recalled in the same order with the same default, less the grouping |
| `Api.CacheSettles` | src/visiontak_client/api.py:202-221 | a second round trip changes nothing |
| `Cec.FrameRoundTrip` | src/visiontak_client/cec/uapi.py:52-66 | a frame of at most 14 operands fits the 16 bytes and gives back initiator, destination, opcode and operands |
| `Cec.AddressRoundTrip` | src/visiontak_client/cec/kernel.py:132-136 | an address split into two operands is joined again |
| `Cec.AnnouncementBytes` | src/visiontak_client/cec/kernel.py:113-149 | the bytes of an announcement, frame by frame, and when there is none |
| `Cec.HeaderNumber` | src/visiontak_client/cec/uapi.py:52-58 | the header is initiator times sixteen plus destination |
| `Cec.AddressBytes` | src/visiontak_client/cec/kernel.py:132-136 | an address goes out high byte first |
| `Cec.EventTable` | src/visiontak_client/cec/kernel.py:222-242 | what each opcode means, in numbers |
| `Cec.EchoIff` | src/visiontak_client/cec/kernel.py:238-242 | an announced source is silence exactly when it is us, and a lost source otherwise |
| `Cec.OwnAnnouncementSilent` | src/visiontak_client/cec/kernel.py:127-149 | no frame of our own announcement reads as another source, and each names us as initiator |
| `Cec.KernelBackend.Transmit` | src/visiontak_client/cec/kernel.py:113-125 | with the adapter open, the bytes written are the frame; nothing is sent without a logical address, and an exception instead of a frame comes exactly from an address above four bits or a payload that runs off the buffer |
| `Cec.KernelBackend.Announce` | src/visiontak_client/cec/kernel.py:127-137 | the three frames of an announcement, and none without a physical address or with a logical one above four bits, which raises |
| `Cec.KernelBackend.SendOsdName` | src/visiontak_client/cec/kernel.py:139-149 | the name always fits a frame, and an empty one is not sent |
| `Cec.KernelBackend.ClaimLogicalAddress` | src/visiontak_client/cec/kernel.py:88-109 | nothing is claimed without a physical address, a failed claim keeps the old one, and any byte the kernel returns is taken |
| `Cec.KernelBackend.Open` | src/visiontak_client/cec/kernel.py:42-55 | reopening keeps a stale logical address unless a new claim succeeds |
| `Cec.KernelBackend.OnStateChange` | src/visiontak_client/cec/kernel.py:194-205 | losing the link gives up the address; a new address is announced exactly when a claim succeeds; nothing is ever sent without a physical address |
| `Cec.KernelBackend.Decode` | src/visiontak_client/cec/kernel.py:222-242 | each message's event, and an announcement exactly when the stream path is ours; the event is lost only when that announcement raises |

## Left out

- Enrolment.SingleFlight: `KioskController`'s enrolment threads and timers are modelled as steps on
  values, not as methods of a class, because threads interleave in the middle of those methods.
- Raising.RunRaised: an address cannot be requested when the standard library finds no scheme in it,
  or, behind `http://` or `https://` and a host, a space, a control character or, after the host, a
  character beyond ASCII, all before its last `#`. Other things make the library raise as well: a
  port that is no number, a host name with an empty or overlong label, a device id with a line
  break, a reply cut off or not UTF-8. Those are outcomes a request may have, not tests on its
  address.
- Enrolment.ChainCount: the stop's cancelling of one timer is a step that may take either chain's
  timer, or none.
- ServerUrl.NormaliseSound: letters and digits are the ASCII ones; Python's `isdigit` also takes
  other digits, some of which `int` then refuses, and ports of more than 4300 digits.
- Discovery.DecodeHexBytes: bytes of 128 and above are taken as undecodable, so UTF-8 text outside
  ASCII in a hexadecimal option is not modelled.
- Models.SortCorrect: names are compared with ASCII lower case, not Unicode lower case; orders given
  as floats and the text of lists or objects used as names are not modelled.
- Settings.Disk.Load: settings are keyed by field, so the spelling of keys in files and environment
  and unknown keys are not modelled; nor are texts with lone surrogates, which cannot be encoded.
- Settings.LoadableFieldwise: a number, list or object in a settings file is known by the text that
  `str` makes of it, whatever that is.
- Settings.Disk.Persist: the mirror into snapd is not performed; `Tokens` and `Identity` allow the
  hook's file to carry back exactly the client's own values.
- Settings.Disk.Configure: the copy to the backup is one step, and the check sees the daemon's
  environment.
- Controller.Controller.Attach: the rotation part only; the cached list is `ApplyConfig`, the first
  registration and refresh are in `Enrolment.Started`, and the CEC reader is not started.
- Controller.Controller.Stop: the rotate source only; the timers are in `Enrolment.Moves` and
  `Refresh`, and the CEC reader is not stopped.
- Cec.KernelBackend.Transmit: a transmission after the adapter was closed, which raises, and one that
  the kernel refuses, which is logged, are not modelled.
- Controller.Controller.Rotate: a timer is taken to fire no earlier than it is due; GLib may fire one
  that counts in seconds a fraction of a second early.
- Cec.KernelBackend.SendOsdName: called directly it sends whatever the physical address is; every
  call in the source goes through the announcement, which checks it.
- Tokens.StrandedForever: an administrator's re-issue, which is outside the client, is not a step.
- Lru.ReuseDistance: stated for stretches without a refresh, since a refresh changes which ids count.
- GTK, WebKit and GLib beyond what is shown, which source fires and when; the toast, blanking,
  diagnostics panel, branding and network information; a view is a serial number.
- HTTP, TLS, sockets, ioctls, `/proc/meminfo`, file bytes and JSON text: replies, claims and memory
  size are inputs, and files change atomically.
- `SetupScreen`'s labels, the lease-directory scan of DHCP discovery, key tables, `HostAllowlist`,
  the libcec backend, the server probe, and the build and image scripts.
