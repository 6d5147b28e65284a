# SirenWM: verified model of the window manager's core

SirenWM keeps all window-manager state in a backend-free core: workspaces and monitors, a reducer that
turns commands into flag changes, backend effects and per-window dirty bits, and the protocols that keep
an X server or a display server in step with it. This project models that core in Dafny and proves what
it promises.

How it is organised:

- `Topology`, `Windows` and `Reducer` say, as functions on values, what every operation computes. The
  results about whole runs are proved about these functions (`TopologyProofs`, `Hotplug`, `WindowProofs`,
  `FocusCycle`, `ReducerProofs`, `TopologySteps`, `HotplugRuns`, `EffectProofs`, `FocusProofs`,
  `FullscreenProofs`, `Insets`, `GeometryTracking`, `GeometryProtocol`).
- What the operations mean for a user is stated without those functions, in terms of the configuration, the
  window table and the effects: who owns which workspace (`Assignment`), what monitors show and which is
  focused (`MonitorProofs`, `ReloadProofs`), which window a list or a cycle leads to (`ListProofs`,
  `CycleProofs`), where windows lie (`ArrangeProofs`, `ArrangedCommands`, `SurfaceProofs`,
  `CommandedGeometry`), how they are stacked (`ModeProofs`), what each command announces (`FocusCommands`)
  and what it leaves of a window (`WindowCommands`).
- `Manager` and `Dispatch` hold the objects `WorkspaceManager` and `Core` with their fields and the
  source's loops. Each method is proved to leave exactly the state that the functions say, so every
  result about runs holds of the objects, settings reloads included (`Dispatch.Core.Dispatch`,
  `Dispatch.Core.DispatchAll`).
- `Compose` and `Validator` are the placement of monitors and the check that is meant to guarantee it;
  `Tile` is the tiling layout.
- `Mirror` and `DisplayServer` replicate the display server's tables over a FIFO channel.
- `Text`, `Registry`, `RestartFile`, `Restart`, `RestartShown` and `Adoption` are the two state files and
  the restart.
- `ReloadTransaction` is the transactional reload of settings.

A window object shared by pointer in the source is an entry of the window index here, identified by its
id. A command's outcome flag is modelled where other code acts on it. Hash-map iteration order is
arbitrary: loops over maps pick any remaining key.

Where a promise does not hold of the code as it stands, the condition under which it holds is proved,
together with an input on which it fails (`Counterexamples`, `Tile`, `Insets`):

- A created window is reported truthfully only if no map effect for an earlier window of the same id is
  pending (`EffectProofs.CreateFaithful`, `Counterexamples.MappedBeforeItsTime`); runs therefore assume
  that a removed window is gone from the screen.
- `focus` on an invisible window goes to the root although a visible window may still be derived
  (`FocusProofs.FocusAgrees`, `Counterexamples.RootThoughOneIsVisible`).
- Making a window borderless changes its border without a dirty bit
  (`GeometryProtocol.BorderlessForgetsBorder`, `Counterexamples.BordersApart`).
- Normalisation stops at its `INT_MAX` sentinel, also for configurations that the validator accepts
  (`Compose.NonNegativeIff`, `Counterexamples.NegativeThoughAccepted`).
- A reload that removes workspaces can make a monitor show another workspace although the one it shows
  remains (`ReloadProofs.ReloadShows`, `Counterexamples.ReloadShowsAnother`).
- A size fitted to a client's resize increments can exceed the client's maximum when its base size does
  (`CommandedGeometry.FittedBounds`, `CommandedGeometry.AboveMaximum`).
- Tiling is exact only with room for every cell (`Tile.TileExact`, `Tile.WiderThanMonitor`), and a
  reservation keeps the physical surface only if it fits (`Insets.ReserveKeepsPhysical`,
  `Insets.BarTallerThanMonitor`).
- An exec-restart gives a window its workspace back only if the new configuration still has it
  (`Restart.RestartRestores`), and a monitor its shown workspace only if the new instance assigns it there
  (`RestartShown.RestartShows`).
- A failed reload brings everything back except layouts defined by the script: they are cleared at the
  start (core/include/domain/core.hpp:230-233) and are not part of the saved state
  (core/src/core/core_dispatch.cpp:915-929).
- `update_workspace_defs` needs a non-empty list once workspaces exist
  (core/src/core/workspace_manager.cpp:366-372); validation supplies that
  (core/src/runtime/runtime.cpp:302), and it is the one premise a command has in the reducer.

## Model
| member | source | states |
|---|---|---|
| TopologyProofs.RebuildMatches | core/src/core/workspace_manager.cpp:279-320 | Whatever the seed pools were, the rebuilt pools list exactly what each monitor owns, once each, and every active position is valid. |
| TopologyProofs.RebuildShowsPreferred | core/src/core/workspace_manager.cpp:305-319 | A monitor goes on showing the workspace it preferred whenever that workspace is in its pool. |
| TopologyProofs.AssignSettles | core/src/core/workspace_manager.cpp:472-518 | From whatever state, assigning leaves owners, pools, active positions, `Monitor::active_ws` and the focused monitor in full agreement, with every workspace owned by the monitor that the lookup of its alias finds (`Assignment.ResolveStands` says which that is); without monitors it does so if and only if the focused monitor's number was 0 already. |
| TopologyProofs.AssignKeepsSettled | core/src/core/workspace_manager.cpp:472-518 | On a settled topology, assigning changes nothing but possibly which monitor is focused. |
| TopologyProofs.AssignIdempotent | core/src/core/workspace_manager.cpp:472-518 | Assigning twice is assigning once, from any starting state at all. |
| Assignment.ResolveStands | core/src/core/workspace_manager.cpp:268-277 | An alias stands for the first monitor named by the output of its first entry or, without an entry, for the first monitor of that name; the lookup finds that monitor, and nothing if there is none. |
| Assignment.RoundRobinDeals | core/src/core/workspace_manager.cpp:496-506 | The k-th workspace without an owner goes to the k-th monitor, counted from the starting one around the end. |
| Assignment.AssignDecides | core/src/core/workspace_manager.cpp:472-518 | Who owns each workspace after assigning: the monitor its alias stands for; else the owner from before, if that monitor is still there; the rest is dealt in turn, starting at the monitor the primary stands for. |
| Assignment.SettledAsAsked | core/src/core/workspace_manager.cpp:484-494 | In a settled topology - so after start-up, hot-plug and reload - every workspace whose alias stands for a connected monitor is owned by that monitor. |
| Assignment.RunsAsAsked | core/src/core/workspace_manager.cpp:472-518 | From start-up, after every run of commands, hot-plugs and reloads included, a workspace that the configuration puts on a connected monitor is owned by it. |
| MonitorProofs.AssignArranges | core/src/core/workspace_manager.cpp:279-320 | After assigning, each pool keeps the order it had, new workspaces follow in ascending order, and the monitor shows what it showed or, having lost that, the first of its pool. |
| MonitorProofs.AssignChooses | core/src/core/workspace_manager.cpp:244-260 | The focused monitor stays focused while it shows a workspace; else the first monitor that shows one is focused, else number 0. |
| TopologyProofs.ReplugSettles | core/src/core/workspace_manager.cpp:520-611 | A monitor topology change settles the topology whatever it was before. |
| MonitorProofs.SetMonitorsFollows | core/src/core/workspace_manager.cpp:520-611 | When monitors change, the focus follows the name of the focused monitor, else its number, else number 0; from there it goes to the first monitor that shows a workspace if that one shows none. |
| MonitorProofs.ReplugFollows | core/src/core/workspace_manager.cpp:472-611 | Over `set_monitors` and `assign_workspaces` the monitor of the same name stays focused if it shows a workspace after each of them. |
| MonitorProofs.UnplugKeepsFocus | core/src/core/workspace_manager.cpp:472-611 | If monitors are only unplugged, the focused one stays focused under its new number whenever it survives and showed a workspace. |
| TopologyProofs.ReloadSettles | core/src/core/workspace_manager.cpp:364-444 | A settings reload that grows or shrinks the workspace list settles the topology again, even when the workspaces being shown are removed. |
| ReloadProofs.ReloadDecides | core/src/core/workspace_manager.cpp:364-444 | After a reload, each remaining workspace is owned by the monitor the new configuration asks for, and else by its owner from before. |
| ReloadProofs.ReloadShows | core/src/core/workspace_manager.cpp:380-443 | A monitor that keeps its remaining workspaces goes on showing the workspace it shows, or the first that remains if that one is removed, if and only if no workspace before it in the pool is removed, or all are and fewer remain than its old position; the recorded position is not corrected. |
| Counterexamples.ReloadShowsAnother | core/src/core/workspace_manager.cpp:407-428 | It fails from start-up: two monitors share four workspaces, one is unplugged, the other is switched to workspace 0, and a reload that removes workspace 3 makes it show another one, although 0 is still there. |
| ReloadProofs.SettingsRehome | core/src/core/workspace_manager.cpp:380-405 | A reload leaves every window where it is, except that those of a removed workspace join the first remaining one of its monitor, or workspace 0 if there is none. |
| TopologyProofs.ShowKeeps | core/src/core/workspace_manager.cpp:936-945 | Switching by position shows that position on its monitor and keeps everything else. |
| TopologyProofs.SwitchShows | core/src/core/workspace_manager.cpp:731-764 | A switch shows the workspace on its owner, whatever the hint was; owners, pools, the focused monitor and what the other monitors show stay. |
| TopologyProofs.FocusWorkspaceShows | core/src/core/workspace_manager.cpp:896-924 | Focusing a window makes its monitor the focused one and its workspace the active one there, and changes nothing on the others. |
| TopologyProofs.PoolsCover | core/src/core/workspace_manager.cpp:700-712 | With a monitor connected, every workspace is in the pool of its owner. |
| TopologyProofs.PoolsDisjoint | core/src/core/workspace_manager.cpp:700-712 | No workspace occurs twice, neither in one pool nor in two. |
| TopologyProofs.NoWorkspaceShownTwice | core/src/core/workspace_manager.cpp:200-227 | No workspace is active on two monitors. |
| Hotplug.UnplugRemembers | core/src/core/workspace_manager.cpp:520-611 | After unplugging any monitors, what survived and what was parked still determines every original owner, pool and active workspace, whatever aliases and round robin did with the orphans. |
| Hotplug.SetMonitorsRestores | core/src/core/workspace_manager.cpp:566-611 | Plugging the original monitors back in restores owners, pools in their order and active positions already in `set_monitors`. |
| Hotplug.ReplugRestores | core/src/core/workspace_manager.cpp:472-611 | `set_monitors` and `assign_workspaces` for any subset and then for the original list bring back every owner, every pool in its original order and every active workspace. |
| TopologySteps.FocusCurrent | core/src/core/core_dispatch.cpp:110-160 | Focusing nothing in particular changes of the topology at most which monitor is focused: the window it settles on is on a workspace that its owner shows. |
| TopologySteps.SwitchTopology | core/src/core/core_dispatch.cpp:365-389 | All that follows a switch - visibility, arranging, focus, stacking - changes of the topology at most which monitor is focused. |
| TopologySteps.StepKeepsAssignment | core/src/core/core_dispatch.cpp:344-913 | Every command but a hot-plug and a settings reload leaves owners, pools, parked pools and monitor names alone. |
| WindowCommands.VisibilityLaw | core/src/core/core_dispatch.cpp:429-450 | Each visibility command changes one flag of its window and no other window; a map effect follows only mapping an unmapped window that is visible then, an unmap effect unmapping a mapped one or hiding a visible one. |
| WindowCommands.FlagLaw | core/src/core/core_dispatch.cpp:616-659 | Each flag command changes one flag of its window and nothing else. |
| WindowCommands.MetadataLaw | core/src/core/core_dispatch.cpp:543-598 | How a window is classified: promoted to borderless if it covers its monitor and has a fixed size or was fullscreen before; floating if it was, belongs to another window, is of a floating kind, or has a fixed size, decorations and a monitor larger than itself. No other window changes. |
| WindowCommands.BorderlessLaw | core/src/core/core_dispatch.cpp:632-651 | A borderless window loses its border unless it owns its geometry; its other flags and saved geometry stay. |
| WindowCommands.ConfigLaw | core/src/core/core_dispatch.cpp:802-828 | Each layout command sets one parameter, to the allowed value nearest to what is asked: a master factor between 0.1 and 0.9, at least one master window; only an unknown layout is refused. |
| HotplugRuns.HotplugRoundTrip | core/src/core/core_dispatch.cpp:775-785 | Unplug any subset, replug the original list, each time with everything the command does to windows and focus: every owner, every pool in its original order and every monitor's active workspace is back. |
| HotplugRuns.HotplugSurvivesRuns | core/src/core/core_dispatch.cpp:775-785 | The same with any run of other commands in between: owners and pools are back, a monitor that was gone shows what it showed, and one that stayed shows what the run led it to if that is its own, else the first of its pool. |
| WindowProofs.DropKeeps | core/src/core/workspace_manager.cpp:864-876 | Removing a window takes it out of its list and both hash indexes and touches no other window. |
| ListProofs.RemoveTakesOff | core/src/core/workspace_manager.cpp:33-55 | Removing a window leaves the cursor of its workspace on the window it was on, or moves it to the next one, the last one or nowhere; order, other workspaces and other windows stay. |
| WindowProofs.CreateKeeps | core/src/core/workspace_manager.cpp:766-798 | A created window is listed once, on the workspace asked for, the one in use or the first, and both indexes know it; an id that was known is relisted, and stays as it is if it is listed there already. |
| ListProofs.EnsurePlaces | core/src/core/workspace_manager.cpp:766-798 | A new window is last on the workspace named, else on the one the focused monitor shows, else on the first; the cursor moves only if that workspace was empty, and nothing else changes. |
| WindowProofs.MoveKeeps | core/src/core/workspace_manager.cpp:878-894 | Moving changes only where a window is listed; every window stays listed exactly once. |
| ListProofs.MovePlaces | core/src/core/workspace_manager.cpp:878-894 | A moved window leaves its list as a removed one does and is appended to the other one; every other list, cursor and window stays. |
| ListProofs.MoveCommandPlaces | core/src/core/core_dispatch.cpp:391-427 | Whichever of the three commands moves it, the window ends up last on the destination, and all other windows keep list and order, through arranging, fullscreen and focus. |
| WindowProofs.ResizeKeeps | core/src/core/workspace_manager.cpp:364-444 | Changing the number of workspaces loses no window: those of removed workspaces are listed at their fallback. |
| WindowProofs.LookupsAgreeWithScan | core/src/core/workspace_manager.cpp:669-678 | Both hash lookups agree with a linear search through all workspaces, for every id. |
| WindowProofs.ListedOnce | core/src/core/workspace_manager.cpp:685-698 | Each live window is listed exactly once over all workspaces, and no other id at all. |
| FocusCycle.PrevUndoesNext | core/src/core/workspace_manager.cpp:107-166 | Starting on an eligible window, `focus_prev` undoes `focus_next`, and the other way round. |
| FocusCycle.CycleVisitsAll | core/src/core/workspace_manager.cpp:107-135 | With m eligible windows, m steps of `focus_next` return to the start, and every eligible window is met at exactly one number of steps on the way. |
| ListProofs.FocusedIs | core/src/core/workspace_manager.cpp:57-80 | The focused window of a workspace is the one at the cursor if it is visible or none is, else the first visible one. |
| CycleProofs.NextIsAhead | core/src/core/workspace_manager.cpp:107-166 | From any cursor, `focus_next` goes to the nearest eligible position after it, around the end, and `focus_prev` to the nearest before it; eligible are candidates that do not float or, if all float, all. |
| CycleProofs.CycleGoes | core/src/core/core_dispatch.cpp:698-709 | FocusNextWindow and FocusPrevWindow put cursor and focus on that window, in that direction. |
| ListProofs.ZoomSwaps | core/src/core/workspace_manager.cpp:996-1030 | Zoom swaps the focused window with the first tiled one or, if it is that one, with the second, and the cursor goes along; nothing else changes, and nothing at all if the window floats. |
| ReducerProofs.StepInv | core/src/core/core_dispatch.cpp:344-913 | Every command keeps lists, cursors, indexes, owners, pools and active workspaces consistent. |
| ReducerProofs.WindowsConserved | core/src/core/core_dispatch.cpp:227-243 | From start-up, after any run of commands, topology changes and non-empty settings reloads, each live window is listed once, the hash lookups agree with a search, cursors are -1 exactly on empty workspaces and in range otherwise, and the topology is consistent. |
| ReducerProofs.NoWindowLost | core/src/core/core_dispatch.cpp:842-849 | A command makes a window disappear if and only if it is the removal of that window. |
| ReducerProofs.RemovedGone | core/src/core/core_dispatch.cpp:842-849 | After its removal a window is known to no index. |
| EffectProofs.CreateFaithful | core/src/core/core_dispatch.cpp:519-532 | Creating a window keeps the effect stream truthful if and only if no map of an earlier window of the same id is still pending or in force. |
| Counterexamples.MappedBeforeItsTime | core/src/core/core_dispatch.cpp:519-532 | It fails from any start-up: create, map and remove a window, and create one of the same id before the backend drains; the new window is not visible, yet the effects map it. |
| EffectProofs.RunTruthful | core/src/core/core_dispatch.cpp:70-103 | Over every run of commands and backend catch-ups, the map and unmap effects emitted so far describe exactly which live windows are visible. |
| EffectProofs.EffectsShowVisible | core/src/core/core_dispatch.cpp:47-49 | From start-up, after any run, once the backend has drained the effects it has mapped exactly the live windows with `is_visible()`. |
| EffectProofs.SwitchHides | core/src/core/core_dispatch.cpp:365-389 | After a switch, `hidden_by_workspace` holds exactly for the windows whose workspace no monitor shows. |
| EffectProofs.MoveHides | core/src/core/core_dispatch.cpp:391-420 | The same after moving a window. |
| EffectProofs.TopologyHides | core/src/core/core_dispatch.cpp:775-785 | The same after a monitor topology change. |
| EffectProofs.SwitchLocalHides | core/src/core/core_dispatch.cpp:753-762 | The same after a switch by position in the focused monitor's pool. |
| FocusProofs.FocusEmitsOnce | core/src/core/core_dispatch.cpp:110-160 | Every call of `focus` emits exactly one focus effect and exactly one `FocusChanged`, and both name the same window or none. |
| FocusProofs.FocusAgrees | core/src/core/core_dispatch.cpp:110-160 | What `focus` announces is what focused monitor, active workspace and `focused()` derive afterwards, if and only if it was asked for no window or a visible one, or no visible window was focused anyway. |
| Counterexamples.RootThoughOneIsVisible | core/src/core/core_dispatch.cpp:122-126 | It fails with one monitor and two windows, one mapped: focusing the other announces the root, while the mapped one is still derived as focused. |
| FocusCommands.SwitchAnnounces | core/src/core/core_dispatch.cpp:365-389 | A switch sets the focus once, to the window the new state derives or to none, if and only if the monitor it is about is the focused one; else it sets none and the focused monitor stays. Then it announces the workspace. A refused switch changes nothing. |
| FocusCommands.MoveAnnounces | core/src/core/core_dispatch.cpp:391-427 | A move announces the workspace and then sets the focus once, to what the new state derives: the moved window if its workspace is shown, it is visible and did not ask to be left out. |
| FocusCommands.CycleAnnounces | core/src/core/core_dispatch.cpp:698-709 | Cycling sets the focus once, to the window the new state derives. |
| FocusCommands.FocusWindowAnnounces | core/src/core/core_dispatch.cpp:356-363 | Focusing a window sets the focus once, to it if it is visible and else to the root; an unknown window is ignored. |
| FocusCommands.FocusMonitorAnnounces | core/src/core/core_dispatch.cpp:711-728 | Focusing another monitor sets the focus once, leaves that monitor focused and then warps the pointer to its middle; on the focused one only the pointer moves; a monitor that shows nothing is ignored. |
| FocusCommands.FocusMonitorAtAnnounces | core/src/core/core_dispatch.cpp:217-225 | The focus goes to the first monitor whose whole surface holds the point, if that is not focused already, and else nothing happens. |
| FocusCommands.SwitchLocalAnnounces | core/src/core/core_dispatch.cpp:753-762 | A switch by position shows that workspace on the focused monitor, sets the focus once and announces it; a position that does not exist is ignored. |
| FocusCommands.TopologyAnnounces | core/src/core/core_dispatch.cpp:775-785 | A hot-plug sets the focus once, to what the new state derives, even if no monitor is left. |
| FocusCommands.FullscreenAnnounces | core/src/core/core_dispatch.cpp:452-517 | Enabling fullscreen focuses the window if it is visible on a monitor; otherwise, and when disabling, nothing about the focus is said. |
| FocusCommands.OthersAnnounceNothing | core/src/core/core_dispatch.cpp:429-450 | Visibility, geometry, flags, layout, creation, decorations, removal and reload set no focus and announce nothing but a restacking of the docks. |
| FocusCommands.RequestsAnnounce | core/src/core/core_dispatch.cpp:534-598 | Closing asks the client and nothing else; assigning a window, or routing it to its parent's workspace, announces that workspace and sets no focus. |
| FullscreenProofs.StepSaved | core/src/core/core_dispatch.cpp:452-517 | A fullscreen window keeps the geometry saved for it through every command except its own removal or disabling. |
| FullscreenProofs.LeaveRestores | core/src/core/core_dispatch.cpp:502-517 | Disabling fullscreen gives a floating, non-borderless window exactly the saved position and size, although windows are arranged and restacked on the way. |
| FullscreenProofs.FullscreenRestores | core/src/core/core_dispatch.cpp:452-517 | Enable fullscreen, run any other commands (moves, repeated enables, hot-plugs, reloads), disable it: such a window is exactly where it was. |
| FullscreenProofs.ArrangeSkipsFloating | core/src/core/core_dispatch.cpp:251-342 | Arranging never moves or resizes a floating window. |
| SurfaceProofs.FullscreenCovers | core/src/core/core_dispatch.cpp:452-500 | Enabling fullscreen leaves the window without border on the whole surface of the monitor that owns its workspace - the usable area grown by what is reserved at its edges - after all the arranging, focusing and stacking in the command. |
| SurfaceProofs.MoveCommandCovers | core/src/core/core_dispatch.cpp:391-420 | A moved window that covers the screen and does not own its geometry lies on the whole surface of the destination's owner, shown or not. |
| SurfaceProofs.EvaluatePins | core/src/core/core_dispatch.cpp:162-198 | Evaluating a workspace puts its focused covering window on the whole surface of its monitor. |
| SurfaceProofs.StackingEffects | core/src/core/core_dispatch.cpp:177-215 | Evaluating a workspace sets its mode by whether a visible window covers the screen, restacks the docks when that changes, raises the focused window and, if that one does not cover the screen, lowers exactly those that do, in list order; nothing else is emitted. |
| ModeProofs.SwitchExact | core/src/core/core_dispatch.cpp:365-389 | After a switch, the workspace's fullscreen mode is exact. |
| ModeProofs.FullscreenExact | core/src/core/core_dispatch.cpp:452-517 | So is that of a window's workspace after fullscreen is switched on or off, ... |
| ModeProofs.RemovalExact | core/src/core/core_dispatch.cpp:632-651 | ... after its decorations are switched, and after it is removed, ... |
| ModeProofs.MoveExact | core/src/core/core_dispatch.cpp:391-420 | ... and those of both workspaces after a window that covers the screen was moved. |
| Insets.ReserveKeepsPhysical | core/src/core/workspace_manager.cpp:613-637 | A reservation leaves the monitor's physical surface alone if and only if it fits beside the one at the opposite edge. |
| Insets.BarTallerThanMonitor | core/src/core/workspace_manager.cpp:613-637 | A reservation of thirty pixels on a monitor twenty pixels high makes its physical surface thirty high. |
| Insets.ReservationsConserve | core/src/core/core_dispatch.cpp:787-800 | After any sequence of fitting reservations the physical surface is unchanged, each inset is the last value requested and the usable area is the surface minus the insets. |
| Insets.OrderOfEdgesIrrelevant | core/include/domain/monitor.hpp:63-78 | Two sequences with the same last request for each edge leave the same monitor. |
| GeometryTracking.StepTracked | core/src/core/core_dispatch.cpp:64-68 | No command but the removal of the window and a server echo changes a window's x, y, width or height without setting that field's dirty bit, and none clears a bit. |
| GeometryProtocol.ApplyWindowFlush | backends/x11/src/backend/loop.cpp:21-52 | The request carries exactly the dirty fields, one word each, in mask order; nothing is sent when nothing is dirty. |
| GeometryProtocol.RequestRoundTrip | backends/x11/src/backend/loop.cpp:21-52 | The server decodes a request to the core's values in the dirty fields and its own values elsewhere. |
| GeometryProtocol.EchoSparesDirty | core/src/core/core_dispatch.cpp:890-905 | An echo, stale or not, never overwrites a field whose dirty bit is set. |
| GeometryProtocol.GeometryConverges | backends/x11/src/backend/loop.cpp:219-231 | From agreement, for every interleaving of commands, flushes, in-order configures, changes by the server and FIFO echoes: when no dirty bit and no message is left, core and server agree on x, y, width and height. |
| GeometryProtocol.TargetKept | backends/x11/src/backend/loop.cpp:60-152 | Flushing, serving and delivering do not change the geometry the window is heading for. |
| GeometryProtocol.FlushSettles | backends/x11/src/backend/loop.cpp:219-231 | From any state in step, one flush followed by the messages under way brings both sides to the pending values, and otherwise to what the server will have. That the pending values are those commanded is `CommandedGeometry.PositionArrives`, `SizeArrives` and `GeometryArrives`. |
| CommandedGeometry.PositionArrives | core/src/core/core_dispatch.cpp:861-868 | From any state in step: after SetWindowPosition, one flush and the messages under way, core and server both have the position asked for, and the size the window was heading for. |
| CommandedGeometry.SizeArrives | core/src/core/core_dispatch.cpp:870-879 | The same for SetWindowSize: the size asked for or, for floating and borderless windows, the fitted one; the position stays. |
| CommandedGeometry.GeometryArrives | core/src/core/core_dispatch.cpp:851-859 | The same for SetWindowGeometry, where only floating windows are fitted. |
| CommandedGeometry.AxisFitted | core/src/core/core_dispatch.cpp:6-31 | What a fitted size is: the request kept within the limits and then moved to the nearest increment between it and the base size, but not below the minimum. |
| CommandedGeometry.FittedBounds | core/src/core/core_dispatch.cpp:6-31 | With limits that agree, a fitted size is at least the minimum, and stays below maximum and request if and only if the limited request is not off the grid below the base size. |
| CommandedGeometry.AboveMaximum | core/src/core/core_dispatch.cpp:6-31 | With a base size of 100, increments of 10 and a maximum of 55, a window is given 60. |
| GeometryProtocol.BorderlessForgetsBorder | core/src/core/core_dispatch.cpp:632-651 | Making a window borderless leaves core and server with different borders and nothing pending exactly when it had a border and does not manage its own geometry; that is why convergence excludes the border. |
| Counterexamples.BordersApart | core/src/core/core_dispatch.cpp:641-644 | A run of the protocol that sets a border of 1, flushes, serves and echoes it and then makes the window borderless: nothing is pending and the borders differ. |
| Manager.WorkspaceManager.RebuildPoolsFromOwner | core/src/core/workspace_manager.cpp:279-320 | The loops over seeds, workspaces and monitors leave the pools and active positions of the specification. |
| Manager.WorkspaceManager.ResolveAliasMonitor | core/src/core/workspace_manager.cpp:268-277 | The first matching alias decides; without one the name itself is an output. |
| Manager.WorkspaceManager.SyncMonitorsActiveWs | core/src/core/workspace_manager.cpp:224-227 | Every monitor's `active_ws` becomes what its pool says; nothing else of a monitor changes. |
| Manager.WorkspaceManager.SelectValidFocusedMonitor | core/src/core/workspace_manager.cpp:244-260 | The focused monitor stays if it shows a workspace, else it is the first that does, else 0. |
| Manager.WorkspaceManager.AssignWorkspaces | core/src/core/workspace_manager.cpp:472-518 | The in-place loops turn the whole topology into the specified one; who owns what in it is `Assignment.AssignDecides`, in which order and what is shown `MonitorProofs.AssignArranges`. |
| Manager.WorkspaceManager.SetMonitors | core/src/core/workspace_manager.cpp:520-611 | Parking, carrying over by name and taking back, done with the source's maps and loops, turn the whole topology into the specified one. |
| Manager.WorkspaceManager.UpdateWorkspaceDefs | core/src/core/workspace_manager.cpp:364-444 | Renaming, growing, evacuating and pruning turn the topology and the window table into the specified ones. |
| Manager.WorkspaceManager.InitFromDefs | core/src/core/workspace_manager.cpp:446-470 | Starts over with the configured workspaces, or nine, no windows, and everything assigned. |
| Manager.WorkspaceManager.SwitchTo | core/src/core/workspace_manager.cpp:731-764 | Owner, pool, active position and `active_ws` change as specified; true exactly when the workspace exists and a monitor is connected. |
| Manager.WorkspaceManager.SwitchLocalIndex | core/src/core/workspace_manager.cpp:936-945 | As specified; true exactly when the position exists. |
| Manager.WorkspaceManager.FocusWindow | core/src/core/workspace_manager.cpp:896-924 | On success cursor, urgency, active workspace and focused monitor follow the window; otherwise nothing changes; it succeeds exactly when the window's workspace lists it. |
| Manager.WorkspaceManager.RemoveFromWorkspace | core/src/core/workspace_manager.cpp:33-55 | The window leaves the list in place and the cursor is adjusted as specified; true exactly when it was listed. |
| Manager.WorkspaceManager.FocusedIn | core/src/core/workspace_manager.cpp:57-80 | The cursor's window if it may take the focus, else the first that may. |
| Manager.WorkspaceManager.FocusNextIn | core/src/core/workspace_manager.cpp:107-135 | The two loops leave the cursor on the next tiled candidate, else on the next candidate. |
| Manager.WorkspaceManager.FocusPrevIn | core/src/core/workspace_manager.cpp:137-166 | The same backwards, also from a cursor that is out of range. |
| Manager.WorkspaceManager.CreateWindow | core/src/core/workspace_manager.cpp:766-798 | List, cursor and both indexes as specified, for new and for known ids. |
| Manager.WorkspaceManager.RemoveWindowFromAll | core/src/core/workspace_manager.cpp:864-876 | Lists, cursors and both indexes as specified. |
| Manager.WorkspaceManager.MoveWindowTo | core/src/core/workspace_manager.cpp:878-894 | Lists, cursors and both indexes as specified. |
| Manager.WorkspaceManager.ZoomFocused | core/src/core/workspace_manager.cpp:996-1030 | The focused tiled window and the first (or second) tiled one swap in place; true exactly when there is something to swap. |
| Manager.WorkspaceManager.CurrentWorkspace | core/src/core/workspace_manager.cpp:639-652 | The focused monitor's workspace, else the first that any monitor shows, else the first. |
| Manager.WorkspaceManager.AdjustMonitorInset | core/src/core/workspace_manager.cpp:613-637 | One monitor's edge and usable area change by the difference; the others stay. |
| Manager.WorkspaceManager.FocusMonitorAtPoint | core/src/core/workspace_manager.cpp:965-982 | The first monitor whose physical surface contains the point is focused; true exactly when that changes the focus. |
| Dispatch.Core.SyncWorkspaceVisibility | core/src/core/core_dispatch.cpp:70-103 | The nested loops change flags and emit effects exactly as the specification does. |
| Dispatch.Core.EvaluateWorkspaceFullscreen | core/src/core/core_dispatch.cpp:177-215 | Mode, stacking effects and pinned geometry as specified. |
| Dispatch.Core.FocusIntent | core/src/core/core_dispatch.cpp:110-160 | The whole state after `focus` is the specified one. |
| Dispatch.Core.ArrangeAll | core/src/core/core_dispatch.cpp:251-342 | The loops over monitors, placements and floating windows leave the specified state; what that is for every window is `ArrangeProofs.ArrangeTiles`, `MonoclePlaced` and `ArrangeLeaves`. |
| Dispatch.Core.SwitchWorkspace | core/src/core/core_dispatch.cpp:365-389 | The whole state after a switch is the specified one; what it shows, hides, focuses, announces and arranges is `TopologyProofs.SwitchShows`, `EffectProofs.SwitchHides`, `FocusCommands.SwitchAnnounces` and `ArrangedCommands.StepArranges`. |
| Dispatch.Core.MoveWindowToWorkspace | core/src/core/core_dispatch.cpp:391-420 | The whole state after a move is the specified one. |
| Dispatch.Core.SetWindowFullscreen | core/src/core/core_dispatch.cpp:452-517 | The whole state after enabling or disabling is the specified one; where the window then lies is `SurfaceProofs.FullscreenCovers` and `FullscreenProofs.FullscreenRestores`. |
| Dispatch.Core.SetWindowMetadata | core/src/core/core_dispatch.cpp:543-598 | Classification, routing to the parent and floating as specified. |
| Dispatch.Core.ApplyMonitorTopology | core/src/core/core_dispatch.cpp:775-785 | The whole state after a topology change is the specified one. |
| Dispatch.Core.ReserveMonitorArea | core/src/core/core_dispatch.cpp:787-800 | Every addressed monitor reserves the requested area, the others stay. |
| Dispatch.Core.SyncFromServer | core/src/core/core_dispatch.cpp:890-905 | The fields without a dirty bit take the echoed values, the others stay. |
| Dispatch.Core.TakeWindowFlush | core/src/core/core_dispatch.cpp:33-45 | Pending bits are handed out once, and not at all when none is set. |
| Dispatch.Core.Dispatch | core/src/core/core_dispatch.cpp:344-354 | For every command, executing it on the object leaves exactly the reducer's state and keeps the invariant. |
| Dispatch.Core.DispatchAll | core/src/core/core_dispatch.cpp:344-354 | So a run of commands on the object, reloads with a non-empty workspace list included, is a run of the reducer, to which all results above apply. |
| Dispatch.Core.Start | core/src/core/core_dispatch.cpp:227-243 | Initialisation leaves the reducer's initial state. |
| Tile.Tile | core/include/domain/layout.hpp:23-77 | The loops call the placement sink with exactly the specified cells, in order. |
| Tile.ColumnFills | core/include/domain/layout.hpp:36-77 | A column fills its area exactly, its cells one gap apart, if and only if there is room for them. |
| Tile.TileExact | core/include/domain/layout.hpp:23-77 | Master and stack fill the gap-inset monitor area exactly, the master with its configured share of the width and its first `nmaster` windows, if and only if every cell has room, for every window count and nmaster of at least 1. |
| Tile.WiderThanMonitor | core/include/domain/layout.hpp:42-55 | On a monitor narrower than twice the border and a pixel, the one window is placed wider than the monitor. |
| Tile.LastCellHeight | core/include/domain/layout.hpp:42-43 | The last cell is at least its column's unit and less than the unit plus the number of cells. |
| Tile.TileDisjoint | core/include/domain/layout.hpp:23-77 | With room, no two outer rectangles overlap and none leaves the gap-inset area. |
| Tile.MasterShare | core/include/domain/layout.hpp:52-54 | With half the gap added, the master column is the configured share of the width, rounded down. |
| ArrangeProofs.TilePlaced | core/src/core/core_dispatch.cpp:251-281 | Arranging in layout tile gives the i-th tiled window of a monitor, in the window table, the i-th cell; one of fixed size keeps its size. |
| ArrangeProofs.ArrangeTiles | core/src/core/core_dispatch.cpp:251-281 | The outer rectangles that the table then holds for the tiled windows of a monitor, in list order, fill the gap-inset area, master and stack, if and only if there is room. |
| ArrangeProofs.MonoclePlaced | core/include/domain/layout.hpp:79-97 | In layout monocle every tiled window takes the usable area, moved and shrunk by its border. |
| ArrangeProofs.ArrangeLeaves | core/src/core/core_dispatch.cpp:251-342 | Floating windows, those that cover the screen or own their geometry, invisible ones and all on workspaces not shown keep position and size, and their border unless they float visibly on a monitor. |
| ArrangeProofs.UnmanagedLeaves | core/src/core/core_dispatch.cpp:275-281 | Layout unmanaged moves and resizes nothing. |
| ArrangedCommands.StepArranges | core/src/core/core_dispatch.cpp:344-849 | After every command that changes what there is to arrange - switches, moves, hot-plugs, fullscreen, layout, zoom, floating - the tiled windows of every monitor lie in their cells, whatever is focused, pinned or restacked afterwards. |
| ArrangedCommands.ArrangedTiles | core/src/core/core_dispatch.cpp:251-281 | In such a state the tiles of a monitor fill its area exactly, if and only if there is room. |
| Compose.CycleUnreachable | core/src/monitor_layout.cpp:40-45 | A name met again while under visit lies on a cycle and never reaches the primary. |
| Compose.ComposeResolver.Resolve | core/src/monitor_layout.cpp:40-116 | The memoised search terminates on every graph; afterwards the name has a position exactly if its chain reaches the primary, earlier positions are untouched, and every stored one is the sum of the offsets along its chain. The flag is true exactly if the name has a position or had been finished before, perhaps without one. |
| Compose.ComposePositions | core/src/monitor_layout.cpp:119-158 | An enabled alias gets an entry exactly if its chain reaches the primary; the result is that map, normalised. |
| Compose.TouchesAnchor | core/src/monitor_layout.cpp:89-117 | Every placed monitor touches its anchor on the side it asked for, shifted as asked, also after normalisation. |
| Compose.OrderIrrelevant | core/src/monitor_layout.cpp:119-158 | With unique names, listing the monitors in another order gives every enabled one the same position. |
| Compose.NormalizeKeepsOffsets | core/src/monitor_layout.cpp:132-156 | Normalisation keeps all distances, and changes nothing if no enabled monitor is negative. |
| Compose.NonNegativeIff | core/src/monitor_layout.cpp:132-156 | All placed enabled monitors end up at non-negative coordinates if and only if they were before or some of them is below `INT_MAX` on each axis. |
| Counterexamples.NegativeThoughAccepted | core/src/monitor_layout.cpp:132-156 | A configuration the validator accepts, with a disabled primary `INT_MAX` wide, leaves its only enabled monitor at a negative coordinate. |
| Validator.ComposeChecker.Dfs | core/src/runtime/runtime.cpp:366-413 | The validator's search never complains about a name that reaches a clean primary, and a name it leaves without any complaint does reach it. |
| Validator.CheckCompose | core/src/runtime/runtime.cpp:327-413 | No complaint about the composition exactly if it is defined, its entries are in order, and every enabled monitor reaches a primary that is not placed relative to another monitor. |
| Validator.ValidateSettings | core/src/runtime/runtime.cpp:280-421 | No complaint at all exactly for a good configuration. |
| Validator.ValidatedIsPlaced | core/src/runtime/runtime.cpp:327-413 | A configuration without complaints gives every enabled monitor a position. |
| Validator.PlacedIsValidated | core/src/runtime/runtime.cpp:327-413 | With entries in order and a monitor enabled, the validator accepts a composition exactly when the resolver places every enabled monitor and the primary is clean: the two searches agree. |
| Mirror.ChangeReplicates | libwlserver/src/runtime/display_state.cpp:16-130 | Each change of the server's tables and the one event it emits keep an agreeing copy in agreement. |
| Mirror.SnapshotReplicates | libwlserver/src/ipc/backend_control_server.cpp:153-205 | Whatever the copy held before, replaying a snapshot makes it agree with the server and marks it complete. |
| Mirror.ActInStep | backends/wayland/src/backend/display_server_backend.cpp:195-309 | Every step - changes, failing sends, snapshot requests, connects, disconnects, deliveries - keeps the copy, with what is on the wire replayed, in agreement once a snapshot was asked for. |
| Mirror.CopyIsTruthful | backends/wayland/src/backend/display_server_backend.cpp:90-133 | After every run with clients coming and going: once the connected client has seen the end of a snapshot and its channel is drained, its outputs and each surface's id, strings as they fit, pid and mapped flag are the server's. |
| Mirror.ReplayManages | backends/wayland/src/backend/display_server_backend.cpp:606-638 | From the moment the client has started, every mapped surface with a size is under management. |
| DisplayServer.DisplayServer.SendEvent | libwlserver/include/wl/server/ipc/backend_control_server.hpp:66-78 | Without a client the message is dropped; a failing send ends the connection; otherwise it goes on the wire. |
| DisplayServer.DisplayServer.SendSnapshot | libwlserver/src/ipc/backend_control_server.cpp:153-205 | The loops send begin, outputs and surfaces in ascending order and end, and stop at the first failing send; true exactly when the client is still there. |
| DisplayServer.DisplayServer.Accept | libwlserver/src/ipc/backend_control_server.cpp:50-72 | A new client replaces the one before, with an empty channel. |
| DisplayServer.DisplayServer.CreateSurface | libwlserver/src/runtime/display_state.cpp:16-33 | A fresh id, a table entry and its event. |
| DisplayServer.DisplayServer.MapSurface | libwlserver/src/runtime/display_state.cpp:54-60 | The mapped flag and its event, for known surfaces only. |
| DisplayServer.DisplayServer.UnmapSurface | libwlserver/src/runtime/display_state.cpp:62-68 | The mapped flag and its event, for known surfaces only. |
| DisplayServer.DisplayServer.DestroySurface | libwlserver/src/runtime/display_state.cpp:70-76 | The event and the removal, for known surfaces only. |
| DisplayServer.DisplayServer.ChangeTitle | libwlserver/src/runtime/display_state.cpp:78-87 | The title and its event, cut to the wire's size. |
| DisplayServer.DisplayServer.ChangeAppId | libwlserver/src/runtime/display_state.cpp:89-98 | The application id and its event, cut to the wire's size. |
| DisplayServer.DisplayServer.CommitSurface | libwlserver/src/runtime/display_state.cpp:100-111 | The size and its event. |
| DisplayServer.DisplayServer.ConfigureSurface | libwlserver/src/runtime/display_state.cpp:241-256 | The size changes without an event, which is why sizes are not replicated. |
| DisplayServer.DisplayServer.AddOutput | libwlserver/src/runtime/display_state.cpp:113-125 | The output and its event. |
| DisplayServer.DisplayServer.DropOutput | libwlserver/src/runtime/display_state.cpp:127-130 | The removal and its event, also for an unknown output. |
| DisplayServer.DisplayServerBackend.Receive | backends/wayland/src/backend/display_server_backend.cpp:195-309 | Each handler changes the client's tables in place exactly as specified. |
| DisplayServer.DisplayServerBackend.OnStart | backends/wayland/src/backend/display_server_backend.cpp:483-491 | In whatever order the table is visited, the mapped surfaces with a size are managed. |
| DisplayServer.DisplayServerBackend.Bootstrap | backends/wayland/src/backend/display_server_backend.cpp:90-133 | Succeeds only with a complete snapshot, having handled exactly the messages it took. |
| Registry.RegistryRoundTrip | src/process/child_process_registry.cpp:134-198 | Loading what was saved gives back the saved entries, for roles and values without newlines and non-empty keys without `=` and newlines, in whatever order the hash map yields the variables. |
| Registry.SavedAreRunning | src/process/child_process_registry.cpp:180-187 | What is saved are the entries with a role and a process id. |
| Registry.ParsedKeysStorable | src/process/child_process_registry.cpp:245-258 | Every variable that `parse_env_line` accepts from a line can be stored. |
| Registry.ChildProcessRegistry.LoadState | src/process/child_process_registry.cpp:134-178 | The line loop yields exactly the entries the file spells out. |
| Registry.ChildProcessRegistry.SaveState | src/process/child_process_registry.cpp:180-198 | The file is the lines of the entries with a role and a process, in order. |
| Registry.Consume | src/process/child_process_registry.cpp:278-293 | The inner loop learns from every complete line and keeps exactly the unfinished rest. |
| Registry.WaitForEnvLines | src/process/child_process_registry.cpp:260-304 | The environment depends only on the bytes received, not on how reads split them; success comes at the first turn at which all keys are known, failure at the end or when the child exits before. |
| Registry.ReadsExtend | src/process/child_process_registry.cpp:278-293 | Reading on depends only on the unfinished rest and the new bytes. |
| Registry.EnvLineIs | src/process/child_process_registry.cpp:243-258 | A line sets a variable exactly if it is a name of capitals, digits and underscores, an equals sign and the value. |
| Registry.EnvIsSpelt | src/process/child_process_registry.cpp:243-293 | A variable is known exactly if a completed line received so far sets it, with the value of the last one that does; what follows the last newline does not count yet. |
| Text.ReadPrint | backends/x11/src/backend/adopt.cpp:56-69 | A printed number is read back, negative ones included, after any white space and before anything but a digit. |
| Text.CompleteAppend | src/process/child_process_registry.cpp:278-293 | Appending to a stream keeps the lines completed so far; only the open rest is looked at again. |
| RestartFile.FileRoundTrip | backends/x11/src/backend/adopt.cpp:42-75 | Parsing the restart file gives back every monitor and every window record that was written. |
| RestartFile.LoadRestartState | backends/x11/src/backend/adopt.cpp:42-75 | The token loop computes exactly what the format says, malformed input included. |
| Restart.SaveRestartState | core/src/runtime/runtime.cpp:841-891 | The two loops write one line per monitor and one per window worth saving, each window once. |
| Restart.SavedIsRead | core/src/runtime/runtime.cpp:841-891 | A window is in the parsed file exactly if it was worth saving, with its workspace and its four flags; every monitor's active workspace is there. |
| Restart.LaterFlags | core/src/core/core_dispatch.cpp:356-913 | What each command of an adoption does to the restored flags of any window, its own or another. |
| Restart.AdoptOneFlags | core/src/runtime/runtime.cpp:127-200 | An adopted window gets the flags the file says, and its workspace exactly if that exists, else the one in use; no other window's flags change. |
| Restart.RestartRestores | core/src/runtime/runtime.cpp:120-237 | Save, exec, read, adopt: each saved window that is still there has its old floating, fullscreen, explicitly-hidden and borderless flags again, and its old workspace if and only if the new configuration still has that workspace. |
| RestartShown.RestartShows | core/src/runtime/runtime.cpp:204-231 | After that a monitor shows the workspace it showed before if and only if the new instance assigns that workspace to it and none of those shown before on later monitors. |
| Adoption.AdoptWindow | core/src/runtime/runtime.cpp:127-200 | Giving the commands one by one to the core leaves the specified state. |
| Adoption.AdoptExistingWindows | core/src/runtime/runtime.cpp:120-237 | So does the whole adoption: after a restart every monitor is switched, at a first start the focused one, and if nothing was switched windows are arranged. |
| ReloadTransaction.TypedSetting.Rollback | core/include/runtime/runtime_store.hpp:60-60 | The value is the snapshot's if there is one, else unchanged, and the snapshot is gone. |
| ReloadTransaction.RuntimeStore.SnapshotAll | core/src/runtime_store.cpp:32-35 | Every setting has a snapshot of its value; values stay, even if two keys name one setting. |
| ReloadTransaction.RuntimeStore.RollbackAll | core/src/runtime_store.cpp:37-40 | Every setting with a snapshot has its value back and no snapshot remains, even if two keys name one setting. |
| ReloadTransaction.RuntimeStore.CommitAll | core/src/runtime_store.cpp:42-45 | Values stay and no snapshot remains. |
| ReloadTransaction.RuntimeStore.ClearAll | core/src/runtime_store.cpp:47-50 | Every setting has its default and keeps its snapshot. |
| ReloadTransaction.Reloader.ReloadRuntimeConfig | core/src/runtime/runtime.cpp:907-950 | Whatever the script writes: success means validated settings are in force, failure means every setting, the core settings, keybindings, layout configuration and active layout are as before; no snapshot remains; success is exactly a path, good syntax, a script that ran and no complaint; script-defined layouts are lost on failure. |

## Left out
- EffectProofs.RunTruthful: runs exclude the raw atoms SetWindowMapped and SetWindowHiddenByWorkspace, which change visibility without an effect by design.
- GeometryProtocol.GeometryConverges: speaks of x, y, width and height only, because SetWindowBorderless writes the border without a dirty bit.
- GeometryProtocol.RequestRoundTrip: takes fields as 32-bit words; the server's own narrowing of x and y to 16 bits and of sizes to unsigned 16 bits is not modelled.
- Mirror.CopyIsTruthful: leaves surface sizes out, because configure_surface changes them on the server without an event.
- Compose.ComposePositions: coordinates are unbounded; C++ overflow of sums of widths beyond `int` is not modelled.
- Validator.ValidateSettings: states when there is no complaint, not which complaints there are and in which order; complaints of individual settings and of the bar are parameters.
- HotplugRuns.HotplugRoundTrip: the survivors and the original list have distinct monitor names, as RandR outputs have.
- Restart.RestartRestores: assumes that hooks let the window be managed; window rules from scripts are absent.
- Registry.RegistryRoundTrip: process ids are unbounded, so the narrowing of a parsed number to pid_t is not modelled.
- RestartFile.LoadRestartState: numbers are unbounded apart from the wrap of negative window numbers, so range errors of stream extraction are not modelled.
- ReloadTransaction.Reloader.ReloadRuntimeConfig: the script is an arbitrary write plus a success flag; settings registered during the load are not modelled, the workspace update of apply_settings is `Dispatch.Core.ApplySettings`, and the final reload of modules is outside.
- Tile.TileExact: the master factor is a real number; float rounding of its product is not modelled.
- Lua host, Lua layouts, Lua rules and configuration extraction: behaviour lives in scripts and the Lua C API.
- Window titles, classes and process ids in the core: stored and never decided upon by the modelled code.
- evaluate_fullscreen_like_request and consume_window_suppress_focus_once: value-only queries for the X11 request handlers.
- X11 and Wayland calls, drawing, bars, tray, sockets, process spawning, locking and signals: I/O and foreign libraries.
- The counter of expected unmap notifications, synthetic ConfigureNotify messages and gravity offsets: they depend on what the X server delivers.
- Key, pointer and overlay events of the display server: they change no table and are one message kind here.
- The lifecycle state table and the module and hook registries: finite and easy.
