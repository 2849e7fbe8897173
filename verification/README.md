# Display reconfiguration, and five small protocols around playback

This project models the part of the media center that is most easily got wrong: the
bundled display tool `xbmc-xrandr`, which plans a new layout of monitors and carries it
out on a running X server, and five stateful protocols of the main program.

**The display tool.** Outputs (monitors) are to be shown by CRTCs (scan-out engines). A run
resolves relative positions pass by pass, moves everything to the origin, computes the
size of the framebuffer, gives every enabled output a CRTC (first the spare ones, then by
a backtracking search that overwrites the outputs' CRTC fields), derives a plan for every
CRTC, and carries the plans out: CRTCs in the way are turned off, the screen is resized,
the changing CRTCs are configured, and any refusal leads back to the reported state.

| module | what it holds |
|---|---|
| `Display`, `Options` | the records, and lookups by id or name |
| `Relations`, `Positions` | one pass over the relations and what repeating it leads to; the loop, and the move to the origin |
| `Geometry`, `ScreenSize` | the area of a mode under a projective transform; the framebuffer |
| `CrtcSearch`, `CrtcFallback` | the search on values, compared with the exhaustive maximum; the exact bound of the fallback |
| `CrtcAllocator`, `CrtcPicker` | the search that overwrites the outputs, proved equal to the one on values; both ways of picking CRTCs |
| `Preference` | which CRTCs are picked, told without following the program: in which order the first pass serves the outputs, and what the search prefers |
| `Sharing` | when picking leaves two outputs on one CRTC, and which pairs cannot both be shown there |
| `Planning`, `Agreement` | plans for the CRTCs and which of them change; why a CRTC that is skipped shows its plan already |
| `Server`, `Rollback`, `Apply`, `Reconfigure` | the server and its preconditions; the way back; the way forward; the whole run |
| `Driving` | which plans the server can carry out, given what it knows of its outputs |

`Reconfigure.Run` puts it all together. From records that describe the server, a run stops
before asking for anything exactly when the positions, the size, the CRTCs or the reported
users give a reason to. Otherwise it is carried out exactly when every CRTC to be configured
can be, and then every output is shown by the CRTC it was given and by no other, as it wants
if and only if it wants the same as the first output on that CRTC; or a request is refused,
and the screen is put back as it was unless another one is. When outputs that share a CRTC
have one mode, which they support, and are clones of one another, no request breaks a
precondition.

**The protocols.** `TextureCache` and `LargeTextureManager` are the reference-counted cache
of large textures with its job queue; `MessageProtocol` and `ApplicationMessenger` the two
message queues with blocking senders; `PlaybackStart` the window in which callbacks are
recorded while a file is opened; `PlaySpeed` and `StackSeek` the speed of playback and the
times of stacked files; `CueText` and `CueDocument` the reader of cue sheets, and
`CueRendering` a writer that it undoes. `Counting`
holds the sums the invariants are stated with.

Where the program updates state in place, the model does: arrays of records for the lists
of outputs and CRTCs, classes for the server, the texture manager, the messenger, the
player and the cue sheet. Each such method is proved against functions on values, and the
theorems over all runs are about those functions. Every induction is spelled out, so all
lemmas carry `{:induction false}`.

Some properties one would expect turned out false. Each is stated with its exact limit and
with inputs on which it fails:

* The search orders assignments by the number of connected outputs only up to 1000 outputs
  (`CrtcFallback.FallbackCompleteUpTo1000`); `CrtcPicker.ChainIsGivenUp` has outputs and CRTCs
  for every larger number that could all be connected, and for which none are picked.
* The check for loops in relative positions misses a cycle next to a good relation, and the
  tool then never ends (`Relations.EndlessWhenMixed`, `Relations.LoopBesideRelation`); in all
  other cases it ends.
* Explicit positions can break a relation (`Positions.PresetBreaksRelation`): all hold exactly
  when the last pass moved no reference that it visits later (`Positions.LastPassHolds`).
* The corners of a mode tell the area it covers exactly when the projective divisor has one
  sign at all of them (`Geometry.BoundsHoldExactlyOnOneSide`, and on the other side
  `Geometry.CornersMissSignChange`); every affine transform is fine.
* Outputs that share a CRTC need not agree on mode, position and rotation. The search puts two
  that disagree only on an idle CRTC (`CrtcPicker.DisagreeingOutputsShareIffIdle`), but the
  first pass never checks an output that has a CRTC already. Both ways together, they share
  one only if it is idle, and both had it or one lists the other as a clone; or if one keeps
  it as its only reported user, and the other lists that one as a clone and wants what the
  CRTC showed (`Sharing.DisagreeingSharers`). With two outputs and one CRTC these cases are
  exact (`Sharing.DisagreeingOnOneCrtc`); `Sharing.BusyCrtcShared` and
  `Sharing.CloneListIgnored` are an input of each kind.
* So the server can find outputs on one CRTC that are no clones, which ends the tool half way
  (`Driving.NonClonesNotMet`, and an input in `Driving.CloneListMatters`).

`dafny verify dfyconfig.toml` checks the project.

## Model

| member | source | states |
|---|---|---|
| `CrtcSearch.BestIsMaximal` | xbmc-xrandr.c:2049-2110 | For every assignment of the earlier outputs, no feasible assignment of the remaining ones scores more than the search reports |
| `CrtcSearch.BestIsSound` | xbmc-xrandr.c:2049-2110 | The assignment the search ends with is feasible and has exactly the score it reports |
| `CrtcSearch.ImproveIsMaximal` | xbmc-xrandr.c:2077-2101 | The loop over the listed CRTCs ends no worse than it started and no worse than any allowed candidate followed by the best rest |
| `CrtcSearch.BestIsFirst` | xbmc-xrandr.c:2074-2101 | The result is determined: among all feasible completions with the highest score the search ends with the one tried first, off before the listed CRTCs in order, output by output |
| `CrtcAllocator.PickCrtcsScore` | xbmc-xrandr.c:2049-2110 | The search that overwrites CRTC fields and runs again to restore them reaches the plan that BestIsMaximal, BestIsFirst and BestKeepsMost are about, changes nothing but the CRTC fields from its output on, and fails exactly when an enabled output lists an unknown CRTC |
| `CrtcAllocator.TryAll` | xbmc-xrandr.c:2077-2101 | The loop's last best CRTC and score are those of improving on the disabled output candidate by candidate; unknown ids are found whatever the order |
| `CrtcAllocator.FixAndSearch` | xbmc-xrandr.c:2067-2069 | Fixing one output's CRTC and searching the rest lands on the best rest, whatever the fields held before |
| `CrtcAllocator.DisableOutputs` | xbmc-xrandr.c:2036-2044 | Exactly the outputs from the given one on lose their CRTC |
| `CrtcAllocator.CheckCrtcForOutput` | xbmc-xrandr.c:1792-1853 | True if and only if the output lists the CRTC, lists every other enabled output on it as a clone, and agrees with the state planned or else reported for it |
| `CrtcAllocator.AssignedFacts` | xbmc-xrandr.c:2036-2044 | What the search looks at does not depend on what the overwritten fields held |
| `CrtcAllocator.UsableIsAllowed` | xbmc-xrandr.c:2086-2090 | With the later outputs disabled, the compatibility check depends on the earlier outputs' CRTCs alone |
| `CrtcFallback.FallbackIsComplete` | xbmc-xrandr.c:2089-2100 | With at most 1000 enabled outputs the search connects all of them if and only if some feasible assignment does |
| `CrtcFallback.FallbackMissesChain` | xbmc-xrandr.c:2089-2100 | For every n from 1001 on, a chain of n outputs that can all be connected, and on which the search leaves one dark |
| `CrtcFallback.FallbackCompleteUpTo1000` | xbmc-xrandr.c:2148-2157 | The search is complete for all sets of n enabled outputs if and only if n is at most 1000 |
| `CrtcFallback.ScoreCountsConnections` | xbmc-xrandr.c:2089-2100 | A score lies between 1000 and 1001 times the number of connections |
| `CrtcFallback.BestKeepsMost` | xbmc-xrandr.c:2089-2100 | Up to 1000 enabled outputs no feasible assignment connects more outputs than the search, and none that connects as many lets more of them keep the CRTC they had |
| `CrtcPicker.FindCrtcForOutput` | xbmc-xrandr.c:1855-1871 | The CRTC found is at a place in the output's list, usable, and all before it exist and are unusable; nothing is found exactly when all listed ones exist and are unusable; an unknown id is met only after such ones |
| `CrtcPicker.PickCrtcs` | xbmc-xrandr.c:2115-2158 | What the first pass gives (Preference.PassServesInOrder) or else the search (Preference.SearchKeepsMost), exactly when one of the two succeeds; up to 1000 outputs it gives up if and only if no feasible assignment connects them all |
| `CrtcPicker.SwapCrtcs` | xbmc-xrandr.c:2142-2157 | The search over all outputs succeeds exactly when its result connects all enabled ones, and then marks exactly the unchanged outputs it moved |
| `CrtcPicker.PassKeepsUnchanged` | xbmc-xrandr.c:2122-2136 | The first pass gives CRTCs only to changed outputs, and when it ends well every enabled output has one |
| `Preference.PassServesInOrder` | xbmc-xrandr.c:2122-2136 | The first pass gives each output that needs a CRTC the first in its list that it can use next to those before it, keeps a CRTC nobody else was reported on, and stops at the first output that cannot be served so |
| `Preference.SearchKeepsMost` | xbmc-xrandr.c:2042-2110 | On the outputs themselves: if some way to hand out CRTCs serves all enabled outputs the search finds one, and no other such way lets more outputs keep their CRTC |
| `Preference.NothingToMove` | xbmc-xrandr.c:2089-2092 | If the CRTCs the enabled outputs have could be handed out like that, the search moves none of them |
| `Preference.PicksKeepMost` | xbmc-xrandr.c:2115-2158 | After a happy first pass every output has kept its CRTC; otherwise no way to serve everybody keeps more of what the first pass left than the one picked |
| `Preference.PicksMarkMoved` | xbmc-xrandr.c:2148-2157 | By either way exactly the outputs without changes whose CRTC differs from before are marked |
| `CrtcPicker.MayShareIffClone` | xbmc-xrandr.c:1804-1825 | In the search, two outputs can end up on one CRTC if and only if each could have it alone and the later lists the earlier as a clone |
| `CrtcPicker.DisagreeingOutputsShareIffIdle` | xbmc-xrandr.c:1827-1852 | In the search, outputs with different modes, positions or rotations can share a CRTC exactly when it is idle and both list it and the clone list allows it |
| `CrtcPicker.ChainIsGivenUp` | xbmc-xrandr.c:2148-2157 | For every n from 1001 on, n outputs and n CRTCs, an assignment that connects them all, and no CRTCs picked |
| `Sharing.SharersKeepOrJoin` | xbmc-xrandr.c:2115-2158 | By either way of picking, two outputs share a CRTC only if both had it from the start or one may be added to the other: it lists the CRTC and that output as a clone, and agrees with what the CRTC shows |
| `Sharing.NoClonesNoSharing` | xbmc-xrandr.c:2115-2158 | Outputs without clones never share a CRTC unless both were given it |
| `Sharing.DisagreeingSharers` | xbmc-xrandr.c:2115-2158 | The only cases in which two outputs that disagree end up on one CRTC, for any number of outputs and CRTCs: it is idle and was given to both or one lists the other, or one keeps it as its only user and the other wants what it showed |
| `Sharing.DisagreeingOnOneCrtc` | xbmc-xrandr.c:2115-2158 | With one CRTC and two outputs that disagree, picking succeeds if and only if one of these cases holds, and then both are on it |
| `Sharing.BusyCrtcShared` | xbmc-xrandr.c:2122-2136 | An output that keeps its CRTC with a new mode is joined by one that wants the old mode |
| `Sharing.CloneListIgnored` | xbmc-xrandr.c:2122-2136 | Two outputs that were given one idle CRTC keep it, with different modes and without being clones |
| `Sharing.FitsPlanned` | xbmc-xrandr.c:1827-1852 | Once a CRTC is planned for, another output fits it exactly when it agrees with its first user and wants the transform now in force |
| `Relations.PassProgress` | xbmc-xrandr.c:1881-1945 | When nothing is stuck, a pass that asks for another one has placed at least one more output |
| `Relations.EndlessWhenMixed` | xbmc-xrandr.c:1941-1944 | When a good relation stands next to a cycle, every pass places something and asks for another, so the loop neither ends nor complains |
| `Relations.LoopBesideRelation` | xbmc-xrandr.c:1941-1944 | Three outputs on which the loop never ends: one beside the last, one beside itself |
| `Relations.LoopIsReported` | xbmc-xrandr.c:1941-1944 | When only cycles are left the first pass reports the loop |
| `Relations.StuckMeansCircle` | xbmc-xrandr.c:1904-1910 | Some output is stuck if and only if references of outputs still to be placed run in a circle |
| `Relations.QuietIsDone` | xbmc-xrandr.c:1941-1942 | After the last pass every related enabled output is placed |
| `Relations.LayoutIsUnique` | xbmc-xrandr.c:1918-1937 | The relations determine the layout: any two layouts that satisfy them agree on every output whose references end |
| `Positions.SetPositions` | xbmc-xrandr.c:1873-1971 | Ends within as many passes as outputs to place, or one more with explicit positions; an unknown reference or a loop is reported exactly when there is one; without explicit positions every output then lies edge to edge with its reference on the side named, or where it was, all moved by one offset that brings them to the origin, and is marked exactly if placed or moved; with them all relations hold exactly when the last pass moved no reference it visits later |
| `Positions.RunPass` | xbmc-xrandr.c:1883-1940 | The in-place pass does what the pass on values does, and stops at the first unknown reference |
| `Positions.AllHoldMeans` | xbmc-xrandr.c:1918-1937 | That all relations hold means: left-of, right-of, above and below put outputs edge to edge, level with one another, and same-as on one place |
| `Positions.NormalizedKeepsOffsets` | xbmc-xrandr.c:1947-1970 | The move to the origin changes no offset between enabled outputs |
| `Positions.NormalizedTouchesOrigin` | xbmc-xrandr.c:1950-1959 | Nothing lies left of or above the origin afterwards; some output touches an edge exactly when one had a coordinate of at most 32768 |
| `Positions.NormalizedKeepsRelations` | xbmc-xrandr.c:1960-1970 | Relations that held still hold after the move |
| `Positions.PresetBreaksRelation` | xbmc-xrandr.c:1911-1917 | With an explicit position on a related output the loop can end with a relation broken |
| `Positions.LastPassHolds` | xbmc-xrandr.c:1883-1945 | After the last pass all relations hold if and only if no reference visited later in it was moved by it |
| `Geometry.TransformPoint` | xbmc-xrandr.c:437-465 | The double loop computes the projective image, or rejects the point and leaves it as it is |
| `Geometry.ImageIsProjective` | xbmc-xrandr.c:437-465 | A point has an image exactly when the product of the matrix with it is a multiple other than zero of the image in homogeneous coordinates, within range |
| `Geometry.TurnedModeFillsArea` | xbmc-xrandr.c:407-435 | The area of a mode under a rotation is exactly what the mode covers after that many quarter turns |
| `Geometry.UntransformedBounds` | xbmc-xrandr.c:493-511 | Without a transform a mode of at most 32767 covers its own rectangle, with the sides exchanged by an odd number of quarter turns |
| `Geometry.PathBounds` | xbmc-xrandr.c:467-491 | The running box is the box around the images of all points |
| `Geometry.BoxAroundIsLeast` | xbmc-xrandr.c:467-491 | An integer box contains all the images if and only if it contains that box |
| `Geometry.BoundsHoldWholeImage` | xbmc-xrandr.c:493-511 | The box holds the image of every point of the mode, not only of its corners, when the divisor has one sign at the corners |
| `Geometry.BoundsHoldExactlyOnOneSide` | xbmc-xrandr.c:493-511 | With no corner rejected, every point has an image inside the box if and only if the divisor has one sign at the corners |
| `Geometry.CornersMissSignChange` | xbmc-xrandr.c:493-511 | A transform no corner of a 1024x768 mode rejects, and a point of the mode without an image |
| `Geometry.AffineBoundsHold` | xbmc-xrandr.c:493-511 | For every affine transform with no corner rejected the box holds the image of every point |
| `ScreenSize.SetScreenSize` | xbmc-xrandr.c:1973-2033 | A computed size is the least that holds all outputs, panning areas and the server's minimum, for one plain output given in numbers, and fails exactly when the maximum would not do; a given size is checked against the server's range and warned about exactly when it does not show every output |
| `ScreenSize.FitToOutputs` | xbmc-xrandr.c:1979-2014 | The running maximum is the least size from the start that holds everything |
| `ScreenSize.EdgesHoldCorners` | xbmc-xrandr.c:1988-2003 | An output ends where the images of the corners of its mode end, rounded up |
| `ScreenSize.OneOutputSize` | xbmc-xrandr.c:1979-2014 | The size for one output without a transform is the largest of the given size, its mode turned as it is, and the panning area in force |
| `Planning.SetCrtcs` | xbmc-xrandr.c:1288-1316 | Every CRTC is planned exactly the enabled outputs it was given, in list order, with the state of the first |
| `Planning.MarkChangingCrtcs` | xbmc-xrandr.c:1759-1787 | A CRTC is marked exactly when one of its old or new outputs changes; an unknown old output stops the run |
| `Planning.UsersChangeWhen` | xbmc-xrandr.c:1759-1787 | A CRTC counts as changing for its users exactly when an output that has changes is to be shown by it or was reported on it |
| `Reconfigure.SetPanning` | xbmc-xrandr.c:1318-1334 | Every CRTC gets the panning area of the last of its outputs that has a new one, and is marked exactly then |
| `Reconfigure.LastPanningCounts` | xbmc-xrandr.c:1318-1334 | The panning area is that of the last output that brings one, or the old one, and marks the CRTC exactly then |
| `Agreement.SkippedShowsPlan` | xbmc-xrandr.c:1472-1473 | A CRTC that is not marked already shows its plan: mode, position, rotation, transform and the same set of outputs |
| `Agreement.PlansAreSeparate` | xbmc-xrandr.c:1649-1657 | Configuring one CRTC takes no output from the plan of another or from one that is skipped |
| `Agreement.ReachedShowsPlans` | xbmc-xrandr.c:1583-1670 | When every step succeeded, every CRTC shows what was planned for it |
| `Agreement.PlansShowFirst` | xbmc-xrandr.c:1288-1316 | An enabled output is shown with its own mode, position, rotation and transform if and only if it wants the same as the first output on its CRTC |
| `Rollback.CrtcDisable` | xbmc-xrandr.c:1418-1428 | Turning a CRTC off never breaks a precondition and changes no other CRTC |
| `Rollback.CrtcRevert` | xbmc-xrandr.c:1444-1461 | Puts one CRTC back as reported, transform included, whenever its outputs are free and the request is not refused |
| `Rollback.Revert` | xbmc-xrandr.c:1543-1558 | From whatever state a failing step left: if the server refuses none of the restoring requests, none breaks a precondition and the screen ends exactly as reported |
| `Apply.TurnOff` | xbmc-xrandr.c:1602-1640 | Exactly the CRTCs that are to go dark or do not fit the new size are turned off, and those that stay enabled are marked; it fails at the first refused request, or when the server lacks a mode in force, and never otherwise |
| `Apply.LeftOnWhenItFits` | xbmc-xrandr.c:1602-1640 | A CRTC is left on exactly when it is dark anyway, or is to stay on and what it shows lies on the new screen |
| `Apply.TurnedOff` | xbmc-xrandr.c:1602-1645 | At the resize every active CRTC fits the new screen |
| `Apply.ScreenApply` | xbmc-xrandr.c:1524-1541 | The server is asked for another size exactly when something about the screen changes, and that breaks no precondition |
| `Apply.CrtcApply` | xbmc-xrandr.c:1463-1507 | A changing CRTC with a planned mode shows its plan and pans over the planned area afterwards, for one request and one more with panning; a precondition is broken exactly when the area, the modes, the rotation or the clones are not met; a refused request, for panning too, ends the step as refused, and nothing else does; panning needs version 1.3 |
| `Apply.ConfigureAll` | xbmc-xrandr.c:1649-1657 | It succeeds, with every CRTC reaching its plan and its panning area, including those configured earlier, when every plan can be carried out and no request is refused, and never otherwise; the first refusal ends it |
| `Apply.Apply` | xbmc-xrandr.c:1583-1670 | Rolled back exactly when a request is refused, right after the first one, and then to exactly the old screen if the server refuses nothing more; otherwise applied, with all plans reached and all panning areas set, exactly when every CRTC to be configured can be; no protocol error when the plans meet the preconditions |
| `Driving.PicksAreDriven` | xbmc-xrandr.c:1855-1871 | After picking, every enabled output is on a CRTC that can drive it with its rotation |
| `Driving.MatchingPlansDrive` | xbmc-xrandr.c:1463-1507 | When outputs on one CRTC have one mode, which they support, and are clones for the server, configuring the plans breaks no such precondition |
| `Driving.NonClonesNotMet` | xbmc-xrandr.c:1463-1507 | Two outputs planned for one CRTC that are not clones for the server make its request break a precondition |
| `Driving.UnsupportedModeNotMet` | xbmc-xrandr.c:1463-1507 | So does an output that does not support the mode planned for its CRTC |
| `Driving.CloneListMatters` | xbmc-xrandr.c:2122-2136 | Two outputs that are no clones and were given one CRTC: they are picked as they are, and no plan made from them can be carried out |
| `Reconfigure.ComputedSizeFits` | xbmc-xrandr.c:1602-1660 | Every plan fits a screen that shows every output, so that no CRTC reaches beyond a computed size |
| `Reconfigure.Run` | xbmc-xrandr.c:2889-2968 | The whole run, end to end: where it stops before asking for anything, exactly; rolled back to the start exactly when a request is refused; else applied exactly when every plan can be carried out, with each output shown by its CRTC and no other, as it wants exactly when it wants the same as the first output there, and the new panning areas set; which CRTCs were configured, exactly; and when no request breaks a precondition |
| `TextureCache.ReachableKeeps` | xbmc/GUILargeTextureManager.cpp:96-249 | In every run with no path released more often than requested: no assertion fails, users equal outstanding requests, one image per path over both lists, every image is queued, loaded or freed exactly once |
| `TextureCache.CountsAreExact` | xbmc/GUILargeTextureManager.cpp:102-120 | The reference count of a listed image is the number of outstanding first requests of its path |
| `TextureCache.OverRelease` | xbmc/GUILargeTextureManager.cpp:107-111 | One release too many fails the assertion exactly when the image still waits for deletion, and otherwise changes nothing |
| `TextureCache.CompletionOnlyWhileQueued` | xbmc/GUILargeTextureManager.cpp:232-249 | A completion changes something exactly when its job is queued: never for a cancelled, completed or unknown job, even when the path is queued again |
| `TextureCache.CompletedImageIsFound` | xbmc/GUILargeTextureManager.cpp:232-249 | A completed image is found by its path with the texture its loader brought and as many users as requests are outstanding |
| `TextureCache.ReleasedImageWaits` | xbmc/GUILargeTextureManager.cpp:107-120 | An image its last user releases stays, with its texture, through any events that neither ask for it nor clean up at once or after 2000 ms |
| `TextureCache.DueImageGoes` | xbmc/GUILargeTextureManager.cpp:122-160 | A cleanup frees an unused image if and only if it is an immediate one or the image's time has passed |
| `TextureCache.KeptInOrder` | xbmc/GUILargeTextureManager.cpp:147-160 | Cleaning up decides image by image, by users and time alone, and the rest keep their order |
| `TextureCache.SumOfKept` | xbmc/GUILargeTextureManager.cpp:147-160 | Cleaning up frees only unused images, each once, and loses none |
| `LargeTextureManager.LargeTexture.DecrRef` | xbmc/GUILargeTextureManager.cpp:107-120 | One user less; exactly the last one's immediate release deletes the image, which was not deleted before, and a later one sets its deletion time, in 32 bit arithmetic |
| `LargeTextureManager.LargeTexture.DeleteIfRequired` | xbmc/GUILargeTextureManager.cpp:122-130 | An image is deleted exactly when it has no user and its time has come, and never twice |
| `LargeTextureManager.Manager.GetImage` | xbmc/GUILargeTextureManager.cpp:162-183 | The in-place lookup does the step on values, and tells the texture and whether loading failed |
| `LargeTextureManager.Manager.QueueImage` | xbmc/GUILargeTextureManager.cpp:212-230 | A path already queued gets another user, any other a new image at the end of the queue under its job's number |
| `LargeTextureManager.Manager.ReleaseImage` | xbmc/GUILargeTextureManager.cpp:185-210 | The in-place release does the step on values, in the loaded list first, then in the queue |
| `LargeTextureManager.Manager.OnJobComplete` | xbmc/GUILargeTextureManager.cpp:232-249 | The image of the completed job moves from the queue to the end of the loaded list with its texture; any other job changes nothing |
| `LargeTextureManager.Manager.CleanupUnusedImages` | xbmc/GUILargeTextureManager.cpp:147-160 | The erasing loop removes exactly the expired images and keeps the order of the rest |
| `LargeTextureManager.Manager.Serve` | xbmc/GUILargeTextureManager.cpp:147-249 | Every legal run, carried out on the objects: no assertion fails, the lists hold the images of the run on values, none of them deleted, and what left the lists for good was deleted once |
| `MessageProtocol.RunKeeps` | xbmc/ApplicationMessenger.cpp:144-225 | In every interleaving: a message is in one place at most, its event is unset while it is anywhere, queues are first in first out |
| `MessageProtocol.LeavesOnceInOrder` | xbmc/ApplicationMessenger.cpp:188-212 | Every queue is drained in the order it was filled, and no message is in it twice or in both, with handlers re-entering processing |
| `MessageProtocol.QueuesStayApart` | xbmc/ApplicationMessenger.cpp:165-186 | In every interleaving the window queue holds only messages for the windows and the other queue only others |
| `MessageProtocol.WaitsOnlyInFlight` | xbmc/ApplicationMessenger.cpp:144-186 | A blocked sender's event is unset if and only if its message is queued or being processed; the application thread never blocks |
| `MessageProtocol.StopsForGood` | xbmc/ApplicationMessenger.cpp:117-142 | After a cleanup that follows the stop both queues stay empty in every continuation, and nobody waits for a queued message |
| `MessageProtocol.StopThenCleanup` | xbmc/Application.cpp:2611-2626 | In every run with a stop and a later cleanup, whatever happens before, between and after, both queues are empty and nobody waits for a message that nobody works on |
| `ApplicationMessenger.Messenger.PushMessage` | xbmc/ApplicationMessenger.cpp:165-186 | Window messages and others go to the end of their queue |
| `ApplicationMessenger.Messenger.TakeNext` | xbmc/ApplicationMessenger.cpp:877-899 | The first message leaves the queue before it is worked on, in either loop |
| `ApplicationMessenger.Messenger.Cleanup` | xbmc/ApplicationMessenger.cpp:117-142 | Both loops empty their queues from the front and set the event of every waiting sender |
| `ApplicationMessenger.Messenger.Serve` | xbmc/ApplicationMessenger.cpp:117-225 | In every run the queues and events changed in place are those of the protocol's state |
| `PlaybackStart.StartingIsQuiet` | xbmc/Application.cpp:3295-3371 | Whatever comes in while playback starts, no notice is sent and the last report is the state |
| `PlaybackStart.ReportsArePassedOn` | xbmc/Application.cpp:3295-3371 | Outside a start every report is sent at once, in order, after the notices already waiting |
| `PlaybackStart.StartIsExact` | xbmc/Application.cpp:3139-3290 | Whatever comes in between any two sections of a start: after a successful open exactly the last report since the reset is sent, none if there was none; success is reported exactly when the player opened the file and no operation came in while it did, up to wraparound of the counter |
| `PlaybackStart.Playback.EndStart` | xbmc/Application.cpp:3248-3290 | The end of the start window does the step on values: replay, failure notice or nothing |
| `PlaybackStart.Playback.PlayFile` | xbmc/Application.cpp:3139-3290 | The sections of a start, in place and in order with those of other threads between them, do what StartIsExact is about |
| `PlaySpeed.RunIsProper` | xbmc/Application.cpp:2268-2328 | From speed 1 every sequence of actions keeps the speed 1 or forward or back by a power of two up to 32 |
| `PlaySpeed.ReachableIsProper` | xbmc/Application.cpp:2293-2328 | The speeds reached by actions are exactly those |
| `PlaySpeed.WindsUndoEachOther` | xbmc/Application.cpp:2293-2313 | A rewind undoes a forward press and the other way around, except at the fastest speed |
| `PlaySpeed.PlayIsNormal` | xbmc/Application.cpp:2268-2292 | Play always leads to normal speed, and in pause no button winds |
| `PlaySpeed.PauseAndGoOn` | xbmc/Application.cpp:2268-2276 | Pausing keeps the speed, going on plays at normal speed unless the player cannot seek |
| `PlaySpeed.UnpausedSpeed` | xbmc/ApplicationPlayer.cpp:665-690 | From pause, of two speeds in one direction the slower one is taken, and otherwise the new one |
| `PlaySpeed.AnalogSpeedIs` | xbmc/Application.cpp:2314-2328 | An analog button gives the power of two nearest to its amount on a scale of 5, in its own direction |
| `PlaySpeed.SpeedControl.HandleAction` | xbmc/Application.cpp:2268-2328 | The actions update the player's speed and pause in place as the step on values does |
| `PlaySpeed.SpeedControl.ChangeSpeed` | xbmc/ApplicationPlayer.cpp:665-690 | From pause a faster wind keeps the old speed; the same speed or a player that cannot seek changes nothing |
| `PlaySpeed.SpeedControl.HandleActions` | xbmc/Application.cpp:2268-2328 | Any sequence of actions, carried out in place, does what the run on values does and leaves a proper speed |
| `PlaySpeed.RewindPower` | xbmc/Application.cpp:4818-4827 | The halving loop finds the greatest power of two within the size of a rewinding speed, which is that size for every speed that occurs |
| `PlaySpeed.RewindLoopEnds` | xbmc/Application.cpp:4818-4827 | The halving loop ends if and only if the speed is not 0, which no sequence of actions leads to |
| `StackSeek.StackTimes` | xbmc/Application.cpp:2866-2883 | The ends of the parts never decrease, and each is its whole seconds after the one before |
| `StackSeek.Stack.SeekTime` | xbmc/Application.cpp:4576-4610 | Selects the first part that ends after the time: a seek in the playing part, a start in another, which then is the current one, or a seek past the end |
| `StackSeek.FindsTheOnlyPart` | xbmc/Application.cpp:4587-4589 | With ends that do not decrease the part selected is the only one playing at that time, and there is one exactly below the total |
| `StackSeek.SeekHereReadsBack` | xbmc/Application.cpp:4553-4593 | A seek in the playing part is asked for exactly when the time lies there, and the time read back is less than 1/1000 s short |
| `StackSeek.StartPartReadsBack` | xbmc/Application.cpp:4594-4602 | Another part is started exactly when the time lies there, and the time read back is less than a frame and a millisecond short |
| `StackSeek.SeekPastEndReadsBack` | xbmc/Application.cpp:4603-4610 | Past the end of all parts, exactly, the time itself is asked for, less than a millisecond short |
| `StackSeek.Stack.Resume` | xbmc/Application.cpp:2910-2929 | Resuming cuts the offset to whole seconds, so it is frame exact if and only if the fraction is less than a frame |
| `CueDocument.Cue.Parse` | xbmc/CueDocument.cpp:286-398 | A readable sheet is accepted if and only if there is a track and no bad line; then the tracks are those described, each ends where the next one starts, and the last has no end |
| `CueDocument.Cue.SetIndexTime` | xbmc/CueDocument.cpp:318-322 | An index starts the last track and ends the one before, and keeps the partition |
| `CueDocument.Cue.HandleLine` | xbmc/CueDocument.cpp:302-387 | What each kind of line does to the tracks, the header and the current file, and which lines end the reading |
| `CueRendering.SheetReadsBack` | xbmc/CueDocument.cpp:286-398 | The lines written for a header, a file and any list of tracks describe exactly that header and those tracks, and none of them is bad |
| `CueRendering.ReadBack` | xbmc/CueDocument.cpp:286-398 | Reading a written sheet accepts it and gives back every track, with its end where the next one starts |
| `CueRendering.TimeReadsBack` | xbmc/CueDocument.cpp:429-456 | Minutes, seconds and frames written for any number of frames are read back as that number |
| `CueRendering.CaseDoesNotMatter` | xbmc/CueDocument.cpp:302-387 | Which branch a line takes does not depend on upper and lower case |
| `CueDocument.DurationsAddUp` | xbmc/CueDocument.cpp:254-259 | With increasing index times, negative ones included, the rounded durations add up to the time the tracks take within 37 frames a track |
| `CueDocument.TimedIsSpanned` | xbmc/CueDocument.cpp:254-259 | The time the tracks take is the whole time spanned if and only if no track ends at frame 0, as is so unless a time is negative |

## Left out

- Linked lists: the outputs are an array in list order and pointers into lists are indices, because the lists are only walked from head to tail here.
- Reading the server's state and the user's wishes (`get_outputs`, `set_output_info`, argument parsing): a run starts from records that describe the server (`Reconfigure.Fresh`), where outputs without changes are as reported.
- The server between the tool's requests: the server is held grabbed, so no other client acts; which CRTC loses an output that another one takes is the server's rule as modelled in `Server.Released`.
- Errors of requests other than the following ones of the X Resize, Rotate and Reflect Extension, version 1.2: sizes out of range or too small for an active CRTC; a CRTC configured with a mode but no outputs or the other way around, with outputs it cannot drive, a mode they do not support, a rotation it does not know, outputs that are no clones, or an area beyond the screen. Resources that do not exist are left out.
- Driving.MatchingPlansDrive: that an output lists only CRTCs that can drive it, and can be rotated as wanted on those, is what the tool has checked while reading (`Driving.Capable`); the modes of an output it has not checked when they are taken over from its CRTC, so they are part of `Driving.Matching`.
- Sharing.DisagreeingSharers: with more outputs or CRTCs than in Sharing.DisagreeingOnOneCrtc the cases are necessary, not sufficient, because outputs on other CRTCs then decide what is picked.
- Gamma, brightness, primary output, output properties, dots per inch and physical size (the size in millimetres is a parameter), dry runs and printing.
- Panning: the areas set are part of the server (`Server.XServer.panned`) but not of what the screen shows, and are not rolled back by the tool.
- Preference.PicksKeepMost: CRTCs the first pass gave before it stopped count as had, because the search cannot tell them from the others.
- Being out of memory in the client is one of the refusals a request may get.
- Geometry.TransformPoint: floating point numbers are exact reals, so a divisor close to zero is not rounded to it.
- Positions.SetPositions: requires that no good relation stands next to a cycle, which is exactly when the loop ends; the other case is Relations.EndlessWhenMixed.
- Reconfigure.Run: that no request breaks a precondition is stated for servers of version 1.3, because older ones ignore the transforms the sizes are computed with.
- TextureCache.ReachableKeeps: reference counts are unbounded, and job numbers are never reused, as the job manager hands them out in order.
- Image decoding and the job manager: a completion may come for any job number at any time, with or without a texture.
- LargeTextureManager.Manager.ReleaseImage: requires what ReachableKeeps proves of all runs, because the methods have no code for a failed assertion; `LargeTextureManager.Manager.Serve` meets it in every legal run.
- ApplicationMessenger.Messenger.TakeNext: the handlers are arbitrary; a processing loop is this section, a handler and FinishMessage, again and again, interleaved in MessageProtocol.
- PlaybackStart.StartIsExact: a start that another one on the same application interrupts is not modelled, nor what the application does besides the notices.
- PlaySpeed.RewindPower: requires a speed other than 0, which is when the loop ends (PlaySpeed.RewindLoopEnds).
- CueDocument.Cue.Parse: the values of replay gain, charset conversion and the search for a file next to the sheet (a parameter) are not modelled, and numbers do not overflow.
- The other players, databases, playlists, windows, skins, dialogs, file systems and settings of the program.
