# Verified models of Kodi's display allocator, file lists, texture cache, stacks and cue sheets

This project models five parts of Kodi in Dafny and proves what they are for. Each part that updates
objects in place is a class or a set of methods on objects; each of these methods is proved against a
function on values, and the lemmas about that function say what the part promises.

**The display allocator** (`xbmc-xrandr.c`) plans a multi-monitor layout and pushes it to the X server.
`CrtcSearch` defines feasible assignments of outputs to CRTCs and proves the backtracking search optimal
over them; `PickCrtcs` is the search in place; `CrtcSharing` says who is admitted to a CRTC in use, and
`CrtcLimits` where the search falls short. `Placement`
treats the relations between outputs as a graph and decides which specifications are placed, reported or
never finished; `Settling` says when the relations hold at the end; `Positions` is `set_positions` on the
outputs. `Geometry` and `ScreenSize` prove bounding
boxes under projective transforms and least screen sizes. `DisplayServer` is the server: it may refuse any
CRTC configuration, and answers a request that breaks the conditions of RRSetScreenSize or RRSetCrtcConfig
in section 7.1 of the X RandR protocol specification with an error. `Commit` proves the
disable / resize / enable protocol all-or-nothing over every pattern of refusals; `Marking` proves that
skipped CRTCs need no request; `Configure` composes all steps in the order of `main`.

**The file list** (`CFileItemList`). `FileIndex` proves when the path map agrees with the list, over every
run of operations; `StackFinding` proves exactly when files are stacked,
`Stacking` that stacking is an ordered partition that conserves size, and `StackingLoss` exactly when it is; `FileItems` is the list object with both. `ArchiveBytes`, `ItemArchive`, `FileArchive` and `ListArchive`
prove that what is stored in an archive is loaded again, byte for byte.

**The texture cache** (`CGUILargeTextureManager`). `TextureLedger` is the state machine of the cache, its
jobs and the clock, with invariants over every interleaving; `TextureHolding` tells the story of each path and
exactly when a sweep deletes; `TextureManager` is the cache itself.

**Stacks of media files** (`CApplicationStackHelper` and the seek code of `CApplication`). `StackTimes`
proves the timeline; `StackHelper` the objects.

**Cue sheets** (`CCueDocument::Parse`). `CueSheet` proves where each track comes from; `CueLetters`
what each line does by the letters it begins with; `CueChain` exactly when track intervals chain; `CueDocument` is the reader and the document.

Where the code does not do what one would expect, the code is modelled and a lemma gives the exact condition:

- A specification with a cycle of relations is reported as a loop only if no output can be placed at all;
  with any other relative output the program does not end (`Placement.Verdict`, `Settling.LoopMeans`).
- With a position and a relation on one output placement can end before the relations are settled; without
  cycles they hold from all positions exactly if the last pass settles every output, which the order of the
  list and the marks decide (`Settling.KeptIff`).
- More than 1000 outputs outweigh the preference for lighting all of them (`CrtcLimits.BoundIsExact`,
  `CrtcLimits.ChainIsRefused`).
- An idle CRTC may be shared by outputs with different modes (`CrtcLimits.SharersShowAlikeIff`,
  `CrtcLimits.IdleCrtcIsShared`); then an output is shown in the state of another
  (`Configure.OwnStateIff`).
- The simple way of choosing CRTCs does not test the outputs that keep theirs (`PickCrtcs.FastFeasibleIff`,
  with two outputs that cannot clone each other in `PickCrtcs.UnclonableStay`).
- A requested reflection is lost on an output without a CRTC and without a requested rotation
  (`Marking.ReflectionSurvivesIff`).
- A corner that cannot be transformed is replaced by the untransformed one (`Geometry.BoxHoldsModeIff`).
- The delay before a texture is deleted is lost when the 32-bit deadline wraps around
  (`TextureLedger.NotEarlyIff`).
- Stacking drops a skipped entry (a folder, playlist, nfo file or RAR part) that stands between two files
  (`StackingLoss.PartitionsIff`, with the loss in `StackingLoss.BetweenIsLost`).
- Stacking leaves the path map with the items' old paths (`FileItems.FoundAfterStacking`).
- With URL options ignored, lookups with and without the map can differ (`FileIndex.IgnoringAgreesIff`).
- A stored list of nothing but a parent entry does not come back (`ItemArchive.ListRoundTripIff`).
- The comment in `SeekTime` says that times beyond the end of a stack are handled as usual; the code seeks
  beyond the end of the first part (`StackTimes.SeekLandsInsideIff`).
- An offset of 2^31 ms or more does not come back as it was (`StackHelper.Application.CloseAndResume`).
- A sheet can give tracks that do not chain if a track has no file (`CueChain.ChainsIff`, with two such
  sheets in `CueChain.LateFileBreaksChain` and `CueChain.FileAgainBreaksChain`).

## Model

| member | source | states |
|---|---|---|
| CrtcSearch.SearchIsFeasible | xbmc-xrandr.c:2050-2111 | what the search leaves on the outputs after a fixed prefix is a feasible completion whose score is the one returned |
| CrtcSearch.SearchIsBest | xbmc-xrandr.c:2050-2111 | no feasible completion of a fixed prefix scores more than the search returns |
| CrtcSearch.ChooseIsBest | xbmc-xrandr.c:2078-2102 | the loop over an output's CRTCs keeps a usable choice worth at least as much as leaving the output off and as every usable CRTC from there on |
| CrtcSearch.ChooseIsFirst | xbmc-xrandr.c:2078-2102 | among choices worth the same the earlier one is kept: darkness unless a CRTC is worth more, and else the first listed CRTC of those worth the most |
| CrtcSearch.ScoreIsLitThenKept | xbmc-xrandr.c:2090-2093 | the score is 1000 for each lit output plus one for each that keeps its CRTC |
| CrtcSearch.SearchLightsMost | xbmc-xrandr.c:2037-2111 | with at most 1000 modes, no feasible assignment lights more outputs, and none that lights as many keeps more connections |
| CrtcSearch.SearchLightsAllIfPossible | xbmc-xrandr.c:2149-2154 | the slow path leaves an output with a mode dark if and only if every feasible assignment does |
| CrtcLimits.BoundIsExact | xbmc-xrandr.c:2090-2098 | 1000 is exact: for every larger number there are outputs that could all be lit of which the search leaves one dark |
| CrtcLimits.ChainIsRefused | xbmc-xrandr.c:2116-2159 | for every number from 1000 on there are outputs and CRTCs, one more output than that, that could all be lit and are refused |
| CrtcLimits.SharersAgreeIff | xbmc-xrandr.c:1793-1854 | whatever outputs may agree on, those that feasible assignments put on one CRTC agree if and only if all pairs agree that list it, match it and can be cloned |
| CrtcLimits.SharersShowAlikeIff | xbmc-xrandr.c:1823-1853 | feasible assignments put only outputs on a CRTC that agree on mode, position and rotation if and only if it is in use or all outputs agree that list it and can be cloned |
| CrtcLimits.SharersTransformIff | xbmc-xrandr.c:1839-1852 | transforms are not compared: outputs on a CRTC agree on them if and only if all that could share it do |
| CrtcLimits.IdleCrtcIsShared | xbmc-xrandr.c:2113-2159 | two clonable outputs with only one idle CRTC are both put on it, whatever their modes, positions and rotations |
| PickCrtcs.CheckCrtcForOutput | xbmc-xrandr.c:1793-1854 | true exactly when the output can use the CRTC as things stand; `PickCrtcs.CanUseIff` says what that means |
| PickCrtcs.CanUseIff | xbmc-xrandr.c:1793-1854 | the CRTC is listed and every other lit output on it is among the clones; an idle CRTC is not compared, one in use must show what the output asks for, as any unmarked output loaded from it does, and a planned one must agree in all, the transform included |
| CrtcSharing.FeasibleIffAdmitted | xbmc-xrandr.c:1793-1854 | where every CRTC in use shows an unmarked output, an assignment is feasible if and only if each output it lights lists its CRTC, finds it idle or showing what it asks for itself, and can clone the earlier ones there |
| CrtcSharing.PresentIsFeasible | xbmc-xrandr.c:1793-1854 | on a consistent server whose outputs are all unmarked and as loaded, and clone those they share a CRTC with, the present assignment is feasible |
| CrtcSharing.SearchKeepsPresent | xbmc-xrandr.c:2050-2111 | there the search leaves every output where the server shows it, for any number of outputs |
| CrtcSharing.SearchChangesNothing | xbmc-xrandr.c:2144-2158 | so the slow way of picking CRTCs succeeds and moves and marks nothing |
| CrtcSharing.PickAdmitted | xbmc-xrandr.c:2116-2159 | picking CRTCs succeeds whenever all outputs with a mode, up to 1000, can be lit so that each is admitted where it comes, such as beside one that shows what it asks for |
| PickCrtcs.DisableOutputs | xbmc-xrandr.c:2037-2044 | the outputs from a position on are off and the earlier ones are where they were |
| PickCrtcs.PickCrtcsScore | xbmc-xrandr.c:2050-2111 | the recursion in place returns the best score and leaves the best completion, whatever the later outputs had before; it aborts exactly when a CRTC id is unknown |
| PickCrtcs.TryCrtc | xbmc-xrandr.c:2083-2101 | one turn of the loop keeps the better of the choice so far and this CRTC |
| PickCrtcs.FindCrtcForOutput | xbmc-xrandr.c:1856-1872 | the first listed CRTC that can be used, with none usable before it; or none can be |
| PickCrtcs.FastTurn | xbmc-xrandr.c:2124-2142 | a changing output keeps its CRTC, the turn giving up exactly when the server lists another output on it; one without a CRTC gets the first usable one, and the turn gives up only if none is; other outputs stay as they are |
| PickCrtcs.FastPick | xbmc-xrandr.c:2124-2142 | the simple way gives each changing output without a CRTC one that matches its state and can be shared, and succeeds only if no kept CRTC is in use by somebody else |
| PickCrtcs.FastFeasibleIff | xbmc-xrandr.c:2124-2142 | with symmetric clone lists, what it leaves is a feasible assignment if and only if every CRTC that an output with a mode had before is listed for it, matches its state, and earlier outputs that had the same one can be cloned |
| PickCrtcs.UnclonableStay | xbmc-xrandr.c:2124-2142 | two outputs that cannot clone each other, asked onto one unused CRTC, both stay there, which is not feasible |
| PickCrtcs.PickSharing | xbmc-xrandr.c:2113-2159 | two outputs come onto one CRTC only if each has it listed or was asked onto it, and they can clone one another or were both asked onto it |
| PickCrtcs.SearchAndMark | xbmc-xrandr.c:2147-2158 | the slow way leaves the best assignment, marks an output that moved and was unmarked, and aborts exactly when the best assignment leaves an output with a mode dark |
| PickCrtcs.PickCrtcs | xbmc-xrandr.c:2116-2159 | on success every output with a mode that was marked or had a CRTC has one, and exactly the outputs that had no mark and moved get one, so that an output left without a mark has the CRTC it had |
| PickCrtcs.SearchStaysInRange | xbmc-xrandr.c:2083-2101 | every CRTC the search assigns is one of the server's |
| Placement.ChainsAreShort | xbmc-xrandr.c:1884-1911 | without cycles, following relations ends within as many steps as there are related outputs |
| Placement.AcyclicEnds | xbmc-xrandr.c:1880-1950 | without cycles nobody waits any more after as many passes as there are related outputs |
| Placement.StuckMeansCycle | xbmc-xrandr.c:1943-1948 | a pass in which somebody waits and nothing is set means that the relations contain a cycle |
| Placement.CyclesNeverPlaced | xbmc-xrandr.c:1905-1911 | an output on a cycle is never placed, in any pass |
| Placement.LoopReportedIff | xbmc-xrandr.c:1943-1948 | a loop is reported only by the first pass, and exactly when all related outputs wait for each other |
| Placement.Verdict | xbmc-xrandr.c:1880-1950 | acyclic specifications end within the number of related outputs without a report; cyclic ones are reported at once or go on for ever |
| Settling.EndsIff | xbmc-xrandr.c:1905-1945 | nobody waits in a pass exactly when it places every related output: one whose target is not related, has a position, or is placed before, in the same pass if it comes first in the list |
| Settling.SettledEnds | xbmc-xrandr.c:1880-1950 | if a pass settles every related output, so that its place comes from an output that is not related, the loop ends with it and every relation holds |
| Settling.KeptIff | xbmc-xrandr.c:1880-1971 | for relations without a cycle, with given sizes and marks they hold after so many passes from all positions if and only if every related output is settled by then |
| Settling.RelationsHold | xbmc-xrandr.c:1912-1940 | where the loop ends, every relation holds between the final positions, when no output came with both a position and a relation |
| Placement.BesideStands | xbmc-xrandr.c:1920-1940 | the place beside the target is the one that satisfies the relation as an equation: left of and above by the own size, right of and below by that of the target, the other coordinate equal |
| Positions.KeptStand | xbmc-xrandr.c:1920-1940 | on the output objects: each output with a kept relation shares the edge with its target that the relation names, in the sizes of their modes, turned if they are |
| Placement.PositionAndRelationDisagree | xbmc-xrandr.c:1898-1911 | with both a position and a relation on one output, a relation can be violated at the end |
| Placement.LeastIsLeast | xbmc-xrandr.c:1951-1962 | the minimum found is a lower bound that some output reaches, or 32768 |
| Placement.NormalisedIsAShift | xbmc-xrandr.c:1951-1971 | normalisation moves all outputs with a mode alike to coordinates that are not negative; an edge is reached exactly when some output started at 32768 or less |
| Placement.NormalisedKeepsRelations | xbmc-xrandr.c:1963-1971 | a relation holds after normalisation if and only if it held before |
| Positions.PlaceOne | xbmc-xrandr.c:1887-1940 | one turn on the output objects waits, or places the output beside its target, as the model's step does |
| Positions.PlaceAll | xbmc-xrandr.c:1887-1942 | one pass on the objects is the model's, for every specification; it fails exactly when a target does not exist |
| Positions.PlacePass | xbmc-xrandr.c:1882-1949 | one turn of the outer loop, for every specification: the next positions, and whether the loop ends, fails, reports a loop or goes on |
| Settling.LoopMeans | xbmc-xrandr.c:1882-1949 | what the loop comes to, for every specification: a loop is reported exactly when all related outputs wait for each other; it ends within the number of related outputs, with the first pass that places all; or every pass goes on |
| Settling.PassDecides | xbmc-xrandr.c:1882-1949 | the pass that ends the loop, or one more pass than there are outputs, decides what the loop comes to and after how many passes |
| Positions.PlaceUntilDone | xbmc-xrandr.c:1880-1950 | the multi-pass loop on the objects, followed that far, comes to what the specification says, at the model's positions |
| Settling.FinalPositions | xbmc-xrandr.c:1880-1971 | the final positions keep the relations if the last pass settles every related output; without cycles exactly then from all positions, and always when no output came with both a position and a relation |
| Positions.Normalise | xbmc-xrandr.c:1951-1971 | the objects' positions are the normalised ones |
| Positions.SetPositions | xbmc-xrandr.c:1874-1972 | for every specification it aborts, goes on for ever or ends as the specification says; where it ends under that condition each related output stands left of, right of, above, below or at its target, in coordinates, and only positions and their marks changed |
| Geometry.BoundsAreLeast | xbmc-xrandr.c:468-492 | an integer box contains the images of the points if and only if it contains the computed box |
| Geometry.QuarterTurn | xbmc-xrandr.c:408-436 | a quarter turn exchanges the width and the height of a mode |
| Geometry.ImageSolves | xbmc-xrandr.c:438-466 | the image of a point solves the homogeneous equations of the transform; there is none exactly where the third coordinate is 0 or the solution is beyond 32767 |
| Geometry.CornersDecide | xbmc-xrandr.c:494-513 | a linear condition that holds at the four corners holds in the whole rectangle |
| Geometry.ModeBoxHoldsMode | xbmc-xrandr.c:438-513 | with positive third coordinates and images within 32767 at the corners, the box holds the image of every point of the mode |
| Geometry.InRange | xbmc-xrandr.c:455-465 | the box of corner images in range is in range |
| Geometry.BoxHoldsModeIff | xbmc-xrandr.c:438-513 | the box holds the image of the whole mode if and only if it holds those of the corners, all in front of the camera; for modes up to 32767 if and only if every corner image is in range |
| Geometry.IdentityBox | xbmc-xrandr.c:494-513 | without a transform the box is the rotated mode |
| ScreenSize.GrownIsLeast | xbmc-xrandr.c:1980-2017 | the grown framebuffer is the least that holds the one it started from and every output |
| ScreenSize.EdgeIsLeast | xbmc-xrandr.c:1985-2017 | the edge of an output is inside a size if and only if the image of every point of its mode, shown where the output is, is inside |
| ScreenSize.SetScreenSize | xbmc-xrandr.c:1974-2034 | a requested size is kept, with a warning exactly when some output does not fit; otherwise the size is the least that holds all outputs and the minimum; it aborts exactly when that is over the maximum, or a requested size below the minimum |
| Commit.CrtcDisable | xbmc-xrandr.c:1419-1429 | the CRTC is off, or nothing changed and the refusal is counted |
| Commit.CrtcRevert | xbmc-xrandr.c:1445-1462 | the CRTC has its original configuration again, unless refused, and no request was in error |
| Commit.Revert | xbmc-xrandr.c:1544-1557 | from any state the commit can be in, disabling all, resizing and restoring gives the original configuration and size without an error, unless a request is refused |
| Commit.EnableKeeping | xbmc-xrandr.c:1601-1661 | whichever CRTCs the first loop leaves on, resizing and setting the CRTCs end without an error in the plan if and only if all that are left on have a plan and fit the new screen, unless a request is refused |
| Commit.DisableStale | xbmc-xrandr.c:1601-1627 | afterwards every CRTC that is still on fits both the old and the new screen, and the others are off |
| Commit.CrtcApply | xbmc-xrandr.c:1464-1508 | the CRTC has its planned configuration, fitting the new screen, unless refused |
| Commit.ScreenApply | xbmc-xrandr.c:1525-1541 | when everything that is on fits the new size, the screen has it afterwards and the request is no error |
| Commit.ApplyAll | xbmc-xrandr.c:1636-1661 | after the last CRTC the server has the planned configuration everywhere, unless a request is refused, without an error |
| Commit.Forward | xbmc-xrandr.c:1584-1671 | the forward part realises the plan without a refusal, or stops, because of a refusal or a mode the client does not know, in a state that can be reverted; no request is an error |
| Commit.Apply | xbmc-xrandr.c:1564-1671 | all or nothing: the plan is realised; or configurations, pending transforms and size are those from before; or a reverting request was refused; without that no request is an error |
| Marking.ReflectionSurvivesIff | xbmc-xrandr.c:1140-1187 | a requested reflection survives if and only if the output has a CRTC or a rotation was requested |
| Marking.FillCrtcAndMode | xbmc-xrandr.c:1059-1135 | what was not requested of CRTC and mode is the server's, and the CRTC is one the output can use |
| Marking.SetOutputInfo | xbmc-xrandr.c:1059-1187 | an output without marks is afterwards exactly as on the server; requested position, mode, transform and direction stay; the rest is that of its CRTC on the server, and its mode that of the CRTC it is on now, wherever it is to go |
| Marking.LoadOutputs | xbmc-xrandr.c:1682-1749 | the same for all outputs: those without marks are as on the server, and marks and requested modes stay |
| Marking.OnCrtcMembers | xbmc-xrandr.c:1307-1317 | the outputs planned for a CRTC are exactly those with a mode that chose it |
| Marking.CrtcAddOutput | xbmc-xrandr.c:1289-1305 | the CRTC is planned for one more output, with the state of its first |
| Marking.SetCrtcs | xbmc-xrandr.c:1307-1317 | every CRTC is planned for the outputs that chose it, in order |
| Marking.MarkChangingCrtcs | xbmc-xrandr.c:1760-1788 | a CRTC is marked if and only if it was, or an output it has on the server or in the plan is; it aborts exactly on an unknown id |
| Marking.UntouchedIsAsPlanned | xbmc-xrandr.c:1483-1489 | on a consistent server, a CRTC that is not marked and given a mode has the planned mode, position, rotation, transform and outputs already |
| Configure.Load | xbmc-xrandr.c:1682-1749 | loading the outputs of a consistent server gives what the rest of the run needs |
| Configure.NormalisedTouch | xbmc-xrandr.c:1951-1971 | outputs put at the normalised positions keep their distances, and one is at the left or top edge if and only if one was placed at 32768 or less |
| Configure.TightWithoutTransforms | xbmc-xrandr.c:1979-2033 | without transforms every output's rectangle lies inside the screen, and the screen is the least at or above the minimum |
| Configure.LayOut | xbmc-xrandr.c:2889-2890 | placing and sizing together put the outputs at the normalised positions in a screen that holds them, within the limits, or warn about a requested size; or they abort or never end exactly as the relations say |
| Configure.LayOutTight | xbmc-xrandr.c:2889-2890 | without transforms and a requested size, the outputs after placing and sizing touch the edges exactly as said, in the least screen |
| Configure.PlannedCrtcsFit | xbmc-xrandr.c:2892-2897 | if all outputs are inside the screen, so is every planned CRTC |
| Configure.UnmarkedAreSame | xbmc-xrandr.c:2897-2902 | every CRTC left unmarked by the plan is on the server as planned |
| Configure.Prepare | xbmc-xrandr.c:2886-2902 | planning gives a plan that fits, in which every output with a mode has its CRTC and skipped CRTCs need nothing; if outputs that may come onto one CRTC ask for the same, those that share one do; relations stand if no output has a position as well |
| Configure.OwnStateIff | xbmc-xrandr.c:1289-1317 | every output is shown in its own mode, position, rotation and transform if and only if outputs on one CRTC ask for the same |
| Configure.Perform | xbmc-xrandr.c:1584-1671 | committing the plan shows every output with a mode on the CRTC chosen for it, in the state of the first output there, or restores the original state |
| Configure.Configure | xbmc-xrandr.c:2884-2902 | a run on loaded outputs ends with every output shown on its CRTC, in its own state if outputs that may come onto one CRTC ask for the same, in a screen within the limits; or with the original configuration and size, unless a reverting request is refused; without that no request is an error; outputs with a relation stand to their targets as it says, if none has a position as well; it never ends exactly when placement does not |
| Configure.LoadAndConfigure | xbmc-xrandr.c:2880-2910 | the same for a whole run, loading included |
| FileIndex.BuiltIsRight | xbmc/FileItem.cpp:1969-1985 | a built map holds for every key the first item with it |
| FileIndex.SetFastKeeps | xbmc/FileItem.cpp:1969-1985 | switching fast lookup keeps the map right |
| FileIndex.SetIgnoringKeeps | xbmc/FileItem.cpp:1958-1967 | switching whether options are ignored keeps the map right |
| FileIndex.AddKeeps | xbmc/FileItem.cpp:2033-2039 | adding at the end keeps the map right, even for a path that is there already |
| FileIndex.AddFrontKeepsIff | xbmc/FileItem.cpp:2050-2066 | adding elsewhere keeps the map right if and only if no other item with that path comes to stand behind the new one |
| FileIndex.RemoveKeepsIff | xbmc/FileItem.cpp:2068-2099 | removing keeps the map right if and only if no other item has the path |
| FileIndex.AppendKeeps | xbmc/FileItem.cpp:2101-2107 | appending a list keeps the map right |
| FileIndex.SwapKeeps | xbmc/FileItem.cpp:3452-3456 | with distinct paths swapping keeps the map right |
| FileIndex.ApplyKeeps | xbmc/FileItem.cpp:1958-2107 | with distinct paths before and after, every operation keeps the map right |
| FileIndex.LookupsAgree | xbmc/FileItem.cpp:1987-2002 | after any operations that keep paths distinct, a lookup by path answers as a search of the list, with and without the map |
| FileIndex.IgnoringAgreesIff | xbmc/FileItem.cpp:2172-2193 | with options ignored, both lookups agree on every name if and only if no item's path has options |
| FileIndex.WhereEntriesStand | xbmc/FileItem.cpp:2004-2107 | where each entry of the list stands after every operation: added, inserted at a position counted from either end, removed by position or first occurrence, appended, swapped |
| FileIndex.FirstPathIsFirst | xbmc/FileItem.cpp:2172-2193 | a search of the list gives the first entry with the path |
| FileItems.FoundAfterStacking | xbmc/FileItem.cpp:2864-2896 | after stacking, an item that is left is found through the map under its present path if and only if that has the key of the path it had |
| FileItems.FileItemList.SetFastLookup | xbmc/FileItem.cpp:1969-1985 | list and map become those of the model |
| FileItems.FileItemList.SetIgnoreURLOptions | xbmc/FileItem.cpp:1958-1967 | list and map become those of the model |
| FileItems.FileItemList.Get | xbmc/FileItem.cpp:2172-2193 | the lookup of the model, through map or list |
| FileItems.FileItemList.Contains | xbmc/FileItem.cpp:1987-2002 | true exactly when the lookup finds an item |
| FileItems.FileItemList.Add | xbmc/FileItem.cpp:2033-2039 | list and map become those of the model |
| FileItems.FileItemList.AddFront | xbmc/FileItem.cpp:2050-2066 | list and map become those of the model, negative positions counting from the end |
| FileItems.FileItemList.RemoveItem | xbmc/FileItem.cpp:2068-2084 | the item's first occurrence leaves list and map |
| FileItems.FileItemList.RemoveAt | xbmc/FileItem.cpp:2086-2099 | list and map become those of the model |
| FileItems.FileItemList.ClearItems | xbmc/FileItem.cpp:2019-2031 | list and map are empty, the switches stay |
| FileItems.FileItemList.Append | xbmc/FileItem.cpp:2101-2107 | list and map become those of the model |
| FileItems.FileItemList.Swap | xbmc/FileItem.cpp:3452-3456 | list and map become those of the model |
| Stacking.ScanStops | xbmc/FileItem.cpp:2798-2812 | an offset that is tried again is beyond the one before and inside the longest name, so the search ends |
| Stacking.StackIsLongestRun | xbmc/FileItem.cpp:2743-2862 | a stack is at least two files, and its files are the longest run, skipped entries aside, that agree with the first in title, ignored part and extension and differ from it in volume |
| StackFinding.FindsFirst | xbmc/FileItem.cpp:2743-2868 | the search over expressions and offsets finds the first expression and offset, in the order they are tried, from which the next file is a part of the title of the first; if there is none, no stack |
| StackFinding.FoundIff | xbmc/FileItem.cpp:2743-2868 | a file has a stack if and only if the next file that is not skipped is a part of its title, from offset 0 or one that repeated false positives lead to |
| StackFinding.EntryStacks | xbmc/FileItem.cpp:2724-2901 | each entry whose turn comes stands for a stack, which takes further entries off the list, exactly if that holds; else it stays as it was |
| Stacking.StackIsNamed | xbmc/FileItem.cpp:2804-2826 | the name of a stack is the title of its first file with the ignored part and the extension, without the volume |
| Stacking.AdjacentIff | xbmc/FileItem.cpp:2864-2896 | the entries replaced are the files merged if and only if no skipped entry lies between them |
| Stacking.FirstRun | xbmc/FileItem.cpp:2743-2896 | in a list without skipped entries between files the first stack is the beginning of the list, as long as it can be |
| Stacking.StackedOrKept | xbmc/FileItem.cpp:2864-2896 | every entry that is left is as it was, or stands for a stack of which it is the first file |
| Stacking.StackingPartitions | xbmc/FileItem.cpp:2724-2901 | stacking such a list partitions it in order, each entry of the result standing for one run of files of one title under one of the expressions, or for one entry |
| Stacking.StackingKeepsSize | xbmc/FileItem.cpp:2836-2896 | stacking such a list conserves the total size |
| StackingLoss.BetweenIsLost | xbmc/FileItem.cpp:2877-2885 | with skipped entries between two files of one title the first of them is dropped, and the second file is both merged and left in the list |
| StackingLoss.PartitionsIff | xbmc/FileItem.cpp:2724-2901 | stacking a list partitions it in order, under every set of rules, if and only if no skipped entry lies between two files |
| FileItems.FileItemList.CompareNext | xbmc/FileItem.cpp:2779-2855 | the verdict on the next file is the model's |
| FileItems.FileItemList.CollectStack | xbmc/FileItem.cpp:2768-2862 | the innermost loop collects the positions and the size the model's scan does, and stops as it does |
| FileItems.FileItemList.FindStackAt | xbmc/FileItem.cpp:2743-2868 | the loops over expressions and offsets find the model's stack |
| FileItems.FileItemList.Merge | xbmc/FileItem.cpp:2864-2896 | the values of the list become those before, the merged item, and those after as many further entries as the stack has files |
| FileItems.FileItemList.StackFiles | xbmc/FileItem.cpp:2724-2901 | the list becomes the stacked list, for every list of items; the map only loses the keys of the entries taken off the list |
| ArchiveBytes.WordRoundTrip | xbmc/utils/Archive.h:142-170 | a number of k bytes, lowest first, is read back, and exactly these bytes are read |
| ArchiveBytes.ByteOfWord | xbmc/utils/Archive.h:142-170 | the bytes of a number are its digits to base 256, the lowest first |
| ArchiveBytes.IntRoundTrip | xbmc/utils/Archive.h:84-87 | a 32-bit integer is read back, negative ones too |
| ArchiveBytes.LongRoundTrip | xbmc/utils/Archive.h:104-107 | a 64-bit integer is read back, negative ones too |
| ArchiveBytes.TextRoundTrip | xbmc/utils/Archive.cpp:131-140 | a text of at most 100 MB is read back |
| ArchiveBytes.CountRoundTrip | xbmc/FileItem.cpp:2339-2404 | a count written as int and read as unsigned int wraps around at 32 bits |
| ArchiveBytes.AllRoundTrip | xbmc/FileItem.cpp:2405-2432 | a counted run of values of any format that reads back is read back |
| ItemArchive.TagRoundTrip | xbmc/FileItem.cpp:571-642 | a stored tag comes back; if none was stored, the one that is there stays |
| ItemArchive.FieldsRoundTrip | xbmc/FileItem.cpp:547-628 | the 22 archived fields come back in order |
| ItemArchive.ItemRoundTrip | xbmc/FileItem.cpp:541-645 | an item loaded into a fresh one comes back whole, and exactly its bytes are read |
| ItemArchive.ListRoundTripIff | xbmc/FileItem.cpp:2318-2440 | loading a stored list into a fresh one gives the list without a leading parent entry and reads exactly the bytes written, if and only if there is another item (and no count wraps around) |
| ItemArchive.EmptyListLosesState | xbmc/FileItem.cpp:2379-2382 | a list without another item comes back without sorting, details and content, which stay unread |
| ItemArchive.ParentStays | xbmc/FileItem.cpp:2363-2392 | loading into a list that begins with a parent entry keeps that entry in front |
| FileArchive.FileItem.Store | xbmc/FileItem.cpp:541-590 | exactly the item's bytes are appended |
| FileArchive.FileItem.Load | xbmc/FileItem.cpp:591-645 | the fields become those read, tags that are there staying where none is stored |
| ListArchive.FileItemList.Store | xbmc/FileItem.cpp:2321-2359 | exactly the list's bytes are appended |
| ListArchive.FileItemList.Load | xbmc/FileItem.cpp:2360-2440 | the list becomes the one read, and the path map that of its items |
| ListArchive.SaveAndLoad | xbmc/FileItem.cpp:2903-2957 | a list saved with an item besides the parent entry and loaded into a new one is there again, indexed, with nothing left unread |
| TextureLedger.StepKeepsInv | xbmc/GUILargeTextureManager.cpp:131-236 | every step keeps paths unique across both lists, counts equal to outstanding requests, requested paths held, queued counts positive and jobs matching paths |
| TextureLedger.InvAllowsRelease | xbmc/GUILargeTextureManager.cpp:84-108 | a balanced release fails no assertion |
| TextureLedger.EveryRun | xbmc/GUILargeTextureManager.cpp:84-236 | in every interleaving with balanced releases no assertion fails, the invariant holds, and what is due is first requests less releases |
| TextureHolding.StepMoves | xbmc/GUILargeTextureManager.cpp:131-236 | what each step does to each path: a first request of a path that is nowhere starts a job, the last release cancels it or, at once, deletes the image, a finished job loads the image, a sweep deletes overdue ones; all others stay where they are |
| TextureHolding.EveryStory | xbmc/GUILargeTextureManager.cpp:131-236 | in every run with balanced releases the two lists have each path where its own story of the events puts it |
| TextureLedger.TextureReachesOwnPath | xbmc/GUILargeTextureManager.cpp:219-236 | a finished job's texture reaches only the image of the path it was started for |
| TextureLedger.GoneJobsStayGone | xbmc/GUILargeTextureManager.cpp:182-236 | a job that was cancelled or has finished never delivers again, whatever is queued afterwards |
| TextureLedger.SurvivingIsFilter | xbmc/GUILargeTextureManager.cpp:131-144 | a sweep keeps exactly the images that have not expired |
| TextureLedger.NotEarlyIff | xbmc/GUILargeTextureManager.cpp:95-118 | a deadline is never met early if and only if computing it does not wrap around |
| TextureLedger.IdleMeansReleased | xbmc/GUILargeTextureManager.cpp:95-108 | the time an image is idle from is that of a release since which nothing was due |
| TextureLedger.SweepAfterRun | xbmc/GUILargeTextureManager.cpp:110-144 | after any run a sweep deletes only what was released and not requested for more than TIME_TO_DELETE, re-acquisitions included, unless the deadline wrapped around |
| TextureHolding.SweepDeletesIff | xbmc/GUILargeTextureManager.cpp:110-144 | after any run a sweep deletes an image released at some time, and not requested since, if and only if the 32-bit clock is past the 32-bit deadline 2000 ms later |
| TextureHolding.SweepAtOnce | xbmc/GUILargeTextureManager.cpp:110-144 | an immediate sweep leaves exactly the images requested more often than released, and no sweep deletes one of these |
| TextureManager.LargeTexture.DecrRef | xbmc/GUILargeTextureManager.cpp:95-108 | the count goes down; at zero the texture is deleted or its deadline set |
| TextureManager.LargeTexture.DeleteIfRequired | xbmc/GUILargeTextureManager.cpp:110-118 | deletes exactly an unreferenced texture whose deadline is past, or at once if told to |
| TextureManager.LargeTextureManager.CleanupUnusedImages | xbmc/GUILargeTextureManager.cpp:131-144 | the lists become those of the model's step |
| TextureManager.LargeTextureManager.GetImage | xbmc/GUILargeTextureManager.cpp:148-167 | the lists become those of the model's step, and the texture is that of the loaded image |
| TextureManager.LargeTextureManager.QueueImage | xbmc/GUILargeTextureManager.cpp:197-217 | the lists become those of the model's step |
| TextureManager.LargeTextureManager.ReleaseImage | xbmc/GUILargeTextureManager.cpp:169-194 | the lists become those of the model's step, cancelling a job nobody waits for |
| TextureManager.LargeTextureManager.OnJobComplete | xbmc/GUILargeTextureManager.cpp:219-236 | the lists become those of the model's step |
| StackTimes.EndsTile | xbmc/ApplicationStackHelper.cpp:147-176 | positive durations give increasing ends, each part as long as its file, up to the sum |
| StackTimes.EndsAreSums | xbmc/ApplicationStackHelper.h:81-87 | start and end of a part are the sums of the durations before it and up to it |
| StackTimes.NoUnderflow | xbmc/ApplicationStackHelper.cpp:204-221 | the part found never starts after the time, so the subtraction does not wrap around, whatever the ends |
| StackTimes.PartAtIsUnique | xbmc/ApplicationStackHelper.cpp:209-221 | a time before the end falls into exactly one part, the one found; any other is given the first part |
| StackTimes.SeekAndTime | xbmc/Application.cpp:4520-4573 | seeking and reading the time are inverse: the time is read back, and a place comes back exactly when it is inside its part |
| StackTimes.SeekLandsInsideIff | xbmc/Application.cpp:4551-4568 | a seek lands inside the part it goes to if and only if the time is before the end of the stack |
| StackTimes.ResumeIff | xbmc/Application.cpp:3161-3170 | a saved place comes back if and only if it was inside its part, or in the first part beyond the end of the stack |
| StackHelper.ApplicationStackHelper.InitializeStack | xbmc/ApplicationStackHelper.cpp:58-79 | every file of the stack is registered with the stack and its place in it |
| StackHelper.ApplicationStackHelper.SetEnds | xbmc/ApplicationStackHelper.cpp:147-176 | the ends are the stored ones or the sums of the probed durations, and every start is registered; it fails exactly when a file cannot be probed |
| StackHelper.ApplicationStackHelper.GetStackPartNumberAtTimeMs | xbmc/ApplicationStackHelper.cpp:209-221 | the part of the timeline |
| StackHelper.ApplicationStackHelper.InitializeStackStartPartAndOffset | xbmc/ApplicationStackHelper.cpp:81-207 | part and offset are those of the time asked for or bookmarked; starts and totals are registered for every part; the stack is given up exactly when a file cannot be probed |
| StackHelper.AskedStart | xbmc/ApplicationStackHelper.cpp:177-204 | playing starts in the part, and as long after its start, as the start offset asked for says, or the time of the bookmark when resuming; at the beginning without a bookmark; from the end of the stack on it counts from the start of the first part |
| StackHelper.ApplicationStackHelper.OnPlayBackStarted | xbmc/ApplicationStackHelper.cpp:33-56 | a path stays registered, unchanged, if and only if its stack is the item's; so the parts of that stack stay and all others go |
| StackHelper.Application.GetTime | xbmc/Application.cpp:4520-4536 | the time of the current place on the timeline |
| StackHelper.Application.SeekTime | xbmc/Application.cpp:4543-4573 | part and player are at the place of the time sought, and reading the time gives it back |
| StackHelper.Application.StackBookmark | xbmc/Application.cpp:3147-3170 | every bookmark in a registered part becomes one of the stack, at the start of the part plus its time, with the total time and the part, to which resuming goes when it is inside the part; others stay as they are |
| StackHelper.Application.CloseAndResume | xbmc/ApplicationStackHelper.cpp:184-207 | closing a part at an offset inside it and resuming gives the part back, and the offset if and only if it is below 2^31 ms |
| CueSheet.LinesAtBreak | xbmc/CueDocument.cpp:120-141 | a line break ends a line, whatever surrounds it |
| CueSheet.BreaksAreAlike | xbmc/CueDocument.cpp:120-141 | which line breaks are used, and how many, makes no difference |
| CueSheet.TrimIs | xbmc/utils/StringUtils.cpp:457-461 | a trimmed line is the line without the white space around it |
| CueSheet.OneLine | xbmc/CueDocument.cpp:120-141 | without line breaks there is one line, unless it is blank |
| CueLetters.TrackByLetters | xbmc/CueDocument.cpp:287-350 | each line that begins with the letters TRACK, in any case, gives a track: in the file of the last line before that begins with FILE; with start, title and artist of the last lines up to the next TRACK that begin with INDEX 01, TITLE and PERFORMER; and with its number |
| CueLetters.AlbumByLetters | xbmc/CueDocument.cpp:310-327 | album and artist are those of the last TITLE and PERFORMER lines before the first TRACK line |
| CueLetters.EndByLetters | xbmc/CueDocument.cpp:303-305 | the end of the track before the last is set by an INDEX 01 line, and by no other, exactly if that track is in the current file |
| CueLetters.OtherIndexIgnored | xbmc/CueDocument.cpp:289-376 | an INDEX line with any other number leaves the sheet as it is |
| CueLetters.StopsByLetters | xbmc/CueDocument.cpp:289-302 | reading stops exactly at an INDEX 01 line in a track whose file has changed or with a mangled time, and at a replay gain line that is too short |
| CueLetters.RestByLetters | xbmc/CueDocument.cpp:340-376 | genre, disc, year and replay gain of the album come from the lines that begin with these words |
| CueChain.ChainsIff | xbmc/CueDocument.cpp:273-390 | the tracks of a sheet that is read to its end chain if and only if no TRACK line without a file, after another one, is followed by INDEX lines that change the start, or set the end of the track before, after a file is named |
| CueChain.SheetChains | xbmc/CueDocument.cpp:273-390 | in a sheet whose FILE lines all name a file, one before the first TRACK line, neighbours of one file meet, neighbours in different files end in 0, and the last track ends in 0, also when an error stops the reading |
| CueChain.NamelessSheetChains | xbmc/CueDocument.cpp:273-390 | so do the tracks of a sheet that names no file |
| CueChain.LateFileBreaksChain | xbmc/CueDocument.cpp:291-296 | two tracks, a named FILE and an INDEX line with a time other than 0 do not chain |
| CueChain.FileAgainBreaksChain | xbmc/CueDocument.cpp:291-350 | nor do two tracks of which the first alone is in a file that is named again before the INDEX line of the second |
| CueChain.NamedEnds | xbmc/CueDocument.cpp:287-304 | between two TRACK lines in a named file, the end of the track before follows the start of the last if both are in it |
| CueChain.NamelessEnds | xbmc/CueDocument.cpp:287-304 | without a file it follows only up to, or only from, the first named FILE line, according to the file of the track before |
| CueSheet.CountsLines | xbmc/CueDocument.cpp:316-350 | there is a track for each TRACK line and a file for each FILE line |
| CueSheet.TrackFromLines | xbmc/CueDocument.cpp:273-350 | each track is in the file of the last FILE line before it and starts where the last INDEX line before the next TRACK says |
| CueSheet.RenameKeepsChainIff | xbmc/CueDocument.cpp:219-226 | renaming a file keeps tracks chained if and only if it joins no neighbours of which the second starts later than 0 |
| CueDocument.BufferReader.ReadLine | xbmc/CueDocument.cpp:120-141 | gives the next trimmed line that is not blank, and fails exactly when there is none |
| CueDocument.CueDocument.Parse | xbmc/CueDocument.cpp:273-390 | the fields depend on the lines only; the result tells whether there are tracks; an error leaves the tracks before it |
| CueDocument.CueDocument.ParseTag | xbmc/CueDocument.cpp:160-164 | a tag that is read leaves a track for each line that begins with TRACK, as the lines say by their letters; the tracks chain if and only if its lines meet that condition; it is met when the tag is well-named |
| CueDocument.CueDocument.UpdateMediaFile | xbmc/CueDocument.cpp:219-226 | exactly the tracks in the file are renamed |

## Left out

- Panning, gamma, primary output, dpi and millimetre sizes, dry runs, option parsing and queries of xbmc-xrandr.c; requested names and modes come resolved, and the checks that a mode or rotation is one the output can have are not modelled.
- RandR before 1.3, whose two disabling passes and transforms differ; X errors that arrive asynchronously.
- Mode pointers are compared by value, mode ids being unique.
- Settling.KeptIff: is for relations without a cycle; with one through an output that has a position they can hold without being settled (Settling.CycleCanHold).
- Configure.Configure: does not follow a run on after the warning that an output does not fit a requested screen.
- Commit.Apply: says nothing about the final state when a reverting request is refused, because the program gives up there.
- CrtcSearch.SearchLightsMost: holds up to 1000 outputs with a mode, which CrtcLimits.BoundIsExact shows to be exact.
- Geometry.ModeBoxHoldsMode: is about exact reals; rounding of double-precision numbers is not modelled.
- FileItems.FileItemList.StackFiles: is for lists in which no item object occurs twice.
- StackingLoss.PartitionsIff: is for lists whose files have different paths.
- The objects of FileItems and those of FileArchive and ListArchive are two views of the same classes, each with the fields its part of the code reads; they are not connected.
- Folder stacking, cue filtering, thumbnails, sorting and the other operations of CFileItemList.
- Regular expressions, URL parsing, file-name rules and captions are functions with the stated assumptions.
- ItemArchive.ItemRoundTrip: takes the base class, the date and the tags as given formats that read back, and no PVR recording in place of a video tag.
- An archive that ends early is not followed: the code goes on with zeros. Buffering in blocks is not modelled, nor a text over 100 MB, which the code refuses to write.
- Saving to and opening the cache file, and the cache file name that is set on every item before it is saved.
- TextureManager.LargeTextureManager.GetImage: whether an image is in the texture cache, decoding and disk access are not modelled; job ids are fresh and do not wrap around, and the job manager is not stopped.
- Locks: each locked method is one step.
- StackHelper.ApplicationStackHelper.InitializeStackStartPartAndOffset: is for regular stacks; disc images, opening the database and probing files become parameters, and stored times cover every part.
- StackHelper.Application.StackBookmark: not modelled are the play-count and resume thresholds applied to the bookmark afterwards.
- Media times are whole milliseconds and bookmarks exact reals.
- CueDocument.CueDocument.Parse: text in quotes, numbers, times and path resolution are functions; replay gains are kept as text.
- Reading cue sheets from files, the list of songs, and the list of media files of a document.
