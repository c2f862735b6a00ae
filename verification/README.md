# Verified model of the keyboard-and-mouse bridge

Two daemons and a web tool turn a keyboard and a mouse into USB input reports. `kbm-mapper-ff`
emulates a DualSense controller, `kbm-passthrough` forwards a boot keyboard and a mouse, and
`kbm-web` edits the one text file that both daemons read and keeps named profiles of it. This project
models the parts of them that decide something and proves what they promise over whole runs.

| module | what it is |
|---|---|
| `Actions`, `MapperInput`, `Samples`, `Mapper` | the mapper object: pressed bitmap, ring of mouse samples, press times, report builder. The class carries the history of events and ticks, and its invariant ties every field to it |
| `InputReport` | the 64 bytes of a report and what each field says |
| `Burst` | burst-on-hold as a schedule of cycles, and the loop that walks it |
| `Stick`, `StickAnswer`, `Motion` | saturation, rotation debt and response curve of the right stick, and the stick over a run of reports |
| `Mailbox`, `Delivery` | the one-slot mailbox between the main loop and the USB writer thread, one step at a time, and what it delivers |
| `Hotkey` | the mode-switch chord, the same code in both daemons |
| `KeyTable`, `Keyboard`, `Mouse`, `Passthrough` | the keycode table, the six rollover slots, the clamped motion accumulator, and the object that drains an event queue into them |
| `WebConfig`, `ConfigFile`, `RoundTrip`, `StableSort`, `Canonical` | the web tool's parser and printer of the configuration file |
| `ProfileText`, `HeaderLaws`, `ProfileIds`, `ProfileStore`, `ProfileRuns` | profile files: metadata header, ids, the request handlers, and runs of requests |
| `Names`, `NameCodes`, `DaemonConfig`, `MapperConfig`, `ChordFile`, `Readers`, `ReadersAgree`, `Resaved` | the two C readers of that file, against the web tool's printer and against each other |
| `Text` | splitting, trimming, case and lines, shared by the three readers |

Conventions. C doubles and Go floats are reals. The square root, `pow`, and the draws of the burst
generator are parameters, so the theorems hold for any response curve and any draws. Printing and
parsing a number is an abstract pair that undo each other on the numbers a float64 can hold
(`Lawful`, `ReadsBack`), and so is JSON encoding of profile metadata (`LawfulJson`). Time comes in
with each event, tick or request. Casts of a real to an integer truncate.

Code that changes state is a class or a method with loops, proved equal to a specification function;
the theorems are then about that function over all histories.

Where a promise turned out not to hold of the code, the code was kept, and the exact condition is
proved:

- The configuration comment says an empty chord disables the hotkey (`main.go:91`). After a save and
  a load it is the default chord: `Canonical.EmptyChordComesBack`.
- The live file means what the active profile means exactly while there is a live file. A fresh
  installation without one disagrees until the first save or activation:
  `ProfileRuns.AgreesIffLive`, `ProfileRuns.NoLiveFileDisagrees`.
- The comment on `stripProfileMeta` (`profiles.go:105-107`) speaks of the first metadata line; the code
  removes every one: `HeaderLaws.HeaderVanishes`.
- An action bound to two inputs is released when either of them is: `MapperInput.PressedMeansHeld`.
- `slugify` is idempotent except on names whose slug is cut right after a dash: `ProfileIds.SlugifyAgain`,
  `ProfileIds.SlugifyAgainDiffers`.
- With a thousand profiles the id returned untested can be taken: `ProfileIds.FullStoreCollides`.
- The normalised left-stick diagonal rounds to (90, 90), outside the unit circle that the comment at
  `mapper.c:267` promises: `InputReport.DiagonalLeavesCircle`.
- The handlers take no lock. Another profile activated between the two halves of a save leaves the live
  file and the active profile with different configurations, unless that profile already meant what
  was saved: `ProfileRuns.ActivateInsideSave`.
- An import reads one mebibyte. A longer profile is cut and can come back with another configuration:
  `ProfileRuns.ImportSize`, `ProfileRuns.LongExportDiffers`.
- A drain of 0 or 2 never empties the rotation debt: `Stick.NeverDrains`.
- The two daemons differ on the meta keys, which only one of the two tables has, and on chords with a
  `#`: `Names.TablesAgree`, `ReadersAgree.ChordsAgree`, `ReadersAgree.MetaChordDiffers`,
  `ReadersAgree.HashChordDiffers`.
- Loading a file in the web tool and saving it unchanged can change what the mapper daemon does, if a
  burst action is spelt in two ways or the chord is all blank: `Resaved.NormalViewIff`,
  `Resaved.SpellingChangesRate`, `Resaved.BlankChordComesBack`.

## Model

| member | source | states |
|---|---|---|
| Actions.BitUpdate | recipes-apps/kbm-mapper-ff/files/mapper.c:16-28 | Raising or lowering one action's bit changes that bit as asked and no other of the 64 |
| Actions.SetWordLaw | recipes-apps/kbm-mapper-ff/files/mapper.c:16-28 | On the set of pressed actions, set_action adds or removes exactly its action, and ignores ids that name none |
| Mapper.Mapper.constructor | recipes-apps/kbm-mapper-ff/files/mapper.c:149-152 | A cleared mapper stands for empty histories of events, ticks and reports |
| Mapper.Mapper.HandleEvent | recipes-apps/kbm-mapper-ff/files/mapper.c:154-189 | Every event extends the history by itself and keeps bitmap, pending motion, ring and press times what that history says; auto-repeat, unbound codes and empty frames included |
| Mapper.Mapper.Commit | recipes-apps/kbm-mapper-ff/files/mapper.c:175-187 | Writing a slot keeps the ring equal to the last min(n, 256) committed samples, sample k in slot k mod 256 |
| MapperInput.PressedIsLastEvent | recipes-apps/kbm-mapper-ff/files/mapper.c:154-169 | After any history an action is pressed if and only if the last event bound to it was not a release |
| MapperInput.DecidesLaw | recipes-apps/kbm-mapper-ff/files/mapper.c:154-169 | An event decides an action exactly when it is a key event whose code is bound to it: button codes through the button table by their low byte, all others through the key table, and none beyond the table |
| MapperInput.PressedMeansHeld | recipes-apps/kbm-mapper-ff/files/mapper.c:154-169 | "Pressed means some bound input is held" is true of every history exactly when at most one input is bound to the action |
| MapperInput.TwoKeysOneReleased | recipes-apps/kbm-mapper-ff/files/mapper.c:154-169 | The history that shows it for two inputs: hold both, release one, and the action is released |
| MapperInput.MotionCommitted | recipes-apps/kbm-mapper-ff/files/mapper.c:171-187 | Committed samples plus the pending frame add up to all motion received, per axis, and no committed sample is empty |
| MapperInput.FrameCommits | recipes-apps/kbm-mapper-ff/files/mapper.c:170-187 | A frame end with motion pending commits exactly that motion as one sample with the frame's time and leaves none pending; an empty one, and every other event, commits nothing |
| MapperInput.SamplesOrdered | recipes-apps/kbm-mapper-ff/files/mapper.c:175-187 | Samples carry the times of frame ends, so they are ordered when those are |
| Samples.TailIsInside | recipes-apps/kbm-mapper-ff/files/mapper.c:200-206 | For ordered samples the early-exit backward scan finds the same samples as a full filter on the cutoff |
| Samples.WindowOfHistory | recipes-apps/kbm-mapper-ff/files/mapper.c:193-211 | The scan of the ring sees every sample of the whole history inside the window, or the 256 newest of them if there are more |
| Samples.ScanDone | recipes-apps/kbm-mapper-ff/files/mapper.c:200-206 | A scan stopped by an old sample or the end of the ring holds the exact sums and the oldest time of the window |
| Samples.CutoffLaw | recipes-apps/kbm-mapper-ff/files/mapper.c:193-204 | A sample is in the window exactly when it is at most window_ms old |
| Samples.SpanLaw | recipes-apps/kbm-mapper-ff/files/mapper.c:207-211 | The span is the age of the oldest sample in the window, or the whole window if that is under a millisecond or there is none |
| Samples.SpanBounds | recipes-apps/kbm-mapper-ff/files/mapper.c:207-211 | For a window of at least 1 ms and samples not later than now, the reported span lies between 1 ms and the window |
| Mapper.Mapper.WindowSum | recipes-apps/kbm-mapper-ff/files/mapper.c:193-211 | The ring loop returns the sums and the span of the window over the sample history, through the wrap-around index |
| Mapper.Mapper.BurstTick | recipes-apps/kbm-mapper-ff/files/mapper.c:33-39 | One tick extends the tick history and leaves in every slot the press time that history implies |
| MapperInput.SinceIsRunStart | recipes-apps/kbm-mapper-ff/files/mapper.c:33-39 | A press time is non-zero exactly while the action is pressed, and is the time of the first tick of the current maximal pressed run |
| MapperInput.SharedOrigin | recipes-apps/kbm-mapper-ff/files/mapper.c:90-91 | All ticks inside one pressed run share one phase origin, and the phase is never negative |
| Mapper.Mapper.IsActive | recipes-apps/kbm-mapper-ff/files/mapper.c:81-147 | An action is active exactly when it is pressed and its burst schedule is on at the phase given by the tick history |
| Burst.CyclesPartition | recipes-apps/kbm-mapper-ff/files/mapper.c:112-142 | For any draws, every instant of a press lies in exactly one cycle |
| Burst.ClockworkLaw | recipes-apps/kbm-mapper-ff/files/mapper.c:94-106 | A plain action is on in the first part of every period: p is the whole number of nanoseconds with p\*hz <= 10^9 < (p+1)\*hz, and the part is the whole part of its share of p, one half if no duty is set and at most all of it; so is any action after 4096 cycles |
| Burst.CyclesLaw | recipes-apps/kbm-mapper-ff/files/mapper.c:108-144 | Before that an action with jitter or a lottery is on exactly where its cycles say |
| Burst.SteadyLaw | recipes-apps/kbm-mapper-ff/files/mapper.c:83-97 | Without a rate, or with a period under a nanosecond, a held action is always on |
| Burst.WidthLaw | recipes-apps/kbm-mapper-ff/files/mapper.c:117-125 | A cycle is as wide as the whole part of the period times its draw kept in [1/4, 4], and at least 1 ns |
| Burst.OnPartLaw | recipes-apps/kbm-mapper-ff/files/mapper.c:127-142 | A cycle is dropped exactly when its lottery draw is under the probability; otherwise it is on for the whole part of its width times its share, drawn anew and kept in [0.05, 0.95] |
| Burst.WidthBounds | recipes-apps/kbm-mapper-ff/files/mapper.c:117-125 | A cycle is never shorter than max(1, base/4) nor longer than four periods |
| Burst.StartBounds | recipes-apps/kbm-mapper-ff/files/mapper.c:111-145 | Cycle k starts between k*max(1, base/4) and 4*k*base, which brackets the 4096-cycle fallback |
| Burst.OnTimeFits | recipes-apps/kbm-mapper-ff/files/mapper.c:133-142 | The on-part of a cycle is never negative and always shorter than the cycle |
| Burst.OnPartOfCycle | recipes-apps/kbm-mapper-ff/files/mapper.c:127-142 | The on-instants of a cycle are exactly its first on-part, and none when the cycle is dropped |
| Burst.OnCount | recipes-apps/kbm-mapper-ff/files/mapper.c:112-144 | The number of on-nanoseconds in the first k cycles is the sum of the cycles' on-parts |
| Burst.EvenSchedule | recipes-apps/kbm-mapper-ff/files/mapper.c:97-142 | Without jitter the walk over cycles is the modulo formula, masked by the skip decision of cycle since/base |
| Burst.SlowPathIsMaskedClockwork | recipes-apps/kbm-mapper-ff/files/mapper.c:97-147 | With only the skip lottery on, is_active is the clockwork formula masked by the lottery for the first 4096 periods, and the bare formula after them |
| Burst.IsOn | recipes-apps/kbm-mapper-ff/files/mapper.c:83-147 | The fast path, the loop over at most 4096 cycles and the fallback answer as the schedule does |
| Stick.DebtConserves | recipes-apps/kbm-mapper-ff/files/mapper.c:220-238 | Over any saturated run, the normalised velocities plus the debt before equal the full pushes plus the debt after, on both axes |
| Stick.StillTick | recipes-apps/kbm-mapper-ff/files/mapper.c:220-243 | Without motion the debt is scaled: it loses one full deflection of its size while saturated, and is multiplied by 1 - drain afterwards; for a drain of at most 1 it keeps its direction |
| Stick.SaturatedPhase | recipes-apps/kbm-mapper-ff/files/mapper.c:233-238 | While it stays saturated the size of the debt falls by exactly outer_sat a tick |
| Stick.DecayPhase | recipes-apps/kbm-mapper-ff/files/mapper.c:239-243 | For a drain between 0 and 2, after n unsaturated ticks the size is at most outer_sat/(1 + n*loss), where the loss is the drain, or 2 - drain above 1 |
| Stick.SizeVanishes | recipes-apps/kbm-mapper-ff/files/mapper.c:220-243 | For a drain between 0 and 2 an explicit finite number of ticks brings any debt under the threshold, and it stays there |
| Stick.DrainsToCenter | recipes-apps/kbm-mapper-ff/files/mapper.c:220-261 | Once the velocity is zero, from that tick on both stick bytes are exactly 128 and no debt is left |
| Stick.NeverDrains | recipes-apps/kbm-mapper-ff/files/mapper.c:239-243 | At the two ends of that range a debt of at most one deflection is kept for ever: as it is for 0, turned round each tick for 2 |
| Stick.DeflectionBounded | recipes-apps/kbm-mapper-ff/files/mapper.c:230-261 | Whatever the curve, the stick never leaves the square of half-width outer_sat and never points against the demanded direction |
| StickAnswer.Answer | recipes-apps/kbm-mapper-ff/files/mapper.c:219-261 | For any motion each byte is an integer nearest to the centre plus 127 times the direction times the deflection, within the byte; the deflection is antiDeadzone + (outerSat - antiDeadzone) times the curve's value at min(magnitude, outerSat), kept in [0, outerSat] |
| StickAnswer.AtLeastDeadzone | recipes-apps/kbm-mapper-ff/files/mapper.c:245-261 | Any motion pushes the stick at least antiDeadzone along its direction, up to the rounding of the two bytes |
| StickAnswer.FasterDeflectsMore | recipes-apps/kbm-mapper-ff/files/mapper.c:245-261 | With a rising curve more speed in the same direction never deflects less, on either axis |
| StickAnswer.DebtAnswer | recipes-apps/kbm-mapper-ff/files/mapper.c:230-243 | The debt after any tick is what lies beyond the saturation in the demanded direction, or else the old debt less its drained share |
| Mapper.Mapper.MouseToStick | recipes-apps/kbm-mapper-ff/files/mapper.c:215-261 | The in-place update leaves the debt and returns the bytes of one tick of the stick model |
| InputReport.LeftStickLaw | recipes-apps/kbm-mapper-ff/files/mapper.c:263-281 | The left stick is 127 along one held axis, 90 along both on a diagonal, and centred where opposite keys cancel |
| InputReport.DiagonalLeavesCircle | recipes-apps/kbm-mapper-ff/files/mapper.c:267-281 | The deflection is at most 127 long exactly when at most one axis is deflected |
| InputReport.CenterKept | recipes-apps/kbm-mapper-ff/files/mapper.c:329-363 | Sensitivity scaling adds no bias to a centred stick, and recoil moves it by exactly its share |
| InputReport.ScaleDampens | recipes-apps/kbm-mapper-ff/files/mapper.c:329-343 | A scale of at most one never adds deflection and never turns it round |
| InputReport.ScaleSymmetric | recipes-apps/kbm-mapper-ff/files/mapper.c:334-343 | Scaling treats both directions alike exactly when it does not overflow the signed byte |
| InputReport.ScaleChoice | recipes-apps/kbm-mapper-ff/files/mapper.c:329-343 | The aiming scale applies while the aiming action is held, the firing scale while the recoil action is, their product while both are, and none otherwise |
| InputReport.ScaleTruncates | recipes-apps/kbm-mapper-ff/files/mapper.c:334-343 | Short of overflow the deflection is multiplied by the scale and truncated towards the centre |
| InputReport.RecoilAdds | recipes-apps/kbm-mapper-ff/files/mapper.c:345-363 | While the recoil action is held its share of 127 is added to the player's own scaled deflection, within the byte, and nothing otherwise |
| InputReport.Assemble | recipes-apps/kbm-mapper-ff/files/mapper.c:299-402 | Every field ends up at its offset, and all bytes after the clock are zero |
| InputReport.ReportReadsBack | recipes-apps/kbm-mapper-ff/files/mapper.c:299-402 | A host that takes a report apart finds the left stick at 128 + 127 or 128 + 90 times the held directions, bytes 3 and 4 with the horizontal and the vertical answer of the right stick (exactly its bytes when no scale or recoil applies), every button and trigger down exactly when its action is active, a hat that points where the D-pad keys point unless opposite ones are held, the report number modulo 256, and the time in units of 333 us modulo 2^32 |
| Mapper.Mapper.RightStick | recipes-apps/kbm-mapper-ff/files/mapper.c:316-363 | Window, response chain, scaling and recoil leave the debt and give the bytes that the history of reports implies |
| Motion.RestIsStill | recipes-apps/kbm-mapper-ff/files/mapper.c:193-227 | Once every sample is older than the window, the stick sees no velocity |
| Motion.SeenLaw | recipes-apps/kbm-mapper-ff/files/mapper.c:193-211 | The velocity on each axis is the counts of the newest 256 samples at most window_ms old over the span of the window |
| Motion.RestCenters | recipes-apps/kbm-mapper-ff/files/mapper.c:215-261 | Over any run of reports whose samples have all left the window, the stick is at its exact centre and no debt is left after the ticks it takes to drain it |
| Mapper.RestedReport | recipes-apps/kbm-mapper-ff/files/mapper.c:316-363 | Bytes 3 and 4 of those reports are the exact centre, moved only by the recoil bias |
| Mapper.Mapper.BuildReport | recipes-apps/kbm-mapper-ff/files/mapper.c:299-402 | A report says, field by field, what the histories of events, ticks and reports imply; a short buffer changes nothing |
| Mailbox.StepKeepsInv | recipes-apps/kbm-mapper-ff/files/main.c:474-529 | Every atomic step of either thread, spurious wakeups included, keeps mutual exclusion, the slot, the order of reports and the wakeup rule |
| Mailbox.WrittenInOrder | recipes-apps/kbm-mapper-ff/files/main.c:484-518 | Under every schedule the reports written are whole submitted reports, in strictly increasing order, none twice |
| Mailbox.TakesNewest | recipes-apps/kbm-mapper-ff/files/main.c:487-499 | The report taken from the slot is the newest one submitted at that moment, which is the newest one handed over (Delivery.NothingDropped) |
| Mailbox.NoLockAtWrite | recipes-apps/kbm-mapper-ff/files/main.c:495-500 | The writer never holds the mutex at the blocking write, and the two threads never hold it together |
| Mailbox.SleepsOnlyWhenIdle | recipes-apps/kbm-mapper-ff/files/main.c:488-490 | No wakeup is lost: outside main's critical sections a sleeping writer has nothing pending and no stop request |
| Mailbox.QuietAfterStop | recipes-apps/kbm-mapper-ff/files/main.c:521-529 | After stop has returned, nothing happens any more |
| Mailbox.StopCompletes | recipes-apps/kbm-mapper-ff/files/main.c:521-529 | The join comes to an end: 70 steps of the writer are enough under any schedule |
| Mailbox.NewestIsWritten | recipes-apps/kbm-mapper-ff/files/main.c:484-518 | Once the main loop rests, the newest submitted report is the last one written, within 71 steps of the writer |
| Delivery.NothingDropped | recipes-apps/kbm-mapper-ff/files/main.c:484-529 | In every run the submitted reports are those handed over while the main loop was idle, in that order, but for the one being put into the slot: none is refused because another is pending |
| Delivery.SubmitLands | recipes-apps/kbm-mapper-ff/files/main.c:513-519 | A report submitted over a full or an empty slot is the newest one once submit has returned |
| Delivery.WaitEnds | recipes-apps/kbm-mapper-ff/files/main.c:484-529 | The wait for the mutex ends under any mix of the two threads: a bounded number of rounds, each a move of the writer and a later one of main, plus two for every spurious wakeup, brings main out of submit or to the join of stop |
| Delivery.SubmitReturns | recipes-apps/kbm-mapper-ff/files/main.c:513-519 | So submit returns, with its report in the mailbox, within 141 such rounds |
| Delivery.LastHandedOverIsWritten | recipes-apps/kbm-mapper-ff/files/main.c:484-519 | The last report handed over is the last one written, whatever was pending or being written before it |
| Delivery.StopReturns | recipes-apps/kbm-mapper-ff/files/main.c:521-529 | Stop returns: 77 rounds, 70 more moves of the writer and one of main see the thread ended and joined |
| Hotkey.Machine.HotkeyUpdate | recipes-apps/kbm-mapper-ff/files/main.c:296-319 | The two loops over the chord update flags, press time and the fired mark as the machine's step does, keeping state equal to history |
| Hotkey.Machine.HotkeyShouldFire | recipes-apps/kbm-passthrough/files/main.c:432-438 | A poll answers and marks as the machine's step does |
| Hotkey.Machine.HotkeyReset | recipes-apps/kbm-mapper-ff/files/main.c:331-333 | A reload clears the whole state and puts the new chord in force |
| Hotkey.FlagsAreHistory | recipes-apps/kbm-mapper-ff/files/main.c:296-308 | For a chord in force that repeats no code, each flag is "the last event of that key since the last reload was not a release" |
| Hotkey.TrackedIffComplete | recipes-apps/kbm-mapper-ff/files/main.c:309-318 | For such a chord the press time is set exactly while the whole chord is down, and the fired mark lives no longer |
| Hotkey.TrackedSince | recipes-apps/kbm-mapper-ff/files/main.c:309-318 | While set, it is the time of the event that completed the chord |
| Hotkey.FireMeansHeld | recipes-apps/kbm-mapper-ff/files/main.c:321-327 | In any run, with any reloads, nothing fires unless the whole chord in force has been down without a break for at least a second |
| Hotkey.FiresAreSeparated | recipes-apps/kbm-passthrough/files/main.c:408-438 | In any run, between two fires a key of the chord in force is released or the configuration is reloaded |
| Hotkey.FiresIff | recipes-apps/kbm-passthrough/files/main.c:408-438 | In any run a poll fires exactly when the chord in force repeats no code, was completed at least a second ago, is still complete, and has not fired since |
| Hotkey.RepeatedCodeNeverFires | recipes-apps/kbm-mapper-ff/files/main.c:300-333 | While a chord that names one code twice is in force, from the start or brought by a reload, no poll fires |
| Keyboard.PressLaw | recipes-apps/kbm-passthrough/files/main.c:211-217 | A press adds its usage to the reported set when a slot is free, adds nothing otherwise, and never makes duplicates |
| Keyboard.ReleaseLaw | recipes-apps/kbm-passthrough/files/main.c:219-224 | A release removes exactly its usage and keeps the slots distinct |
| KeyTable.UsageUndone | recipes-apps/kbm-passthrough/files/main.c:45-86 | The keycode table can be read backwards: no two keys share a usage |
| Keyboard.HeldIsKeyHeld | recipes-apps/kbm-passthrough/files/main.c:533-550 | A usage is held by the history exactly when its one key is |
| Keyboard.SlotsAreHeldKeys | recipes-apps/kbm-passthrough/files/main.c:206-224 | Every non-zero slot stands for one held key, no two for the same; with no mapped key held all six are zero |
| Keyboard.ShownIffEntered | recipes-apps/kbm-passthrough/files/main.c:211-217 | A key is in the report exactly when some press of it since its last release found a free slot; so a held key is missing exactly when all six were full at every such press |
| Keyboard.RolloverExact | recipes-apps/kbm-passthrough/files/main.c:206-224 | The report shows exactly the held keys throughout a history if and only if never more than six mapped keys are held at once |
| Keyboard.ModifiersAreHeld | recipes-apps/kbm-passthrough/files/main.c:89-101 | Each bit of the modifier byte is set exactly while its key is held |
| Mouse.MotionAccounted | recipes-apps/kbm-passthrough/files/main.c:267-286 | All motion received equals motion reported plus pending plus the excess cut by the clamps, per axis |
| Mouse.LosslessIff | recipes-apps/kbm-passthrough/files/main.c:267-286 | Nothing is lost if and only if every flushed segment fits in a signed byte on each axis |
| Mouse.ButtonsAreHeld | recipes-apps/kbm-passthrough/files/main.c:255-261 | Each button bit is set exactly while that button is held |
| Mouse.ButtonReported | recipes-apps/kbm-passthrough/files/main.c:551-557 | Every press or release of a button is reported at once with the held buttons and leaves no motion pending |
| Mouse.FrameEndReports | recipes-apps/kbm-passthrough/files/main.c:562-565 | After a frame end nothing is pending; pending motion goes out in exactly one report, unchanged where it fits a signed byte and as the nearer end elsewhere, with the buttons as they are; without any there is no report |
| Mouse.MotionWaits | recipes-apps/kbm-passthrough/files/main.c:558-561 | Motion is only added up: no report goes out for it by itself |
| Passthrough.Device.KbdPress | recipes-apps/kbm-passthrough/files/main.c:211-217 | The two array loops change the slots as the press law says, and report a change exactly when there is one |
| Passthrough.Device.KbdRelease | recipes-apps/kbm-passthrough/files/main.c:219-224 | The array loop clears the first slot of its usage and nothing else, and reports whether there was one |
| Passthrough.Device.MouseFlush | recipes-apps/kbm-passthrough/files/main.c:273-286 | A flush sends the clamped motion with the buttons and clears what was pending |
| Passthrough.Device.KeyboardKey | recipes-apps/kbm-passthrough/files/main.c:535-550 | A key event acts on the modifier byte and on the slots as their steps say; it marks the keyboard dirty exactly when its key is mapped, and leaves both alone otherwise |
| Passthrough.Device.MouseInput | recipes-apps/kbm-passthrough/files/main.c:551-564 | Buttons, motion and frame ends act on the mouse as its step says |
| Passthrough.Device.Drain | recipes-apps/kbm-passthrough/files/main.c:526-567 | A drain applies every event in turn and keeps both devices equal to their histories; it sends at most one keyboard report, and after it the last report sent is byte for byte the modifiers, a zero and the six slots |
| Passthrough.HostSeesHeldKeys | recipes-apps/kbm-passthrough/files/main.c:535-567 | A host that reads that report finds no key that is not held, and exactly the held ones as long as never more than six mapped keys have been held at once |
| Passthrough.HostSeesModifiers | recipes-apps/kbm-passthrough/files/main.c:536-543 | It finds each of the eight modifier bits, in HID order, up exactly while its key is held |
| StableSort.SortIsStable | recipes-apps/kbm-web/files/main.go:408-416 | For any weak order, the sort used is the only stable sort of its input |
| ConfigFile.FindBurst | recipes-apps/kbm-web/files/main.go:437-445 | Returns the first entry of the action, appended with zero fields when there is none |
| ConfigFile.LoadConfig | recipes-apps/kbm-web/files/main.go:325-423 | The line loop, the two sorts and the default chord compute the load function; a missing file gives the empty configuration |
| ConfigFile.ReadPair | recipes-apps/kbm-web/files/main.go:345-405 | The key switch stores each pair as the specification of a line does |
| ConfigFile.ReadChord | recipes-apps/kbm-web/files/main.go:397-405 | The chord loop collects the trimmed, upper-cased, non-empty names |
| ConfigFile.SaveConfig | recipes-apps/kbm-web/files/main.go:452-511 | The builder writes the text of the save function |
| RoundTrip.LoadSave | recipes-apps/kbm-web/files/main.go:325-511 | Loading a saved configuration gives its normal form: upper-cased codes, stable order, merged bursts, non-positive rates dropped, default scales and chord |
| Canonical.SurvivesIffCanonical | recipes-apps/kbm-web/files/main.go:325-511 | A configuration survives save and load unchanged if and only if it is canonical |
| Canonical.NormalIsFixpoint | recipes-apps/kbm-web/files/main.go:325-511 | The normal form is a fixpoint |
| Canonical.ResaveKeeps | recipes-apps/kbm-web/files/main.go:325-511 | Whatever was saved first, saving what was read and reading again changes nothing |
| Canonical.MergedEntry | recipes-apps/kbm-web/files/main.go:437-445 | Several entries for one action collapse to the last rate and the last positive value of each other field |
| Canonical.EmptyChordComesBack | recipes-apps/kbm-web/files/main.go:417-421 | The chord survives if and only if it is not empty and its names are plain; an empty one comes back as LEFTCTRL+ESC |
| ProfileText.StripProfileMeta | recipes-apps/kbm-web/files/profiles.go:108-118 | The filter loop computes the strip function |
| ProfileText.ParseProfileMeta | recipes-apps/kbm-web/files/profiles.go:90-103 | The search loop reads the first metadata line |
| ProfileText.StripIdempotent | recipes-apps/kbm-web/files/profiles.go:108-118 | Stripping leaves no metadata line and is idempotent |
| ProfileText.StripRender | recipes-apps/kbm-web/files/profiles.go:108-124 | Stripping a rendered profile is stripping its body |
| ProfileText.RenderTwice | recipes-apps/kbm-web/files/profiles.go:120-124 | Rendering over an older header leaves only the new one |
| ProfileText.ParseRender | recipes-apps/kbm-web/files/profiles.go:90-124 | The metadata read from a rendered profile is the metadata rendered |
| HeaderLaws.HeaderDecides | recipes-apps/kbm-web/files/profiles.go:90-103 | Among the first fifteen lines the first that is neither blank nor a comment, or is metadata, decides: its metadata, or none |
| HeaderLaws.LateHeaderUnseen | recipes-apps/kbm-web/files/profiles.go:90-103 | Without metadata in the first sixteen lines there is none |
| HeaderLaws.HeaderVanishes | recipes-apps/kbm-web/files/profiles.go:108-118 | A metadata line is removed wherever it stands, and nothing with it |
| HeaderLaws.EndVanishes | recipes-apps/kbm-web/files/profiles.go:117 | Newlines at the end do not count |
| HeaderLaws.CleanStays | recipes-apps/kbm-web/files/profiles.go:108-118 | A text without metadata lines that ends in one newline is left as it is; with the two laws above this determines stripping |
| ProfileText.StripInvisible | recipes-apps/kbm-web/files/main.go:334-338 | For every text, stripping the metadata does not change what the parser reads |
| ProfileText.RenderInvisible | recipes-apps/kbm-web/files/profiles.go:120-124 | A metadata header does not change what the parser reads |
| ProfileIds.SlugifyLaw | recipes-apps/kbm-web/files/profiles.go:54-67 | A slug has 1 to 48 characters of [a-z0-9-] and does not begin with a dash |
| ProfileIds.SlugSpellsName | recipes-apps/kbm-web/files/profiles.go:54-67 | The slug spells the name: its runs of letters and digits are those of the name in lower case, in order, or "profile" if there are none; then the first 48 characters are kept |
| ProfileIds.SlugifyAgain | recipes-apps/kbm-web/files/profiles.go:54-67 | Slugifying a slug keeps it if and only if the 48-character cut does not fall right after a dash of the uncut slug |
| ProfileIds.SlugifyAgainDiffers | recipes-apps/kbm-web/files/profiles.go:54-67 | A name for which it does fall there: 47 letters, a dash and one letter |
| ProfileIds.UniqueProfileId | recipes-apps/kbm-web/files/profiles.go:231-243 | The counting loop ends and returns the first free candidate, or the last one untested |
| ProfileIds.UniqueIdLaw | recipes-apps/kbm-web/files/profiles.go:231-243 | The id is the slug itself when unused, otherwise the slug, a dash and the least number from 2 on that is unused, or 1000 if none below is |
| ProfileIds.FreshIffSomeFree | recipes-apps/kbm-web/files/profiles.go:231-243 | The id is new exactly when one of the thousand distinct candidates is free |
| ProfileIds.FreshWithRoom | recipes-apps/kbm-web/files/profiles.go:231-243 | With fewer than a thousand profiles the id is always new |
| ProfileIds.FullStoreCollides | recipes-apps/kbm-web/files/profiles.go:231-243 | A store of a thousand profiles for which the id returned is taken |
| ProfileStore.Server.BootstrapProfiles | recipes-apps/kbm-web/files/profiles.go:165-192 | An empty store becomes one default profile made from the live file, marked active; any other store is left alone |
| ProfileStore.Server.ApplyActiveToLive | recipes-apps/kbm-web/files/profiles.go:213-227 | The live file becomes the stripped active profile, and nothing changes when there is none |
| ProfileStore.Server.SaveConfig | recipes-apps/kbm-web/files/main.go:511-527 | A save writes the live file and, under its own header, the active profile |
| ProfileStore.Server.HandleCreate | recipes-apps/kbm-web/files/profiles.go:261-304 | A create adds one profile, empty or a copy of a profile or of whatever file its source path leads to, after the bootstrap; bad requests add none |
| ProfileStore.Server.HandleUpdate | recipes-apps/kbm-web/files/profiles.go:306-331 | An update rewrites the header of an existing profile, as ProfileRuns.UpdateDescribes says, and answers whether there was one |
| ProfileStore.Server.HandleDelete | recipes-apps/kbm-web/files/profiles.go:333-343 | A delete removes that profile and refuses the active one |
| ProfileStore.Server.HandleActivate | recipes-apps/kbm-web/files/profiles.go:345-359 | Activation moves the marker and rewrites the live file, for existing profiles only |
| ProfileStore.Server.HandleImport | recipes-apps/kbm-web/files/profiles.go:377-399 | An import adds the first mebibyte of the text under a header completed from its own |
| ProfileRuns.BootstrapSetsUp | recipes-apps/kbm-web/files/profiles.go:165-192 | Bootstrapping a store without profiles establishes the store invariant |
| ProfileRuns.BootstrapTable | recipes-apps/kbm-web/files/profiles.go:165-192 | It leaves one profile, active, named "Default", with the live settings |
| ProfileRuns.StepKeepsInv | recipes-apps/kbm-web/files/profiles.go:261-399 | Every request keeps it: the active id names a profile, and live file and active profile are the same text up to metadata |
| ProfileRuns.AgreesIffLive | recipes-apps/kbm-web/files/profiles.go:213-227 | Under the invariant, the live file parses like the active profile if and only if there is a live file |
| ProfileRuns.NoLiveFileDisagrees | recipes-apps/kbm-web/files/main.go:325-333 | The installation for which it does not: no profiles and no live file |
| ProfileRuns.LiveMeansActive | recipes-apps/kbm-web/files/profiles.go:165-227 | After the bootstrap of an installation with a live file and any run of requests, one after the other, the live configuration is the active profile's |
| ProfileRuns.ActivateInsideSave | recipes-apps/kbm-web/files/main.go:511-527 | If a profile is activated between the two halves of a save, live file and active profile agree afterwards if and only if that profile already meant what was saved |
| ProfileRuns.StepRefines | recipes-apps/kbm-web/files/profiles.go:261-399 | Each request on the files is one operation on a table of a configuration and metadata per id: a save keeps name, description and creation time, an update sets name (unless blank), description and time of modification, create and import set all of it, and nothing else changes; metadata as far as its encoding carries what is written |
| ProfileRuns.RunRefines | recipes-apps/kbm-web/files/profiles.go:261-399 | Over whole runs the files implement that table, metadata included on the same premise, and what is live is its active entry |
| ProfileRuns.UpdateDescribes | recipes-apps/kbm-web/files/profiles.go:306-331 | On the files: an update gives that profile the new name (unless blank), description and time of modification, keeps its creation time and configuration, and touches no other file |
| ProfileRuns.SaveKeepsName | recipes-apps/kbm-web/files/main.go:511-527 | On the files: a save leaves the active profile its name, description and creation time, and the other profiles as they are |
| ProfileRuns.SavedSettingsComeBack | recipes-apps/kbm-web/files/main.go:511-527 | Saving, switching to another profile and back makes the saved configuration live again |
| ProfileRuns.ImportAdds | recipes-apps/kbm-web/files/profiles.go:377-399 | An import of any text adds one profile with the configuration and metadata of its first mebibyte and leaves the others alone |
| ProfileRuns.ExportImport | recipes-apps/kbm-web/files/profiles.go:361-399 | Importing an exported profile of at most a mebibyte adds one with the same configuration, name, description and creation time |
| ProfileRuns.ImportSize | recipes-apps/kbm-web/files/profiles.go:377-382 | Every text of n characters keeps its configuration on the way in if and only if n is at most a mebibyte |
| ProfileRuns.LongExportDiffers | recipes-apps/kbm-web/files/profiles.go:361-399 | A profile of any greater length whose import has another configuration |
| Names.LookupCi | recipes-apps/kbm-mapper-ff/files/config.c:53-57 | The loop returns the code of the first entry whose name matches without regard to case, or -1 |
| Names.TablesAgree | recipes-apps/kbm-passthrough/files/main.c:341-365 | The key tables of the two daemons give a name the same code exactly when it is not a meta key |
| MapperConfig.ConfigLoad | recipes-apps/kbm-mapper-ff/files/config.c:108-247 | The chunk loop overwrites the defaults in place as the fold over the lines does |
| MapperConfig.ChunksLaw | recipes-apps/kbm-mapper-ff/files/config.c:115-117 | The chunks read make up the whole file, and each is a line through its newline, or 511 characters of a longer one |
| MapperConfig.ClampLaw | recipes-apps/kbm-mapper-ff/files/config.c:184-239 | A clamped value is kept when in range, and is the end it lies beyond otherwise |
| MapperConfig.LoadedInRange | recipes-apps/kbm-mapper-ff/files/config.c:108-247 | Whatever the file says, recoil shares are in [-1, 1], scales in [0.01, 4], and jitters and skip probabilities in [0, 1] |
| MapperConfig.StorePair | recipes-apps/kbm-mapper-ff/files/config.c:126-243 | The key dispatch clamps and stores each pair as the specification of a line does |
| MapperConfig.ReadChord | recipes-apps/kbm-mapper-ff/files/config.c:148-167 | The cursor over plus and comma separators takes the first eight known codes |
| Readers.MapperReadsSaved | recipes-apps/kbm-mapper-ff/files/config.c:108-247 | On any saved file with lines that fit its buffer, the mapper ends up with the view computed from the configuration alone |
| Readers.DefaultsAgree | recipes-apps/kbm-web/files/main.go:132-139 | The two programs start from the same settings: what the web tool shows without a file, saved as it is, leaves the mapper with the record it has without a file |
| ReadersAgree.SavedTables | recipes-apps/kbm-mapper-ff/files/config.c:108-247 | After loading a saved file each key and mouse button has the last binding saved for it, or else the built-in default, and each burst field the clamp of the last value saved for it, or else 0 |
| ChordFile.HotkeyLoad | recipes-apps/kbm-passthrough/files/main.c:369-406 | The line loop of the passthrough daemon returns the first chord line's codes, or the default chord |
| ReadersAgree.PassReadsSaved | recipes-apps/kbm-passthrough/files/main.c:369-406 | On a saved file it finds the first eight codes known to its table among the names before a `#`, in order, or the default chord |
| ReadersAgree.CodesAgree | recipes-apps/kbm-passthrough/files/main.c:341-406 | Both tables give a chord the same codes if and only if no meta key is among them |
| ReadersAgree.ChordsAgree | recipes-apps/kbm-passthrough/files/main.c:369-406 | After a save the two daemons listen for the same chord exactly when it is the default, or the first eight codes the mapper's table knows among all its names are those the other finds before a `#` |
| ReadersAgree.PlainChordsAgree | recipes-apps/kbm-passthrough/files/main.c:369-406 | For names without `#` and with no blanks other than space and tab, they agree exactly when some key is known to the passthrough daemon and no meta key is among the first eight |
| ReadersAgree.MetaChordDiffers | recipes-apps/kbm-passthrough/files/main.c:369-406 | A chord they differ on for its meta key |
| ReadersAgree.HashChordDiffers | recipes-apps/kbm-passthrough/files/main.c:369-406 | A chord they differ on for its `#` |
| NameCodes.OneNamePerKey | recipes-apps/kbm-mapper-ff/files/config.c:9-57 | Two names that the mapper's table gives one code differ at most in case |
| Resaved.TopWins | recipes-apps/kbm-mapper-ff/files/config.c:168-202 | After the web tool has merged and sorted the bursts, the mapper's value for a field is the one last set under the greatest spelling of the action |
| Resaved.NormalViewIff | recipes-apps/kbm-web/files/main.go:325-511 | The mapper sees no difference between a configuration and its normal form if and only if last values and greatest spellings agree for every burst field and the chord is not all blank |
| Resaved.ResaveKeepsDaemon | recipes-apps/kbm-web/files/main.go:325-511 | On files: loading and saving unchanged leaves the mapper with the same record exactly under that condition |
| Resaved.SpellingChangesRate | recipes-apps/kbm-web/files/main.go:414-416 | A file that misses it: bursts for `r2` and then `R2` are played at 5 Hz before and at 10 Hz after |
| Resaved.BlankChordComesBack | recipes-apps/kbm-web/files/main.go:417-421 | A chord that misses it: one blank is no chord for the daemon before, and the default one after |
| Resaved.OneSpellingAgrees | recipes-apps/kbm-web/files/main.go:437-445 | The condition on bursts is met when no known action is spelt in two ways |

## Left out

- Text is ASCII: Unicode trimming and case of the Go functions, NUL bytes in C strings, and line buffers beyond cutting a long line into chunks. Trimming and tokenising work on values; the terminators that the C code writes into its line buffer are not modelled.
- Rounding of floating point, NaN and infinities, and overflow of 32- and 64-bit integers other than the casts written out (report bytes, the report counter, the 32-bit clock).
- Mapper.Mapper.BuildReport: for a window of zero width, where the original divides by zero in floating point, the debt and the right-stick bytes are whatever value the caller passes for it. One configuration is kept for the life of the object, so a reload while keys are down is not modelled.
- Mapper.RestedReport: for a window width other than zero, and a `sqrt` that is the exact root.
- Mapper.Mapper.MouseToStick: the square root and `pow` are functions given to the object.
- KeyTable.UsageUndone: the KEY_ codes come from linux/input-event-codes.h, which is not part of this model's sources.
- StickAnswer.AtLeastDeadzone: for an outer_sat of at most 1, so that no byte is cut at its end.
- HeaderLaws.HeaderDecides: a metadata line that is the sixteenth is decoded together with all the text behind it; what that gives is up to the decoder.
- InputReport.Assemble: the bytes are stored in one pass from a 15-byte head, not cleared first and then stored one by one.
- Burst.IsOn: the hash, the Box-Muller transform and `exp` behind the draws are arbitrary functions of the cycle, so nothing is said about their distribution.
- Actions.SetWordLaw: the second word of the bitmap is not modelled, since no action id reaches it.
- Mailbox.StepKeepsInv: thread creation and failing system calls are not modelled; a write always ends.
- Hotkey.Machine.HotkeyReset: the mapper daemon's reload; the passthrough daemon loads its chord once and has none.
- ReadersAgree.ChordsAgree: for lines that fit the readers' buffer.
- Readers.MapperReadsSaved: for lines that fit the 512-byte buffer; how a longer line is cut is in MapperConfig.ConfigLoad.
- ProfileRuns.RunKeepsInv: requests are taken one at a time, each handler as one step; of the interleavings that the server allows only an activation inside a save is modelled.
- ProfileRuns.BootstrapSetsUp: a store that has profiles but no marker is taken over as it is by the code, and is not covered.
- I/O errors and partial writes, HTTP status codes and the profile list's order.
- Event sources, USB setup requests and descriptors, inotify, systemd units, capture sockets, LEDs and scheduling.
- Mode names, environment defaults and the gadget descriptor are not modelled.
