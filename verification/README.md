# Surface camera stack: a verified model

This project models the three parts of the Surface Linux camera stack that carry
real logic, and proves what they promise:

* **the `.aiqb` tools** — the container walker, the record chains, and the two
  patchers that rewrite a tuning file inside the buffer they are still reading
  and then repair two overlapping checksums;
* **the on-demand camera bridges** — the front (psys), rear and infra-red
  daemons that start a producer or a capture when a client opens the loopback
  device, relay frames, retry stuck starts, and must only ever stop a producer
  with SIGINT;
* **the sensor and power drivers** — crop, format, timing, controls and registers
  of the OV5693, the blanking and exposure range of the OV7251, and the ownership
  of GPIO descriptors, clocks, LEDs and regulators in the INT3472 driver.

`dafny verify dfyconfig.toml` checks everything.

## How it is built

| file | contents |
|---|---|
| `Bytes`, `Floats`, `Numbers`, `Wrappers` | little-endian buffers and edits, single-precision words as exact reals, minima and maxima, Option and Result |
| `Containers`, `Records` | the stack walker against a recursive reading; files laid out from a tree |
| `Checksums` | the self-excluding sums and their repair |
| `NoisePatch`, `NoisePatchFacts` | `patch_aiqb_nr.py`: the in-place tool equals plan-then-rewrite; what moved and what stayed |
| `BlackLevelPatch`, `BlackLevelFacts` | `patch_aiqb_blc.py`, the same way |
| `Reframing`, `SessionMonitor`, `SessionBridge`, `SessionFacts`, `RestartLimiter` | the psys and rear daemons: imperative code that emits effects, a monitor of allowed effects, and theorems about every accepted run |
| `AutoExposure`, `IrCapture` | the infra-red daemon: its exposure loop, wedge retries and capture, over the OV7251's controls |
| `Controls` | integer controls of the V4L2 framework |
| `Ov5693Format`, `Ov5693Registers`, `Ov5693` | negotiation arithmetic, the one-shot register file, and the device stepped by user space and runtime PM |
| `Int3472` | the discrete PMIC driver from probe to remove |

Loops and in-place updates of the sources are methods with loops over arrays and
fields; each is tied to a function of the input, and the theorems are about those
functions and about every sequence of steps.

*The environment.* Clocks, pipe contents, event queues, child exits, signals,
failing registrations and arriving frames are arbitrary values chosen at each
call, so a contract holds for every behaviour of the environment. Times are
reals. `horizon` and `rounds` say how many loop rounds of a daemon that may run
for ever are followed; every contract holds for any value of them, so the results
are about every finite prefix of a run. A signal may arrive between any two
effects on the producer, the driver or the loopback; whether one does at each of
these points is the list `signals` a bridge starts with, and whether somebody else's
producer runs the list `others`, which are arbitrary too. `Int3472.Device` remembers
in `denied` whether the kernel refused it anything.

*The monitor.* `SessionBridge` is the daemon; each thing it does to the outside is
an `Effect`, and `Emit` requires the monitor to allow it. `Daemon` therefore shows
that every run is accepted, and `SessionFacts` what acceptance means. Every effect has its
stage, and asking for something (the pipe, the clients, other producers, a look at
the producer) is an effect too, so the rules also say what has to come next: a daemon
that skips a step, or goes on when it should stop, has no accepted run.

*The watched token.* `Int3472.Device` counts, for one token `w` that no code
depends on, how often it was taken less how often it was given back, and how often it
was given back while nobody held it. Since `w` is arbitrary, a balance of zero means
that every descriptor, clock, lookup and regulator was given back exactly as often as
it was taken. `Release` requires its token to be held; `GpiodPut` does not, and counts.

## What turned out not to hold

* The order of the two checksum stores matters: storing the file's before the
  section's breaks the file's equation exactly when the section's word changes
  (`Checksums.BackwardsHoldsOnlyIfUnchanged`).
* A producer is left running without a SIGINT and twenty seconds to follow it if and
  only if a signal hits between `Popen` and the assignment to `CURRENT_PROC`, or two
  signals hit: a first one before any SIGINT to that producer is twenty seconds old,
  and another in the finally block before it masks them
  (`SessionFacts.ExitWithALiveProducer`). One signal in the finally block of a daemon
  that gave up by itself comes too late to count. Each case has its run
  (`SessionBridge.Bridge.HitBeforeTheRecord`, `SessionBridge.Bridge.HitBeforeTheMask`),
  composed of the daemon's own steps (start of an episode and a session, spawn, relay,
  teardown); the points of the idle loop before it, where no signal hits, are left out.
* A bright infra-red picture can turn dark in one correction, for some scene, if and
  only if both gains are at their minimum and the exposure is above its minimum and
  from two to seven lines, or from four to seven where the minimum is two lines
  (`AutoExposure.BrightNeverTurnsDark`); with the means 8-bit pixels can have, up to
  six (`AutoExposure.EightBitNeverTurnsDark`). A dark one can stall at one or two
  lines (`AutoExposure.DarkStallsExactly`).
* The exposure ceiling the infra-red bridge returns is never above the driver's
  exposure maximum, and equal to it unless the sensor is boosted above its stock
  timing. Then it is below it by what the range was short of the boosted one when the
  daemon started (an earlier daemon may have left the fallback blanking; once eight
  captures looked wedged, at most by what keeps the ceiling at two lines), and by the
  boost over the stock timing once the first nine looked wedged: from the second fallback attempt on
  the blanking does not change, so the driver's range stays at the boosted one that
  `set_format` restored (`IrCapture.IrBridge.StartCapture`,
  `IrCapture.CeilingsMatchExactly`).
* With `vts_boost` from 523 to 759 the OV7251's default exposure is above the mode's
  maximum, and `set_format` fails (`IrCapture.Ov7251.SetFormat`).
* Where a failing `regulator_register` lets go of the enable GPIO, the INT3472 driver
  gives that GPIO back a second time, while nobody holds it; nothing else is ever given
  back unheld (`Int3472.Lifetime`).
* The OV5693's exposure maximum is height + vblank - 8 exactly when that sum is
  at least nine; with two to four lines and the shortest blanking the range change
  fails and the old maximum stays (`Ov5693.CeilingIsExact`,
  `Ov5693.CeilingNeverFailsFromFiveLines`).
* `set_fmt` while the sensor is in use leaves HBLANK at its old value: `s_ctrl` has
  no case for it and refuses it (`Ov5693.Sensor.SetFmt`).
* The binned readout's output window only lies inside the pixel array when the crop
  leaves the ISP window offsets room (`Ov5693Registers.WindowFitsExactly`), and at
  full resolution the last column read is one past the crop
  (`Ov5693Registers.ReadoutOnTheArray`).
* A pin without a `_DSM` entry hides the entries of all later pins, because the
  index only advances with an entry (`Int3472.OneGapHidesTheRest`).

## Model

| member | source | states |
|---|---|---|
| Containers.WalkSections | tools/decode_aiqb.py:91-115 | The explicit-stack walker yields the sections of the recursive reading `Walk`, in order, and says when the generator never ends |
| Containers.DropEnded | tools/patch_aiqb_nr.py:54-55 | Popping leaves exactly the innermost run of containers that still reach past p |
| Containers.WalkForest | tools/patch_aiqb_nr.py:46-64 | From any offset and inside any stack of open containers, walking the bytes of a row of containers and sections yields its sections, then goes on behind it with the same stack |
| Containers.WalkRecoversTheTree | tools/decode_aiqb.py:91-115 | For every nested tree laid out from 0x18 and followed by a stopping tail, the walk ends and its sections are the tree's AIQB leaves, with both tag sets |
| Containers.ShowsAt | tools/decode_aiqb.py:94-96 | Read off: the i-th section has the i-th leaf's container names joined, outermost first, and exactly its payload bytes, behind the previous one |
| Containers.JoinReadsBack | tools/decode_aiqb.py:110 | Cut from the left at every slash, a joined path gives its names back in order |
| Containers.BoxNameSpells | tools/decode_aiqb.py:107-109 | A container is named by its tag, an LMOD by its tag and its version in decimal, which reads back |
| Containers.PathsLeadThere | tools/decode_aiqb.py:91-115 | Following the components of a section's path into the tree, from the outermost container on, leads to a section with its payload |
| Containers.LoopsOnSizeZero | tools/decode_aiqb.py:104-112 | The walk fails to end exactly at a section of size zero, and only its last section is one |
| Records.WalkChain | tools/decode_aiqb.py:118-125 | The record loop yields the recursive chain, and raises exactly when the header it stops at should be read but is not all inside the buffer |
| Records.ChainReadsBack | tools/decode_aiqb.py:43-50 | Encoding entries into a section and walking it gives back each header field and body, in order and complete |
| Records.ChainKept | tools/decode_aiqb.py:118-125 | A chain whose bytes did not move is the same chain |
| Checksums.ComputeSelfSum | tools/patch_aiqb_nr.py:119-124 | Adding modulo 2^32 word by word gives the whole sum modulo 2^32, and fails exactly when a summed word is not inside the buffer |
| Checksums.SumIsTotal | tools/patch_aiqb_nr.py:119-124 | The sum exists exactly when every word but the one left out is inside the buffer, and is the total of these words |
| Checksums.RepairedTotals | tools/patch_aiqb_blc.py:70-72 | In the output the word at 0x14 of the section, and of the file, is the total of all its other words modulo 2^32 |
| Checksums.RepairedExactly | tools/patch_aiqb_nr.py:126-128 | A file can be repaired exactly when it is a multiple of four bytes long, holds the section's checksum, and the section can be summed |
| Checksums.Repair | tools/patch_aiqb_nr.py:126-128 | The two in-place stores leave the repaired file, or raise when it does not exist |
| Checksums.RepairedHolds | tools/patch_aiqb_blc.py:16-19 | After storing the section's sum and then the file's, both self-excluding equations hold at once and no other byte moved |
| Checksums.RepairIsUnique | tools/patch_aiqb_blc.py:70-72 | The two words stored are the only pair that makes both equations hold |
| Checksums.BackwardsHoldsOnlyIfUnchanged | tools/patch_aiqb_blc.py:18-19 | In the other order the file's equation survives if and only if the section's stored word was already right |
| Floats.Round | tools/patch_aiqb_nr.py:110 | Nearest integer, ties to the even one |
| Floats.OneIs | tools/patch_aiqb_nr.py:93 | 0x3f800000 is 1.0 |
| Floats.ExponentDoubles | tools/patch_aiqb_nr.py:93 | One up in the exponent field doubles the number |
| Floats.MantissaSteps | tools/patch_aiqb_nr.py:93 | Between two powers of two the numbers are 2^23 equal steps apart |
| Floats.SubnormalSteps | tools/patch_aiqb_nr.py:93 | Below the smallest power they are multiples of the smallest number, and meet it |
| Floats.SignAndSpecials | tools/patch_aiqb_nr.py:93 | The top bit negates; infinities and NaNs are where they belong |
| Bytes.LowByteFirst | tools/patch_aiqb_nr.py:80 | Words are little-endian: byte k holds the k-th digit to base 256 |
| NoisePatch.StoreInts | tools/patch_aiqb_nr.py:111 | The values are stored as consecutive little-endian words and nothing else moves |
| NoisePatch.PatchSub | tools/patch_aiqb_nr.py:90-112 | One sub-record in place: exactly the planned parameter is rewritten, and every read that would raise is reported |
| NoisePatch.PatchSubs | tools/patch_aiqb_nr.py:84-113 | The sub-record loop, reading headers from the buffer it writes to, rewrites the plan of the untouched bytes |
| NoisePatch.PatchRecords | tools/patch_aiqb_nr.py:78-114 | Likewise the record loop |
| NoisePatch.PatchSection | tools/patch_aiqb_nr.py:73-114 | Likewise one section, and nothing behind the section's end moves |
| NoisePatch.Patch | tools/patch_aiqb_nr.py:67-131 | The whole tool, patching while the walker runs over the same buffer, ends as plan-on-the-original, rewrite, repair does: same outcome, same bytes |
| NoisePatch.RecordsPlanOnwards | tools/patch_aiqb_nr.py:78-114 | What a record chain asks for depends only on the bytes from its start on |
| NoisePatch.RecordsOrdered | tools/patch_aiqb_nr.py:79-114 | The value cells of a section never overlap and lie in file order inside it |
| NoisePatchFacts.WalkInOrder | tools/patch_aiqb_nr.py:46-64 | Sections come in file order without overlapping |
| NoisePatchFacts.LastTargetAt | tools/patch_aiqb_nr.py:74-76 | The checksum repaired is that of the last LISP/DFLT section |
| NoisePatchFacts.WrittenValues | tools/patch_aiqb_nr.py:107-112 | Where the gain in the file is 4 or more, the output holds the integer nearest to the old value times the factor, the even one of two; elsewhere the old value |
| NoisePatchFacts.WrittenBytes | tools/patch_aiqb_nr.py:71-131 | A byte of the output differs from the input only in a checksum word or in a cell for a gain of 4 or more of an eligible threshold, inside its sub-record of a stream record of a LISP/DFLT section; both checksums hold |
| NoisePatchFacts.ThresholdsArePlanned | tools/patch_aiqb_nr.py:73-112 | No eligible threshold in a stream record of a target section is missed |
| NoisePatchFacts.PlannedInPlace | tools/patch_aiqb_nr.py:73-112 | Every planned parameter is that of an eligible threshold in a stream record of a LISP/DFLT section, with its scaled values, and its cells lie inside that sub-record |
| NoisePatchFacts.PlanIsThresholds | tools/patch_aiqb_nr.py:73-113 | The parameter at p is rewritten if and only if an eligible threshold of a stream record of a LISP/DFLT section lies at p |
| NoisePatchFacts.ThresholdExactly | tools/patch_aiqb_nr.py:90-109 | A threshold in plain terms: id 28866, four gains or more from 1 to above 10, values that never fall from 2 or more to 64 or more, one of them further than 1 from its gain |
| NoisePatchFacts.TargetIsLispDefault | tools/patch_aiqb_nr.py:74 | A path is LISP/DFLT exactly when its components are LISP and DFLT |
| NoisePatchFacts.SubsReadBack | tools/patch_aiqb_nr.py:85-113 | Sub-records laid out one behind the other are read back with their places and sizes |
| NoisePatchFacts.WrittenExactly | tools/patch_aiqb_nr.py:67-131 | On a file whose LISP/DFLT sections end inside it, exactly when the tool writes an output: magic, whole words, a walk that ends, readable sub-records whose scaled values fit 32 bits, a threshold, a section that can be summed |
| NoisePatchFacts.WalkStays | tools/patch_aiqb_nr.py:46-64 | A file that differs only behind section headers is walked to the same sections |
| NoisePatchFacts.RecordsStay | tools/patch_aiqb_nr.py:78-114 | With only planned cells changed, a section shows the same records and the same sub-records |
| NoisePatchFacts.StructureStays | tools/patch_aiqb_nr.py:71-114 | The output has the sections, records and sub-records of the input |
| NoisePatchFacts.SoleTargetIsWhole | tools/patch_aiqb_nr.py:72-76 | With one target section the condition of StructureStays always holds |
| BlackLevelPatch.Quarter32IsExact | tools/patch_aiqb_blc.py:55-57 | Dividing a guarded single-precision word by four is exact: two off the exponent |
| BlackLevelPatch.PatchHalves | tools/patch_aiqb_blc.py:38-46 | The u16 loop, in place, ends as the plan of the untouched record does: the same fault, or exactly its cells rewritten and counted |
| BlackLevelPatch.PatchFloats | tools/patch_aiqb_blc.py:47-59 | Likewise the float loop with its exposure, gain and value guards |
| BlackLevelPatch.PatchRecord | tools/patch_aiqb_blc.py:38-59 | One record by name id |
| BlackLevelPatch.PatchRecords | tools/patch_aiqb_blc.py:31-60 | On any file, the record loop over the buffer it rewrites gives the bytes, the counts or the fault of `RunChain`, which reads each record from what the ones before it left |
| BlackLevelPatch.Patch | tools/patch_aiqb_blc.py:27-72 | The whole tool, on any file: same outcome, same bytes as the recursive reading |
| BlackLevelPatch.OutputHolds | tools/patch_aiqb_blc.py:63-72 | Any output file satisfies both checksum equations |
| BlackLevelPatch.FittingFilesArePlanned | tools/patch_aiqb_blc.py:31-72 | On a file whose tables fit their records, running is planning on the untouched input, rewriting and repairing |
| BlackLevelPatch.ChainOrdered | tools/patch_aiqb_blc.py:31-60 | When the tables fit their records, no two rewritten cells overlap |
| BlackLevelFacts.RanParts | tools/patch_aiqb_blc.py:31-72 | On a file whose tables fit, a finished run changed only the planned cells and the two checksum words, counted 100 and 400 cells, and both checksums hold |
| BlackLevelFacts.HalvesAreQuartered | tools/patch_aiqb_blc.py:38-46 | There, every u16 cell was inside the guard and is now within half a unit of its quarter, ties to even |
| BlackLevelFacts.FloatsAreQuartered | tools/patch_aiqb_blc.py:47-59 | There, every float cell is exactly a quarter of what it was |
| BlackLevelFacts.RecordAccepted | tools/patch_aiqb_blc.py:38-60 | A record is accepted exactly when its cells and LUT headers lie in the file and in the guarded ranges, at these offsets |
| BlackLevelFacts.WrittenExactly | tools/patch_aiqb_blc.py:27-74 | Exactly when the tool writes an output: magic, whole words, every guard passed, 25 LUTs of either kind, a section that can be summed |
| BlackLevelFacts.ChainAgain | tools/patch_aiqb_blc.py:31-36 | The output shows the record chain of the input with tables that fit, and planning it again stops at the range guard unless it has no u16 cell |
| BlackLevelFacts.RerunIsRefused | tools/patch_aiqb_blc.py:44 | The tool run on its output of such a file always fails on the range guard |
| Reframing.NothingLost | bridges/surface-psys-bridge:254-257 | Frames and leftover are the bytes, every frame whole |
| Reframing.DrainThenRead | bridges/surface-psys-bridge:254-257 | Draining before the next read changes nothing |
| Reframing.ChunkingDoesNotMatter | bridges/surface-psys-bridge:242-266 | The frames and the leftover depend on the byte stream, not on how the pipe split it |
| SessionBridge.PollClientCount | bridges/surface-psys-bridge:108-122 | Returns exactly the last client-usage count among the events dequeued, or none |
| SessionBridge.LatestUsageIs | bridges/surface-psys-bridge:108-122 | The last client-usage event, whatever else is queued |
| SessionBridge.Bridge.SendSigint | bridges/surface-psys-bridge:146 | SIGINT to a live producer, noting the first one |
| SessionBridge.Bridge.Nudge | bridges/surface-psys-bridge:148-157 | One round of the stop loop: another SIGINT exactly when it is due at the clock read, the next one due four seconds on |
| SessionBridge.Bridge.StopGst | bridges/surface-psys-bridge:139-158 | Says the producer is gone only if it is; gives up only after the full budget since its first SIGINT; a signal may break it off after every step unless masked; terminates |
| SessionBridge.Bridge.FirstSigint | bridges/surface-psys-bridge:146-147 | The first SIGINT to a live producer, the next due four seconds on |
| SessionBridge.Bridge.AwaitEnd | bridges/surface-psys-bridge:148-158 | Its loop: a look before every nap, until the producer is gone, a signal hits or the deadline is over |
| SessionBridge.Bridge.Drain | bridges/surface-rear-bridge:282-294 | Forwards every whole frame of the buffer and keeps the rest |
| SessionBridge.Bridge.ReadPipe | bridges/surface-rear-bridge:271-294 | One read keeps the buffer the unforwarded rest of the stream, shorter than a frame |
| SessionBridge.Bridge.Watchdog | bridges/surface-psys-bridge:226-240 | A start is given up exactly when the first frame is too late at the clock read; otherwise a splash frame is tried exactly when one is due |
| SessionBridge.Bridge.WatchClients | bridges/surface-psys-bridge:268-274 | Keeps gone_since the time of the latest report exactly when that was zero; unless a signal hits, the session ends exactly when the clock read is more than the grace period later |
| SessionBridge.Bridge.EndRound | bridges/surface-psys-bridge:273-274 | The grace period at the end of a round, both ways |
| SessionBridge.Bridge.Relay | bridges/surface-psys-bridge:225-274 | One attempt: rounds that read what is there and ask for the clients; a stuck start has delivered nothing, an ended producer is dead, and the client still there as last reported |
| SessionBridge.Bridge.Spawn | bridges/surface-psys-bridge:209-211 | Popen and the record of it, with the window between them |
| SessionBridge.Bridge.Stop | bridges/surface-psys-bridge:276-295 | After stop_gst the producer is dead, or its budget is spent and the daemon exits, unless a signal hits before, during or after it |
| SessionBridge.Bridge.BetweenAttempts | bridges/surface-psys-bridge:296-297 | The driver is reloaded between attempts, with no producer alive |
| SessionBridge.Bridge.RunSession | bridges/surface-psys-bridge:195-301 | Each way a session ends leaves the producer stopped, except a spent budget or a signal, at the stage that decides on another; another session is at least a second off, giving up takes four |
| SessionBridge.Bridge.Restart | bridges/surface-rear-bridge:371-381 | One more session of a client proceeds, by the list main keeps and prunes, exactly when the fifth restart before it is a minute ago; otherwise the daemon gives up on it |
| SessionBridge.Bridge.Episode | bridges/surface-rear-bridge:367-382 | Sessions of one client, every one but the first by such a restart, which is recorded in the run |
| SessionBridge.Bridge.Serve | bridges/surface-psys-bridge:331-339 | The serve loop hands over with no producer alive |
| SessionBridge.Bridge.Wake | bridges/surface-psys-bridge:333-339 | A client is served exactly when one is reported |
| SessionBridge.Bridge.Mask | bridges/surface-psys-bridge:346-347 | Signals are ignored from here on, unless one arrives before that |
| SessionBridge.Bridge.StopRecorded | bridges/surface-psys-bridge:348-354 | With signals masked, the recorded producer is stopped or has its whole budget |
| SessionBridge.Bridge.Teardown | bridges/surface-psys-bridge:340-354 | The except clause and the finally block, with a signal possible in each before they are masked |
| SessionBridge.Bridge.HitBeforeTheRecord | bridges/surface-psys-bridge:209-211 | An episode, a session and a spawn with one signal just after Popen, then the teardown: the exact run, which leaves the producer without a SIGINT |
| SessionBridge.Bridge.HitBeforeTheMask | bridges/surface-psys-bridge:342-347 | The same with a signal while waiting for the first frame and one just before the mask: the exact run, which leaves it so too |
| SessionBridge.Bridge.Daemon | bridges/surface-psys-bridge:308-354 | Every run of the daemon, from start to exit, is accepted by the monitor |
| SessionFacts.AtMostOneProducer | bridges/surface-psys-bridge:207-211 | In every accepted run at most one producer is alive at any time |
| SessionFacts.SignalsAndReloads | bridges/surface-psys-bridge:130-158 | SIGINT is the only signal sent, only to a live producer; the driver is reloaded only with none alive; only recorded producers are reaped |
| SessionFacts.UnknownWasHitInTheWindow | bridges/surface-psys-bridge:209-211 | A live producer the teardown does not know was spawned just before the signal |
| SessionFacts.NeverRecorded | bridges/surface-psys-bridge:209-211 | A producer hit before it was recorded is never recorded, signalled or seen dead afterwards |
| SessionFacts.ExitWithALiveProducer | bridges/surface-psys-bridge:340-353 | The daemon is gone with a producer alive that had no SIGINT followed by twenty undisturbed seconds, to the first signal, the finally block or the exit, if and only if a signal hit before it was recorded, or the first signal came before any SIGINT to it was that old and another cut the finally block off |
| SessionFacts.BlackThenReal | bridges/surface-rear-bridge:260-301 | In a session, over all its attempts, no black frame, spawn or reload follows a real frame |
| SessionFacts.AtMostThreeAttempts | bridges/surface-psys-bridge:207 | At most three producers are spawned in a session |
| SessionFacts.ForwardingKeepsTheStream | bridges/surface-psys-bridge:254-266 | In every run, frames forwarded plus the leftover are the bytes read from the current producer, every write one frame long |
| SessionFacts.ForwardedIsTheCut | bridges/surface-psys-bridge:254-266 | In every accepted run, at every read from the pipe and every note of the clients, the frames forwarded are the cut of the byte stream |
| SessionFacts.CutIsUnique | bridges/surface-psys-bridge:255-257 | There is only one way to cut a stream into whole frames and a short rest |
| SessionFacts.ClientsGoneMeansGone | bridges/surface-psys-bridge:268-274 | A session ends for want of clients only when the latest report of this attempt was zero, more than the grace period ago |
| SessionFacts.ClientsGoneExactly | bridges/surface-psys-bridge:268-274 | Whenever a round ends, the session ends for want of clients exactly if the latest report is of none and more than the grace period old |
| SessionFacts.LookedBetweenReads | bridges/surface-psys-bridge:225-274 | And rounds end: between two reads of the pipe there is such a look, or a new producer |
| SessionFacts.RoundsAreWhole | bridges/surface-psys-bridge:242-274 | In every round the pipe is asked for, and then the clients |
| SessionFacts.ReadableIsRead | bridges/surface-psys-bridge:244-257 | What is readable is read, or the producer found dead, unless a signal hits |
| SessionFacts.StuckExactly | bridges/surface-psys-bridge:226-231 | A start is given up at the head of a round exactly if no frame was sent and the timeout is over |
| SessionFacts.AfterTheStart | bridges/surface-psys-bridge:293-301 | After a start without a frame comes the next attempt, behind a reload where there is one, and after three the end |
| SessionFacts.AfterTheReload | bridges/surface-psys-bridge:296-297 | A reload is followed by a spawn |
| SessionFacts.AfterTheSession | bridges/surface-rear-bridge:303-319 | Another session, or giving up for too many, follows exactly if somebody else's producer kept a client waiting or the producer died with a client still there |
| SessionFacts.SplashWhenDue | bridges/surface-psys-bridge:233-240 | While the first frame is waited for, a round in which a black frame is due tries one first |
| SessionFacts.SplashDue | bridges/surface-psys-bridge:233-240 | One is due at once and then a thirtieth of a second after the last |
| SessionFacts.SigintsRepeat | bridges/surface-psys-bridge:147-156 | A look at a live producer that is being stopped comes with another SIGINT exactly when the last is four seconds old by the daemon's reckoning |
| SessionFacts.NapsFollowLooks | bridges/surface-psys-bridge:148-157 | Looks and naps take turns |
| SessionFacts.SplashIsTimely | bridges/surface-psys-bridge:228-240 | Black frames stop within the first-frame timeout of the attempt |
| SessionFacts.RestartsAreSpaced | bridges/surface-rear-bridge:368-381 | In every run of the rear bridge the k-th and the (k+5)-th restart of a client episode are 60 s apart, every session but the first takes a restart, and it gives up exactly when the next would be too early |
| RestartLimiter.Note | bridges/surface-rear-bridge:372-375 | One restart: the pruned list with the new time, and whether it may proceed |
| RestartLimiter.ListIsPrunedHistory | bridges/surface-rear-bridge:373-374 | Pruning as it goes never forgets an entry that still counts |
| RestartLimiter.CountInWindow | bridges/surface-rear-bridge:373-375 | k restarts are in the window exactly when the k-th from the end is |
| RestartLimiter.AllowedExactlyWhenSpaced | bridges/surface-rear-bridge:368-381 | The list main keeps lets all restarts proceed if and only if the k-th and the (k+5)-th are always at least 60 s apart |
| RestartLimiter.OneMoreRestart | bridges/surface-rear-bridge:372-375 | The list lets one more proceed exactly when the fifth before it is a minute ago |
| AutoExposure.Controller.constructor | bridges/surface-ir-bridge:399-402 | The starting knobs are in range |
| AutoExposure.Controller.Frame | bridges/surface-ir-bridge:433-459 | One frame of the loop applies one correction when due, keeps the ranges, and writes the controls exactly when they changed |
| AutoExposure.FactorBounds | bridges/surface-ir-bridge:440 | A dark mean asks for more than 4/3 and never past the target, a bright one for less than 10/13 and never below it |
| AutoExposure.FactorExactly | bridges/surface-ir-bridge:440 | The factor takes the mean to 110, up to doubling it and down to two fifths |
| AutoExposure.KnobsInOrder | bridges/surface-ir-bridge:439-459 | Which knob is turned, the others left alone, and how far: the product cut to an integer, or the limit before it |
| AutoExposure.NextIsValid | bridges/surface-ir-bridge:442-457 | Knobs stay in range; digital gain is above one only with exposure and gain at their ceilings |
| AutoExposure.DarkNeverTurnsBright | bridges/surface-ir-bridge:433-459 | With the mean linear in the knobs, correcting a dark picture never overshoots the target |
| AutoExposure.ThreeLinesKeepItBright | bridges/surface-ir-bridge:446-451 | A correction that leaves three lines, or the exposure alone, does not make a bright picture too dark |
| AutoExposure.BrightNeverTurnsDark | bridges/surface-ir-bridge:433-459 | No scene makes correcting a bright picture turn it too dark if and only if a gain is left to take, the exposure is at its minimum or eight lines or more, or its minimum makes it safe |
| AutoExposure.EightBitNeverTurnsDark | bridges/surface-ir-bridge:418-459 | The same for means up to 255, where seven lines suffice |
| AutoExposure.ThreeLinesAreNeeded | bridges/surface-ir-bridge:450-451 | A concrete scene where four lines become two and the picture too dark |
| AutoExposure.DarkStepAdvances | bridges/surface-ir-bridge:446-457 | From three lines up every dark correction makes progress until all knobs are at their maximum |
| AutoExposure.BrightStepAdvances | bridges/surface-ir-bridge:446-457 | Every bright correction makes progress until all knobs are at their minimum |
| AutoExposure.DarkConverges | bridges/surface-ir-bridge:433-459 | Persistently dark frames reach the all-maximum fixed point within a stated number of corrections |
| AutoExposure.BrightConverges | bridges/surface-ir-bridge:433-459 | Persistently bright frames reach the all-minimum one |
| AutoExposure.DarkStallsExactly | bridges/surface-ir-bridge:452-453 | Below the ceiling a dark correction changes nothing exactly when the scaled exposure misses the next line, which takes one or two lines |
| IrCapture.Ov7251.constructor | dkms/ov7251-surface/ov7251.c:1917-1927 | For every vts_boost: the mode table entry, the blanking, and the exposure range, which is the mode's if its default exposure fits |
| IrCapture.Ov7251.SetFormat | dkms/ov7251-surface/ov7251.c:1463-1490 | Exposure goes back to the mode's range and default and the blanking keeps its value, unless the default does not fit the range: exactly for a boost from 523 to 759, and then nothing changes |
| IrCapture.Ov7251.SetVblank | dkms/ov7251-surface/ov7251.c:1255-1268 | The exposure maximum follows the blanking, but only when the blanking changes |
| IrCapture.WedgedExactly | bridges/surface-ir-bridge:220-230 | A frame is wedged exactly when fewer than half of its rows have a pixel below the level |
| IrCapture.WedgeProbe | bridges/surface-ir-bridge:233-256 | Returns every frame it dequeued, at most three, and the verdict on exactly those |
| IrCapture.VerdictExactly | bridges/surface-ir-bridge:246-256 | The verdict in plain terms: two of the frames wedged, or both gaps under two fifths of the frame period |
| IrCapture.IrBridge.LinesTakeEqualTime | bridges/surface-ir-bridge:294 | The frame period expected at a blanking is that at the default one, line for line |
| IrCapture.Capture.Frame | bridges/surface-ir-bridge:361-376 | A frame and its stamp, or neither |
| IrCapture.CeilingsMatchExactly | bridges/surface-ir-bridge:278-283 | Eight attempts, and three at the stock blanking exactly for a boost above it; every ceiling is the driver's for its blanking if and only if the start-up reading was |
| IrCapture.IrBridge.Configure | bridges/surface-ir-bridge:286-288 | Blanking and exposure of one attempt as the driver ends up with them |
| IrCapture.IrBridge.Attempt | bridges/surface-ir-bridge:285-306 | One attempt opens one capture and closes it exactly if it is given up |
| IrCapture.IrBridge.StartCapture | bridges/surface-ir-bridge:267-306 | For every vts_boost, and over a driver as any earlier daemon left it: one open capture is left, all earlier ones closed and wedged, after at most eleven or eight opens; how far the ceiling is below the driver's maximum, never above it, by the range read at start-up and by whether the first eight and nine captures looked wedged |
| IrCapture.IrBridge.Pump | bridges/surface-ir-bridge:406-468 | The frames dequeued are those forwarded, in order, then the one in flight exactly when a write failed, then probed frames still pending, of which there are none once a fresh frame came or was waited for in vain; behind every frame forwarded one look at the exposure, whose settings are those of the loop, and one at the clients, which ends it exactly when they have been gone too long |
| IrCapture.IrBridge.RunSession | bridges/surface-ir-bridge:393-470 | A whole session: forwarding as above, every capture closed in the end, the driver's exposure the one the loop settled on, ended for want of clients only after the grace period |
| IrCapture.IrBridge.Fetch | bridges/surface-ir-bridge:408-413 | Probed frames first, then fresh ones, none skipped or repeated |
| IrCapture.IrBridge.Adjust | bridges/surface-ir-bridge:433-459 | Over any frame the exposure the loop believes in stays the one the driver has, and the knobs are those of one correction if one is due |
| IrCapture.IrBridge.WatchClients | bridges/surface-ir-bridge:461-468 | The session ends exactly if the latest report was zero and longer ago than the grace period |
| Controls.ModifyRange | dkms/ov5693-surface/ov5693.c:580-586 | A range is refused exactly when the default is outside it; otherwise the value goes to the nearest one inside |
| Ov5693Format.SelectedCropIsSane | dkms/ov5693-surface/ov5693.c:1128-1142 | Every selection gives an even-aligned crop inside the pixel array |
| Ov5693Format.EmptyExactlyAtTheEdge | dkms/ov5693-surface/ov5693.c:1128-1142 | The crop is empty exactly when the request starts at the last column or line or beyond |
| Ov5693Format.SelectsWhatItCan | dkms/ov5693-surface/ov5693.c:1123-1142 | An even non-empty rectangle on the array is selected as it is |
| Ov5693Format.FaultsExactlyOnEmptyCrop | dkms/ov5693-surface/ov5693.c:1022-1034 | The ratio divides by zero exactly on an empty crop |
| Ov5693Format.CropOrHalf | dkms/ov5693-surface/ov5693.c:1022-1040 | Each axis is halved exactly when the aligned request is at most two thirds of the crop |
| Ov5693Format.NegotiationIsIdempotent | dkms/ov5693-surface/ov5693.c:1022-1043 | Each axis is the crop or its half, and asking for the result gives it again |
| Ov5693Format.VtsIsConstant | dkms/ov5693-surface/ov5693.c:938-961 | The VTS is 2078 for every height up to 2079 lines, and taller ones divide by zero |
| Ov5693Registers.PutAgrees | dkms/ov5693-surface/ov5693.c:594-616 | Writing a control makes its registers agree and leaves the binning bits alone |
| Ov5693Registers.PutKeepsOthers | dkms/ov5693-surface/ov5693.c:594-616 | Writing one control does not disturb the registers of another |
| Ov5693Registers.AgreementIsOneShot | dkms/ov5693-surface/ov5693.c:392-566 | Registers agree with every control if and only if they are the one-shot function of mode and values |
| Ov5693Registers.OneChangeIsOneShot | dkms/ov5693-surface/ov5693.c:569-622 | One incremental change takes the one-shot registers of the old values to those of the new |
| Ov5693Registers.OrderDoesNotMatter | dkms/ov5693-surface/ov5693.c:1173 | Writing all controls, in any order and from any contents, gives the one-shot registers |
| Ov5693Registers.ReadsBack | dkms/ov5693-surface/ov5693.c:481-546 | In range, exposure, gains and VTS lose nothing in their register fields |
| Ov5693Registers.FormatBitsTell | dkms/ov5693-surface/ov5693.c:392-479 | Bit by bit: sensor flip always, ISP flip at full resolution only, mirror bits set when not mirrored, bit 0 for binning |
| Ov5693Registers.WindowKeepsThePhase | dkms/ov5693-surface/ov5693.c:416-452 | The window follows the column a full-resolution mirror moves the colours by, has no offset un-mirrored, and is at 8 in a binned readout |
| Ov5693Registers.PatternBitsTell | dkms/ov5693-surface/ov5693.c:370-376 | What the test pattern register turns on |
| Ov5693Registers.WindowFitsExactly | dkms/ov5693-surface/ov5693.c:682-749 | When the output window lies within what is read out, for both flip states |
| Ov5693Registers.ReadoutOnTheArray | dkms/ov5693-surface/ov5693.c:709-743 | When the readout lies on the pixel array |
| Ov5693.StepKeepsRanges | dkms/ov5693-surface/ov5693.c:569-587 | A committed control change keeps all ranges and the exposure ceiling |
| Ov5693.CommitAgrees | dkms/ov5693-surface/ov5693.c:569-622 | A committed control change, with the exposure it drags along, keeps registers and values in agreement |
| Ov5693.MoveAgrees | dkms/ov5693-surface/ov5693.c:1057-1073 | So does a range change, even one whose value s_ctrl refuses |
| Ov5693.TimingIsIdempotent | dkms/ov5693-surface/ov5693.c:1055-1073 | A second set_fmt of the same size moves no control |
| Ov5693.CeilingIsExact | dkms/ov5693-surface/ov5693.c:576-587 | Under the ceiling invariant, which Sensor.Run keeps: exposure maximum == height + vblank - 8 if and only if height + vblank >= 9; the value is below it; VTS fits 16 bits |
| Ov5693.CeilingNeverFailsFromFiveLines | dkms/ov5693-surface/ov5693.c:576-587 | From five lines up the ceiling is always that; below, the shortest blanking breaks it |
| Ov5693.OneShotReadsBack | dkms/ov5693-surface/ov5693.c:481-557 | Under the invariants the VTS and exposure registers read back the controls |
| Ov5693.Sensor.constructor | dkms/ov5693-surface/ov5693.c:1511-1513 | The device after probe satisfies every invariant |
| Ov5693.Sensor.FlipVertConfigure | dkms/ov5693-surface/ov5693.c:392-414 | Only the flip bits of FORMAT1 change, to those of the readout mode |
| Ov5693.Sensor.FlipHorzConfigure | dkms/ov5693-surface/ov5693.c:443-479 | The inverted mirror bits and the window offset that goes with them |
| Ov5693.Sensor.SCtrl | dkms/ov5693-surface/ov5693.c:569-622 | Exposure range first, registers only in use, HBLANK refused |
| Ov5693.Sensor.ModifyRange | dkms/ov5693-surface/ov5693.c:1057-1061 | A range change, the value it moves, the s_ctrl that takes, and agreement kept |
| Ov5693.Sensor.SetCtrl | dkms/ov5693-surface/ov5693.c:569-622 | Setting a control keeps ranges, ceiling and register agreement |
| Ov5693.Sensor.ModeConfigure | dkms/ov5693-surface/ov5693.c:682-781 | From the reset values, the binning bits and the whole geometry of the mode |
| Ov5693.Sensor.Resume | dkms/ov5693-surface/ov5693.c:893-918 | A resumed sensor holds the active mode |
| Ov5693.Sensor.HandlerSetup | dkms/ov5693-surface/ov5693.c:1172-1177 | After setting up the handler every control's registers agree |
| Ov5693.Sensor.StreamOn | dkms/ov5693-surface/ov5693.c:1163-1197 | After stream-on, in the mode of the last resume, the registers are the one-shot file; after an active set_fmt an axis smaller than the crop is read with increment 0x31, any other with 0x11 |
| Ov5693.Sensor.SetFmt | dkms/ov5693-surface/ov5693.c:1004-1077 | From any state: size, binning and increments as the two sizes have them, VTS 2078, blanking 2078 - height, exposure range, HBLANK, or nothing at all on an empty crop |
| Ov5693.Sensor.ApplyTiming | dkms/ov5693-surface/ov5693.c:1055-1073 | The range and value changes of set_fmt, in their order, end in the default timing of the new size |
| Ov5693.Sensor.SetSelection | dkms/ov5693-surface/ov5693.c:1112-1161 | The crop selected; the output size follows only a resized crop, binning and controls stay |
| Ov5693.Sensor.Run | dkms/ov5693-surface/ov5693.c:569-1197 | After any sequence of set_fmt, set_selection, control changes, stream-on, stream-off and suspends: register agreement for a kept mode, the exact exposure ceiling, VTS and exposure readable, and the increments of the two sizes once an active set_fmt was not followed by an active crop |
| Int3472.OnlyPower1CanBeTooLong | dkms/int3472-surface/discrete.c:218-301 | Of all regulator pins only POWER1's configurable name can be too long for a supply |
| Int3472.GetConIdAndPolarity | dkms/int3472-surface/discrete.c:218-301 | The loop over the map gives the use of the row that matches type and sensor, or what the type means for any |
| Int3472.UsesTold | dkms/int3472-surface/discrete.c:147-301 | Which names and polarities come out: vdda for the power-enable of an INT347E, avdd for any other, enable or reset, and which types change |
| Int3472.OnePartEach | dkms/int3472-surface/discrete.c:371-432 | Every type is for the sensor, a regulator, a clock, an LED, or ignored |
| Int3472.MeaningTold | dkms/int3472-surface/discrete.c:361-372 | The polarity turns round exactly for an on-value of zero; only the power-enable rail is supplied to a second sensor |
| Int3472.OneGapHidesTheRest | dkms/int3472-surface/discrete.c:340-357 | The i-th use is that of the i-th pin with the i-th _DSM entry, up to the first missing entry and none behind it |
| Int3472.UsesGrow | dkms/int3472-surface/discrete.c:340-357 | The walk can be read one resource at a time |
| Int3472.Upper | dkms/int3472-surface/clk_and_regulator.c:208 | Letters raised, everything else kept |
| Int3472.Device.GpiodPut | dkms/int3472-surface/discrete.c:431-432 | A held descriptor is let go of; putting one nobody holds changes nothing but is counted; none is no operation |
| Int3472.Device.RegisterClock | dkms/int3472-surface/clk_and_regulator.c:119-154 | Holds a clock and its lookup, or nothing |
| Int3472.Device.RegisterGpioClock | dkms/int3472-surface/clk_and_regulator.c:167-176 | Takes the descriptor over exactly when it succeeds |
| Int3472.Device.RegisterDsmClock | dkms/int3472-surface/clk_and_regulator.c:156-165 | Never takes a stale enable GPIO over |
| Int3472.Device.UnregisterClock | dkms/int3472-surface/clk_and_regulator.c:178-186 | Gives back the clock, its lookup and its GPIO |
| Int3472.Device.RegisterPled | dkms/int3472-surface/led.c:78-109 | Takes the descriptor over exactly when it succeeds; a failing registration leaves a null or an error class device, not a live one |
| Int3472.Device.UnregisterPled | dkms/int3472-surface/led.c:111-119 | Gives back a live LED only |
| Int3472.Device.RegisterLed | dkms/int3472-surface/led.c:20-55 | The same for the array of Linux 7.1, never past its end |
| Int3472.Device.UnregisterLeds | dkms/int3472-surface/led.c:57-66 | Gives back every LED in use |
| Int3472.Device.FillSupplyMap | dkms/int3472-surface/clk_and_regulator.c:213-227 | Lower then upper case, each for the sensor and then the second sensor |
| Int3472.Device.RegisterRegulator | dkms/int3472-surface/clk_and_regulator.c:188-250 | Limit, name length, the new regulator appended, the descriptor taken over exactly on success; when regulator_register itself fails the descriptor is the caller's or already let go of |
| Int3472.Device.UnregisterRegulators | dkms/int3472-surface/clk_and_regulator.c:252-256 | Gives back every regulator with its GPIO |
| Int3472.Device.MapGpioToSensor | dkms/int3472-surface/discrete.c:80-99 | Appends the entry or leaves the table, which keeps its null terminator |
| Int3472.Device.RegisterPin | dkms/int3472-surface/discrete.c:401-432 | A clock, LED or regulator pin: owned by its registration, or left over with the caller, unless the regulator core let go of it |
| Int3472.Device.HandleGpioResource | dkms/int3472-surface/discrete.c:327-452 | One resource: it succeeds exactly when the kernel grants everything and there is room; what it adds to the table, the regulators and the counts, no descriptor left over on any path, and an unheld one put only after a failed registration that let go of it |
| Int3472.Device.ParseCrs | dkms/int3472-surface/discrete.c:454-479 | It succeeds exactly when the kernel grants everything and there is room for every pin, and leaves table, regulators, LEDs, clock and count as the firmware's list says, in order; failure leaves a consistent device |
| Int3472.Device.WalkCrs | dkms/int3472-surface/discrete.c:461-464 | The walk over all resources, stopping at the first failure |
| Int3472.Device.Cleanup | dkms/int3472-surface/discrete.c:481-493 | From any consistent device nothing is held afterwards |
| Int3472.Probe | dkms/int3472-surface/discrete.c:500-562 | It succeeds exactly when the kernel grants everything and there is room for every pin; a failed probe has given back everything it took |
| Int3472.Lifetime | dkms/int3472-surface/discrete.c:495-562 | Over a whole life every token is given back exactly as often as it was taken, no descriptor stays requested, and an unheld one is put exactly when a failing regulator_register let go of it: that one, once |

## Left out

- Floating point: factors, brightness means and exposure products are exact reals; only the words of the files are decoded as IEEE singles. The thresholds compared with are those of the sources.
- I/O errors the sources turn into exceptions or early returns: failing ioctls of the infra-red capture, failing I2C writes and failing power-up of the OV5693; an exception inside `wedge_probe`, which leaves its capture open, is among them.
- Parsing of `media-ctl` and `v4l2-ctl` output, sysfs scans, the argv scan for foreign producers, ioctl layouts, logging: their results are arbitrary values.
- The V4L2 control framework and the clock, LED, regulator and GPIO cores are not part of the repository: `Controls` states what range changes and settings do, and `regulator_unregister` is taken to give the enable GPIO back. Several controls set by one ioctl are set one after the other.
- BlackLevelFacts.RanParts: it and the results beside it are for files whose tables end inside their records; outside that the tool may rewrite the headers it goes on to read, and BlackLevelPatch.Patch says what it then does.
- NoisePatchFacts.StructureStays: takes that the last target section has its whole header, as any section with a record chain has; NoisePatchFacts.SoleTargetIsWhole shows it for files with one target.
- NoisePatchFacts.WrittenExactly: for files whose LISP/DFLT sections end inside the file; NoisePatch.Patch has the outcome for any file.
- NoisePatch.Patch: with several LISP/DFLT sections the tool repairs only the last one's checksum, and so does the model.
- SessionBridge.Bridge.Daemon: follows `horizon` rounds of loops that may run for ever; that a session of an attached client ever ends is not claimed. The grace period is per attempt, as `gone_since` is.
- IrCapture.IrBridge.StartCapture: for `win_timing` 0; a capture that cannot be opened is an I/O error. Blanking and exposure are changed by nobody but the bridge.
- Ov5693.Sensor.Run: register agreement is for a mode unchanged since the last resume; a mode changed without a suspend leaves the old mode registers, as in the driver. Stream start and stop registers, MIPI control and the analogue tables are represented by the choice of table only.
- AutoExposure.DarkNeverTurnsBright: it and AutoExposure.BrightNeverTurnsDark assume the mean is proportional to exposure, gain and digital gain; clipping at 255 is not modelled.
- Enable times of INT3472 regulators, clock rates, GPIO path lookup beyond found or not found, and the pin-number mismatch warning.
- Register tables, PLL constants, tuning files, units and installers, the other decoders of `decode_aiqb.py`, and the copies of the walker in the exploration tools: data or repetition.
