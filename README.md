# Tortoise Rush: the race model

Tortoise Rush races a number of tortoises across the terminal. Each tortoise
runs in its own lane. It starts with a random speed, acceleration and colour.
Every frame, each tortoise in list order updates its speed, sometimes redraws
its acceleration, and moves. The first one to reach the finish line wins; a key
press interrupts the race.

This project models the logic of `main` in `new_untested_features/tortoise_rushv3.py`:

- the terminal-height check;
- the construction of the tortoise list;
- the per-frame update pass and its early exit;
- the end of the frame loop and the outcome;
- the name label.

Positions and speeds are Dafny `real`s. Random values are parameters whose ranges
are preconditions:

- `InitSample`: one tortoise's starting speed, acceleration and colour;
- `Draw`: one tortoise's roll and candidate acceleration in one frame;
- `FrameInput`: a frame's draws and whether a key was waiting.

Modules (one per concern of the program):

- `TortoiseNames` (`names.dfy`): the name pool, the decimal suffix `str(i+1)` and its inverse, names and labels.
- `TortoiseSetup` (`setup.dfy`): the tortoise record, the height check, the colour-pair count and the list construction.
- `TortoiseRace` (`race.dfy`): the per-tortoise update and the update pass. It also holds the frame outcome, the multi-frame run and the `Race` class. That class keeps the records in an array and updates them in place, as the source updates its dictionaries. Last come the whole program (`RaceMain`) and two scenarios.
- `Wrappers` (`wrappers.dfy`): `Option` and `Result`.

The source loop runs until it ends. The model instead plays a finite sequence of supplied frames. When the frames run out before the race ends, the outcome is `None`. `RunWithoutKeysHasWinner` says how many frames are enough with no key press: `(finish - x0) / 0.1`, where `x0` is the first tortoise's position. For a race just set up, `RaceWithoutKeysHasWinner` turns this into `max(1, 10 * (width - 5))` frames.

Notes on the source:

- The height check is `height < n + 3` (line 27). The lanes use rows up to `2n + 1` (lines 35, 67-68), so a terminal that passes the check can be too short for the track; `HeightCheckAdmitsOffScreenLanes` states this.
- Each lane is stored as its screen row `2 + 2i` (line 35).
- `num_tortoises` is any integer. A negative count builds no tortoise, as `range` does.
- `random.randint(1, num_colors)` raises `ValueError` when `num_colors = min(7, COLORS - 1)` (line 19) is below 1 and at least one tortoise is to be built. Line 126 catches this like the height error. It is modelled as the setup error `EmptyColorRange`.

## Model

| member | source | states |
|---|---|---|
| `TortoiseNames.Decimal` | new_untested_features/tortoise_rushv3.py:33 | the suffix `str(i+1)` is a non-empty numeral of digits with no leading zero, one digit exactly below 10 |
| `TortoiseNames.ParseDecimalOfDecimal` | new_untested_features/tortoise_rushv3.py:33 | reading the numeral back gives the number: the suffix is decodable |
| `TortoiseNames.DecimalInjective` | new_untested_features/tortoise_rushv3.py:33 | different numbers get different suffixes |
| `TortoiseNames.SplitAtFirstSpace` | new_untested_features/tortoise_rushv3.py:33 | a space-free pool name, a space and a suffix split back into pool name and suffix uniquely |
| `TortoiseNames.TortoiseName` | new_untested_features/tortoise_rushv3.py:33 | the i-th name is the pool name at `i % 10`, a space, and a numeral that reads as `i + 1` |
| `TortoiseNames.TortoiseNamesDistinct` | new_untested_features/tortoise_rushv3.py:33 | names of different tortoises differ, even when the pool of ten names repeats |
| `TortoiseNames.TortoiseNameEndsInDigit` | new_untested_features/tortoise_rushv3.py:33 | every name ends in a digit of its suffix |
| `TortoiseNames.Label` | new_untested_features/tortoise_rushv3.py:91 | `f"{name:<10}"` is as long as the name but at least 10 characters, begins with the name and is spaces after it |
| `TortoiseNames.TrimPadding` | new_untested_features/tortoise_rushv3.py:91 | removing trailing spaces from a name followed by spaces gives back the name, when the name does not end in a space (the trimming is a proof device for the padding, not an operation of the source) |
| `TortoiseNames.LabelTrimsToName` | new_untested_features/tortoise_rushv3.py:91 | the padding of a label can be undone: trimming the label gives back the name |
| `TortoiseNames.TortoiseLabelsDistinct` | new_untested_features/tortoise_rushv3.py:91 | labels of different tortoises differ |
| `TortoiseSetup.NumColorPairs` | new_untested_features/tortoise_rushv3.py:19 | the colour-pair count is the least of 7 and `COLORS - 1` |
| `TortoiseSetup.LaneRow` | new_untested_features/tortoise_rushv3.py:35 | a lane's row is even, at least 2, and gives back the lane index as `(row - 2) / 2` |
| `TortoiseSetup.Setup` | new_untested_features/tortoise_rushv3.py:27-41 | fails with `TerminalTooShort` exactly when `height < n + 3`, before any tortoise exists. Fails with `EmptyColorRange` exactly when the check passes, n >= 1 and there is no colour pair. Otherwise it builds max(n, 0) tortoises; the i-th has its name, x = 0, row 2 + 2i, speed in [0.5, 1.5], acceleration in [-0.05, 0.05] and colour in [1, num_colors] |
| `TortoiseSetup.SetupGivesLanesAndNamesDistinct` | new_untested_features/tortoise_rushv3.py:31-41 | the built lanes are rows 2 + 2i, strictly increasing, and the names are pairwise distinct |
| `TortoiseSetup.SetupGivesDistinctLabels` | new_untested_features/tortoise_rushv3.py:91 | the labels drawn for the built tortoises are pairwise distinct |
| `TortoiseSetup.HeightCheckAdmitsOffScreenLanes` | new_untested_features/tortoise_rushv3.py:27 | for n >= 2, setup on a terminal of n + 3 rows does not fail with `TerminalTooShort`, yet the last lane's finish marker row 2n + 1 is not above the last row |
| `TortoiseSetup.FourRowsTooShortForThree` | new_untested_features/tortoise_rushv3.py:27-28 | four rows and three tortoises: setup fails with `TerminalTooShort` |
| `TortoiseRace.FinishLine` | new_untested_features/tortoise_rushv3.py:57 | the finish line stands 5 columns short of the terminal width |
| `TortoiseRace.MaxReal` | new_untested_features/tortoise_rushv3.py:73 | `max` is an upper bound of both arguments and equal to one of them |
| `TortoiseRace.Advance` | new_untested_features/tortoise_rushv3.py:73-80 | the new speed is the larger of 0.1 and old speed plus old acceleration. The acceleration is redrawn exactly when the roll is below 0.1. The position grows by the new speed, so by at least 0.1. Name, lane and colour are kept |
| `TortoiseRace.PassFrom` | new_untested_features/tortoise_rushv3.py:71-85 | the pass keeps the list length; a winner is an index reached by the pass whose position is at or past the finish line |
| `TortoiseRace.PassFromOutcome` | new_untested_features/tortoise_rushv3.py:71-85 | from index i on: earlier entries untouched. If there is a winner, entries from i up to it are updated and short of the line, the winner is updated and the rest untouched. Otherwise all are updated and short of the line |
| `TortoiseRace.Pass` | new_untested_features/tortoise_rushv3.py:71-85 | the winner is the lowest index whose updated x reaches `finish_line`. Everyone before it is updated and short of the line; everyone after it is left as it was (the `break`). With no winner everyone is updated and short of the line |
| `TortoiseRace.PassOutcomeUnique` | new_untested_features/tortoise_rushv3.py:71-85 | that loop-free description admits one outcome only |
| `TortoiseRace.PassKeepsInvariant` | new_untested_features/tortoise_rushv3.py:71-85 | a pass keeps speed >= 0.1, acceleration in [-0.05, 0.05], x >= 0, distinct lanes and names, and moves nobody back |
| `TortoiseRace.Decide` | new_untested_features/tortoise_rushv3.py:83-102 | a winner ends the race even when a key is also pressed. With no winner, a key press means interrupted and no key press means the race goes on |
| `TortoiseRace.Frame` | new_untested_features/tortoise_rushv3.py:71-102 | a frame keeps every tortoise's name, lane and colour and moves none of them back |
| `TortoiseRace.FrameOutcomeCases` | new_untested_features/tortoise_rushv3.py:83-102 | a frame is won exactly when some tortoise's update reaches the line, key press or not, and the winner is the lowest such index. It is interrupted exactly when a key is pressed and nobody crosses. Otherwise the race goes on |
| `TortoiseRace.Run` | new_untested_features/tortoise_rushv3.py:61-102 | running frames keeps the list length and plays no more frames than supplied |
| `TortoiseRace.RunKeepsInvariant` | new_untested_features/tortoise_rushv3.py:61-85 | over any number of frames the invariant holds, and each tortoise keeps name, lane and colour and never moves back |
| `TortoiseRace.RunStopsAtFirstDecision` | new_untested_features/tortoise_rushv3.py:61-112 | the frames before the last one played, run on their own, leave the race undecided: no crossing and no key press. An undecided run played every frame with no key. An interrupted run ended on a key press. A won run's winner stands at or past the line, and every tortoise before it is short of the line |
| `TortoiseRace.RunWithoutKeysHasWinner` | new_untested_features/tortoise_rushv3.py:57-85 | with a tortoise and no key press, enough frames (x0 + 0.1 per frame reaches the line) always give a winner |
| `TortoiseRace.Race.constructor` | new_untested_features/tortoise_rushv3.py:57 | the race holds the given records and `finish_line = width - 5` |
| `TortoiseRace.Race.UpdatePass` | new_untested_features/tortoise_rushv3.py:71-85 | updates the records in place, field by field, as the pass does, keeps the invariant and returns the pass's winner |
| `TortoiseRace.Race.RunFrames` | new_untested_features/tortoise_rushv3.py:59-112 | the `while not winner` loop with its key-press `break`: the final records, outcome and frame count are those of `Run` |
| `TortoiseRace.RaceMain` | new_untested_features/tortoise_rushv3.py:24-112 | does not start exactly when setup fails, with setup's error. Otherwise it ends as `Run` says on the built tortoises with `finish_line = width - 5`; the source's aborts on off-screen drawing are not part of this (see Left out) |
| `TortoiseRace.SetupThenRunKeepsInvariant` | new_untested_features/tortoise_rushv3.py:31-85 | a started race satisfies the invariant after every frame |
| `TortoiseRace.RaceWithoutKeysHasWinner` | new_untested_features/tortoise_rushv3.py:57-85 | a started race with a tortoise and no key press has a winner within max(1, 10 * (width - 5)) frames |
| `TortoiseRace.SingleSteadyTortoiseWinsOnFifthFrame` | new_untested_features/tortoise_rushv3.py:71-85 | one tortoise at speed 2 with no acceleration and a line at 10 wins on frame 5 at exactly 10 |
| `TortoiseRace.KeyOnFirstFrameInterrupts` | new_untested_features/tortoise_rushv3.py:101-102 | a key on frame 1 with the line at 100 and every tortoise at 0 interrupts the race after one frame |

## Left out

- Terminal I/O: `curs_set`, `nodelay`, `clear`, `addstr`, `refresh` and the drawing of tracks, finish marker, labels and glyphs (lines 13-15, 44-54, 63-68, 87-98). `getch` becomes the `keyPressed` flag of each frame.
- Swallowing `curses.error` for a glyph drawn off screen (lines 92-95) belongs to the curses library.
- Aborts on off-screen drawing are not modelled. Every `addstr` except the glyph's is unguarded: lines 44, 47 and 50, 67-68, 91, and 110 and 112. Each raises `curses.error` at a coordinate outside the terminal, and line 126 catches only `ValueError`, so the program stops with a traceback. For n >= 2 and a height from n + 3 to 2n + 1, line 67 or 68 raises in the first frame, before anyone moves; a terminal narrower than 12 columns fails at line 44. In those cases the model plays the race instead.
- Colour-pair initialisation (lines 18, 20-21) is a curses call; only the count on line 19 is modelled.
- The intro sequence, the frame pacing and the final hold (lines 44-54, 105, 114) are real-time delays.
- The winner and interruption messages and their centring (lines 108-113) are presentation. The model returns `Won(index)` or `Interrupted`; the winner's name is `tortoises[index].name`.
- `random.uniform`, `random.randint` and `random.random` (lines 36-38, 76-77) become supplied values with their documented ranges; their distributions are not modelled. The source draws nothing for tortoises after the winner. The model still takes a draw for each of them and ignores it, so how far the random stream advances is not modelled.
- Floating-point rounding: positions and speeds are exact reals. The properties are floor and ordering facts.
- `int(x)` for the glyph column (line 88) only feeds drawing.
- Argument parsing, `curses.wrapper` and printing the `ValueError` (lines 117-127) are command-line glue. Both setup failures are returned as `SetupError` values.
- The loop itself is unbounded; the model plays a finite supplied sequence of frames and reports `None` when they run out.
