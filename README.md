# stepperHandler in Dafny

stepperHandler is a Raspberry Pi program with a Tk window. It drives three
stepper motors (top, middle, bottom) through PUL/DIR pins of a stepper
controller, and it has an emergency-stop pin. This project models its core
and proves properties of the model:

- **The pulse loop** (`GPIOHandler.runMotors`), in module `PulseEngine`. While
  the handler runs, every tick drives each channel's PUL and DIR pins. Every
  `threshold` ticks, where the threshold is round(delay / 10 µs), it flips the
  channel's step level. A paused tick zeroes the counters. The loop reads
  flags that other threads write, so its input is a trace of what each tick
  observes. The counters and levels are arrays updated in place. The GPIO
  writes are a ghost log.
- **The handler's lifecycle** (`cleanPins`, `pauseThreads`, `resumeThreads`,
  `stopThreads`, `emergency`), in module `Lifecycle`. This is a class whose
  `run`, `all_operating` and `clean` fields the methods update. The GPIO
  library calls go into a ghost log. Its invariant: `clean` holds exactly when
  the pins are not held, and `GPIO.cleanup` never runs twice for one claim.
- **Speed changes** (`MainWindow.setIncrement`), in module `Speed`. One motor
  changes by a fixed step, or all three by a percentage, floored at zero. Each
  new RPM gives the motor a new half period `30 / (spr · rpm)`, or stops it
  (`rpm_0`). Zero pulses per revolution raises a division error, which ends
  the call part-way.
- **Key handling** (`keypress`, `keyrelease`), in module `Keys`. A counter of
  held keys makes only the first of several keys act. A letter selects a motor
  and a direction.
- **Settings validators** (`validateNal`, `validateAlu`), in module
  `Validation`.
- **The settings file** (`writeFile` and the parse in `readFile`), in modules
  `SettingsFile` and `SettingsRoundTrip`. `writeFile` refreshes each stored
  value from its widget and renders "[section]" headers and
  "key = value // comment" lines. `readFile` cuts the text at the brackets and
  at line breaks. For each known key it stores the comment and then the
  validated value. The first exception ends the parse, and the updates already
  made are kept.

The main theorem is `SettingsRoundTrip.ReadWhatWasWritten`. Take settings
whose names, keys and values contain no format characters and whose values
pass their validators. At exit the program writes them (lines 535-536), and
the next run's `readFile` reads the file into its initial table (line 410),
which has the same sections and keys but other values. Reading what
`writeFile` rendered into any such table raises nothing. Every setting ends
up as it was written, whatever the table held before, except that each
comment comes back as the text after the "//", including the space
`writeFile` puts there.
`SettingsRoundTrip.WriteReadWrite` adds that writing again gives the same file
when every comment is stable. `SettingsRoundTrip.BarCommentLost` shows a
comment that is not stable.

Where the documented design and the code disagree, the model follows the
code:

- Within a tick, the PUL output is written before the DIR output.
- The step levels (`gpio_high`) survive a pause; only the counters are reset.
- `resumeThreads` called while the pins are already claimed claims them
  again: it sets the mode, sets up every pin and adds the edge detection a
  second time, where the design calls a second resume a no-op.
- A failed `readFile` does not roll anything back. `old_settings` is the same
  dictionary object as `settings`, so restoring it restores nothing.

## Model

| member | source | states |
|---|---|---|
| PulseEngine.RunMotors | stepperHandler/stepperHandler.py:1153-1184 | the loop runs exactly as many ticks as the trace's leading run flags allow, starting from zero counters and low levels; the counters, levels and GPIO writes it leaves are those of the tick-by-tick run over those ticks |
| PulseEngine.TickInPlace | stepperHandler/stepperHandler.py:1169-1184 | one iteration, performed on the two lists in place, has the effect of one tick: counters and levels as the tick specifies, and the same writes |
| PulseEngine.PulseChannels | stepperHandler/stepperHandler.py:1170-1178 | the channel loop takes every channel's counter step on that channel's own inputs, and writes PUL then DIR for each channel in channel order |
| PulseEngine.PulseChannel | stepperHandler/stepperHandler.py:1171-1178 | one channel's pass changes only that channel's counter and level, and writes its PUL level (from the level before the step) and its DIR level |
| PulseEngine.Iterations | stepperHandler/stepperHandler.py:1168 | the iteration count is the length of the longest prefix of observations whose run flag is set |
| PulseEngine.PausedTick | stepperHandler/stepperHandler.py:1169-1184 | a tick with the pins released or the handler paused writes nothing, zeroes all counters and keeps the levels |
| PulseEngine.RunningTickOutputs | stepperHandler/stepperHandler.py:1171-1173 | in a running tick, channel i's PUL write goes to its PUL pin and is high exactly when its level is high, it is operating and its RPM is not zero; its DIR write is low exactly when the motor turns clockwise |
| PulseEngine.RunningTickCounter | stepperHandler/stepperHandler.py:1175-1178 | in a running tick, a channel's counter goes up by one, or goes back to 0 when it reaches the threshold; the level flips exactly then |
| PulseEngine.ChannelFollowsRepeat | stepperHandler/stepperHandler.py:1168-1178 | over identical running ticks, each channel evolves on its own inputs alone, as its counter step repeated |
| PulseEngine.CounterBelowThreshold | stepperHandler/stepperHandler.py:1175-1178 | after one tick the counter is below any threshold T >= 1, even one lowered under it, and a counter that starts below the threshold stays below it |
| PulseEngine.Cadence | stepperHandler/stepperHandler.py:1175-1178 | from a zero counter, after q·T + r ticks at threshold T (r < T), the level has flipped q times and the counter is r |
| PulseEngine.ResumeStartsFreshHalfPeriod | stepperHandler/stepperHandler.py:1169-1184 | after a paused tick, q·T + r running ticks leave counter r and the pre-pause level flipped q times, so each half period restarts in full |
| PulseEngine.OneSecondScenario | stepperHandler/stepperHandler.py:1164-1178 | 100000 ticks of 10 µs with half periods of 0.01 s, 0.02 s and 0.005 s flip the level 100, 50 and 200 times |
| Lifecycle.SetupCalls | stepperHandler/stepperHandler.py:1218-1220 | the pin setups are two per channel and never a cleanup |
| Lifecycle.GPIOHandler.constructor | stepperHandler/stepperHandler.py:1131-1135 | a new handler runs, is paused, holds no pins and has made no GPIO call |
| Lifecycle.GPIOHandler.CleanPins | stepperHandler/stepperHandler.py:1238-1243 | calls GPIO.cleanup only when pins are held; afterwards nothing is held; keeps the invariant |
| Lifecycle.GPIOHandler.PauseThreads | stepperHandler/stepperHandler.py:1198-1206 | clears all_operating, then releases held pins; a second pause calls nothing |
| Lifecycle.GPIOHandler.ResumeThreads | stepperHandler/stepperHandler.py:1209-1226 | sets BCM mode, sets up PUL and DIR of every channel as outputs and the emergency pin as a pulled-up input with edge detection, in that order; then sets all_operating and marks the pins held |
| Lifecycle.GPIOHandler.StopThreads | stepperHandler/stepperHandler.py:1230-1236 | clears run for good, then releases held pins |
| Lifecycle.GPIOHandler.Emergency | stepperHandler/stepperHandler.py:1188-1194 | with pins held it pauses (releasing them) and asks for the start button's stop; with none held it changes nothing |
| Lifecycle.StartPausePauseStop | stepperHandler/stepperHandler.py:1198-1243 | resume, pause, pause, stop: the pins are claimed once and released once, and the handler ends stopped, paused and clean |
| Speed.SetIncrement | stepperHandler/stepperHandler.py:569-615 | the RPM, delay and rpm_0 arrays end as SetIncrementSpec gives them (the "all" guard, then each motor in order up to the first division error), and the failure flag is that error |
| Speed.AdjustMotor | stepperHandler/stepperHandler.py:583-615 | one pass of the motor loop, in place, is that motor's step |
| Speed.StepEffect | stepperHandler/stepperHandler.py:583-615 | a motor's step changes that motor only: new RPM; rpm_0 set and delay kept for a non-positive RPM; delay replaced for a positive half period; error exactly on division by zero |
| Speed.SetIncrementOneMotor | stepperHandler/stepperHandler.py:569-615 | for one motor: the new RPM, the other motors untouched, an error exactly when the RPM is positive and spr is 0, rpm_0 exactly when the motor cannot run, a delay that satisfies delay · spr · rpm = 30 when it runs, and the old delay when it is stopped or the call fails |
| Speed.SetIncrementAll | stepperHandler/stepperHandler.py:575-615 | for "all", the motors are adjusted in order up to the first zero-spr motor; the ones before run at their new RPM (a stopped one keeping its old delay), that one has its new RPM and rpm_0 cleared but the old delay, the ones after are untouched |
| Speed.AllNeedsAllOperating | stepperHandler/stepperHandler.py:579-582 | "all" changes nothing unless every motor is operating |
| Speed.Targets | stepperHandler/stepperHandler.py:576-577 | the adjusted motors are distinct valid slots |
| Speed.NewRpmFloor | stepperHandler/stepperHandler.py:587-588 | the new RPM is never negative; for one motor it is rpm + value when that is not negative, else 0 |
| Speed.PercentageOfAll | stepperHandler/stepperHandler.py:587-588 | for "all", the new RPM is rpm · (100 + value) / 100, or 0 once value is -100 or less |
| Speed.IncrementThenDecrement | stepperHandler/stepperHandler.py:587-588 | for one motor, an increment followed by the same decrement restores the RPM when nothing was floored |
| Speed.RetuneMeaning | stepperHandler/stepperHandler.py:599-615 | the half period is set exactly for positive RPM and spr and then satisfies delay · spr · rpm = 30; division by zero exactly for positive RPM and spr 0 |
| Keys.KeyState.KeyPress | stepperHandler/stepperHandler.py:461-517 | while started, a key without modifier is counted as held; only when it is the only held key does it select, and it selects what the letter lookup gives |
| Keys.KeyState.KeyRelease | stepperHandler/stepperHandler.py:520-525 | while started, a one-character keysym lowers the held count, never below zero |
| Keys.DispatchLetter | stepperHandler/stepperHandler.py:475-517 | with the lookup list built from the eight letters lower-cased, a key selects nothing exactly when it matches none of the letters (either case), else the motor and direction of the first letter it matches, adjusting a single motor only when it is operating |
| Keys.CaseTwinSelectsFirst | stepperHandler/stepperHandler.py:506-509 | with "A" as the top increment letter and "a" as the middle one, the key "a" selects the top motor and no key selects the middle increment |
| Keys.IndexOf | stepperHandler/stepperHandler.py:506-507 | list.index: None exactly when absent, else the first position holding the value |
| Keys.SlotIsMotor | stepperHandler/stepperHandler.py:507-515 | letters 0-5 belong to single motors and check that motor's own operating flag; even positions increment, odd decrement |
| Keys.HoldTwoKeys | stepperHandler/stepperHandler.py:461-525 | two keys pressed together: the first acts, the second does nothing; after both are released the next press acts again |
| Validation.ValidateNal | stepperHandler/stepperHandler.py:898-908 | accepts exactly the texts of at most one character that are letters |
| Validation.ValidateAlu | stepperHandler/stepperHandler.py:921-955 | accepts the empty value, and otherwise exactly a value that passes the pin or letter check and that no two of the counted fields hold |
| Validation.AluValidMeaning | stepperHandler/stepperHandler.py:951-955 | counting at most one occurrence is the same as no two fields holding the value |
| SettingsFile.MainWindow.WriteFile | stepperHandler/stepperHandler.py:1065-1105 | every widget-backed value is stored from its widget or the direction variable, and the text written is the rendering of the refreshed settings |
| SettingsFile.MainWindow.WriteSection | stepperHandler/stepperHandler.py:1073-1098 | one section's pass refreshes that section only and produces its header and entry lines |
| SettingsFile.MainWindow.ReadFile | stepperHandler/stepperHandler.py:978-1062 | a missing file changes nothing; otherwise the settings and the exception are those of the parse, with updates before the exception kept |
| SettingsFile.MainWindow.ReadBody | stepperHandler/stepperHandler.py:1003-1043 | the inner loop applies the body's lines in order and stops at the first exception |
| SettingsFile.MainWindow.ReadOneLine | stepperHandler/stepperHandler.py:1004-1043 | one line stores a known key's comment, then raises or stores the validated value; an unknown key is skipped and an unknown section raises |
| SettingsFile.FindSectionFirst | stepperHandler/stepperHandler.py:1008 | section lookup finds the first section of that name, and fails exactly when there is none |
| SettingsFile.FindKeyFirst | stepperHandler/stepperHandler.py:1009-1011 | key lookup finds the first setting with that key, and fails exactly when there is none |
| SettingsFile.OddsAt | stepperHandler/stepperHandler.py:995 | contents[1::2] holds the elements at the odd positions |
| SettingsFile.EvensAt | stepperHandler/stepperHandler.py:996 | contents[::2] holds the elements at the even positions |
| SettingsFile.ReadLinesStopped | stepperHandler/stepperHandler.py:1033-1035 | after an exception the remaining lines change nothing |
| SettingsFile.ReadSectionsStopped | stepperHandler/stepperHandler.py:1056-1059 | after an exception the remaining sections change nothing |
| SettingsRoundTrip.ReadWhatWasWritten | stepperHandler/stepperHandler.py:989-1101 | reading the rendered settings into any table with the same sections and keys raises nothing and leaves every setting as written, whatever the table held, its comment as the text after the "//" |
| SettingsRoundTrip.WriteReadWrite | stepperHandler/stepperHandler.py:989-1101 | with stable comments, writing again after reading what was written into any table of the same shape gives the same text |
| SettingsRoundTrip.CommentStable | stepperHandler/stepperHandler.py:1093-1095 | a stable comment read back is written as it was |
| SettingsRoundTrip.BarCommentLost | stepperHandler/stepperHandler.py:1093-1096 | a comment made of a single bar is written as a bare " // ", read back as " ", then written as no comment |
| SettingsRoundTrip.CommentKeptOnMissingValue | stepperHandler/stepperHandler.py:1009-1013 | a known key's line without '=' stores its comment before the missing value raises, and the failed read keeps that comment |
| SettingsRoundTrip.ParseRendered | stepperHandler/stepperHandler.py:993-998 | the rendered text is cut into exactly the section names and the section bodies |
| SettingsRoundTrip.ReadAllBodies | stepperHandler/stepperHandler.py:1000-1043 | the bodies read one after another into any table of the same shape store every written setting |
| SettingsRoundTrip.HeadersAndBodies | stepperHandler/stepperHandler.py:995-998 | of the bracket pieces, the odd ones are the names and the non-empty even ones the bodies |
| SettingsRoundTrip.SplitTail | stepperHandler/stepperHandler.py:993 | splitting the rendered text at brackets gives an empty piece, then each name followed by its body |
| SettingsRoundTrip.BodyLinesAreEntries | stepperHandler/stepperHandler.py:1001-1002 | a section's body, cut at line breaks with empty lines dropped, is its entry lines |
| SettingsRoundTrip.SplitEntryLine | stepperHandler/stepperHandler.py:1004-1013 | a written entry line splits back into its key, its read-back comment and its value text |
| SettingsRoundTrip.EntryLineFree | stepperHandler/stepperHandler.py:1093-1096 | a written entry line holds no bracket and no line break |
| SettingsRoundTrip.StoredText | stepperHandler/stepperHandler.py:1037-1043 | the written text of a value is stored as that same value (1 and 0 as booleans for NaB) |
| SettingsRoundTrip.ReadEntryLine | stepperHandler/stepperHandler.py:1003-1043 | reading a written line stores exactly that setting's value and read-back comment, whatever earlier lines stored |

## Left out

- The Tk window, its widgets and message boxes are not modelled. Widget texts are parameters: the `widgets` map for `writeFile`, and the letter and pin fields that `validateAlu` counts.
- GPIO hardware, threads and sleeps are not modelled. Pin calls are ghost logs. Each lifecycle call is one atomic step, without the 0.25 s grace waits. `__init__` starting the pulse thread and changing the switch interval is not modelled.
- Floating point is not modelled. RPMs, percentages and delays are exact reals. The pulse threshold round(delay / resolution) is an integer input of each observation.
- Speed.SetIncrement: the RPM text shown in the window (with ".0" trimmed) is not modelled. Neither is the float parse of the entry, which can raise on bad text.
- Keys.KeyState.KeyPress: it does not model removing non-digits from the focused entry, or restoring empty increment entries from the settings. It returns the selection and does not copy the increment entry into the settings or call setIncrement. Those steps work on widgets and a float parse; Keys.DispatchLetter states what the call is made with.
- Keys: `str.lower` is modelled for ASCII letters only; other characters are left as they are.
- Validation.ValidateNal: `str.isalpha` is modelled for ASCII letters only. Python also accepts other Unicode letters, such as "é", which the model rejects.
- Validation: `validateNan`, `validateNai` and the pin-table check in `validateNap` are parameters (predicates on the text). The `error` attribute the validators set for the window's message is not modelled.
- SettingsFile.MainWindow.ReadFile: filling the widgets and the direction variable after a successful parse is not modelled. Neither is the error window. Opening, reading and writing the file on disk are replaced by a text parameter and result. The model ignores the `"Unknown Error Code"` branch, which cannot be reached because every setting has one of the five codes. It also ignores the `value == "" and bool_value` disjunct for NaB: an empty value never passes the NaB check, so the disjunct is dead.
- The initial settings table (lines 86-139) is not written out. The theorems hold for any settings that meet `SettingsRoundTrip.RoundTrips`: distinct section names, distinct keys in each section, no empty section, bracket-free names, plain keys and value texts, safe comments, flags exactly for the NaB settings, and values that pass their validators.
- `updateVersion`, the window builders, `startPressed`, the settings window's save and cancel, and the pin-number conversion (`board_bcm`) are not part of this model.
