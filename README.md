# SIDD voice assistant: a Dafny model of its core

SIDD has two programs. `AI.py` is a voice assistant. Each round, it:

- hears a query;
- logs it on standard output as a `[COMMAND][YOU] …` line;
- detects the speaker's mood;
- walks a long chain of keyword tests to pick an action;
- answers through `speak`, which prints a `[COMMAND][SIDD] …` line.

It keeps a JSON memory: a profile, notes, learned query → response pairs and the last mood.

`frontend.py` is the HUD that runs `AI.py` as a child process. It:

- reads those `[COMMAND]` lines into a capped conversation list;
- lays the newest of them out in a panel with word wrapping;
- animates a sphere of dots;
- turns microphone loudness into a coloured core and into expanding "voice pulses";
- switches between four colour themes from the keyboard.

This project models the logic of both programs in Dafny and proves what that logic promises. Each module follows one concern of the source:

| module | models |
|---|---|
| `Text` | the Python string operations the core relies on: `strip`, `lower`, `upper`, `capitalize`, `split`, `" ".join`, `in` |
| `Commands` | `log_command`, the reply and actionability tests, `detect_mood`'s table, the brightness and volume helpers, name capitalisation |
| `Dispatch` | the `if`/`elif` chain of `main` |
| `Protocol` | how `main`'s printed lines reach the HUD's listener |
| `Memory` | the JSON memory: `load_memory`, `find_learned_response`, `add_learned_response`, `detect_mood`'s update |
| `Backend` | the HUD's listener thread and its 100-entry cap |
| `WordWrap` | `wrap_text_lines` |
| `Conversation` | `draw_conversation_panel`'s row layout |
| `Colour` | `lerp`, `mix_color`, the themes |
| `Hud` | the key handling |
| `Pulses` | the voice pulse trigger and expiry |
| `Audio` | padding, decoding and RMS of a microphone chunk |
| `Sphere` | `Dot.update` and `Dot.project` |

Some state is updated in place in the source. Those parts are classes whose methods are proved against specification functions:

- `Backend.Transcript` is the `COMMANDS` list.
- `Memory.Store` is the `memory` dictionary.
- `Pulses.Tracker` is `VOICE_PULSES` and `last_amplitude`.
- `Hud.Controls` is `current_theme` and `ULTRA_BOLD`.
- `Sphere.Dot` is one dot.

Loops in the source are methods with loop invariants:

- `WordWrap.WrapTextLines`
- `Conversation.Layout`
- `Audio.SumOfSquares`
- the listener loop
- the pulse expiry loop

Some of what is proved about the assistant as written:

- Every line `log_command` prints comes back from the listener as the same speaker and the stripped text (`Protocol.LoggedLineParses`). A whole printed stream of single-line texts reaches the HUD unchanged (`Protocol.PipeKeepsEntries`). A spoken text that holds a line end, such as a Wikipedia summary, shows only its first line under the speaker (`Protocol.MultilineShowsFirstPiece`). The pipe is read in text mode, so `\r\n` and a lone `\r` end a line just as `\n` does (`Backend.Translate`).
- For an actionable query, `main` prints both `log_command("YOU", query)` and a raw `[COMMAND][YOU]` echo. So the HUD shows the query twice (`Protocol.ActionableQueryShownTwice`).
- The `unmute` branch can never be taken: every query containing "unmute" contains "mute", which the chain checks first (`Dispatch.UnmuteUnreachable`).
- Keyword tests are substring tests. For example, "i know" counts as a negative reply because it contains "no", and "not sure" is both a positive and a negative reply (`Commands.SubstringKeywords`).
- `Dot.update` keeps the latitude in [0, π] only while one frame's step is at most π. A longer step can leave it outside (`Sphere.LongStepEscapes`). The documented behaviour says the latitude always stays within [0, π]; the model follows the code, and `Sphere.Dot.Update` proves the range only for frames of at most 12 seconds.

## Model

| member | source | states |
|---|---|---|
| Commands.IsNegativeReply | AI.py:742-747 | an empty reply is never negative; otherwise it is negative exactly when its lower-cased text contains one of the negative keywords |
| Commands.IsPositiveReply | AI.py:750-755 | an empty reply is never positive; otherwise it is positive exactly when its lower-cased text contains one of the positive keywords |
| Commands.IsActionable | AI.py:793-799 | a query is actionable exactly when it contains none of the ignored phrases |
| Commands.SubstringKeywords | AI.py:742-799 | because the tests match substrings, "i know" is a negative reply, "shift to this window" is not actionable (it contains "hi"), and "not sure" is both positive and negative |
| Commands.FirstMood | AI.py:722-740 | the result is neutral exactly when no keyword list from the starting row on matches; otherwise it is the mood of the first row whose list matches |
| Commands.SadComesFirst | AI.py:722-740 | a query matching a sad keyword is sad, whatever other moods it also matches |
| Commands.IncreasedBrightness | AI.py:440-448 | the new level is `min(100, current + step)`: it is never above 100 or above current + step, it is one of the two, and it is 100 exactly when current + step reaches 100; from a level in 0..100 with a non-negative step, it does not decrease |
| Commands.DecreasedBrightness | AI.py:449-457 | the new level is `max(0, current - step)`: it is never below 0 or below current - step, it is one of the two, and it is 0 exactly when current - step reaches 0; from a level in 0..100, it does not increase |
| Commands.BrightnessStepsUndo | AI.py:440-457 | a decrease by the same step undoes an increase that did not hit the ceiling |
| Commands.ShowNat | AI.py:418-430 | the decimal rendering of a natural number is a non-empty digit string whose value is that number |
| Commands.ParseShowInt | AI.py:418-430 | `int()` applied to the decimal rendering of any integer gives that integer back |
| Commands.SetVolume | AI.py:418-430 | the volume is applied exactly when the text parses as an integer in 0..100, at that level; it is reported as not a number exactly when it does not parse |
| Commands.VolumeOfNumber | AI.py:418-430 | a spoken integer is applied when it is in 0..100 and reported out of range otherwise |
| Commands.CapitalizeAll | AI.py:828-839 | each word is capitalised in place, and the word count is kept |
| Commands.CapitalizeKeepsWord | AI.py:828-839 | capitalising a word gives a word: non-empty and without spaces |
| Commands.CapitalizeTwice | AI.py:828-839 | capitalising is idempotent |
| Commands.CapitalizeNameWords | AI.py:828-851 | the words of the capitalised name are the capitalised words of the name, and capitalising a name twice changes nothing |
| Commands.AfterFirst | AI.py:828-851 | the returned index ends an occurrence of the phrase inside the query |
| Commands.SpokenName | AI.py:828-851 | no name exactly when nothing but spaces follows the phrase; otherwise the name's words are the capitalised words that follow, and the name is already in capitalised form |
| Dispatch.GreetingHead | AI.py:805-806 | the first words of the greetings are hi, hello, hey, good, good |
| Dispatch.Command | AI.py:819-1234 | the keyword chain never yields the greeting branch or the missing-word case |
| Dispatch.SystemCommand | AI.py:1086-1234 | the later part of the chain never yields the greeting branch or the missing-word case |
| Dispatch.GreetingFirst | AI.py:805-806 | a query takes the greeting branch exactly when its lower-cased first word is hi, hello, hey or good, whatever follows |
| Dispatch.UnmuteUnreachable | AI.py:1181-1188 | no query reaches the unmute branch, because the mute test comes first and matches every query containing "unmute" |
| Dispatch.CommandUnmuteUnreachable | AI.py:819-1234 | the keyword chain never yields the unmute branch |
| Dispatch.SystemUnmuteUnreachable | AI.py:1181-1188 | the later part of the chain never yields the unmute branch |
| Protocol.UpperSpeakerName | AI.py:32-36 | the speaker names used by `main` are already upper case, so `speaker.upper()` leaves them unchanged |
| Protocol.LogLineShape | AI.py:32-36 | a logged line is the command tag, the bracketed speaker, a space and the text |
| Protocol.LoggedLineParses | AI.py:32-36 | the listener parses every logged line back into its speaker and the stripped text |
| Protocol.ReadEmitted | frontend.py:383-385 | reading the printed stream line by line yields each printed line with its newline, and nothing else, when no printed line holds `\n` or `\r` |
| Protocol.ParsedNewline | frontend.py:390-406 | the trailing newline does not change what a line parses to |
| Protocol.PipeKeepsEntries | frontend.py:378-406 | when no printed text holds `\n` or `\r`, the entries parsed from the printed stream are the entries of the lines `main` printed |
| Protocol.ReadFirst | frontend.py:383-385 | readline takes a line holding no `\n` or `\r` off the front of the stream, whichever of `\n`, `\r` or `\r\n` ends it, and returns it ending in `\n` |
| Protocol.LogLineNoNewline | AI.py:32-36 | log_command's prefix adds no `\n` or `\r` to a text free of them |
| Protocol.SpokenMultiline | frontend.py:383-406 | a logged text with a line end (`\n`, `\r` or `\r\n`) in it yields the speaker's entry for the part before it, followed by whatever the rest parses to as lines of its own |
| Protocol.ContinuationDropped | frontend.py:390-396 | a continuation line that does not start with the command tag yields no entry |
| Protocol.MultilineShowsFirstPiece | frontend.py:383-406 | a two-line spoken text whose second line is plain text shows only its first line on the HUD, whichever line end separates them |
| Protocol.EchoIsLogged | AI.py:801-802 | the raw `[COMMAND][YOU]` echo is exactly a logged line for YOU |
| Protocol.MoodEntries | AI.py:782-786 | a sad query adds the sad reply, an angry one adds the angry reply, any other query adds nothing |
| Protocol.RetryEntries | AI.py:788-790 | "try again" with a stored actionable query adds the "Trying again." reply, and nothing otherwise |
| Protocol.EchoEntries | AI.py:793-802 | the echo adds the stripped effective query exactly when it is actionable |
| Protocol.PreludeEntries | AI.py:779-802 | the HUD entries from the start of a round are: the query, then the mood reply, then the retry reply, then the echo of the effective query, each only when its condition holds |
| Protocol.ParsedAllConcat | frontend.py:378-406 | parsing a concatenation of line runs is the concatenation of their parses |
| Protocol.ActionableQueryShownTwice | AI.py:779-802 | an actionable query that is neither sad nor angry appears twice in a row on the HUD |
| Memory.Field | AI.py:61-81 | a key is found exactly when the memory is an object holding it |
| Memory.Merged | AI.py:69-77 | the merged memory holds the loaded keys plus the four top-level keys |
| Memory.LoadOverDefaults | AI.py:61-81 | loading a file object keeps every stored key's value, and fills each missing top-level key from the defaults |
| Memory.LoadTwice | AI.py:61-81 | loading the same file twice gives the same memory as loading it once |
| Memory.ScanEntries | AI.py:91-99 | a hit returns the response of the first entry whose query matches (null when the entry has no response), and every entry before it is a dictionary that does not match; the scan finds nothing exactly when every entry is a dictionary and none has that query (a non-dictionary entry makes `item.get` raise) |
| Memory.PresentFound | AI.py:91-99 | a matching entry preceded only by dictionaries is always found, so together with `ScanEntries` the result is the first match's response |
| Memory.NonObjectBreaks | AI.py:91-99 | a non-dictionary entry reached before any match makes `item.get` raise, so the lookup returns None through the `except` |
| Memory.ScanAppend | AI.py:91-112 | scanning a list with one more entry gives the old result unless that found nothing, in which case it is the result for the new entry alone |
| Memory.AddThenFind | AI.py:91-112 | after learning a response for a query not yet learned, looking it up returns that response |
| Memory.AddToOddListIgnored | AI.py:101-112 | when the learned responses are an empty string or an empty object, adding fails inside the `try` and memory is unchanged |
| Memory.AddKeepsFirst | AI.py:91-112 | learning a query that is already learned does not change its answer; the first pair wins |
| Memory.AddLeavesOthers | AI.py:91-112 | learning one query does not change the answer for any other query |
| Memory.Store.constructor | AI.py:47-59 | memory starts as the default structure |
| Memory.Store.Load | AI.py:61-81 | the new memory is the specification `Loaded` of the old memory and the file |
| Memory.Store.FindLearnedResponse | AI.py:91-99 | the loop returns the specification `LearnedResponse` |
| Memory.Store.AddLearnedResponse | AI.py:101-112 | the new memory is the specification `Added` of the old |
| Memory.Store.DetectMood | AI.py:722-740 | the mood is that of the first matching keyword row, or neutral, and it is recorded as the context's mood, with nothing else changed |
| Memory.Store.SetProfile | AI.py:828-851 | the profile field is set, and nothing else changes |
| Backend.ParseLine | frontend.py:390-406 | a parsed entry comes from a command line, and its text is stripped and shorter than the line |
| Backend.ParseTagged | frontend.py:398-406 | a command line whose payload starts with a role tag parses to that speaker and the stripped rest |
| Backend.ParseUntagged | frontend.py:398-406 | a command line with no role tag is dropped |
| Backend.Cap | frontend.py:409-410 | the capped list holds at most 100 entries, and they are the newest ones, in order |
| Backend.CapAppend | frontend.py:409-410 | capping after each append gives the same list as capping once at the end |
| Backend.CapKeepsNewest | frontend.py:409-410 | after 100 or more new entries, only the last 100 remain |
| Backend.ListenStep | frontend.py:378-414 | one listener iteration keeps the transcript equal to the cap of the start plus everything parsed so far |
| Backend.LineLength | frontend.py:383-385 | on the translated text, `readline` stops just after the first `\n`, or at the end of the stream |
| Backend.Translate | frontend.py:762-767 | the text-mode pipe's universal newlines: `\r\n` and a lone `\r` become `\n`, and the text never grows |
| Backend.TranslateNoCarriageReturn | frontend.py:762-767 | no `\r` reaches the reader, and text without one passes unchanged |
| Protocol.TranslateBreak | frontend.py:762-767 | a line free of line ends reaches the reader unchanged, its `\n`, `\r` or `\r\n` turned into one `\n` |
| Backend.ReadLines | frontend.py:383-385 | every line read is non-empty, so `if not line: break` fires only at the end of the stream |
| Backend.ReadLinesSplit | frontend.py:383-385 | the lines read join back into the translated stream; a newline is only ever a line's last character, every line but the last ends in one, and no line holds `\r` |
| Backend.Transcript.constructor | frontend.py:76-79 | the conversation starts with the two boot entries |
| Backend.Transcript.Receive | frontend.py:390-410 | a non-command line leaves the conversation unchanged; a command line appends its parse, then caps |
| Backend.Transcript.Listen | frontend.py:378-414 | after the loop, the conversation is the cap of the old conversation plus every parsed entry |
| WordWrap.WrapTextLines | frontend.py:417-434 | the loop computes the specification `Wrap` |
| WordWrap.GreedyJoin | frontend.py:417-434 | joining the lines with spaces gives the words joined with spaces |
| WordWrap.WrapKeepsWords | frontend.py:417-434 | wrapping loses, adds and reorders no word |
| WordWrap.GreedyFits | frontend.py:417-434 | each line is a single word or fits the width |
| WordWrap.WrapFits | frontend.py:417-434 | each wrapped line is empty, a single word, or fits the width |
| WordWrap.GreedyHead | frontend.py:417-434 | the first line starts with the current word |
| WordWrap.FirstWord | frontend.py:417-434 | the first line's first word is the current word |
| WordWrap.GreedyBreaks | frontend.py:417-434 | a line is broken only when the next word would not fit on it |
| WordWrap.WrapBreaks | frontend.py:417-434 | every break is forced: the next line's first word would overflow the line before it |
| WordWrap.GreedyNonEmpty | frontend.py:417-434 | no line is empty |
| WordWrap.WrapBlank | frontend.py:417-434 | the result is a single empty line exactly when the text has no words |
| Conversation.Newest | frontend.py:493 | the last ten messages, or all of them when there are fewer |
| Conversation.Labelling | frontend.py:496-520 | the slots carry the wrapped lines in order; the first carries the speaker label and no other does, so an entry with lines has exactly one label |
| Conversation.EntrySlots | frontend.py:496-520 | every message yields at least one row, and the first is labelled with its speaker |
| Conversation.PlacedRows | frontend.py:477-520 | row k is slot k at y + 18k, and above the bottom; layout stops only when the slots run out or the next row would pass the bottom |
| Conversation.RowCount | frontend.py:477-520 | the number of rows drawn is the number that fit between the top and the bottom, capped by the slots available |
| Conversation.PlacedAppend | frontend.py:496-520 | laying out two runs of slots equals laying out the first, then the second from where it stopped |
| Conversation.LabelledAppend | frontend.py:496-520 | labels add up across runs of slots |
| Conversation.EntryLabelledOnce | frontend.py:496-520 | each message carries exactly one label |
| Conversation.OneLabelPerEntry | frontend.py:496-520 | the slots of n messages carry exactly n labels |
| Conversation.DrawEntry | frontend.py:500-520 | one message's rows are placed line by line until the bottom; the next y is 18 below the last row |
| Conversation.Layout | frontend.py:437-521 | the rows drawn are the placement of the wrapped newest ten messages from the panel top to its bottom |
| Colour.Trunc | frontend.py:178-179 | `int()` truncates toward zero: it is the floor for non-negative values and within one of the value |
| Colour.TruncWithin | frontend.py:178-179 | truncating a value between two integers stays between them |
| Colour.TruncMonotone | frontend.py:178-179 | truncation is monotone |
| Colour.LerpBetween | frontend.py:178-179 | for t in [0, 1], `lerp` stays between its ends; t = 0 gives a and t = 1 gives b |
| Colour.LerpMonotone | frontend.py:178-179 | with a ≤ b, `lerp` does not decrease in t |
| Colour.MixBetween | frontend.py:182-188 | mixing two valid colours gives a valid colour with every channel between theirs; t = 0 and t = 1 give the ends |
| Colour.ClampUnit | frontend.py:202 | the clamped amplitude lies in [0, 1]; values inside stay, and values outside go to the nearer end |
| Colour.ThemeLookup | frontend.py:264 | themes 1-4 are looked up, any other number falls back to theme 1, and all theme colours are valid |
| Colour.InnerColourValid | frontend.py:264-267 | the core colour is valid; silence gives the quiet colour and full loudness the loud one |
| Hud.PressAllSnoc | frontend.py:828-838 | handling one more key continues from the settings so far |
| Hud.ThemeIsLastPicked | frontend.py:828-838 | the theme is the last one picked with keys 1-4, or the starting one, and stays within 1..4 |
| Hud.BoldIsParity | frontend.py:836-837 | ultra-bold is flipped by each U press, so it is on when the count of U presses and the start disagree in parity |
| Hud.ThemeAlwaysKnown | frontend.py:828-838 | from the start, the theme is always a key of THEMES, so the fallback lookup is never used |
| Hud.Controls.constructor | frontend.py:66-67 | the HUD starts in theme 1 without ultra-bold, so the theme is one of the four (`Valid`) |
| Hud.Controls.OnKey | frontend.py:828-838 | the new settings are the specification `Press` of the old ones and the key, and the theme stays one of the four (`Valid`) |
| Pulses.AliveMembers | frontend.py:359-374 | a start time survives expiry exactly when it was there and its age is 0 to 1200 milliseconds inclusive (a start time in the future is dropped) |
| Pulses.AliveBounds | frontend.py:359-374 | expiry keeps only live pulses, never more than there were |
| Pulses.AliveTwice | frontend.py:359-374 | expiring twice at the same time is the same as expiring once |
| Pulses.AliveSorted | frontend.py:359-374 | expiry keeps start times in order |
| Pulses.Progress | frontend.py:359-374 | a live pulse's progress lies in [0, 1] |
| Pulses.Tracker.constructor | frontend.py:70-73 | there are no pulses and the last amplitude is zero |
| Pulses.Tracker.Trigger | frontend.py:916-918 | a pulse starts exactly on a rising edge over the threshold; the amplitude is remembered |
| Pulses.Tracker.Expire | frontend.py:359-374 | the pulses become the live ones, each with its progress in [0, 1], and the last amplitude is kept |
| Audio.Zeros | frontend.py:878 | the silent fallback buffer is all zeros of the given length |
| Audio.Normalize | frontend.py:881-887 | the buffer becomes exactly 2048 bytes: short data is padded with zeros, and long data is cut |
| Audio.Sample | frontend.py:890-895 | a sample is the little-endian two's-complement reading of its two bytes: it lies in -32768..32767, equals lo + 256·hi modulo 65536, and is negative exactly when the high byte is 128 or more |
| Audio.Unpack | frontend.py:890-895 | unpacking succeeds exactly on 2048 bytes, giving 1024 samples |
| Audio.Decoded | frontend.py:890-895 | decoding always yields 1024 samples |
| Audio.UnpackAlwaysSucceeds | frontend.py:881-895 | after padding or trimming, the unpack error path is never taken |
| Audio.SumOfSquares | frontend.py:897-904 | the loop computes the specification sum of squares, which is never negative |
| Audio.SumSquaresZero | frontend.py:897-904 | silence has a zero sum of squares |
| Audio.Amplitude | frontend.py:897-904 | the amplitude lies in [0, 1] |
| Audio.FullAmplitude | frontend.py:897-904 | the amplitude saturates at 1 exactly when the RMS is at least 3000 |
| Audio.AboveThreshold | frontend.py:897-918 | the amplitude exceeds the 0.15 pulse threshold exactly when the RMS exceeds 450 |
| Audio.SilenceIsZero | frontend.py:881-904 | an all-zero read gives amplitude 0 |
| Audio.FallbackIsSilent | frontend.py:878 | the fallback buffer used when the stream cannot be reopened gives amplitude 0 |
| Sphere.LatitudeStays | frontend.py:116-125 | from a latitude in [0, π], a step of at most π in size lands back in [0, π] after reflection |
| Sphere.ReflectRate | frontend.py:116-125 | reflection reverses the latitude rate exactly when the latitude left [0, π], and changes nothing otherwise |
| Sphere.LongStepEscapes | frontend.py:116-125 | a step longer than π can leave the latitude outside [0, π]: from the pole 0, a step of −4 reflects to 4 |
| Sphere.ShortFrameStep | frontend.py:114-118 | with a rate of at most 0.25 and a frame of at most 12000 ms, one step is at most π |
| Sphere.Dot.constructor | frontend.py:99-112 | a dot starts with its given angles and rates, inside the valid ranges |
| Sphere.Dot.Update | frontend.py:114-125 | the new angles are the old ones advanced by rate × dt/1000, with the latitude reflected; a valid dot stays valid over a frame of at most 12 seconds |
| Sphere.CameraZ | frontend.py:148-150 | the camera distance is at least 1, and is z + 2.2R when above 1 |
| Sphere.Depth | frontend.py:158 | the depth is clamped to [0, 1] |
| Sphere.DotRadius | frontend.py:161 | the radius lies in 2..4 |
| Sphere.Project | frontend.py:146-169 | projection fails exactly when SPHERE_RADIUS_BASE is 0; otherwise the depth is in [0, 1] and the radius in 2..4 |
| Sphere.NearerIsLarger | frontend.py:148-161 | a nearer dot is at least as deep and at least as large |
| Sphere.OnSphereColourValid | frontend.py:148-167 | a dot on the sphere has depth at most 0.6, so its brightened gold is a valid colour |

## Left out

- Drawing is not modelled: pygame surfaces, fonts, arcs, glow, the sphere's rotation and trigonometry, label colours. The font's text width is a parameter `width: string -> nat`. Dot positions x, y, z are parameters of `Project`.
- Audio input is not modelled: the PyAudio stream and the reopen attempt are a `Read` value. The square root in the RMS is a parameter `rms` with `rms * rms == sumSquares / 1024`, because Dafny reals have no square root. The `amp ** 0.7` visual curve is not modelled.
- Real numbers stand in for floats: rounding in float arithmetic is not modelled.
- Dots are created with random values. The constructor takes those values as parameters within the ranges that `random.uniform` draws from.
- The clock (`clock.tick`, `pygame.time.get_ticks`) is a parameter: `dt` and `t` in milliseconds.
- Speech recognition, text-to-speech, the network (Wikipedia, weather, web pages) and desktop automation (pyautogui, psutil, app opening) are not modelled. `main`'s branches are modelled as which branch is taken, not as what each branch then does.
- Reading and writing the memory file, and `save_memory`, are not modelled. The file's contents are a `FileRead` value (missing, unparseable, or parsed JSON). JSON numbers are integers only.
- Dispatch.Command: the branch bodies after the test are not modelled. This covers the learn-a-response dialogue in the final `else` (its yes/no tests are `IsPositiveReply` and `IsNegativeReply`), the note appended by "remember that", and where `last_actionable_query` is updated.
- Text.Lower, Text.Upper and Text.Capitalize map ASCII letters only; Python's full Unicode case mapping is not modelled.
- Commands.ParseShowInt and Commands.SetVolume: the model's `int()` accepts an optional sign and ASCII digits only. Python's underscores between digits and non-ASCII digits are not modelled.
- Commands.AfterFirst: states that the returned index ends an occurrence of the phrase, not that it is the first one. `SpokenName` models `split(phrase, 1)[1]` through that index.
- Memory.AddThenFind: requires the learned responses to be a list when present. With any other value, `append` raises inside the `try` and nothing is learned; `AddToOddListIgnored` covers the empty-string and empty-object cases.
- Memory.Store.DetectMood and Memory.Store.SetProfile: require the context or profile entry to be an object. In the source, any other value raises an exception that `main` does not catch.
- Protocol.PipeKeepsEntries: requires every printed text to be free of `\n` and `\r`. A text with a line end is covered by `SpokenMultiline` and `MultilineShowsFirstPiece`, one line end at a time.
- Protocol.LoggedLineParses: assumes every character crosses the pipe. The child's stdout encoding comes from the locale; a character it cannot encode (such as the emoji in the greeting reply, AI.py:806) makes `print` raise `UnicodeEncodeError`, which is not modelled.
- Sphere.Dot.Update: proves the latitude stays valid only for frames of at most 12 seconds. For longer steps the code does not keep it in [0, π] (`LongStepEscapes`).
- Sphere.LatitudeStays: holds only for steps of at most π, for the same reason.
- The listener's `except` branch, which stops the thread on a decoding error, is not modelled; nor is its debug `print` of each line, because both are I/O.
- `recalc_layout`, window resizing and full-screen toggling are not modelled. The sphere's radius and SPHERE_RADIUS_BASE are parameters of `Project`.
- Threads are not modelled: the listener thread and the render loop share `COMMANDS` without a lock. The model applies their updates one at a time.
