# Jarvis voice assistant — a Dafny model of its command core

jarvis.py is a voice assistant for the home. A transcript that contains the
wake word "jarvis" is turned into a command. The command is then tried, in
order, as a Leviton light command, as a Ring camera command (only when it
holds a live-view word), as one of three canned phrases, and finally as a
web question. The web question goes through arithmetic, DuckDuckGo,
Wikipedia and Google in turn. After the Ring login, the list of cameras is
flattened, ids that repeat are dropped, and cameras without a name get one.

This project models that core and proves properties of it.

- `strings.dfy` (module `Text`) holds the Python `str` operations the core is
  built from:
  - `w in s`
  - `s.replace(p, r)`: left to right, without overlaps
  - `s.lower()`
  - `s.strip()`, with the `str.isspace` characters
  - `sep.join`
  - `s[-n:]`
- `lights.dfy` (module `Lights`) models `handle_leviton_command`.
  - A switch is a class whose `power` field the handler changes.
  - The switch dictionary is a sequence of (clean name, switch) entries, kept
    in insertion order.
  - The decision the handler takes is the function `LightDecision`.
  - The handler itself is a method with the source's loops. It is proved
    against `LightDecision`.
- `cameras.dfy` (module `Cameras`) models the camera side.
  - A Ring device is a class with a mutable `name`.
  - The flatten loop and the de-duplication loop are modelled as written.
    In the de-duplication loop, `list.remove(d)` removes the first element
    that is the object `d`.
  - `KeepFirst` is a reference de-duplication, and the loop as written is
    compared against it.
  - `handle_ring` is the function `HandleRing`.
- `answers.dfy` (module `Answers`) models the decision logic of
  `web_fallback_answer`.
  - The `re.findall` runs and the expression they form are modelled.
  - Python's `eval` and the three providers' replies are inputs: a `World`
    value.
- `jarvis.dfy` (module `Jarvis`) holds the wake word (`WakeWord`), the
  dispatch of `respond` (`Dispatch`), and the class `Assistant`, which owns
  the session flag, the switches and the cameras.
  - `Assistant.LoadRingDevices` is the device clean-up; its de-duplication
    and naming loop is `Cameras.CleanUpDevices`.
  - `Assistant.Respond` is `respond`.
  - `Assistant.Hear` is one pass of the listening loop.
- `wrappers.dfy` defines `Option`.

Properties of the source that the proofs bring out:

- A light command that contains "front" or "deactivate" switches its
  targets ON. "on" is looked for before "off", as a substring.
  See `Lights.OnShadowsOff`.
- Any query containing "all", such as "hallway", addresses every light.
  See `Lights.HallwaySelectsEverySwitch`.
- `respond` never reaches the snapshot branch of `handle_ring`. It calls the
  camera handler only when the query holds a live-view word, and in that case
  the live view wins. See `Jarvis.NoSnapshotFromRespond`.
- With a camera registered, "show me the time" is answered "No Ring device
  found." See `Jarvis.ShowShadowsTime`.
- The de-duplication loop keeps the first device of every id. When the same
  device object is listed twice, `remove` drops its first copy, so the device
  stays where its last copy was: `[a, b, a]` becomes `[b, a]`.
  See `Cameras.DedupKeepsFirst`, `Cameras.Dedup` and
  `Cameras.RepeatedObjectMoves`.
- Every `remove(d)` of that loop finds `d`, so its `ValueError` is never
  raised. See `Cameras.DedupFindsRemoved`.
- Only the query is normalised, never the switch names. A switch whose name
  spells a number, such as "one", does not match its own name, because the
  query becomes "1". See `Lights.SpelledKeyNotSelected`.
- Names match by containment both ways, so "kitchen island" also selects the
  "kitchen" switch. See `Lights.ContainedKeySelected`.

## Model

| member | source | states |
|---|---|---|
| Lights.NormalizeQuery | jarvis.py:160-164 | the normalisation loop yields `Normalize(q)`: "switches" made singular, then one..nine replaced by digits in table order |
| Lights.NormalizeSpellsDigits | jarvis.py:161-164 | no spelled number one..nine is left in a normalised query |
| Lights.NormalizeUnchanged | jarvis.py:160-164 | a query with no "switches" and no spelled number is left as it is |
| Lights.Matching | jarvis.py:174-181 | a switch is selected exactly when its space-free key and the space-free query contain one another; the positions are in dictionary order |
| Lights.Targets | jarvis.py:169-181 | a switch is selected exactly when the query asks for all lights or its key matches; the positions are in dictionary order |
| Lights.TargetNames | jarvis.py:169-181 | the label is "all lights" for an all-word, otherwise the names of the selected switches, in order |
| Lights.CollectTargets | jarvis.py:166-181 | the selection loop collects the switches at `Targets` and the labels `TargetNames`: every switch with the label "all lights" when "all", "every" or "whole house" occurs, otherwise the matching switches with their names |
| Lights.AllSelectsEverySwitch | jarvis.py:169-172 | a query containing "all" anywhere selects every switch, labelled "all lights" |
| Lights.HallwaySelectsEverySwitch | jarvis.py:169-172 | "hallway" contains "all", so it selects every switch |
| Lights.ContainedKeySelected | jarvis.py:174-181 | a query equal to a key in normal form also selects every switch whose space-free key occurs in it, as "kitchen" in "kitchen island" |
| Lights.SpelledKeyNotSelected | jarvis.py:160-181 | a key that spells "one" (with no "1", space or "switches") does not match its own name, since only the query is normalised; it is selected only through an all-word |
| Lights.KeyQuerySelectsSwitch | jarvis.py:174-181 | a query equal to a lower-case key that has no "switches" and no spelled number selects that switch |
| Lights.LightDecision | jarvis.py:143-201 | declined without a session; listed exactly on a list phrase; declined exactly when no switch is selected; otherwise the selected switches are the ones acted on |
| Lights.VerbDecision | jarvis.py:188-201 | the targets are switched exactly when an on- or off-phrase occurs, ON exactly when an on-phrase occurs; otherwise the query is declined |
| Lights.OnOffCommand | jarvis.py:188-201 | once switches are selected: an on-phrase switches them ON; otherwise an off-phrase switches them OFF; with neither the handler returns False |
| Lights.HandleLevitonCommand | jarvis.py:143-201 | returns True exactly for a listing or an on/off command; exactly the targeted switches take the new power; every other switch and every brightness is unchanged |
| Lights.DecideLevitonCommand | jarvis.py:145-199 | the handler's decision, step by step: handled exactly as `LightDecision` says, and on an on/off command the targeted switches and the power it picks |
| Lights.SetPower | jarvis.py:189-198 | every target gets the requested power and keeps its brightness |
| Lights.OnShadowsOff | jarvis.py:189-199 | a query that selects switches and contains "front" or "deactivate" turns them ON |
| Lights.ShowLightsIsListed | jarvis.py:149-157 | a query with "show lights" lists the lights before any target is chosen |
| Lights.ClampLevel | jarvis.py:207 | the brightness clamp gives a level in 1..100, the level itself when it is in range |
| Cameras.FlattenDevices | jarvis.py:252-255 | the extend loop yields `Flatten(raw)`, the devices of the list-valued entries in order |
| Cameras.Flatten | jarvis.py:252-255 | every device of a list-valued entry is in the result, and each device of the result comes from one |
| Cameras.RemoveFirst | jarvis.py:261 | `list.remove(d)` drops the first element that is `d`; for an absent `d`, where Python raises `ValueError`, the model returns the list unchanged, a case the loop never reaches (`DedupFindsRemoved`) |
| Cameras.KeepFirst | jarvis.py:257-263 | the reference keeps devices with distinct ids, none already seen, each taken from the list |
| Cameras.KeepFirstComplete | jarvis.py:257-263 | the first device of every unseen id is kept |
| Cameras.KeepFirstSound | jarvis.py:257-263 | every kept device is the first device of its id |
| Cameras.FirstOfIdSeen | jarvis.py:258-263 | a device is the first of its id exactly when its id is not yet in `seen` |
| Cameras.PruneDistinct | jarvis.py:258-262 | while the remaining devices are distinct objects, the loop as written keeps the first device of every id, in order |
| Cameras.DedupKeepsFirst | jarvis.py:258-262 | over distinct device objects, the clean-up equals the reference |
| Cameras.Dedup | jarvis.py:257-262 | for any list, the devices left are the reference's devices, counted with multiplicity |
| Cameras.PruneFindsRemoved | jarvis.py:258-261 | while the devices to visit are among the live ones, every removal finds its device |
| Cameras.DedupFindsRemoved | jarvis.py:257-261 | walking a copy of the list, every `remove(d)` finds `d`, so `ValueError` is never raised |
| Cameras.PruneCounts | jarvis.py:258-262 | each repeated visit removes one object: the multiset left is the list minus the visited devices plus the reference's |
| Cameras.DedupFirsts | jarvis.py:258-262 | every device left is the first device of its id |
| Cameras.RepeatedObjectMoves | jarvis.py:259-261 | when one device object is listed twice, the loop removes its first copy, so the device stays where its last copy was: `[a, b, a]` becomes `[b, a]` while the reference gives `[a, b]` |
| Cameras.CleanUpDevices | jarvis.py:257-265 | the loop over a copy yields `Dedup(list)`; exactly the first devices of their ids that had no name are named; all names are then present |
| Cameras.RemoveFirstCounts | jarvis.py:261 | `list.remove(d)` takes exactly one copy of a present `d` out of the multiset of devices |
| Cameras.DefaultName | jarvis.py:264-265 | a missing name becomes "Camera " followed by the last four characters of the id |
| Cameras.FindDevice | jarvis.py:319 | the result is the first device whose lower-cased name occurs in the query, or none when no device is mentioned |
| Cameras.SnapshotFile | jarvis.py:335 | the file name is the device name with spaces turned into underscores, then ".jpg"; it holds no space |
| Cameras.HandleRing | jarvis.py:315-342 | the handler declines with no devices; it answers "not found" exactly when no device is mentioned; it opens the live view of the first mentioned device at the dashboard URL on a live-view word; otherwise it takes a snapshot on "snapshot"; otherwise it declines |
| Cameras.LiveBeatsSnapshot | jarvis.py:323-332 | a query naming a camera with both "live" and "snapshot" opens the live view |
| Answers.AllowedPrefix | jarvis.py:349 | the longest prefix of characters in the class `[\d.+\-*/^() ]` |
| Answers.Runs | jarvis.py:349 | the `findall` matches are non-empty runs of class characters |
| Answers.MathExprIsFilter | jarvis.py:349-352 | the joined matches are exactly the query's class characters, in order |
| Answers.RunsFound | jarvis.py:349-350 | `findall` finds something exactly when the query holds a class character, a space included |
| Answers.FirstTopic | jarvis.py:372-377 | the first related topic that is an object with a non-empty "Text", or none when there is no such topic |
| Answers.FindTopic | jarvis.py:372-377 | the related-topics loop returns `FirstTopic` |
| Answers.Lookup | jarvis.py:360-409 | each answer holds only under its provider's conditions: the abstract when non-empty; a topic only without one; the Wikipedia extract only when DuckDuckGo declined, the status is 200 and it is longer than 50 characters; the Google snippet, then the fixed reply, only when every earlier provider declined; failure exactly when the first failed request comes before any answer |
| Answers.WebAnswer | jarvis.py:344-414 | when `findall` finds something and `eval` succeeds, the answer is "The answer is " and the value; otherwise, a query without class characters included, the answer is the provider cascade `Lookup`; it reports failure only when a request failed |
| Answers.AnswerQuery | jarvis.py:344-414 | the lookup, step by step, returns `WebAnswer` |
| Answers.MathNeedsNoNetwork | jarvis.py:350-356 | an expression that evaluates is answered "The answer is …" whatever the providers reply |
| Answers.MathEvaluatesFilter | jarvis.py:349-358 | the expression evaluated is the query with every non-class character dropped; when it does not evaluate, the providers decide |
| Answers.AbstractShadowsLaterProviders | jarvis.py:365-369 | a non-empty DuckDuckGo abstract is the answer, whatever Wikipedia and Google reply |
| Answers.EarlierProvidersShadowLater | jarvis.py:360-389 | once DuckDuckGo answers, Wikipedia and Google do not matter; once Wikipedia answers, Google does not |
| Answers.ShortExtractSkipped | jarvis.py:382-388 | a Wikipedia extract of at most 50 characters is never the answer |
| Answers.ReachableAlwaysSpeaks | jarvis.py:407-414 | when every request goes through, the lookup always speaks, if only the fixed reply |
| Jarvis.WakeWord | jarvis.py:478-483 | a transcript is ignored exactly when its lower case lacks "jarvis"; it prompts exactly when only whitespace remains once "jarvis" is removed; otherwise the command is that remainder with the whitespace at its ends stripped, non-empty |
| Jarvis.WakeWordThenCommand | jarvis.py:79-84 | "Jarvis " followed by a lower-case command without the wake word and without edge whitespace yields exactly that command |
| Jarvis.BareWakeWordPrompts | jarvis.py:478-483 | "Jarvis" alone only prompts "Yes, Sir?" |
| Jarvis.Dispatch | jarvis.py:450-473 | the reply is the light handler's decision exactly when it takes the query; otherwise it is the camera handler's outcome exactly when the query holds a live-view word and the handler takes it; the web lookup gets the lower-cased query |
| Jarvis.OtherReply | jarvis.py:456-473 | never a light command; the camera handler's outcome exactly when the query holds a live-view word and the handler takes it; the web lookup answers `WebAnswer` |
| Jarvis.CannedReplies | jarvis.py:462-473 | past the cameras, "how are you" wins over "time", which wins over "good night"; the time reply is "It is <clock>."; only a query with none of them goes to the web |
| Jarvis.LightsComeFirst | jarvis.py:453-454 | a light command is settled by the light handler, whatever the cameras, the clock and the web |
| Jarvis.NoSnapshotFromRespond | jarvis.py:456-460 | `respond` only ever gets "not found" or a live view from the camera handler, never a snapshot |
| Jarvis.ShowShadowsTime | jarvis.py:456-468 | with a camera registered, a non-light query with "show" that names no camera is answered "No Ring device found." |
| Jarvis.OtherQueriesGoToWeb | jarvis.py:462-473 | a query that is not a light command and holds none of the keywords goes to the web lookup |
| Jarvis.Hearing | jarvis.py:475-483 | a transcript is not addressed, prompts, or is answered with the dispatch of its command |
| Jarvis.Assistant.LoadRingDevices | jarvis.py:252-268 | the camera list becomes `Dedup(Flatten(raw))`, every camera has a name, and the login flag is set when a camera exists |
| Jarvis.Assistant.Respond | jarvis.py:450-473 | the reply is `Dispatch`; the switches change exactly as the light decision says |
| Jarvis.Assistant.RespondOther | jarvis.py:456-473 | the camera, canned-phrase and web branches of `respond`, step by step, return `OtherReply` |
| Jarvis.Assistant.Hear | jarvis.py:475-483 | one pass of the listening loop returns `Hearing`; the switches change only when the transcript is answered with a light command, and then exactly as its decision says; no brightness changes |

## Left out

- Speech recognition, text-to-speech, the microphone and the listening loop
  itself are left out. `Hear` is one pass of the loop, with the transcript
  as a parameter.
- The background listening callback (jarvis.py:75-84) applies the same
  wake-word rule, and `WakeWord` models both.
- The config file, the Leviton and Ring logins, the token cache and 2FA are
  left out.
  - The `Assistant` constructor takes the outcome of the Leviton login: the
    session flag and the switch entries. It does not model
    `load_leviton_devices` building the dictionary.
  - `LoadRingDevices` takes the mapping that `ring.devices()` returns, as a
    sequence of values.
  - The "Ring login failed." path is left out.
- `loaded` (the start-up status report) is left out. It only prints and
  speaks.
- HTTP requests, JSON parsing and BeautifulSoup are replaced by the values
  in `World`.
  - A `Failed` fetch stands for any exception in the request or the parse.
  - The Google reply is reduced to the text of the featured-snippet
    element, when one is found.
  - The URLs and their query encoding are not modelled.
- Python's `eval` is an oracle in `World`: `None` means it raised. What the
  expression evaluates to is not modelled.
- In the camera handler, `webbrowser.open`, `snapshot_url`, `urlretrieve`,
  `os.startfile` and the spoken messages are not modelled. Neither are their
  failure messages, since the handler returns True either way. The outcome
  records the URL or the file name instead.
- `exit()` after "Good night, Sir." and the clock are not modelled. The
  formatted time is a parameter.
- `Lights.ClampLevel`: the brightness block (jarvis.py:203-212) follows an
  unconditional `return False` and never runs. Only its clamp is modelled;
  the regular expression that reads the level is not.
- `update_attributes` is modelled as setting the switch's `power` field. The
  Leviton cloud call behind it is not modelled.
- `Text.Lower` covers ASCII letters only, where Python's `str.lower` covers
  all of Unicode.
- `Answers.Allowed` takes `\d` as the ASCII digits, where Python matches
  every Unicode decimal digit.
- `Cameras.DefaultName` takes the id as a string. The source slices `d.id[-4:]`
  before formatting, so an id that cannot be sliced raises `TypeError`. The
  login's outer handler would turn that into "Ring login failed.", which is
  not modelled.
- `Cameras.RemoveFirst` compares devices by object identity. If the Ring
  library defined `__eq__` on devices, `list.remove` would compare with it.
  That library is not part of this model.
- A failed request or parse at any provider reaches the one outer `except`
  (jarvis.py:411-414). It says "I couldn't reach the internet." and returns
  False, so the later providers are not tried. `Answers.Lookup` states this.
