/**
 * The assistant itself (class `AI` of jarvis.py): the wake word, the
 * dispatch of a command to the lights, the cameras, the canned replies and
 * the web lookup, and the clean-up of the camera list after the Ring login.
 */
module Jarvis {
  import opened Text
  import opened Wrappers
  import opened Lights
  import opened Cameras
  import opened Answers

  // ---------------------------------------------------------------------
  // The wake word
  // ---------------------------------------------------------------------

  const WAKE_WORD := "jarvis"

  /** What the assistant makes of one transcript. */
  datatype Wake =
    | Ignored              // no wake word: nothing happens
    | Prompted             // the wake word alone: "Yes, Sir?"
    | Command(cmd: string) // the rest of the transcript is a command

  /**
   * `if "jarvis" in text.lower(): cmd = text.lower().replace("jarvis", "").strip()`:
   * an empty command prompts, anything else is passed on.
   */
  function WakeWord(text: string): (r: Wake)
    ensures r.Ignored? <==> !Contains(Lower(text), WAKE_WORD)
    ensures r.Prompted? <==> Contains(Lower(text), WAKE_WORD) && AllSpace(Replace(Lower(text), WAKE_WORD, ""))
    ensures r.Command? ==> r.cmd != [] && !IsSpace(r.cmd[0]) && !IsSpace(r.cmd[|r.cmd| - 1])
    ensures r.Command? ==> exists i :: StrippedAt(Replace(Lower(text), WAKE_WORD, ""), r.cmd, i)
  {
    var lowered := Lower(text);
    if !Contains(lowered, WAKE_WORD) then Ignored
    else
      var rest := Replace(lowered, WAKE_WORD, "");
      var cmd := Strip(rest);
      StripEmpty(rest);
      if cmd == [] then Prompted else Command(cmd)
  }

  lemma LowerAppend(a: string, b: string)
    ensures Lower(a + b) == Lower(a) + Lower(b)
  {
    assert |Lower(a + b)| == |Lower(a) + Lower(b)|;
    forall k | 0 <= k < |a + b| ensures Lower(a + b)[k] == (Lower(a) + Lower(b))[k] {
      if k < |a| {
        assert (a + b)[k] == a[k];
      } else {
        assert (a + b)[k] == b[k - |a|];
      }
    }
  }

  lemma LowerOfLowerCase(s: string)
    requires LowerCase(s)
    ensures Lower(s) == s
  {
  }

  /**
   * Saying the wake word, then a space, then a lower-case command that does
   * not mention the wake word and has no whitespace at its ends, delivers
   * exactly that command.
   */
  lemma {:induction false} WakeWordThenCommand(cmd: string)
    requires cmd != [] && LowerCase(cmd) && !Contains(cmd, WAKE_WORD)
    requires !IsSpace(cmd[0]) && !IsSpace(cmd[|cmd| - 1])
    ensures WakeWord("Jarvis " + cmd) == Command(cmd)
  {
    WakeWordLowered(cmd);
    ReplaceLeadingForeign(WAKE_WORD, ' ', cmd);
    StripOneSpace(cmd);
  }

  /** Lower-casing "Jarvis " and a lower-case command gives the wake word, a space and the command. */
  lemma WakeWordLowered(cmd: string)
    requires LowerCase(cmd)
    ensures Lower("Jarvis " + cmd) == WAKE_WORD + (" " + cmd)
  {
    LowerAppend("Jarvis ", cmd);
    LowerOfLowerCase(cmd);
    assert Lower("Jarvis ") == "jarvis ";
  }

  /** `strip` removes the one leading space before a command without whitespace at its ends. */
  lemma StripOneSpace(cmd: string)
    requires cmd != [] && !IsSpace(cmd[0]) && !IsSpace(cmd[|cmd| - 1])
    ensures Strip(" " + cmd) == cmd
  {
    var s := " " + cmd;
    assert IsSpace(s[0]) && s[1..] == cmd;
    assert SkipSpaces(s, 0) == 1;
    assert DropTrailingSpaces(s, 1, |s|) == |s|;
  }

  /** The wake word alone only prompts. */
  lemma BareWakeWordPrompts()
    ensures WakeWord("Jarvis") == Prompted
  {
    assert Lower("Jarvis") == WAKE_WORD;
    assert StartsWith(WAKE_WORD, WAKE_WORD);
    assert WAKE_WORD[|WAKE_WORD|..] == [];
    assert Replace(WAKE_WORD, WAKE_WORD, "") == "";
  }

  // ---------------------------------------------------------------------
  // The dispatch of a command
  // ---------------------------------------------------------------------

  /** What `respond` does with one command. */
  datatype Reply =
    | LightCommand(lights: LightOutcome)  // taken by the light handler
    | CameraCommand(camera: RingOutcome)  // taken by the camera handler
    | Status                              // "Fully operational, Sir."
    | Time(speech: string)                // "It is <clock>."
    | GoodNight                           // "Good night, Sir.", then the program exits
    | WebLookup(answer: Answer)           // handed to the web lookup

  /**
   * `respond`, in the order it tries things: the light handler, then (only
   * for a query with a live-view word) the camera handler, then the canned
   * replies, then the web lookup. `clock` is the current time as
   * `strftime("%I:%M %p")` formats it.
   */
  function Dispatch(hasSession: bool, registry: seq<Entry>, devices: seq<RingDevice>,
                    query: string, clock: string, w: World): (r: Reply)
    reads devices
    requires Named(devices)
    ensures r.LightCommand? <==> LightDecision(hasSession, registry, Lower(query)).Handled()
    ensures r.LightCommand? ==> r.lights == LightDecision(hasSession, registry, Lower(query))
    ensures r.CameraCommand? <==>
      !LightDecision(hasSession, registry, Lower(query)).Handled() &&
      ContainsAny(Lower(query), LIVE_WORDS) && HandleRing(devices, Lower(query)).Handled()
    ensures r.CameraCommand? ==> r.camera == HandleRing(devices, Lower(query))
    ensures r.WebLookup? ==> r.answer == WebAnswer(Lower(query), w)
  {
    var q := Lower(query);
    var lights := LightDecision(hasSession, registry, q);
    if lights.Handled() then LightCommand(lights)
    else OtherReply(devices, q, clock, w)
  }

  /** What `respond` does with a lower-cased query the light handler did not take. */
  function OtherReply(devices: seq<RingDevice>, q: string, clock: string, w: World): (r: Reply)
    reads devices
    requires Named(devices)
    ensures !r.LightCommand?
    ensures r.CameraCommand? <==> ContainsAny(q, LIVE_WORDS) && HandleRing(devices, q).Handled()
    ensures r.CameraCommand? ==> r.camera == HandleRing(devices, q)
    ensures r.WebLookup? ==> r.answer == WebAnswer(q, w)
  {
    if ContainsAny(q, LIVE_WORDS) && HandleRing(devices, q).Handled() then CameraCommand(HandleRing(devices, q))
    else if Contains(q, "how are you") then Status
    else if Contains(q, "time") then Time("It is " + clock + ".")
    else if Contains(q, "good night") then GoodNight
    else WebLookup(WebAnswer(q, w))
  }

  /**
   * Once neither the lights nor the cameras took the query, the canned
   * phrases are tested in order: "how are you" before "time" before
   * "good night", and only a query with none of them goes to the web.
   */
  lemma CannedReplies(devices: seq<RingDevice>, q: string, clock: string, w: World)
    requires Named(devices)
    requires !(ContainsAny(q, LIVE_WORDS) && HandleRing(devices, q).Handled())
    ensures Contains(q, "how are you") ==> OtherReply(devices, q, clock, w) == Status
    ensures !Contains(q, "how are you") && Contains(q, "time") ==>
              OtherReply(devices, q, clock, w) == Time("It is " + clock + ".")
    ensures OtherReply(devices, q, clock, w) == GoodNight <==>
              !Contains(q, "how are you") && !Contains(q, "time") && Contains(q, "good night")
    ensures OtherReply(devices, q, clock, w).WebLookup? <==>
              !Contains(q, "how are you") && !Contains(q, "time") && !Contains(q, "good night")
  {
  }

  /** A light command is settled by the light handler, whatever the cameras, the clock and the web would say. */
  lemma LightsComeFirst(hasSession: bool, registry: seq<Entry>, devices: seq<RingDevice>,
                        query: string, clock: string, w: World)
    requires Named(devices) && LightDecision(hasSession, registry, Lower(query)).Handled()
    ensures Dispatch(hasSession, registry, devices, query, clock, w) == LightCommand(LightDecision(hasSession, registry, query))
  {
    LowerIdempotent(query);
  }

  /**
   * `respond` never takes a snapshot: it calls the camera handler only for a
   * query with a live-view word, and with one of those the handler opens the
   * live view instead.
   */
  lemma NoSnapshotFromRespond(hasSession: bool, registry: seq<Entry>, devices: seq<RingDevice>,
                              query: string, clock: string, w: World)
    requires Named(devices)
    ensures var r := Dispatch(hasSession, registry, devices, query, clock, w);
            r.CameraCommand? ==> r.camera.NotFound? || r.camera.LiveView?
  {
    LowerIdempotent(query);
  }

  /**
   * With a camera registered, "show me the time" (any query with "show" that
   * names no camera and is no light command) is answered "No Ring device
   * found." instead of with the time.
   */
  lemma ShowShadowsTime(hasSession: bool, registry: seq<Entry>, devices: seq<RingDevice>,
                        query: string, clock: string, w: World)
    requires Named(devices) && devices != []
    requires !LightDecision(hasSession, registry, Lower(query)).Handled()
    requires Contains(Lower(query), "show")
    requires forall j :: 0 <= j < |devices| ==> !Mentioned(devices[j], Lower(query))
    ensures Dispatch(hasSession, registry, devices, query, clock, w) == CameraCommand(NotFound)
  {
    LowerIdempotent(query);
    assert LIVE_WORDS[2] == "show";
    assert ContainsAny(Lower(query), LIVE_WORDS);
  }

  /** A query that is no light command and mentions none of the keywords goes to the web lookup. */
  lemma OtherQueriesGoToWeb(hasSession: bool, registry: seq<Entry>, devices: seq<RingDevice>,
                            query: string, clock: string, w: World)
    requires Named(devices)
    requires !LightDecision(hasSession, registry, Lower(query)).Handled()
    requires !ContainsAny(Lower(query), LIVE_WORDS)
    requires !Contains(Lower(query), "how are you") && !Contains(Lower(query), "time")
    requires !Contains(Lower(query), "good night")
    ensures Dispatch(hasSession, registry, devices, query, clock, w) == WebLookup(WebAnswer(Lower(query), w))
  {
  }

  /** What one transcript leads to. */
  datatype Heard = NotAddressed | YesSir | Answered(reply: Reply)

  function Hearing(hasSession: bool, registry: seq<Entry>, devices: seq<RingDevice>,
                   text: string, clock: string, w: World): (r: Heard)
    reads devices
    requires Named(devices)
    ensures r.NotAddressed? <==> WakeWord(text).Ignored?
    ensures r.YesSir? <==> WakeWord(text).Prompted?
    ensures r.Answered? ==> r.reply == Dispatch(hasSession, registry, devices, WakeWord(text).cmd, clock, w)
  {
    match WakeWord(text)
    case Ignored => NotAddressed
    case Prompted => YesSir
    case Command(cmd) => Answered(Dispatch(hasSession, registry, devices, cmd, clock, w))
  }

  // ---------------------------------------------------------------------
  // The assistant's state
  // ---------------------------------------------------------------------

  class Assistant {
    /** Whether the Leviton login produced a session. */
    var levitonSession: bool
    /** The Leviton switches by clean name, in insertion order. */
    var levitonSwitches: seq<Entry>
    /** The Ring devices after the clean-up. */
    var ringDevices: seq<RingDevice>
    var ringLoginOk: bool

    /** Every camera has a name, as the camera handler needs. */
    ghost predicate Valid()
      reads this, ringDevices
    {
      Named(ringDevices)
    }

    /** The state after the Leviton login and device discovery, before the Ring login. */
    constructor (session: bool, switches: seq<Entry>)
      ensures Valid()
      ensures levitonSession == session && levitonSwitches == switches
      ensures ringDevices == [] && !ringLoginOk
    {
      levitonSession := session;
      levitonSwitches := switches;
      ringDevices := [];
      ringLoginOk := false;
    }

    /**
     * The clean-up after the Ring login: the list-valued entries of
     * `ring.devices()` are concatenated, repeated ids are removed by the
     * loop as written, and the first device of every id that has no name
     * is named after its id.
     */
    method LoadRingDevices(raw: seq<RawValue>)
      modifies this, Flatten(raw)
      ensures ringDevices == Dedup(Flatten(raw))
      ensures Valid()
      ensures forall j :: 0 <= j < |Flatten(raw)| ==>
                FilledName(Flatten(raw), Flatten(raw)[j], old(Flatten(raw)[j].name), Flatten(raw)[j].name)
      ensures ringLoginOk == (old(ringLoginOk) || |ringDevices| > 0)
      ensures levitonSession == old(levitonSession) && levitonSwitches == old(levitonSwitches)
    {
      var flat := FlattenDevices(raw);
      ringDevices := CleanUpDevices(flat);
      if |ringDevices| > 0 {
        ringLoginOk := true;
      }
    }

    /** `respond`: the light handler switches what the command selects, and the reply is the dispatch's. */
    method Respond(query: string, clock: string, w: World) returns (reply: Reply)
      requires Valid()
      modifies Switches(levitonSwitches)
      ensures reply == Dispatch(levitonSession, levitonSwitches, ringDevices, query, clock, w)
      ensures forall s :: s in Switches(levitonSwitches) ==>
                s.power == (if reply.LightCommand? && Targeted(levitonSwitches, reply.lights, s)
                            then reply.lights.power else old(s.power))
      ensures forall s :: s in Switches(levitonSwitches) ==> s.brightness == old(s.brightness)
    {
      var q := Lower(query);
      var handled := HandleLevitonCommand(levitonSession, levitonSwitches, q);
      if handled {
        return LightCommand(LightDecision(levitonSession, levitonSwitches, q));
      }
      reply := RespondOther(q, clock, w);
    }

    /** The rest of `respond`, once the light handler has declined the query. */
    method RespondOther(q: string, clock: string, w: World) returns (reply: Reply)
      requires Valid()
      ensures reply == OtherReply(ringDevices, q, clock, w)
    {
      if ContainsAny(q, LIVE_WORDS) {
        var camera := HandleRing(ringDevices, q);
        if camera.Handled() {
          return CameraCommand(camera);
        }
      }
      if Contains(q, "how are you") {
        return Status;
      } else if Contains(q, "time") {
        return Time("It is " + clock + ".");
      } else if Contains(q, "good night") {
        return GoodNight;
      }
      var answer := AnswerQuery(q, w);
      return WebLookup(answer);
    }

    /** One pass of the listening loop: a transcript with the wake word is answered. */
    method Hear(text: string, clock: string, w: World) returns (heard: Heard)
      requires Valid()
      modifies Switches(levitonSwitches)
      ensures heard == Hearing(levitonSession, levitonSwitches, ringDevices, text, clock, w)
      ensures forall s :: s in Switches(levitonSwitches) ==>
                s.power == (if heard.Answered? && heard.reply.LightCommand? &&
                               Targeted(levitonSwitches, heard.reply.lights, s)
                            then heard.reply.lights.power else old(s.power))
      ensures forall s :: s in Switches(levitonSwitches) ==> s.brightness == old(s.brightness)
    {
      var wake := WakeWord(text);
      match wake
      case Ignored => return NotAddressed;
      case Prompted => return YesSir;
      case Command(cmd) =>
        var reply := Respond(cmd, clock, w);
        return Answered(reply);
    }
  }
}
